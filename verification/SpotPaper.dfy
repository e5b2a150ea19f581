/** The paper ledger for spot trades: one holding a symbol, bought and sold whole, with fees. */
module SpotPaper {
  import opened Options
  import opened MapSum

  const FEE_RATE := 0.001

  datatype Holding = Holding(qty: real, entry: real, entryFee: real, openedAt: int)

  datatype Guard = Guard(stopLoss: real, takeProfit: real)

  datatype Ledger = Ledger(balance: real, holdings: map<string, Holding>, protection: map<string, Guard>)

  datatype Sale = Sale(symbol: string, pnl: real)

  // ----- Amounts --------------------------------------------------------------------------------------

  function Value(price: real, qty: real): real {
    price * qty
  }

  function Fee(value: real): real {
    value * FEE_RATE
  }

  /** What a holding cost, its fee included. */
  function Basis(h: Holding): real {
    Value(h.entry, h.qty) + h.entryFee
  }

  function Proceeds(h: Holding, price: real): real {
    Value(price, h.qty) - Fee(Value(price, h.qty))
  }

  // ----- The operations -----------------------------------------------------------------------------------

  function BuyCost(price: real, qty: real): real {
    Value(price, qty) + Fee(Value(price, qty))
  }

  predicate Buyable(l: Ledger, symbol: string, qty: real, price: real) {
    symbol !in l.holdings && BuyCost(price, qty) <= l.balance
  }

  function BuyFor(l: Ledger, symbol: string, qty: real, price: real, guard: Guard, now: int): Ledger {
    if !Buyable(l, symbol, qty, price) then l
    else Ledger(l.balance - BuyCost(price, qty),
                l.holdings[symbol := Holding(qty, price, Fee(Value(price, qty)), now)],
                l.protection[symbol := guard])
  }

  function SellAt(l: Ledger, symbol: string, price: real): (Ledger, Option<Sale>) {
    if symbol !in l.holdings then (l, None)
    else
      var h := l.holdings[symbol];
      (Ledger(l.balance + Proceeds(h, price), l.holdings - {symbol}, l.protection - {symbol}),
       Some(Sale(symbol, Proceeds(h, price) - Basis(h))))
  }

  /** The exit rule: stop, target, or a hold that lasted too long (0 switches that off). */
  predicate ShouldExit(g: Guard, price: real, heldMs: int, timeoutMs: int) {
    price <= g.stopLoss || price >= g.takeProfit || (timeoutMs > 0 && heldMs >= timeoutMs)
  }

  function GuardOf(l: Ledger, symbol: string): Guard {
    if symbol in l.protection then l.protection[symbol] else Guard(0.0, 0.0)
  }

  datatype Event =
    | Buy(symbol: string, qty: real, price: real, guard: Guard, now: int)
    | Sell(symbol: string, price: real)
    | Tick(symbol: string, price: real, now: int)

  function Apply(l: Ledger, e: Event, timeoutMs: int): (Ledger, Option<Sale>) {
    match e
    case Buy(s, qty, price, guard, now) => (BuyFor(l, s, qty, price, guard, now), None)
    case Sell(s, price) => SellAt(l, s, price)
    case Tick(s, price, now) =>
      if s in l.holdings && ShouldExit(GuardOf(l, s), price, now - l.holdings[s].openedAt, timeoutMs)
      then SellAt(l, s, price) else (l, None)
  }

  datatype Account = Account(ledger: Ledger, realised: real)

  function Open(balance: real): Account {
    Account(Ledger(balance, map[], map[]), 0.0)
  }

  function Advance(a: Account, e: Event, timeoutMs: int): Account {
    var (ledger, sale) := Apply(a.ledger, e, timeoutMs);
    Account(ledger, a.realised + (if sale.Some? then sale.value.pnl else 0.0))
  }

  function Run(balance: real, events: seq<Event>, timeoutMs: int): Account {
    if events == [] then Open(balance)
    else Advance(Run(balance, events[..|events| - 1], timeoutMs), events[|events| - 1], timeoutMs)
  }

  lemma RunOneMore(balance: real, events: seq<Event>, e: Event, timeoutMs: int)
    ensures Run(balance, events + [e], timeoutMs) == Advance(Run(balance, events, timeoutMs), e, timeoutMs)
  {
    assert (events + [e])[..|events|] == events;
  }

  // ----- Conservation -----------------------------------------------------------------------------------------

  function Costs(holdings: map<string, Holding>): map<string, real> {
    map s | s in holdings :: Basis(holdings[s])
  }

  /** Free balance and the cost of everything held. */
  ghost function Worth(l: Ledger): real {
    l.balance + SumOf(Costs(l.holdings))
  }

  lemma BuyKeepsWorth(l: Ledger, symbol: string, qty: real, price: real, guard: Guard, now: int)
    ensures Worth(BuyFor(l, symbol, qty, price, guard, now)) == Worth(l)
  {
    if Buyable(l, symbol, qty, price) {
      var h := Holding(qty, price, Fee(Value(price, qty)), now);
      assert Costs(l.holdings[symbol := h]) == Costs(l.holdings)[symbol := Basis(h)];
      SumAdd(Costs(l.holdings), symbol, Basis(h));
    }
  }

  lemma SellMovesWorthByPnl(l: Ledger, symbol: string, price: real)
    ensures var (after, sale) := SellAt(l, symbol, price);
            Worth(after) == Worth(l) + (if sale.Some? then sale.value.pnl else 0.0)
  {
    if symbol in l.holdings {
      assert Costs(l.holdings - {symbol}) == Costs(l.holdings) - {symbol};
      SumRemove(Costs(l.holdings), symbol);
    }
  }

  /** CONSERVATION. Balance plus the cost and entry fees of all holdings is always the initial
      balance plus the net profit of all sales; and exactly the held symbols are protected. */
  lemma {:induction false} Conservation(balance: real, events: seq<Event>, timeoutMs: int)
    ensures Worth(Run(balance, events, timeoutMs).ledger) == balance + Run(balance, events, timeoutMs).realised
    ensures var ledger := Run(balance, events, timeoutMs).ledger;
            ledger.holdings.Keys == ledger.protection.Keys
  {
    if events == [] {
      assert Costs(map[]) == map[];
    } else {
      var n := |events| - 1;
      Conservation(balance, events[..n], timeoutMs);
      var before := Run(balance, events[..n], timeoutMs).ledger;
      match events[n]
      case Buy(s, qty, price, guard, now) => BuyKeepsWorth(before, s, qty, price, guard, now);
      case Sell(s, price) => SellMovesWorthByPnl(before, s, price);
      case Tick(s, price, now) => SellMovesWorthByPnl(before, s, price);
    }
  }

  /** A tick keeps a holding if and only if the price is strictly between its stop and its target and,
      with a timeout, it has been held for less; a holding it does not keep is sold at the price. */
  lemma TickKeepsIff(l: Ledger, symbol: string, price: real, now: int, timeoutMs: int)
    requires symbol in l.holdings && symbol in l.protection
    ensures var (after, sale) := Apply(l, Tick(symbol, price, now), timeoutMs);
            var keeps :=
              && l.protection[symbol].stopLoss < price < l.protection[symbol].takeProfit
              && (timeoutMs > 0 ==> now - l.holdings[symbol].openedAt < timeoutMs);
            if keeps then after == l && sale == None else (after, sale) == SellAt(l, symbol, price) && sale.Some?
  {
  }

  /** So with a timeout no ticked holding is ever older. */
  lemma NoHoldingOutlivesTimeout(balance: real, events: seq<Event>, timeoutMs: int, symbol: string, price: real,
                                 now: int)
    requires timeoutMs > 0
    ensures var l := Run(balance, events + [Tick(symbol, price, now)], timeoutMs).ledger;
            symbol in l.holdings ==>
              && now - l.holdings[symbol].openedAt < timeoutMs
              && symbol in l.protection && l.protection[symbol].stopLoss < price < l.protection[symbol].takeProfit
  {
    RunOneMore(balance, events, Tick(symbol, price, now), timeoutMs);
    Conservation(balance, events, timeoutMs);
    var before := Run(balance, events, timeoutMs).ledger;
    if symbol in before.holdings {
      assert symbol in before.holdings.Keys;
      TickKeepsIff(before, symbol, price, now, timeoutMs);
    }
  }

  predicate PositiveEvent(e: Event) {
    e.price > 0.0 && (e.Buy? ==> e.qty > 0.0)
  }

  lemma ProceedsPositive(h: Holding, price: real)
    requires h.qty > 0.0 && price > 0.0
    ensures Proceeds(h, price) > 0.0
  {
    assert Value(price, h.qty) > 0.0;
  }

  ghost predicate Solvent(l: Ledger) {
    l.balance >= 0.0 && forall s | s in l.holdings :: l.holdings[s].qty > 0.0
  }

  /** With positive prices and quantities the balance never goes negative. */
  lemma {:induction false} NeverOverdrawn(balance: real, events: seq<Event>, timeoutMs: int)
    requires balance >= 0.0 && forall i | 0 <= i < |events| :: PositiveEvent(events[i])
    ensures Solvent(Run(balance, events, timeoutMs).ledger)
  {
    if events != [] {
      var n := |events| - 1;
      assert forall i | 0 <= i < n :: events[..n][i] == events[i];
      NeverOverdrawn(balance, events[..n], timeoutMs);
      var before := Run(balance, events[..n], timeoutMs).ledger;
      var e := events[n];
      if !e.Buy? && e.symbol in before.holdings {
        ProceedsPositive(before.holdings[e.symbol], e.price);
      }
    }
  }

  /** Buying and selling at one price costs exactly the two fees. */
  lemma RoundTripCostsFees(l: Ledger, symbol: string, qty: real, price: real, guard: Guard, now: int)
    requires Buyable(l, symbol, qty, price)
    ensures var (after, sale) := SellAt(BuyFor(l, symbol, qty, price, guard, now), symbol, price);
            && after.balance == l.balance - 2.0 * Fee(Value(price, qty))
            && sale == Some(Sale(symbol, -2.0 * Fee(Value(price, qty))))
            && after.holdings == l.holdings
  {
    assert (l.holdings[symbol := Holding(qty, price, Fee(Value(price, qty)), now)]) - {symbol} == l.holdings;
  }

  // ----- The engine ----------------------------------------------------------------------------------------------

  class Engine {
    const timeoutMs: int
    var balance: real
    var holdings: map<string, Holding>
    var protection: map<string, Guard>

    ghost function Contents(): Ledger
      reads this
    {
      Ledger(balance, holdings, protection)
    }

    constructor (balance: real, timeoutMs: int)
      ensures Contents() == Open(balance).ledger && this.timeoutMs == timeoutMs
    {
      this.timeoutMs := timeoutMs;
      this.balance := balance;
      holdings, protection := map[], map[];
    }

    method BuySpot(symbol: string, qty: real, price: real, guard: Guard, now: int) returns (bought: bool)
      modifies this
      ensures bought == Buyable(old(Contents()), symbol, qty, price)
      ensures Contents() == BuyFor(old(Contents()), symbol, qty, price, guard, now)
    {
      if symbol in holdings {
        return false;
      }
      var cost := Value(price, qty);
      var fee := Fee(cost);
      if cost + fee > balance {
        return false;
      }
      holdings := holdings[symbol := Holding(qty, price, fee, now)];
      protection := protection[symbol := guard];
      balance := balance - (cost + fee);
      return true;
    }

    method SellSpot(symbol: string, price: real) returns (sale: Option<Sale>)
      modifies this
      ensures (Contents(), sale) == SellAt(old(Contents()), symbol, price)
    {
      if symbol !in holdings {
        return None;
      }
      var h := holdings[symbol];
      holdings := holdings - {symbol};
      protection := protection - {symbol};
      var gross := Value(price, h.qty);
      var proceeds := gross - Fee(gross);
      balance := balance + proceeds;
      return Some(Sale(symbol, proceeds - Basis(h)));
    }

    method OnPriceTick(symbol: string, price: real, now: int) returns (sale: Option<Sale>)
      modifies this
      ensures (Contents(), sale) == Apply(old(Contents()), Tick(symbol, price, now), timeoutMs)
    {
      if symbol !in holdings {
        return None;
      }
      var guard := if symbol in protection then protection[symbol] else Guard(0.0, 0.0);
      if !ShouldExit(guard, price, now - holdings[symbol].openedAt, timeoutMs) {
        return None;
      }
      sale := SellSpot(symbol, price);
    }
  }
}
