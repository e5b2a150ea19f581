/** The order-rate limiter and the exposure books of the intent loop. */
module RiskManager {
  import opened MapSum
  import opened RealArith

  const WINDOW := 60.0

  // ----- The sliding window -------------------------------------------------------------------

  ghost predicate Sorted(s: seq<real>) {
    forall i, j | 0 <= i < j < |s| :: s[i] <= s[j]
  }

  /** The registrations of a history that are at most a minute old. */
  function Recent(history: seq<real>, now: real): seq<real> {
    if history == [] then []
    else Recent(history[..|history| - 1], now) +
         (if now - history[|history| - 1] <= WINDOW then [history[|history| - 1]] else [])
  }

  /** Drop expired stamps from the front, as the deque does. */
  function Prune(stamps: seq<real>, now: real): seq<real> {
    if stamps != [] && now - stamps[0] > WINDOW then Prune(stamps[1..], now) else stamps
  }

  lemma {:induction false} RecentNone(history: seq<real>, now: real)
    requires forall i | 0 <= i < |history| :: now - history[i] > WINDOW
    ensures Recent(history, now) == []
  {
    if history != [] {
      RecentNone(history[..|history| - 1], now);
    }
  }

  lemma {:induction false} RecentAll(history: seq<real>, now: real)
    requires forall i | 0 <= i < |history| :: now - history[i] <= WINDOW
    ensures Recent(history, now) == history
  {
    if history != [] {
      RecentAll(history[..|history| - 1], now);
    }
  }

  lemma {:induction false} RecentConcat(a: seq<real>, b: seq<real>, now: real)
    ensures Recent(a + b, now) == Recent(a, now) + Recent(b, now)
  {
    if b == [] {
      assert a + b == a;
    } else {
      var n := |b| - 1;
      assert (a + b)[..|a| + n] == a + b[..n];
      RecentConcat(a, b[..n], now);
    }
  }

  /** On a sorted deque, pruning from the front is filtering. */
  lemma {:induction false} PruneIsRecent(stamps: seq<real>, now: real)
    requires Sorted(stamps)
    ensures Prune(stamps, now) == Recent(stamps, now)
  {
    if stamps != [] && now - stamps[0] > WINDOW {
      PruneIsRecent(stamps[1..], now);
      assert stamps == [stamps[0]] + stamps[1..];
      RecentConcat([stamps[0]], stamps[1..], now);
      RecentNone([stamps[0]], now);
    } else {
      assert stamps != [] ==> forall i | 0 <= i < |stamps| :: stamps[0] <= stamps[i];
      RecentAll(stamps, now);
    }
  }

  lemma {:induction false} RecentIsPart(history: seq<real>, now: real)
    ensures forall i | 0 <= i < |Recent(history, now)| :: Recent(history, now)[i] in history
  {
    if history != [] {
      var n := |history| - 1;
      var before := Recent(history[..n], now);
      RecentIsPart(history[..n], now);
      forall i | 0 <= i < |Recent(history, now)| ensures Recent(history, now)[i] in history {
        if i < |before| { assert before[i] in history[..n]; }
      }
    }
  }

  lemma {:induction false} RecentSorted(history: seq<real>, now: real)
    requires Sorted(history)
    ensures Sorted(Recent(history, now))
  {
    if history != [] {
      var n := |history| - 1;
      var before := Recent(history[..n], now);
      RecentSorted(history[..n], now);
      RecentIsPart(history[..n], now);
      forall i | 0 <= i < |before| ensures before[i] <= history[n] {
        var j :| 0 <= j < n && history[..n][j] == before[i];
      }
    }
  }

  /** Filtering twice with a later clock is filtering once. */
  lemma {:induction false} RecentTwice(history: seq<real>, early: real, late: real)
    requires early <= late
    ensures Recent(Recent(history, early), late) == Recent(history, late)
  {
    if history != [] {
      var n := |history| - 1;
      RecentTwice(history[..n], early, late);
      var last := if early - history[n] <= WINDOW then [history[n]] else [];
      RecentConcat(Recent(history[..n], early), last, late);
    }
  }

  /** A registration after a check, a check, and the registration of an exit order, which nothing
      checks. */
  datatype Op = Register(at: real) | Check(at: real) | ExitPlaced(at: real)

  /** The deque, every registration made, the checked ones among them, and when a check last
      allowed an order since the latest registration (a refusal leaves it as it is). */
  datatype Limiter = Limiter(deque: seq<real>, history: seq<real>, placed: seq<real>, cleared: seq<real>)

  const START := Limiter([], [], [], [])

  function Step(s: Limiter, op: Op, maxOrders: int): Limiter {
    match op
    case Register(t) => Limiter(Prune(s.deque + [t], t), s.history + [t], s.placed + [t], [])
    case ExitPlaced(t) => Limiter(Prune(s.deque + [t], t), s.history + [t], s.placed, [])
    case Check(t) =>
      var deque := Prune(s.deque, t);
      Limiter(deque, s.history, s.placed, if |deque| < maxOrders then [t] else s.cleared)
  }

  function Run(ops: seq<Op>, maxOrders: int): Limiter {
    if ops == [] then START else Step(Run(ops[..|ops| - 1], maxOrders), ops[|ops| - 1], maxOrders)
  }

  ghost predicate Monotone(ops: seq<Op>) {
    forall i, j | 0 <= i < j < |ops| :: ops[i].at <= ops[j].at
  }

  /** Every checked registration follows an allowed check made after all earlier registrations. */
  ghost predicate Disciplined(ops: seq<Op>, maxOrders: int) {
    ops == [] ||
    (Disciplined(ops[..|ops| - 1], maxOrders) &&
     (ops[|ops| - 1].Register? ==> Run(ops[..|ops| - 1], maxOrders).cleared != []))
  }

  lemma {:induction false} HistoryBounded(ops: seq<Op>, maxOrders: int)
    requires Monotone(ops)
    ensures Sorted(Run(ops, maxOrders).history)
    ensures forall x | x in Run(ops, maxOrders).history :: ops != [] && x <= ops[|ops| - 1].at
  {
    if ops != [] {
      var n := |ops| - 1;
      HistoryBounded(ops[..n], maxOrders);
      var before, now := Run(ops[..n], maxOrders).history, ops[n].at;
      forall i | 0 <= i < |before| ensures before[i] <= now {
        assert before[i] in before && ops[..n][n - 1] == ops[n - 1];
      }
    }
  }

  /** The pruned deque is at all times the full history filtered to the last minute. */
  lemma {:induction false} DequeIsRecentHistory(ops: seq<Op>, maxOrders: int)
    requires Monotone(ops) && ops != []
    ensures Run(ops, maxOrders).deque == Recent(Run(ops, maxOrders).history, ops[|ops| - 1].at)
  {
    var n := |ops| - 1;
    var before, now := Run(ops[..n], maxOrders), ops[n].at;
    HistoryBounded(ops[..n], maxOrders);
    HistoryBounded(ops, maxOrders);
    if n > 0 {
      DequeIsRecentHistory(ops[..n], maxOrders);
      StepKeepsRecent(before, ops[n], maxOrders, ops[n - 1].at);
    } else {
      StepKeepsRecent(before, ops[n], maxOrders, now);
    }
  }

  lemma StepKeepsRecent(s: Limiter, op: Op, maxOrders: int, before: real)
    requires s.deque == Recent(s.history, before) && before <= op.at
    requires Sorted(s.history) && forall x | x in s.history :: x <= op.at
    ensures Step(s, op, maxOrders).deque == Recent(Step(s, op, maxOrders).history, op.at)
  {
    RecentSorted(s.history, before);
    RecentTwice(s.history, before, op.at);
    if !op.Check? {
      RecentIsPart(s.history, before);
      forall i | 0 <= i < |s.deque| ensures s.deque[i] <= op.at { assert s.deque[i] in s.history; }
      PruneIsRecent(s.deque + [op.at], op.at);
      RecentConcat(s.deque, [op.at], op.at);
      RecentConcat(s.history, [op.at], op.at);
    } else {
      PruneIsRecent(s.deque, op.at);
    }
  }

  /** How many registrations fall in the closed minute that starts at x. */
  function InMinute(history: seq<real>, x: real): nat {
    if history == [] then 0
    else InMinute(history[..|history| - 1], x) +
         (if x <= history[|history| - 1] <= x + WINDOW then 1 else 0)
  }

  /** Those of them not before now - 60 are all recent. */
  lemma {:induction false} InMinuteIsRecent(history: seq<real>, x: real, now: real)
    requires now <= x + WINDOW
    ensures InMinute(history, x) <= |Recent(history, now)|
  {
    if history != [] {
      InMinuteIsRecent(history[..|history| - 1], x, now);
    }
  }

  /** What is known about the last allowing check. */
  lemma {:induction false} ClearedMeans(ops: seq<Op>, maxOrders: int)
    requires Monotone(ops)
    ensures var s := Run(ops, maxOrders);
            s.cleared != [] ==> |Recent(s.history, s.cleared[0])| < maxOrders && s.cleared[0] <= ops[|ops| - 1].at
  {
    if ops != [] {
      ClearedMeans(ops[..|ops| - 1], maxOrders);
      DequeIsRecentHistory(ops, maxOrders);
    }
  }

  function Cap(maxOrders: int): nat {
    if maxOrders > 0 then maxOrders else 0
  }

  /** The checked registrations are some of all. */
  lemma {:induction false} PlacedIsPart(ops: seq<Op>, maxOrders: int, now: real)
    ensures |Recent(Run(ops, maxOrders).placed, now)| <= |Recent(Run(ops, maxOrders).history, now)|
  {
    if ops != [] {
      PlacedIsPart(ops[..|ops| - 1], maxOrders, now);
    }
  }

  /** THE RATE LIMIT. With a monotone clock and disciplined callers, no closed minute ever holds
      more checked registrations than the maximum, however many exits register in between. */
  lemma {:induction false} NoMinuteOverflows(ops: seq<Op>, maxOrders: int, x: real)
    requires Monotone(ops) && Disciplined(ops, maxOrders)
    ensures InMinute(Run(ops, maxOrders).placed, x) <= Cap(maxOrders)
  {
    if ops != [] {
      var n := |ops| - 1;
      NoMinuteOverflows(ops[..n], maxOrders, x);
      if ops[n].Register? {
        var before := Run(ops[..n], maxOrders);
        ClearedMeans(ops[..n], maxOrders);
        PlacedIsPart(ops[..n], maxOrders, before.cleared[0]);
        RegistrationFits(before.placed, before.cleared[0], ops[n].at, maxOrders, x);
      }
    }
  }

  /** A registration after an allowing check keeps every minute within the maximum. */
  lemma RegistrationFits(history: seq<real>, cleared: real, now: real, maxOrders: int, x: real)
    requires |Recent(history, cleared)| < maxOrders && cleared <= now && InMinute(history, x) <= maxOrders
    ensures InMinute(history + [now], x) <= maxOrders
  {
    assert (history + [now])[..|history|] == history;
    if x <= now <= x + WINDOW {
      InMinuteIsRecent(history, x, cleared);
    }
  }

  // ----- Exits --------------------------------------------------------------------------------

  /** Every exit found room in the deque when it registered. */
  ghost predicate ExitsFit(ops: seq<Op>, maxOrders: int) {
    ops == [] ||
    (ExitsFit(ops[..|ops| - 1], maxOrders) &&
     (ops[|ops| - 1].ExitPlaced? ==> ExitFits(Run(ops[..|ops| - 1], maxOrders), ops[|ops| - 1].at, maxOrders)))
  }

  predicate ExitFits(s: Limiter, at: real, maxOrders: int) {
    |Prune(s.deque, at)| < maxOrders
  }

  /** No closed minute holds more registrations, checked or not, than the maximum. */
  ghost predicate WithinLimit(history: seq<real>, maxOrders: int) {
    forall x :: InMinute(history, x) <= Cap(maxOrders)
  }

  /** The deque pruned at a later time is the recent history. */
  lemma PrunedIsRecent(ops: seq<Op>, maxOrders: int, now: real)
    requires Monotone(ops) && (ops != [] ==> ops[|ops| - 1].at <= now)
    ensures Prune(Run(ops, maxOrders).deque, now) == Recent(Run(ops, maxOrders).history, now)
    ensures forall i | 0 <= i < |Run(ops, maxOrders).history| :: Run(ops, maxOrders).history[i] <= now
  {
    if ops != [] {
      var s, last := Run(ops, maxOrders), ops[|ops| - 1].at;
      HistoryBounded(ops, maxOrders);
      DequeIsRecentHistory(ops, maxOrders);
      RecentSorted(s.history, last);
      PruneIsRecent(s.deque, now);
      RecentTwice(s.history, last, now);
      forall i | 0 <= i < |s.history| ensures s.history[i] <= now {
        assert s.history[i] in s.history;
      }
    }
  }

  /** Stamps that are recent now lie in the closed minute that ends now. */
  lemma {:induction false} RecentIsInMinute(history: seq<real>, now: real)
    requires forall i | 0 <= i < |history| :: history[i] <= now
    ensures |Recent(history, now)| == InMinute(history, now - WINDOW)
  {
    if history != [] {
      RecentIsInMinute(history[..|history| - 1], now);
    }
  }

  /** One more stamp overfills a minute that is already full. */
  lemma CrowdedMinute(history: seq<real>, now: real, maxOrders: int)
    requires |Recent(history, now)| >= maxOrders && forall i | 0 <= i < |history| :: history[i] <= now
    ensures InMinute(history + [now], now - WINDOW) > Cap(maxOrders)
  {
    RecentIsInMinute(history, now);
    assert (history + [now])[..|history|] == history;
  }

  /** A registration that finds room when it is looked for keeps the limit, and one that finds
      none now breaks it. */
  lemma OneMoreStamp(history: seq<real>, looked: real, now: real, maxOrders: int)
    requires looked <= now && forall i | 0 <= i < |history| :: history[i] <= now
    ensures |Recent(history, looked)| < maxOrders ==>
              (WithinLimit(history + [now], maxOrders) <==> WithinLimit(history, maxOrders))
    ensures |Recent(history, now)| >= maxOrders ==> !WithinLimit(history + [now], maxOrders)
  {
    assert (history + [now])[..|history|] == history;
    if |Recent(history, looked)| < maxOrders {
      forall x | InMinute(history, x) <= maxOrders ensures InMinute(history + [now], x) <= maxOrders {
        RegistrationFits(history, looked, now, maxOrders, x);
      }
      forall x ensures InMinute(history, x) <= InMinute(history + [now], x) {}
    }
    if |Recent(history, now)| >= maxOrders {
      CrowdedMinute(history, now, maxOrders);
    }
  }

  lemma StepKeepsIff(ops: seq<Op>, op: Op, maxOrders: int)
    requires Monotone(ops) && (ops != [] ==> ops[|ops| - 1].at <= op.at)
    requires op.Register? ==> Run(ops, maxOrders).cleared != []
    ensures WithinLimit(Step(Run(ops, maxOrders), op, maxOrders).history, maxOrders) <==>
            WithinLimit(Run(ops, maxOrders).history, maxOrders) &&
            (op.ExitPlaced? ==> ExitFits(Run(ops, maxOrders), op.at, maxOrders))
  {
    var s := Run(ops, maxOrders);
    PrunedIsRecent(ops, maxOrders, op.at);
    ClearedMeans(ops, maxOrders);
    if !op.Check? {
      OneMoreStamp(s.history, if op.Register? then s.cleared[0] else op.at, op.at, maxOrders);
    }
  }

  /** ALL REGISTRATIONS. No closed minute holds more of them than the maximum exactly when every
      exit found room: the limiter does not hold exits back, it only makes entries wait for them. */
  lemma {:induction false} WithinLimitIff(ops: seq<Op>, maxOrders: int)
    requires Monotone(ops) && Disciplined(ops, maxOrders)
    ensures WithinLimit(Run(ops, maxOrders).history, maxOrders) <==> ExitsFit(ops, maxOrders)
  {
    if ops != [] {
      var n := |ops| - 1;
      WithinLimitIff(ops[..n], maxOrders);
      StepKeepsIff(ops[..n], ops[n], maxOrders);
    } else {
      assert forall x :: InMinute([], x) == 0;
    }
  }

  /** With one order a minute allowed, two exits a second apart make two. */
  lemma TwoExitsOverflow()
    ensures InMinute(Run([ExitPlaced(0.0), ExitPlaced(1.0)], 1).history, 0.0) == 2
  {
    var ops := [ExitPlaced(0.0), ExitPlaced(1.0)];
    assert ops[..1] == [ops[0]] && ops[..1][..0] == [];
    assert Run(ops[..1], 1).history == [0.0];
    assert Run(ops, 1).history == [0.0, 1.0] && [0.0, 1.0][..1] == [0.0] && [0.0][..0] == [];
  }

  // ----- The check -----------------------------------------------------------------------------

  datatype Limits = Limits(totalCap: real, symbolCap: real, maxOrders: int, maxOpen: int)

  function AtLeastOne(leverage: real): real {
    if leverage > 1.0 then leverage else 1.0
  }

  function Value(price: real, qty: real): real {
    price * qty
  }

  function Notional(price: real, qty: real, leverage: real): real {
    Value(price, qty) * AtLeastOne(leverage)
  }

  /** The exposure part of the check, given how many orders the last minute holds. */
  predicate Allowed(l: Limits, price: real, qty: real, leverage: real, recent: nat, total: real, onSymbol: real,
                    openPositions: nat)
  {
    var notional := Notional(price, qty, leverage);
    && notional > 0.0
    && recent < l.maxOrders
    && !(l.maxOpen > 0 && openPositions >= l.maxOpen)
    && total + notional <= l.totalCap
    && onSymbol + notional <= l.symbolCap
  }

  class Manager {
    const limits: Limits
    var deque: seq<real>

    constructor (limits: Limits)
      ensures this.limits == limits && deque == []
    {
      this.limits := limits;
      deque := [];
    }

    method Expire(now: real)
      modifies this
      ensures deque == Prune(old(deque), now)
    {
      while deque != [] && now - deque[0] > WINDOW
        invariant Prune(deque, now) == Prune(old(deque), now)
        decreases |deque|
      {
        deque := deque[1..];
      }
    }

    method RegisterOrderPlaced(now: real)
      modifies this
      ensures deque == Prune(old(deque) + [now], now)
    {
      deque := deque + [now];
      Expire(now);
    }

    method CheckOrder(now: real, price: real, qty: real, leverage: real, total: real, onSymbol: real,
                      openPositions: nat)
      returns (allowed: bool)
      modifies this
      ensures allowed == Allowed(limits, price, qty, leverage, |Prune(old(deque), now)|, total, onSymbol, openPositions)
      ensures deque == if Notional(price, qty, leverage) > 0.0 then Prune(old(deque), now) else old(deque)
    {
      var notional := Notional(price, qty, leverage);
      if notional <= 0.0 {
        return false;
      }
      Expire(now);
      if |deque| >= limits.maxOrders {
        return false;
      }
      if limits.maxOpen > 0 && openPositions >= limits.maxOpen {
        return false;
      }
      if total + notional > limits.totalCap {
        return false;
      }
      return onSymbol + notional <= limits.symbolCap;
    }
  }

  // ----- The exposure books ----------------------------------------------------------------------

  datatype Books = Books(total: real, bySymbol: map<string, real>, active: set<string>)

  function On(m: map<string, real>, symbol: string): real {
    if symbol in m then m[symbol] else 0.0
  }

  function AddExposure(b: Books, symbol: string, amount: real): Books {
    b.(total := b.total + amount, bySymbol := b.bySymbol[symbol := On(b.bySymbol, symbol) + amount])
  }

  lemma AddExposureKeepsSum(b: Books, symbol: string, amount: real)
    requires b.total == SumOf(b.bySymbol)
    ensures AddExposure(b, symbol, amount).total == SumOf(AddExposure(b, symbol, amount).bySymbol)
  {
    SumUpdate(b.bySymbol, symbol, On(b.bySymbol, symbol) + amount);
  }

  /** One intent: its order, how many orders the last minute holds when it is checked, and whether
      the exchange takes it. */
  datatype Intent = Intent(symbol: string, price: real, qty: real, leverage: real, recent: nat, accepted: bool)

  predicate Placed(l: Limits, b: Books, i: Intent) {
    i.accepted &&
    Allowed(l, i.price, i.qty, i.leverage, i.recent, b.total, On(b.bySymbol, i.symbol), |b.active - {i.symbol}|)
  }

  function Place(l: Limits, b: Books, i: Intent): Books {
    if Placed(l, b, i) then AddExposure(b, i.symbol, Value(i.price, i.qty)).(active := b.active + {i.symbol}) else b
  }

  function PlaceAll(l: Limits, b: Books, intents: seq<Intent>): Books {
    if intents == [] then b else Place(l, PlaceAll(l, b, intents[..|intents| - 1]), intents[|intents| - 1])
  }

  lemma LeverageOnlyAdds(x: real, lev: real)
    requires lev >= 1.0 && x * lev > 0.0
    ensures 0.0 < x <= x * lev
  {
    SignFromProduct(x, lev);
    var extra := lev - 1.0;
    assert x * extra >= 0.0;
    assert x * lev == x + x * extra;
  }

  lemma NotionalCoversValue(price: real, qty: real, leverage: real)
    requires Notional(price, qty, leverage) > 0.0
    ensures 0.0 < Value(price, qty) <= Notional(price, qty, leverage)
  {
    LeverageOnlyAdds(Value(price, qty), AtLeastOne(leverage));
  }

  /** A placement moves neither booked exposure above its cap, whatever the leverage, and leaves at
      most maxOpen symbols active. The books count price times quantity, without leverage. */
  lemma PlacementWithinCaps(l: Limits, b: Books, i: Intent)
    requires Placed(l, b, i)
    ensures var after := Place(l, b, i);
            && b.total < after.total <= l.totalCap
            && On(b.bySymbol, i.symbol) < On(after.bySymbol, i.symbol) <= l.symbolCap
            && (l.maxOpen > 0 ==> |after.active| <= l.maxOpen)
  {
    PlacedAmount(l, b, i);
    assert Place(l, b, i).active == (b.active - {i.symbol}) + {i.symbol};
  }

  /** The amount a placement adds is positive and fits under both caps. */
  lemma PlacedAmount(l: Limits, b: Books, i: Intent)
    requires Placed(l, b, i)
    ensures var amount := Value(i.price, i.qty);
            0.0 < amount && b.total + amount <= l.totalCap && On(b.bySymbol, i.symbol) + amount <= l.symbolCap
  {
    NotionalCoversValue(i.price, i.qty, i.leverage);
  }

  /** What an amount of booked exposure is worth at a leverage. */
  function Leveraged(booked: real, leverage: real): real {
    booked * AtLeastOne(leverage)
  }

  /** The check counts the leverage of the order it looks at, but not of those already booked. So
      at one leverage for all, the leveraged exposure after a placement is within the cap if and
      only if the leverage on what was booked before fits in the room the check left; it does when
      there is no leverage, or nothing was booked. */
  lemma LeveragedWithinCapIff(l: Limits, b: Books, i: Intent)
    requires Placed(l, b, i)
    ensures var room := l.totalCap - (b.total + Notional(i.price, i.qty, i.leverage));
            && room >= 0.0
            && (Leveraged(Place(l, b, i).total, i.leverage) <= l.totalCap <==>
                  Leveraged(b.total, i.leverage) - b.total <= room)
            && (i.leverage <= 1.0 || b.total == 0.0 ==> Leveraged(Place(l, b, i).total, i.leverage) <= l.totalCap)
  {
    LeverageSplits(b.total, Value(i.price, i.qty), i.leverage);
  }

  lemma LeverageSplits(before: real, added: real, leverage: real)
    ensures Leveraged(before + added, leverage) == Leveraged(before, leverage) + added * AtLeastOne(leverage)
    ensures leverage <= 1.0 || before == 0.0 ==> Leveraged(before, leverage) == before
  {
  }

  /** At leverage 2 and caps of 100, two placements worth 30 each are allowed: 60 booked, 120 of
      leveraged exposure. */
  lemma LeverageEscapesCap()
    ensures var l, i := Limits(100.0, 100.0, 10, 0), Intent("BTCUSDT", 30.0, 1.0, 2.0, 0, true);
            var after := PlaceAll(l, Books(0.0, map[], {}), [i, i]);
            after.total == 60.0 && Leveraged(after.total, i.leverage) == 120.0
  {
    var l, i := Limits(100.0, 100.0, 10, 0), Intent("BTCUSDT", 30.0, 1.0, 2.0, 0, true);
    var start := Books(0.0, map[], {});
    var first := Place(l, start, i);
    assert [i, i][..1] == [i] && [i][..0] == [];
    assert Placed(l, start, i) && Placed(l, first, i);
    assert PlaceAll(l, start, []) == start;
    assert PlaceAll(l, start, [i]) == first;
    assert PlaceAll(l, start, [i, i]) == Place(l, first, i);
  }

  /** THE BOOKS, over a whole loop: the total stays the sum of the per-symbol exposures; no
      exposure ends above both its cap and where it began; and the number of active symbols
      never grows past the cap on open positions. */
  lemma {:induction false} BooksKept(l: Limits, b: Books, intents: seq<Intent>, symbol: string)
    requires b.total == SumOf(b.bySymbol)
    ensures var after := PlaceAll(l, b, intents);
            && after.total == SumOf(after.bySymbol)
            && b.total <= after.total <= Max(b.total, l.totalCap)
            && On(b.bySymbol, symbol) <= On(after.bySymbol, symbol) <= Max(On(b.bySymbol, symbol), l.symbolCap)
            && b.active <= after.active
            && (l.maxOpen > 0 ==> after.active == b.active || |after.active| <= l.maxOpen)
  {
    if intents != [] {
      var n := |intents| - 1;
      var before := PlaceAll(l, b, intents[..n]);
      BooksKept(l, b, intents[..n], symbol);
      if Placed(l, before, intents[n]) {
        PlacementWithinCaps(l, before, intents[n]);
        AddExposureKeepsSum(before, intents[n].symbol, Value(intents[n].price, intents[n].qty));
      }
    }
  }

  // ----- The loops -------------------------------------------------------------------------------

  datatype OpenOrder = OpenOrder(symbol: string, price: real, qty: real)

  function Loaded(orders: seq<OpenOrder>): Books {
    if orders == [] then Books(0.0, map[], {})
    else
      var o := orders[|orders| - 1];
      AddExposure(Loaded(orders[..|orders| - 1]), o.symbol, Value(o.price, o.qty))
  }

  lemma {:induction false} LoadedSum(orders: seq<OpenOrder>)
    ensures Loaded(orders).total == SumOf(Loaded(orders).bySymbol)
  {
    if orders != [] {
      var o := orders[|orders| - 1];
      LoadedSum(orders[..|orders| - 1]);
      AddExposureKeepsSum(Loaded(orders[..|orders| - 1]), o.symbol, Value(o.price, o.qty));
    }
  }

  /** An intent with the clock readings of its check and of its registration. */
  datatype Entry = Entry(intent: Intent, checkedAt: real, registeredAt: real)

  datatype LoopState = LoopState(deque: seq<real>, books: Books)

  /** The intent as the check sees it: with the number of orders in the last minute. */
  function Seen(deque: seq<real>, e: Entry): Intent {
    e.intent.(recent := |Prune(deque, e.checkedAt)|)
  }

  predicate Checks(e: Entry) {
    Notional(e.intent.price, e.intent.qty, e.intent.leverage) > 0.0
  }

  function LoopStep(l: Limits, s: LoopState, e: Entry): LoopState {
    var deque := if Checks(e) then Prune(s.deque, e.checkedAt) else s.deque;
    LoopState(if Placed(l, s.books, Seen(s.deque, e)) then Prune(deque + [e.registeredAt], e.registeredAt) else deque,
              Place(l, s.books, Seen(s.deque, e)))
  }

  function Loop(l: Limits, s: LoopState, entries: seq<Entry>): LoopState {
    if entries == [] then s else LoopStep(l, Loop(l, s, entries[..|entries| - 1]), entries[|entries| - 1])
  }

  /** The limiter calls the loop makes. */
  function LoopOps(l: Limits, s: LoopState, entries: seq<Entry>): seq<Op> {
    if entries == [] then []
    else
      var n := |entries| - 1;
      LoopOps(l, s, entries[..n]) + EntryOps(l, Loop(l, s, entries[..n]), entries[n])
  }

  function EntryOps(l: Limits, s: LoopState, e: Entry): seq<Op> {
    if !Checks(e) then []
    else [Check(e.checkedAt)] + (if Placed(l, s.books, Seen(s.deque, e)) then [Register(e.registeredAt)] else [])
  }

  /** Disciplined calls that leave this deque. */
  ghost predicate Reaches(ops: seq<Op>, deque: seq<real>, maxOrders: int) {
    Disciplined(ops, maxOrders) && Run(ops, maxOrders).deque == deque
  }

  lemma ReachesInTwo(past: seq<Op>, a: seq<Op>, b: seq<Op>, ops: seq<Op>, deque: seq<real>, maxOrders: int)
    requires ops == a + b && Reaches((past + a) + b, deque, maxOrders)
    ensures Reaches(past + ops, deque, maxOrders)
  {
    assert past + ops == (past + a) + b;
  }

  lemma OneMoreOp(ops: seq<Op>, op: Op, maxOrders: int)
    ensures Run(ops + [op], maxOrders) == Step(Run(ops, maxOrders), op, maxOrders)
    ensures Disciplined(ops, maxOrders) && (op.Register? ==> Run(ops, maxOrders).cleared != []) ==>
              Disciplined(ops + [op], maxOrders)
  {
    assert (ops + [op])[..|ops|] == ops;
  }

  /** One intent, after earlier limiter calls, is a disciplined caller's. */
  lemma EntryIsDisciplined(l: Limits, past: seq<Op>, s: LoopState, e: Entry)
    requires Reaches(past, s.deque, l.maxOrders)
    ensures Reaches(past + EntryOps(l, s, e), LoopStep(l, s, e).deque, l.maxOrders)
  {
    if Checks(e) {
      var checked := past + [Check(e.checkedAt)];
      OneMoreOp(past, Check(e.checkedAt), l.maxOrders);
      if Placed(l, s.books, Seen(s.deque, e)) {
        OneMoreOp(checked, Register(e.registeredAt), l.maxOrders);
        assert past + EntryOps(l, s, e) == checked + [Register(e.registeredAt)];
      } else {
        assert past + EntryOps(l, s, e) == checked;
      }
    } else {
      assert past + EntryOps(l, s, e) == past;
    }
  }

  lemma ActiveWith(active: set<string>, symbol: string)
    ensures |active + {symbol}| == |active - {symbol}| + 1
  {
    assert active + {symbol} == (active - {symbol}) + {symbol};
  }

  lemma SignOfNotional(price: real, qty: real, leverage: real)
    ensures Notional(price, qty, leverage) > 0.0 <==> price * qty > 0.0
  {
    var v, f := price * qty, AtLeastOne(leverage);
    if v > 0.0 { assert v * f > 0.0; }
    if v < 0.0 { assert (-v) * f > 0.0; }
  }

  /** The room in the deque is the room in the history of the last minute. */
  lemma RoomIsRecent(ops: seq<Op>, maxOrders: int, now: real)
    requires Monotone(ops) && (ops != [] ==> ops[|ops| - 1].at <= now)
    ensures |Prune(Run(ops, maxOrders).deque, now)| == InMinute(Run(ops, maxOrders).history, now - 60.0)
  {
    PrunedIsRecent(ops, maxOrders, now);
    RecentIsInMinute(Run(ops, maxOrders).history, now);
  }

  lemma AllowedIff(l: Limits, price: real, qty: real, leverage: real, recent: nat, total: real, onSymbol: real,
                   openPositions: nat, worth: real)
    requires worth == price * qty * (if leverage > 1.0 then leverage else 1.0)
    ensures Allowed(l, price, qty, leverage, recent, total, onSymbol, openPositions) <==>
            && price * qty > 0.0 && recent < l.maxOrders && (l.maxOpen > 0 ==> openPositions < l.maxOpen)
            && total + worth <= l.totalCap && onSymbol + worth <= l.symbolCap
  {
    SignOfNotional(price, qty, leverage);
  }

  /** ADMISSION. An intent the exchange takes is placed if and only if it is worth something, fewer
      than the maximum of all registrations fall in the sixty seconds up to its check, both
      exposures with its leveraged worth are within their caps, and, with a positive cap, the active
      symbols with its own are no more than the cap. Nothing else holds it back. */
  lemma PlacedIff(l: Limits, past: seq<Op>, s: Limiter, b: Books, e: Entry, worth: real)
    requires Monotone(past) && (past != [] ==> past[|past| - 1].at <= e.checkedAt) && s == Run(past, l.maxOrders)
    requires e.intent.accepted
    requires worth == e.intent.price * e.intent.qty * (if e.intent.leverage > 1.0 then e.intent.leverage else 1.0)
    ensures var i := e.intent;
            Placed(l, b, Seen(s.deque, e)) <==>
            && i.price * i.qty > 0.0
            && InMinute(s.history, e.checkedAt - 60.0) < l.maxOrders
            && b.total + worth <= l.totalCap
            && (if i.symbol in b.bySymbol then b.bySymbol[i.symbol] else 0.0) + worth <= l.symbolCap
            && (l.maxOpen > 0 ==> |b.active + {i.symbol}| <= l.maxOpen)
  {
    var i := e.intent;
    var recent, open := |Prune(s.deque, e.checkedAt)|, |b.active - {i.symbol}|;
    RoomIsRecent(past, l.maxOrders, e.checkedAt);
    ActiveWith(b.active, i.symbol);
    AllowedIff(l, i.price, i.qty, i.leverage, recent, b.total, On(b.bySymbol, i.symbol), open, worth);
    assert Placed(l, b, Seen(s.deque, e)) <==>
           Allowed(l, i.price, i.qty, i.leverage, recent, b.total, On(b.bySymbol, i.symbol), open);
  }

  /** One pass over the intents, after any earlier limiter calls, goes on as a disciplined caller. */
  lemma {:induction false} LoopIsDisciplined(l: Limits, past: seq<Op>, s: LoopState, entries: seq<Entry>)
    requires Reaches(past, s.deque, l.maxOrders)
    ensures Reaches(past + LoopOps(l, s, entries), Loop(l, s, entries).deque, l.maxOrders)
  {
    if entries == [] {
      assert past + [] == past;
    } else {
      var n := |entries| - 1;
      LoopIsDisciplined(l, past, s, entries[..n]);
      var ops, reached := LoopOps(l, s, entries[..n]), Loop(l, s, entries[..n]);
      EntryIsDisciplined(l, past + ops, reached, entries[n]);
      ReachesInTwo(past, ops, EntryOps(l, reached, entries[n]), LoopOps(l, s, entries),
                   LoopStep(l, reached, entries[n]).deque, l.maxOrders);
    }
  }

  // ----- Iteration after iteration -----------------------------------------------------------------

  /** One iteration of the trading loop: the exit orders it places, the open orders it loads, the
      symbols active from fills and the wallet, and its intents. */
  datatype Iteration = Iteration(exits: seq<real>, orders: seq<OpenOrder>, active: set<string>, entries: seq<Entry>)

  function AfterExits(deque: seq<real>, exits: seq<real>): seq<real> {
    if exits == [] then deque
    else
      var now := exits[|exits| - 1];
      Prune(AfterExits(deque, exits[..|exits| - 1]) + [now], now)
  }

  function BeforeIntents(deque: seq<real>, it: Iteration): LoopState {
    LoopState(AfterExits(deque, it.exits), Loaded(it.orders).(active := it.active))
  }

  function Iterate(l: Limits, deque: seq<real>, it: Iteration): LoopState {
    Loop(l, BeforeIntents(deque, it), it.entries)
  }

  /** The deque after some iterations; the books start afresh in each. */
  function Session(l: Limits, deque: seq<real>, its: seq<Iteration>): seq<real> {
    if its == [] then deque
    else Iterate(l, Session(l, deque, its[..|its| - 1]), its[|its| - 1]).deque
  }

  function ExitOps(exits: seq<real>): seq<Op> {
    if exits == [] then [] else ExitOps(exits[..|exits| - 1]) + [ExitPlaced(exits[|exits| - 1])]
  }

  function IterationOps(l: Limits, deque: seq<real>, it: Iteration): seq<Op> {
    ExitOps(it.exits) + LoopOps(l, BeforeIntents(deque, it), it.entries)
  }

  function SessionOps(l: Limits, deque: seq<real>, its: seq<Iteration>): seq<Op> {
    if its == [] then []
    else
      var n := |its| - 1;
      SessionOps(l, deque, its[..n]) + IterationOps(l, Session(l, deque, its[..n]), its[n])
  }

  lemma {:induction false} ExitsFollow(past: seq<Op>, deque: seq<real>, exits: seq<real>, maxOrders: int)
    requires Reaches(past, deque, maxOrders)
    ensures Reaches(past + ExitOps(exits), AfterExits(deque, exits), maxOrders)
  {
    if exits == [] {
      assert past + [] == past;
    } else {
      var n := |exits| - 1;
      ExitsFollow(past, deque, exits[..n], maxOrders);
      OneMoreOp(past + ExitOps(exits[..n]), ExitPlaced(exits[n]), maxOrders);
      ReachesInTwo(past, ExitOps(exits[..n]), [ExitPlaced(exits[n])], ExitOps(exits), AfterExits(deque, exits),
                   maxOrders);
    }
  }

  lemma IterationIsDisciplined(l: Limits, past: seq<Op>, deque: seq<real>, it: Iteration)
    requires Reaches(past, deque, l.maxOrders)
    ensures Reaches(past + IterationOps(l, deque, it), Iterate(l, deque, it).deque, l.maxOrders)
  {
    var s := BeforeIntents(deque, it);
    ExitsFollow(past, deque, it.exits, l.maxOrders);
    LoopIsDisciplined(l, past + ExitOps(it.exits), s, it.entries);
    ReachesInTwo(past, ExitOps(it.exits), LoopOps(l, s, it.entries), IterationOps(l, deque, it),
                 Loop(l, s, it.entries).deque, l.maxOrders);
  }

  /** Any number of iterations, from any state of the limiter, is a disciplined caller. */
  lemma {:induction false} SessionIsDisciplined(l: Limits, past: seq<Op>, deque: seq<real>, its: seq<Iteration>)
    requires Reaches(past, deque, l.maxOrders)
    ensures Reaches(past + SessionOps(l, deque, its), Session(l, deque, its), l.maxOrders)
  {
    if its == [] {
      assert past + [] == past;
    } else {
      var n := |its| - 1;
      SessionIsDisciplined(l, past, deque, its[..n]);
      var ops, reached := SessionOps(l, deque, its[..n]), Session(l, deque, its[..n]);
      IterationIsDisciplined(l, past + ops, reached, its[n]);
      ReachesInTwo(past, ops, IterationOps(l, reached, its[n]), SessionOps(l, deque, its),
                   Iterate(l, reached, its[n]).deque, l.maxOrders);
    }
  }

  /** So over any number of iterations, with any exits between the intents and from any state the
      limiter may have reached, no closed minute sees more entries than the maximum; and with the
      exits counted in, none overflows exactly when every exit found room. */
  lemma SessionKeepsRateLimit(l: Limits, past: seq<Op>, its: seq<Iteration>)
    requires Disciplined(past, l.maxOrders)
    requires Monotone(past + SessionOps(l, Run(past, l.maxOrders).deque, its))
    ensures var ops := past + SessionOps(l, Run(past, l.maxOrders).deque, its);
            && WithinLimit(Run(ops, l.maxOrders).placed, l.maxOrders)
            && (WithinLimit(Run(ops, l.maxOrders).history, l.maxOrders) <==> ExitsFit(ops, l.maxOrders))
  {
    var ops := past + SessionOps(l, Run(past, l.maxOrders).deque, its);
    SessionIsDisciplined(l, past, Run(past, l.maxOrders).deque, its);
    forall x ensures InMinute(Run(ops, l.maxOrders).placed, x) <= Cap(l.maxOrders) {
      NoMinuteOverflows(ops, l.maxOrders, x);
    }
    WithinLimitIff(ops, l.maxOrders);
  }

  /** The intents of a loop as its checks saw them. */
  function SeenAll(l: Limits, s: LoopState, entries: seq<Entry>): seq<Intent> {
    if entries == [] then []
    else
      var n := |entries| - 1;
      SeenAll(l, s, entries[..n]) + [Seen(Loop(l, s, entries[..n]).deque, entries[n])]
  }

  lemma {:induction false} LoopPlaces(l: Limits, s: LoopState, entries: seq<Entry>)
    ensures Loop(l, s, entries).books == PlaceAll(l, s.books, SeenAll(l, s, entries))
  {
    if entries != [] {
      var n := |entries| - 1;
      LoopPlaces(l, s, entries[..n]);
      var seen := SeenAll(l, s, entries[..n]);
      assert SeenAll(l, s, entries)[..|seen|] == seen;
    }
  }

  /** One iteration of the trading loop: the exposure of the open orders, the exits, the intents. */
  method TradingIteration(manager: Manager, it: Iteration) returns (books: Books)
    modifies manager
    ensures LoopState(manager.deque, books) == Iterate(manager.limits, old(manager.deque), it)
    ensures books.total == SumOf(books.bySymbol)
  {
    books := Books(0.0, map[], {});
    for i := 0 to |it.orders|
      invariant books == Loaded(it.orders[..i])
    {
      assert it.orders[..i + 1][..i] == it.orders[..i];
      books := AddExposure(books, it.orders[i].symbol, Value(it.orders[i].price, it.orders[i].qty));
    }
    assert it.orders[..|it.orders|] == it.orders;
    LoadedSum(it.orders);
    books := books.(active := it.active);
    for i := 0 to |it.exits|
      invariant manager.deque == AfterExits(old(manager.deque), it.exits[..i])
    {
      assert it.exits[..i + 1][..i] == it.exits[..i];
      manager.RegisterOrderPlaced(it.exits[i]);
    }
    assert it.exits[..|it.exits|] == it.exits;
    books := PlaceIntents(manager, books, it.entries);
  }

  method PlaceIntents(manager: Manager, start: Books, entries: seq<Entry>) returns (books: Books)
    requires start.total == SumOf(start.bySymbol)
    modifies manager
    ensures LoopState(manager.deque, books) == Loop(manager.limits, LoopState(old(manager.deque), start), entries)
    ensures books.total == SumOf(books.bySymbol)
  {
    books := start;
    ghost var before := LoopState(manager.deque, books);
    for i := 0 to |entries|
      invariant LoopState(manager.deque, books) == Loop(manager.limits, before, entries[..i])
    {
      assert entries[..i + 1][..i] == entries[..i];
      var intent := entries[i].intent;
      var allowed := manager.CheckOrder(entries[i].checkedAt, intent.price, intent.qty, intent.leverage, books.total,
                                        On(books.bySymbol, intent.symbol), |books.active - {intent.symbol}|);
      if allowed && intent.accepted {
        books := AddExposure(books, intent.symbol, Value(intent.price, intent.qty));
        books := books.(active := books.active + {intent.symbol});
        manager.RegisterOrderPlaced(entries[i].registeredAt);
      }
    }
    assert entries[..|entries|] == entries;
    LoopPlaces(manager.limits, before, entries);
    BooksKept(manager.limits, start, SeenAll(manager.limits, before, entries), "");
  }

  /** The trading loop: one manager lives through all its iterations. */
  method TradingLoop(manager: Manager, its: seq<Iteration>)
    modifies manager
    ensures manager.deque == Session(manager.limits, old(manager.deque), its)
  {
    for i := 0 to |its|
      invariant manager.deque == Session(manager.limits, old(manager.deque), its[..i])
    {
      assert its[..i + 1][..i] == its[..i];
      var _ := TradingIteration(manager, its[i]);
    }
    assert its[..|its|] == its;
  }
}
