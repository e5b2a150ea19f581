/** The candle-by-candle backtest: one position at a time, entries on a fall, exits on a stop or a
    target. */
module Backtest {
  import opened Options
  import opened BacktestReport
  import opened RealArith
  import Ledger = PositionLedger
  import SpotPaper

  datatype Candle = Candle(time: int, high: real, low: real, close: real)

  /** Which engine, and the strategy's parameters. */
  datatype Config = Config(futures: bool, balance: real, spikeBps: real, riskPct: real, slMult: real, tpMult: real,
      maxPct: real)

  const MIN_CANDLES := 20
  const ATR_WINDOW := 50
  const ATR_PERIOD := 14
  const MIN_RR := 1.5
  const PRICE_SCALE := 100000000.0

  // ----- Average true range ---------------------------------------------------------------------------

  function TrueRange(before: Candle, c: Candle): real {
    Max(Max(c.high - c.low, Abs(c.high - before.close)), Abs(c.low - before.close))
  }

  /** One true range per candle after the first. */
  function TrueRanges(cs: seq<Candle>): (r: seq<real>)
    ensures |r| == if cs == [] then 0 else |cs| - 1
    ensures forall i | 0 <= i < |r| :: r[i] == TrueRange(cs[i], cs[i + 1])
  {
    if |cs| <= 1 then []
    else TrueRanges(cs[..|cs| - 1]) + [TrueRange(cs[|cs| - 2], cs[|cs| - 1])]
  }

  function Last<T>(xs: seq<T>, n: nat): (r: seq<T>)
    ensures |r| == if |xs| < n then |xs| else n
    ensures forall i | 0 <= i < |r| :: r[i] == xs[|xs| - |r| + i]
  {
    if |xs| <= n then xs else xs[|xs| - n..]
  }

  function Atr(cs: seq<Candle>): real {
    if |cs| < ATR_PERIOD + 1 then 0.0 else Sum(Last(TrueRanges(cs), ATR_PERIOD)) / ATR_PERIOD as real
  }

  method CalcAtr(cs: seq<Candle>) returns (atr: real)
    ensures atr == Atr(cs)
  {
    if |cs| < ATR_PERIOD + 1 {
      return 0.0;
    }
    var ranges: seq<real> := [];
    for i := 1 to |cs|
      invariant ranges == TrueRanges(cs[..i])
    {
      assert cs[..i + 1][..i] == cs[..i];
      ranges := ranges + [TrueRange(cs[i - 1], cs[i])];
    }
    assert cs[..|cs|] == cs;
    var recent := Last(ranges, ATR_PERIOD);
    return Sum(recent) / |recent| as real;
  }

  /** The span a candle covers together with the close before it. */
  function Span(before: Candle, c: Candle): real {
    (if before.close > c.high then before.close else c.high) - (if before.close < c.low then before.close else c.low)
  }

  lemma TrueRangeIsSpan(before: Candle, c: Candle)
    requires c.low <= c.high
    ensures TrueRange(before, c) == Span(before, c) >= 0.0
  {
  }

  /** The spans of the last n candles, added up. */
  function Spans(cs: seq<Candle>, n: nat): real
    requires n < |cs|
  {
    if n == 0 then 0.0 else Spans(cs, n - 1) + Span(cs[|cs| - n - 1], cs[|cs| - n])
  }

  ghost predicate Sound(cs: seq<Candle>) {
    forall i | 0 <= i < |cs| :: cs[i].low <= cs[i].high
  }

  lemma {:induction false} LastSum(xs: seq<real>, x: real)
    ensures Sum([x] + xs) == x + Sum(xs)
  {
    if xs != [] {
      assert ([x] + xs)[..|xs|] == [x] + xs[..|xs| - 1];
      LastSum(xs[..|xs| - 1], x);
    } else {
      assert [x] + xs == [x] && [x][..0] == [];
    }
  }

  lemma SumOfLast(xs: seq<real>, n: nat)
    requires 0 < n <= |xs|
    ensures Sum(Last(xs, n)) == Sum(Last(xs, n - 1)) + xs[|xs| - n]
  {
    assert Last(xs, n) == [xs[|xs| - n]] + Last(xs, n - 1);
    LastSum(Last(xs, n - 1), xs[|xs| - n]);
  }

  lemma RangeAt(cs: seq<Candle>, rs: seq<real>, n: nat)
    requires Sound(cs) && 0 < n < |cs| && rs == TrueRanges(cs)
    ensures |rs| == |cs| - 1 && rs[|rs| - n] == Span(cs[|cs| - n - 1], cs[|cs| - n])
  {
    var i := |cs| - n - 1;
    assert |rs| - n == i && rs[i] == TrueRange(cs[i], cs[i + 1]);
    TrueRangeIsSpan(cs[i], cs[i + 1]);
  }

  lemma {:induction false} SpansAreRanges(cs: seq<Candle>, rs: seq<real>, n: nat)
    requires Sound(cs) && n < |cs| && rs == TrueRanges(cs) && |rs| == |cs| - 1
    ensures Sum(Last(rs, n)) == Spans(cs, n)
  {
    if n > 0 {
      SpansAreRanges(cs, rs, n - 1);
      SumOfLast(rs, n);
      RangeAt(cs, rs, n);
    } else {
      assert Last(rs, 0) == [];
    }
  }

  /** The average true range is the mean span of the last fourteen candles, each with the close
      before it; 0 without that many. */
  lemma AtrIsMeanSpan(cs: seq<Candle>)
    requires Sound(cs)
    ensures |cs| >= 15 ==> Atr(cs) * 14.0 == Spans(cs, 14)
    ensures |cs| < 15 ==> Atr(cs) == 0.0
  {
    if |cs| >= 15 { SpansAreRanges(cs, TrueRanges(cs), 14); }
  }

  /** The 50-candle window gives the value of the whole history. */
  lemma WindowIsEnough(cs: seq<Candle>)
    ensures Atr(Last(cs, ATR_WINDOW)) == Atr(cs)
  {
    var w := Last(cs, ATR_WINDOW);
    if |cs| >= ATR_PERIOD + 1 {
      var a, b := Last(TrueRanges(w), ATR_PERIOD), Last(TrueRanges(cs), ATR_PERIOD);
      forall i | 0 <= i < ATR_PERIOD ensures a[i] == b[i] {
        var j, m := |w| - 1 - ATR_PERIOD + i, |cs| - 1 - ATR_PERIOD + i;
        assert a[i] == TrueRanges(w)[j] == TrueRange(w[j], w[j + 1]);
        assert b[i] == TrueRanges(cs)[m] == TrueRange(cs[m], cs[m + 1]);
        assert w[j] == cs[m] && w[j + 1] == cs[m + 1];
      }
      assert a == b;
    }
  }

  // ----- Sizing -------------------------------------------------------------------------------------------

  datatype Side = Long | Short

  function Round8(x: real): real {
    RoundTo(x, PRICE_SCALE)
  }

  /** The target's multiple of the range, moved out to keep the minimum reward-to-risk. */
  function TargetMultiple(k: Config): real
    requires k.slMult != 0.0
  {
    if k.tpMult / k.slMult < MIN_RR then k.slMult * MIN_RR else k.tpMult
  }

  /** Stop and target at these distances from the entry. */
  function LevelsAt(entry: real, near: real, far: real, side: Side): (real, real) {
    if side == Long then (Round8(entry - near), Round8(entry + far))
    else (Round8(entry + near), Round8(entry - far))
  }

  /** The quantity that loses the risk share of the balance between entry and stop. */
  function RiskShare(k: Config, balance: real, entry: real, stop: real): real
    requires Abs(entry - stop) != 0.0
  {
    balance * k.riskPct / Abs(entry - stop)
  }

  /** The quantity worth the largest allowed share of the balance. */
  function EquityShare(k: Config, balance: real, entry: real): real
    requires entry != 0.0
  {
    balance * k.maxPct / entry
  }

  function RiskQty(k: Config, balance: real, entry: real, stop: real): real {
    var distance := Abs(entry - stop);
    if distance == 0.0 || entry == 0.0 then 0.0
    else Round8(Min(RiskShare(k, balance, entry, stop), EquityShare(k, balance, entry)))
  }

  // ----- Positions and trades -----------------------------------------------------------------------------

  datatype Pos = Pos(openedAt: nat, side: Side, entry: real, qty: real, entryFee: real, stop: real, target: real)

  datatype Reason = StopHit | TargetHit

  /** openedAt and closedAt are the numbers of the candles. */
  datatype Trade = Trade(pos: Pos, closedAt: nat, exit: real, pnl: real, reason: Reason)

  function ExitReason(k: Config, p: Pos, price: real): Option<Reason> {
    if !k.futures || p.side == Long then
      (if price <= p.stop then Some(StopHit) else if price >= p.target then Some(TargetHit) else None)
    else
      (if price >= p.stop then Some(StopHit) else if price <= p.target then Some(TargetHit) else None)
  }

  function Pnl(k: Config, p: Pos, price: real): real {
    if k.futures then
      (if p.side == Long then (price - p.entry) * p.qty else (p.entry - price) * p.qty) - price * p.qty * 0.00055
    else
      (price * p.qty - price * p.qty * 0.001) - (p.entry * p.qty + p.entryFee)
  }

  function Imbalance(k: Config): real {
    if k.futures then 0.65 else 0.67
  }

  /** The signal: a fall past the threshold with buyers in the book, or a rise with sellers. */
  function Signal(k: Config, spikeBps: real): Option<Side> {
    if spikeBps < -k.spikeBps && Imbalance(k) > 0.5 then Some(Long)
    else if spikeBps > k.spikeBps && Imbalance(k) < 0.5 then Some(Short)
    else None
  }

  function SpikeBps(price: real, ref: real): real
    requires ref != 0.0
  {
    (price - ref) / ref * 10000.0
  }

  /** A spot position pays its buying fee at once; a futures one pays on closing. */
  function EntryFee(k: Config, price: real, qty: real): real {
    if k.futures then 0.0 else price * qty * 0.001
  }

  /** The position opened at a price with stop and target at these distances, if it has a size. */
  function EntryAt(k: Config, n: nat, price: real, equity: real, o: Opening): Option<Pos> {
    var (stop, target) := LevelsAt(price, o.near, o.far, o.side);
    var qty := RiskQty(k, equity, price, stop);
    if qty <= 0.0 || (!k.futures && o.side != Long) then None
    else Some(Pos(n, o.side, price, qty, EntryFee(k, price, qty), stop, target))
  }

  /** A signal, with the distances of its stop and target. */
  datatype Opening = Opening(side: Side, near: real, far: real)

  function OpeningAt(k: Config, side: Side, atr: real): Opening
    requires k.slMult != 0.0
  {
    Opening(side, k.slMult * atr, TargetMultiple(k) * atr)
  }

  /** The opening at a price, given the reference price and the average true range. */
  function OpeningGiven(k: Config, price: real, ref: real, atr: real): Option<Opening>
    requires k.slMult != 0.0
  {
    if atr <= 0.0 || ref <= 0.0 then None
    else
      match Signal(k, SpikeBps(price, ref))
      case None => None
      case Some(side) => Some(OpeningAt(k, side, atr))
  }

  function OpeningOf(k: Config, cs: seq<Candle>): Option<Opening>
    requires k.slMult != 0.0 && cs != []
  {
    if |cs| < MIN_CANDLES then None
    else OpeningGiven(k, cs[|cs| - 1].close, cs[|cs| - 6].close, Atr(Last(cs, ATR_WINDOW)))
  }

  /** The position opened on the last candle of a history, if any. */
  function Entry(k: Config, cs: seq<Candle>, equity: real): Option<Pos>
    requires k.slMult != 0.0 && cs != []
  {
    var o := OpeningOf(k, cs);
    if o.None? then None else EntryAt(k, |cs| - 1, cs[|cs| - 1].close, equity, o.value)
  }

  // ----- The run ----------------------------------------------------------------------------------------------

  datatype State = State(pos: Option<Pos>, equity: real, curve: seq<real>, closed: seq<Trade>)

  function Tick(k: Config, s: State, n: nat, price: real): State {
    if s.pos.None? || ExitReason(k, s.pos.value, price).None? then s
    else
      var p := s.pos.value;
      var pnl := Pnl(k, p, price);
      State(None, s.equity + pnl, s.curve + [s.equity + pnl],
            s.closed + [Trade(p, n, price, pnl, ExitReason(k, p, price).value)])
  }

  function Step(k: Config, s: State, cs: seq<Candle>): State
    requires k.slMult != 0.0 && cs != []
  {
    var t := Tick(k, s, |cs| - 1, cs[|cs| - 1].close);
    if t.pos.Some? then t else t.(pos := Entry(k, cs, t.equity))
  }

  function Run(k: Config, cs: seq<Candle>): State
    requires k.slMult != 0.0
  {
    if cs == [] then State(None, k.balance, [k.balance], []) else Step(k, Run(k, cs[..|cs| - 1]), cs)
  }

  // ----- What an entry promises ---------------------------------------------------------------------------

  /** Half of the smallest quantity step. */
  const HALF_LOT := 0.000000005

  lemma Round8Near(x: real)
    ensures Near(Round8(x), x, HALF_LOT)
  {
    var n := RoundHalfEven(x * PRICE_SCALE);
    assert -0.5 <= n as real - x * PRICE_SCALE <= 0.5;
  }

  /** A quantity times a unit amount is at most, or at least, a total, give or take a slack in the
      quantity. */
  predicate AtMost(qty: real, unit: real, total: real, slack: real) {
    qty * unit <= total + slack * unit
  }

  predicate AtLeast(qty: real, unit: real, total: real, slack: real) {
    qty * unit >= total - slack * unit
  }

  /** The size of a position: what it loses at its stop is within the risk share of the equity, what
      it is worth within the largest position share, and one of the two is used up, each to half a
      lot. So it is the largest size allowed. */
  predicate LargestAllowed(k: Config, equity: real, entry: real, distance: real, qty: real) {
    && AtMost(qty, distance, equity * k.riskPct, 0.000000005)
    && AtMost(qty, entry, equity * k.maxPct, 0.000000005)
    && (AtLeast(qty, distance, equity * k.riskPct, 0.000000005) ||
        AtLeast(qty, entry, equity * k.maxPct, 0.000000005))
  }

  lemma ShareTimesUnit(qty: real, share: real, unit: real, total: real, slack: real)
    requires unit > 0.0 && share * unit == total
    ensures qty <= share + slack ==> AtMost(qty, unit, total, slack)
    ensures qty >= share - slack ==> AtLeast(qty, unit, total, slack)
  {
    if qty <= share + slack { assert (share + slack - qty) * unit >= 0.0; }
    if qty >= share - slack { assert (qty - share + slack) * unit >= 0.0; }
  }

  lemma SizeFromShares(k: Config, equity: real, entry: real, distance: real, qty: real, risk: real, share: real)
    requires distance > 0.0 && entry > 0.0 && risk * distance == equity * k.riskPct &&
        share * entry == equity * k.maxPct
    requires Near(qty, Min(risk, share), HALF_LOT)
    ensures LargestAllowed(k, equity, entry, distance, qty)
  {
    ShareTimesUnit(qty, risk, distance, equity * k.riskPct, HALF_LOT);
    ShareTimesUnit(qty, share, entry, equity * k.maxPct, HALF_LOT);
  }

  lemma RiskQtyIsLargest(k: Config, equity: real, entry: real, stop: real)
    requires entry > 0.0 && entry != stop
    ensures LargestAllowed(k, equity, entry, Abs(entry - stop), RiskQty(k, equity, entry, stop))
  {
    var distance := Abs(entry - stop);
    var risk, share := RiskShare(k, equity, entry, stop), EquityShare(k, equity, entry);
    DivMul(equity * k.riskPct, distance);
    DivMul(equity * k.maxPct, entry);
    Round8Near(Min(risk, share));
    SizeFromShares(k, equity, entry, distance, RiskQty(k, equity, entry, stop), risk, share);
  }

  /** A position is opened only after a fall past the threshold over five candles, always long, at
      the close, away from its stop, and of the largest size allowed. */
  predicate WellOpened(k: Config, cs: seq<Candle>, equity: real, p: Pos) {
    && |cs| >= 20 && p.openedAt == |cs| - 1 && p.entry == cs[|cs| - 1].close && p.side == Long && p.qty > 0.0
    && cs[|cs| - 6].close > 0.0 && Fell(k, p.entry, cs[|cs| - 6].close)
    && p.entry != p.stop && (p.entry > 0.0 ==> LargestAllowed(k, equity, p.entry, Abs(p.entry - p.stop), p.qty))
  }

  /** By more than the threshold, in hundredths of a percent. */
  predicate Fell(k: Config, price: real, ref: real) {
    (ref - price) * 10000.0 > k.spikeBps * ref
  }

  lemma SpikeIsFall(k: Config, price: real, ref: real)
    requires ref > 0.0
    ensures SpikeBps(price, ref) < -k.spikeBps <==> Fell(k, price, ref)
  {
    var change := (price - ref) / ref;
    DivMul(price - ref, ref);
    var gap := -k.spikeBps - change * 10000.0;
    assert gap * ref == -(k.spikeBps * ref) - (price - ref) * 10000.0;
    if gap > 0.0 { assert gap * ref > 0.0; } else { assert (-gap) * ref >= 0.0; }
  }

  lemma EntryIsSized(k: Config, cs: seq<Candle>, equity: real)
    requires k.slMult != 0.0 && cs != [] && Entry(k, cs, equity).Some?
    ensures WellOpened(k, cs, equity, Entry(k, cs, equity).value)
  {
    var p := Entry(k, cs, equity).value;
    SpikeIsFall(k, p.entry, cs[|cs| - 6].close);
    if p.entry > 0.0 { RiskQtyIsLargest(k, equity, p.entry, p.stop); }
  }

  lemma TargetIsLarger(k: Config)
    requires k.slMult > 0.0
    ensures TargetMultiple(k) == if k.tpMult > 1.5 * k.slMult then k.tpMult else 1.5 * k.slMult
  {
    var ratio := k.tpMult / k.slMult;
    DivMul(k.tpMult, k.slMult);
    if ratio < 1.5 { assert (1.5 - ratio) * k.slMult > 0.0; } else { assert (ratio - 1.5) * k.slMult >= 0.0; }
  }

  lemma SignalIff(k: Config, price: real, ref: real)
    requires ref > 0.0
    ensures Signal(k, SpikeBps(price, ref)) == if Fell(k, price, ref) then Some(Long) else None
  {
    SpikeIsFall(k, price, ref);
  }

  /** When there is a signal: a positive range and reference, and a fall past the threshold. It is
      always to buy. */
  lemma SignalledIff(k: Config, price: real, ref: real, atr: real)
    requires k.slMult != 0.0
    ensures OpeningGiven(k, price, ref, atr) ==
            if atr > 0.0 && ref > 0.0 && Fell(k, price, ref) then Some(OpeningAt(k, Long, atr)) else None
  {
    if ref > 0.0 {
      SignalIff(k, price, ref);
    }
  }

  /** The signal is looked for from the twentieth candle on, at its close, against the close five
      candles before it, with the range of the whole history. */
  lemma OpensOn(k: Config, cs: seq<Candle>)
    requires k.slMult != 0.0 && cs != []
    ensures OpeningOf(k, cs) ==
            if |cs| >= 20 then OpeningGiven(k, cs[|cs| - 1].close, cs[|cs| - 6].close, Atr(cs)) else None
  {
    WindowIsEnough(cs);
  }

  /** Its stop is the stop multiple of the range away, its target the target multiple or one and a
      half times the stop multiple, whichever is more. */
  lemma OpeningDistances(k: Config, side: Side, atr: real)
    requires k.slMult > 0.0
    ensures OpeningAt(k, side, atr).near == k.slMult * atr
    ensures OpeningAt(k, side, atr).far == (if k.tpMult > 1.5 * k.slMult then k.tpMult else 1.5 * k.slMult) * atr
  {
    TargetIsLarger(k);
  }

  /** The levels of a position, to half a lot. */
  predicate LevelsOf(p: Pos, o: Opening) {
    Near(p.entry - p.stop, o.near, 0.000000005) && Near(p.target - p.entry, o.far, 0.000000005)
  }

  /** The stop is apart from the price, and the equity is enough for a size of more than half a lot by
      both shares. */
  predicate EnoughFor(k: Config, price: real, equity: real, stop: real) {
    && price != stop && equity * k.riskPct > 0.000000005 * Abs(price - stop)
    && equity * k.maxPct > 0.000000005 * price
  }

  /** When a signal opens a position: its rounded stop is apart from the entry, and the equity is
      enough for a size of more than half a lot. So no signal is passed over. */
  lemma EntersIff(k: Config, n: nat, price: real, equity: real, o: Opening, stop: real)
    requires price > 0.0 && o.side == Long && stop == Round8(price - o.near)
    ensures EntryAt(k, n, price, equity, o).Some? <==>
            EnoughFor(k, price, equity, stop)
    ensures EntryAt(k, n, price, equity, o).Some? ==>
              var p := EntryAt(k, n, price, equity, o).value;
              p.stop == stop && LevelsOf(p, o)
  {
    SizeIsPositiveIff(k, equity, price, stop);
    LevelsNear(price, o.near);
    LevelsNear(price, o.far);
  }

  /** The spot engine takes no short; the futures one would. */
  lemma OnlyFuturesShort(k: Config, n: nat, price: real, equity: real, o: Opening, stop: real)
    requires price > 0.0 && o.side == Short && stop == Round8(price + o.near)
    ensures EntryAt(k, n, price, equity, o).Some? <==>
            k.futures && EnoughFor(k, price, equity, stop)
  {
    SizeIsPositiveIff(k, equity, price, stop);
  }

  lemma RoundedPositiveIff(x: real)
    ensures Round8(x) > 0.0 <==> x > HALF_LOT
  {
    var n := RoundHalfEven(x * PRICE_SCALE);
    assert RoundHalfEven(0.5) == 0;
  }

  lemma ShareAboveIff(share: real, unit: real, total: real, bound: real)
    requires unit > 0.0 && share * unit == total
    ensures share > bound <==> total > bound * unit
  {
    if share > bound { assert (share - bound) * unit > 0.0; } else { assert (bound - share) * unit >= 0.0; }
  }

  lemma SizeIsPositiveIff(k: Config, equity: real, entry: real, stop: real)
    requires entry > 0.0
    ensures RiskQty(k, equity, entry, stop) > 0.0 <==>
            EnoughFor(k, entry, equity, stop)
  {
    if entry != stop {
      var distance := Abs(entry - stop);
      var risk, share := RiskShare(k, equity, entry, stop), EquityShare(k, equity, entry);
      DivMul(equity * k.riskPct, distance);
      DivMul(equity * k.maxPct, entry);
      RoundedPositiveIff(Min(risk, share));
      ShareAboveIff(risk, distance, equity * k.riskPct, HALF_LOT);
      ShareAboveIff(share, entry, equity * k.maxPct, HALF_LOT);
    }
  }

  lemma EntryLevels(k: Config, cs: seq<Candle>, equity: real)
    requires k.slMult > 0.0 && cs != [] && Entry(k, cs, equity).Some?
    ensures OpeningOf(k, cs).Some? && LevelsOf(Entry(k, cs, equity).value, OpeningOf(k, cs).value)
  {
    var o := OpeningOf(k, cs).value;
    EntryIsLong(k, cs, equity);
    LevelsOfEntry(k, |cs| - 1, cs[|cs| - 1].close, equity, o);
  }

  lemma LevelsOfEntry(k: Config, n: nat, price: real, equity: real, o: Opening)
    requires o.side == Long && EntryAt(k, n, price, equity, o).Some?
    ensures LevelsOf(EntryAt(k, n, price, equity, o).value, o)
  {
    LevelsNear(price, o.near);
    LevelsNear(price, o.far);
  }

  /** The futures result is what the average-cost ledger realises on the closing fill, less the fee
      on the exit value. */
  lemma FuturesPnlIsRealised(k: Config, p: Pos, price: real)
    requires k.futures && p.qty > 0.0 && price > 0.0
    ensures var held := Ledger.Position(if p.side == Long then p.qty else -p.qty, p.entry);
            var close := Ledger.Fill(if p.side == Long then Ledger.Sell else Ledger.Buy, p.qty, price);
            && Ledger.ApplyFill(held, close) == Ledger.FLAT
            && Pnl(k, p, price) == Ledger.RealisedBy(held, close) - price * p.qty * 0.00055
  {
    var held := Ledger.Position(if p.side == Long then p.qty else -p.qty, p.entry);
    var close := Ledger.Fill(if p.side == Long then Ledger.Sell else Ledger.Buy, p.qty, price);
    Ledger.SignOfProduct(held.qty, Ledger.Signed(close));
    assert Ledger.ClosedBy(held, close) == p.qty;
  }

  /** Up to rounding, the stop is at the distance `near` and the target at least one and a half
      times as far away, on the other side. */
  predicate WellSpaced(levels: (real, real), entry: real, near: real, side: Side) {
    var risk := if side == Long then entry - levels.0 else levels.0 - entry;
    var reward := if side == Long then levels.1 - entry else entry - levels.1;
    Near(risk, near, HALF_LOT) && reward >= MIN_RR * risk - 2.5 * HALF_LOT
  }

  /** Levels whose target is far enough keep the minimum reward-to-risk through rounding. */
  lemma LevelsWellSpaced(entry: real, near: real, far: real, side: Side)
    requires far >= MIN_RR * near
    ensures WellSpaced(LevelsAt(entry, near, far, side), entry, near, side)
  {
    LevelsNear(entry, near);
    LevelsNear(entry, far);
  }

  /** Whatever target the configuration asks for, it is put far enough. */
  lemma TargetIsFar(k: Config, atr: real)
    requires k.slMult > 0.0 && atr >= 0.0
    ensures TargetMultiple(k) * atr >= MIN_RR * (k.slMult * atr)
  {
    var tm, sl := TargetMultiple(k), k.slMult;
    DivMul(k.tpMult, sl);
    var ratio := k.tpMult / sl;
    if ratio >= MIN_RR {
      assert (ratio - MIN_RR) * sl >= 0.0;
    }
    assert tm >= sl * MIN_RR;
    assert (tm - sl * MIN_RR) * atr >= 0.0;
  }

  /** Stop and target of a position: on opposite sides of its entry up to rounding, the target at
      least one and a half times as far. */
  predicate Covers(p: Pos) {
    var risk := if p.side == Long then p.entry - p.stop else p.stop - p.entry;
    var reward := if p.side == Long then p.target - p.entry else p.entry - p.target;
    risk >= -HALF_LOT && reward >= MIN_RR * risk - 2.5 * HALF_LOT
  }

  ghost predicate Far(o: Opening) {
    o.near >= 0.0 && o.far >= MIN_RR * o.near
  }

  lemma EntryAtCovers(k: Config, n: nat, price: real, equity: real, o: Opening)
    requires Far(o) && EntryAt(k, n, price, equity, o).Some?
    ensures Covers(EntryAt(k, n, price, equity, o).value)
  {
    LevelsWellSpaced(price, o.near, o.far, o.side);
  }

  lemma OpeningIsFar(k: Config, cs: seq<Candle>)
    requires k.slMult > 0.0 && cs != [] && OpeningOf(k, cs).Some?
    ensures Far(OpeningOf(k, cs).value)
  {
    var atr := Atr(Last(cs, ATR_WINDOW));
    TargetIsFar(k, atr);
    assert k.slMult * atr >= 0.0;
  }

  lemma EntryCovers(k: Config, cs: seq<Candle>, equity: real)
    requires k.slMult > 0.0 && cs != [] && Entry(k, cs, equity).Some?
    ensures Covers(Entry(k, cs, equity).value)
  {
    OpeningIsFar(k, cs);
    EntryAtCovers(k, |cs| - 1, cs[|cs| - 1].close, equity, OpeningOf(k, cs).value);
  }

  lemma LevelsNear(entry: real, distance: real)
    ensures Near(Round8(entry - distance), entry - distance, HALF_LOT)
    ensures Near(Round8(entry + distance), entry + distance, HALF_LOT)
  {
    Round8Near(entry - distance);
    Round8Near(entry + distance);
  }

  // ----- What every run keeps -------------------------------------------------------------------------------

  /** CAUSALITY. Later candles never change a trade or an equity point already made: the result on
      a prefix is a prefix of the result on the whole. */
  lemma {:induction false} Causality(k: Config, cs: seq<Candle>, n: nat)
    requires k.slMult != 0.0 && n <= |cs|
    ensures Run(k, cs[..n]).closed <= Run(k, cs).closed
    ensures Run(k, cs[..n]).curve <= Run(k, cs).curve
  {
    if n == |cs| {
      assert cs[..n] == cs;
    } else {
      var m := |cs| - 1;
      assert cs[..m][..n] == cs[..n];
      Causality(k, cs[..m], n);
    }
  }

  function Pnls(ts: seq<Trade>): (r: seq<real>)
    ensures |r| == |ts| && forall i | 0 <= i < |ts| :: r[i] == ts[i].pnl
  {
    seq(|ts|, i requires 0 <= i < |ts| => ts[i].pnl)
  }

  /** The equity curve starts at the balance and steps by each trade's exact profit. */
  lemma {:induction false} CurveIsLedger(k: Config, cs: seq<Candle>)
    requires k.slMult != 0.0
    ensures var s := Run(k, cs); IsLedger(s.curve, k.balance, Pnls(s.closed)) && s.equity == s.curve[|s.closed|]
  {
    if cs != [] {
      var n := |cs| - 1;
      CurveIsLedger(k, cs[..n]);
      TickKeepsLedger(k, Run(k, cs[..n]), n, cs[n].close);
    }
  }

  lemma TickKeepsLedger(k: Config, s: State, n: nat, price: real)
    requires IsLedger(s.curve, k.balance, Pnls(s.closed)) && s.equity == s.curve[|s.closed|]
    ensures var t := Tick(k, s, n, price);
            IsLedger(t.curve, k.balance, Pnls(t.closed)) && t.equity == t.curve[|t.closed|]
  {
  }

  /** Strictly between the stop and the target of a long position. */
  predicate Inside(p: Pos, price: real) {
    p.stop < price < p.target
  }

  /** Which price closes a position, and why: at or past the stop, otherwise at or past the target.
      A spot position has the levels of a long one. */
  lemma ExitIff(k: Config, p: Pos, price: real)
    ensures p.side == Long || !k.futures ==>
              && (ExitReason(k, p, price) == Some(StopHit) <==> price <= p.stop)
              && (ExitReason(k, p, price) == Some(TargetHit) <==> p.stop < price && p.target <= price)
    ensures p.side == Short && k.futures ==>
              && (ExitReason(k, p, price) == Some(StopHit) <==> p.stop <= price)
              && (ExitReason(k, p, price) == Some(TargetHit) <==> price < p.stop && price <= p.target)
  {
  }

  /** What a long position earns: on spot a tenth of a percent of both its values goes in fees, on
      futures 0.055 percent of the closing value. */
  predicate Earned(k: Config, p: Pos, price: real, pnl: real) {
    pnl == (price - p.entry) * p.qty -
           (if k.futures then 0.00055 * price * p.qty else 0.001 * price * p.qty + 0.001 * p.entry * p.qty)
  }

  predicate IsLongAt(k: Config, p: Pos, price: real) {
    && p.side == Long && p.entry == price
    && p.entryFee == EntryFee(k, p.entry, p.qty) && (k.futures ==> p.entryFee == 0.0)
  }

  lemma LongEarns(k: Config, p: Pos, price: real)
    requires IsLongAt(k, p, p.entry)
    ensures Earned(k, p, price, Pnl(k, p, price))
  {
    var value, cost := price * p.qty, p.entry * p.qty;
    assert (price - p.entry) * p.qty == value - cost;
    assert 0.00055 * price * p.qty == 0.00055 * value;
    assert 0.001 * price * p.qty == 0.001 * value && 0.001 * p.entry * p.qty == 0.001 * cost;
  }

  /** A trade is made by the first close after its entry that leaves its stop-target range: at the
      stop or below it, or at the target or above it. */
  ghost predicate FirstExit(k: Config, cs: seq<Candle>, t: Trade) {
    && t.pos.openedAt < t.closedAt < |cs|
    && IsLongAt(k, t.pos, cs[t.pos.openedAt].close) && t.exit == cs[t.closedAt].close
    && !Inside(t.pos, t.exit) && t.reason == (if t.exit <= t.pos.stop then StopHit else TargetHit)
    && Earned(k, t.pos, t.exit, t.pnl)
    && forall j | t.pos.openedAt < j < t.closedAt :: Inside(t.pos, cs[j].close)
  }

  ghost predicate StillOpen(k: Config, cs: seq<Candle>, p: Pos) {
    && p.openedAt < |cs| && IsLongAt(k, p, cs[p.openedAt].close)
    && forall j | p.openedAt < j < |cs| :: Inside(p, cs[j].close)
  }

  /** Trades follow one another without overlap. */
  ghost predicate Disjoint(ts: seq<Trade>) {
    forall i | 0 <= i < |ts| - 1 :: ts[i].closedAt <= ts[i + 1].pos.openedAt
  }

  ghost predicate Orderly(k: Config, cs: seq<Candle>, s: State) {
    && Disjoint(s.closed)
    && (forall i | 0 <= i < |s.closed| :: FirstExit(k, cs, s.closed[i]))
    && (s.pos.Some? ==> StillOpen(k, cs, s.pos.value))
    && (s.pos.Some? && s.closed != [] ==> s.closed[|s.closed| - 1].closedAt <= s.pos.value.openedAt)
  }

  lemma TickKeepsOrder(k: Config, cs: seq<Candle>, s: State)
    requires cs != [] && Orderly(k, cs[..|cs| - 1], s)
    ensures Orderly(k, cs, Tick(k, s, |cs| - 1, cs[|cs| - 1].close))
  {
    var n := |cs| - 1;
    var t := Tick(k, s, n, cs[n].close);
    if s.pos.Some? {
      TickKeepsOpen(k, cs, s.pos.value);
    }
    forall i | 0 <= i < |t.closed| ensures FirstExit(k, cs, t.closed[i]) {
      if i < |s.closed| {
        assert t.closed[i] == s.closed[i];
        FirstExitLasts(k, cs, s.closed[i]);
      }
    }
  }

  lemma EntryKeepsOrder(k: Config, cs: seq<Candle>, t: State, p: Pos)
    requires cs != [] && Orderly(k, cs, t) && t.pos.None?
    requires p.openedAt == |cs| - 1 && IsLongAt(k, p, cs[|cs| - 1].close)
    ensures Orderly(k, cs, t.(pos := Some(p)))
  {
    if t.closed != [] {
      assert FirstExit(k, cs, t.closed[|t.closed| - 1]);
    }
  }

  /** ONE AT A TIME. Trades do not overlap, the open position began no earlier than the last trade
      ended, and every exit is the first close that leaves the range. */
  lemma {:induction false} TradesInOrder(k: Config, cs: seq<Candle>)
    requires k.slMult != 0.0
    ensures Orderly(k, cs, Run(k, cs))
  {
    if cs != [] {
      var n := |cs| - 1;
      TradesInOrder(k, cs[..n]);
      TickKeepsOrder(k, cs, Run(k, cs[..n]));
      var t := Tick(k, Run(k, cs[..n]), n, cs[n].close);
      if t.pos.None? && Entry(k, cs, t.equity).Some? {
        EntryIsLong(k, cs, t.equity);
        EntryKeepsOrder(k, cs, t, Entry(k, cs, t.equity).value);
      }
    }
  }

  lemma FirstExitLasts(k: Config, cs: seq<Candle>, t: Trade)
    requires cs != [] && FirstExit(k, cs[..|cs| - 1], t)
    ensures FirstExit(k, cs, t)
  {
    var shorter := cs[..|cs| - 1];
    assert forall j | 0 <= j < |shorter| :: shorter[j] == cs[j];
  }

  lemma TickKeepsOpen(k: Config, cs: seq<Candle>, p: Pos)
    requires cs != [] && StillOpen(k, cs[..|cs| - 1], p)
    ensures var n := |cs| - 1;
            var r := ExitReason(k, p, cs[n].close);
            if r.None? then StillOpen(k, cs, p)
            else FirstExit(k, cs, Trade(p, n, cs[n].close, Pnl(k, p, cs[n].close), r.value))
  {
    var shorter := cs[..|cs| - 1];
    assert forall j | 0 <= j < |shorter| :: shorter[j] == cs[j];
    LongEarns(k, p, cs[|cs| - 1].close);
  }

  lemma EntryIsLong(k: Config, cs: seq<Candle>, equity: real)
    requires k.slMult != 0.0 && cs != [] && Entry(k, cs, equity).Some?
    ensures IsLongAt(k, Entry(k, cs, equity).value, cs[|cs| - 1].close)
  {
  }

  predicate AllLong(s: State) {
    && (s.pos.Some? ==> s.pos.value.side == Long)
    && (forall i | 0 <= i < |s.closed| :: s.closed[i].pos.side == Long)
  }

  lemma StepStaysLong(k: Config, s: State, cs: seq<Candle>)
    requires k.slMult != 0.0 && cs != [] && AllLong(s)
    ensures AllLong(Step(k, s, cs))
  {
    var t := Tick(k, s, |cs| - 1, cs[|cs| - 1].close);
    assert AllLong(t);
    if t.pos.None? && Entry(k, cs, t.equity).Some? {
      EntryIsLong(k, cs, t.equity);
    }
  }

  /** The imbalance is a constant above one half for both engines, so no run ever goes short: the
      rising-price branch and the short sides of the engines are never taken. */
  lemma {:induction false} NeverShort(k: Config, cs: seq<Candle>)
    requires k.slMult != 0.0
    ensures AllLong(Run(k, cs))
  {
    if cs != [] {
      NeverShort(k, cs[..|cs| - 1]);
      StepStaysLong(k, Run(k, cs[..|cs| - 1]), cs);
    }
  }

  /** A position as the run opened it, from the candles and the equity of that moment. */
  ghost predicate OpenedRight(k: Config, cs: seq<Candle>, p: Pos)
    requires k.slMult > 0.0
  {
    && p.openedAt < |cs|
    && (var seen := cs[..p.openedAt + 1];
        WellOpened(k, seen, Run(k, seen).equity, p) && OpeningOf(k, seen).Some? &&
            LevelsOf(p, OpeningOf(k, seen).value))
  }

  lemma OpenedRightLasts(k: Config, cs: seq<Candle>, p: Pos)
    requires k.slMult > 0.0 && cs != [] && OpenedRight(k, cs[..|cs| - 1], p)
    ensures OpenedRight(k, cs, p)
  {
    assert cs[..|cs| - 1][..p.openedAt + 1] == cs[..p.openedAt + 1];
  }

  lemma OpenedNowRight(k: Config, cs: seq<Candle>, t: State)
    requires k.slMult > 0.0 && cs != [] && t.pos.None? && Entry(k, cs, t.equity).Some? && Run(k, cs).equity == t.equity
    ensures OpenedRight(k, cs, Entry(k, cs, t.equity).value)
  {
    EntryIsSized(k, cs, t.equity);
    EntryLevels(k, cs, t.equity);
    assert cs[..|cs|] == cs;
  }

  /** Every position a run opens, closed since or not, was opened on a fall, long, at the close, at
      the right levels, and in the largest size allowed by the equity of that moment. */
  lemma {:induction false} EveryPositionOpenedRight(k: Config, cs: seq<Candle>)
    requires k.slMult > 0.0
    ensures var s := Run(k, cs);
            && (s.pos.Some? ==> OpenedRight(k, cs, s.pos.value))
            && (forall i | 0 <= i < |s.closed| :: OpenedRight(k, cs, s.closed[i].pos))
  {
    if cs != [] {
      var n := |cs| - 1;
      EveryPositionOpenedRight(k, cs[..n]);
      var before := Run(k, cs[..n]);
      var t := Tick(k, before, n, cs[n].close);
      forall i | 0 <= i < |t.closed| ensures OpenedRight(k, cs, t.closed[i].pos) {
        OpenedRightLasts(k, cs, if i < |before.closed| then before.closed[i].pos else before.pos.value);
      }
      if t.pos.Some? {
        OpenedRightLasts(k, cs, t.pos.value);
      } else if Entry(k, cs, t.equity).Some? {
        OpenedNowRight(k, cs, t);
      }
    }
  }

  /** A price opens a position with this stop: the range and the reference are positive, the fall is
      past the threshold, the stop is apart from the price, and the equity is enough for more than
      half a lot by both shares. */
  predicate OpensAt(k: Config, price: real, ref: real, atr: real, equity: real, stop: real) {
    atr > 0.0 && ref > 0.0 && Fell(k, price, ref) && EnoughFor(k, price, equity, stop)
  }

  /** The rounded price one stop distance below. */
  function StopBelow(k: Config, price: real, atr: real): real
    requires k.slMult != 0.0
  {
    Round8(price - OpeningAt(k, Long, atr).near)
  }

  lemma OpensGivenIff(k: Config, n: nat, price: real, ref: real, atr: real, equity: real, o: Opening, stop: real)
    requires k.slMult > 0.0 && price > 0.0 && o == OpeningAt(k, Long, atr) && stop == Round8(price - o.near)
    ensures var given := OpeningGiven(k, price, ref, atr);
            given.Some? && EntryAt(k, n, price, equity, given.value).Some? <==>
            OpensAt(k, price, ref, atr, equity, stop)
  {
    SignalledIff(k, price, ref, atr);
    EntersIff(k, n, price, equity, o, stop);
  }

  lemma OpensIff(k: Config, cs: seq<Candle>, equity: real, atr: real, stop: real)
    requires k.slMult > 0.0 && |cs| >= 20 && cs[|cs| - 1].close > 0.0
    requires atr == Atr(cs) && stop == StopBelow(k, cs[|cs| - 1].close, atr)
    ensures Entry(k, cs, equity).Some? <==> OpensAt(k, cs[|cs| - 1].close, cs[|cs| - 6].close, atr, equity, stop)
  {
    OpensOn(k, cs);
    OpensGivenIff(k, |cs| - 1, cs[|cs| - 1].close, cs[|cs| - 6].close, atr, equity, OpeningAt(k, Long, atr), stop);
  }

  /** What one more candle does. A position whose levels it stays between is kept, and nothing else
      changes. Otherwise, also when the candle has just closed one, the run holds a position
      afterwards if and only if the candle opens one. */
  lemma RunOpensIff(k: Config, cs: seq<Candle>, atr: real, stop: real)
    requires k.slMult > 0.0 && cs != [] && cs[|cs| - 1].close > 0.0
    requires atr == Atr(cs) && stop == StopBelow(k, cs[|cs| - 1].close, atr)
    ensures var before, after, price := Run(k, cs[..|cs| - 1]), Run(k, cs), cs[|cs| - 1].close;
            if before.pos.Some? && before.pos.value.stop < price < before.pos.value.target then after == before
            else after.pos.Some? <==>
                 |cs| >= 20 && OpensAt(k, price, cs[|cs| - 6].close, atr, after.equity, stop)
  {
    var n := |cs| - 1;
    var before := Run(k, cs[..n]);
    NeverShort(k, cs[..n]);
    if before.pos.Some? {
      ExitIff(k, before.pos.value, cs[n].close);
    }
    OpensOn(k, cs);
    if n >= 19 {
      OpensIff(k, cs, Run(k, cs).equity, atr, stop);
    }
  }

  /** Every position a run opens keeps the minimum reward-to-risk. */
  lemma {:induction false} EveryPositionCovers(k: Config, cs: seq<Candle>)
    requires k.slMult > 0.0
    ensures var s := Run(k, cs);
            && (s.pos.Some? ==> Covers(s.pos.value))
            && (forall i | 0 <= i < |s.closed| :: Covers(s.closed[i].pos))
  {
    if cs != [] {
      var n := |cs| - 1;
      EveryPositionCovers(k, cs[..n]);
      var t := Tick(k, Run(k, cs[..n]), n, cs[n].close);
      if t.pos.None? && Entry(k, cs, t.equity).Some? {
        EntryCovers(k, cs, t.equity);
      }
    }
  }

  /** The reported total profit of a run is its equity change up to rounding. */
  lemma ReportedProfit(k: Config, cs: seq<Candle>)
    requires k.slMult != 0.0
    ensures var s := Run(k, cs);
            Near(ReportedTotal(Pnls(s.closed)), s.equity - k.balance, 0.00005 * (|s.closed| + 1) as real)
  {
    CurveIsLedger(k, cs);
    var s := Run(k, cs);
    ReportedTotalTracksEquity(s.curve, k.balance, Pnls(s.closed));
  }

  // ----- The paper engine on the same candles -----------------------------------------------------------------

  /** The position opened on the last candle, if one was. */
  function OpenedNow(k: Config, cs: seq<Candle>): Option<Pos>
    requires k.slMult != 0.0 && cs != []
  {
    var t := Tick(k, Run(k, cs[..|cs| - 1]), |cs| - 1, cs[|cs| - 1].close);
    if t.pos.Some? then None else Entry(k, cs, t.equity)
  }

  /** What the paper engine is told: every close as a price tick, and the backtest's entries as
      purchases. */
  function PaperEvents(k: Config, cs: seq<Candle>, symbol: string): seq<SpotPaper.Event>
    requires k.slMult != 0.0
  {
    if cs == [] then []
    else
      var n := |cs| - 1;
      PaperEvents(k, cs[..n], symbol) + [SpotPaper.Tick(symbol, cs[n].close, n)] +
      match OpenedNow(k, cs)
      case None => []
      case Some(p) => [SpotPaper.Buy(symbol, p.qty, p.entry, SpotPaper.Guard(p.stop, p.target), n)]
  }

  /** Every entry, with its fee, was within the equity of the moment. The backtest does not check. */
  ghost predicate Affordable(k: Config, cs: seq<Candle>)
    requires k.slMult != 0.0
  {
    cs == [] ||
    (var n := |cs| - 1;
     Affordable(k, cs[..n]) &&
     match OpenedNow(k, cs)
     case None => true
     case Some(p) => PaidFor(p, Run(k, cs).equity))
  }

  predicate PaidFor(p: Pos, equity: real) {
    SpotPaper.BuyCost(p.entry, p.qty) <= equity
  }

  /** The ledger that goes with a state of the backtest. */
  function LedgerOf(s: State, symbol: string): SpotPaper.Ledger {
    match s.pos
    case None => SpotPaper.Ledger(s.equity, map[], map[])
    case Some(p) =>
      SpotPaper.Ledger(s.equity - SpotPaper.BuyCost(p.entry, p.qty),
                       map[symbol := SpotPaper.Holding(p.qty, p.entry, p.entryFee, p.openedAt)],
                       map[symbol := SpotPaper.Guard(p.stop, p.target)])
  }

  /** The paper engine has followed the backtest so far. */
  ghost predicate Followed(a: SpotPaper.Account, s: State, balance: real, symbol: string) {
    && a.ledger == LedgerOf(s, symbol) && a.realised == s.equity - balance
    && (s.pos.Some? ==> s.pos.value.entryFee == SpotPaper.Fee(SpotPaper.Value(s.pos.value.entry, s.pos.value.qty)))
  }

  /** The two engines work out the same profit. */
  lemma SameProfit(k: Config, p: Pos, price: real)
    requires !k.futures && p.entryFee == SpotPaper.Fee(SpotPaper.Value(p.entry, p.qty))
    ensures var h := SpotPaper.Holding(p.qty, p.entry, p.entryFee, p.openedAt);
            && Pnl(k, p, price) == SpotPaper.Proceeds(h, price) - SpotPaper.Basis(h)
            && SpotPaper.Basis(h) == SpotPaper.BuyCost(p.entry, p.qty)
  {
  }

  lemma TickFollows(k: Config, a: SpotPaper.Account, s: State, n: nat, price: real, symbol: string)
    requires !k.futures && Followed(a, s, k.balance, symbol)
    ensures Followed(SpotPaper.Advance(a, SpotPaper.Tick(symbol, price, n), 0), Tick(k, s, n, price), k.balance, symbol)
  {
    if s.pos.Some? {
      SameProfit(k, s.pos.value, price);
      var p := s.pos.value;
      assert map[symbol := SpotPaper.Holding(p.qty, p.entry, p.entryFee, p.openedAt)] - {symbol} == map[];
      assert map[symbol := SpotPaper.Guard(p.stop, p.target)] - {symbol} == map[];
    }
  }

  lemma EntryFollows(k: Config, a: SpotPaper.Account, t: State, p: Pos, symbol: string)
    requires !k.futures && Followed(a, t, k.balance, symbol) && t.pos.None?
    requires p.entryFee == EntryFee(k, p.entry, p.qty) && SpotPaper.BuyCost(p.entry, p.qty) <= t.equity
    ensures var buy := SpotPaper.Buy(symbol, p.qty, p.entry, SpotPaper.Guard(p.stop, p.target), p.openedAt);
            Followed(SpotPaper.Advance(a, buy, 0), t.(pos := Some(p)), k.balance, symbol)
  {
  }

  lemma EntryPaysFee(k: Config, cs: seq<Candle>, equity: real)
    requires k.slMult != 0.0 && cs != [] && Entry(k, cs, equity).Some?
    ensures var p := Entry(k, cs, equity).value; p.entryFee == EntryFee(k, p.entry, p.qty) && p.openedAt == |cs| - 1
  {
  }

  /** SAME TRADES. Fed the same closes and told the same entries, the paper engine, by its own exit
      rule, is at every candle where the spot backtest is: it holds the same position, its balance
      is the equity less what the position cost, and it has realised what the equity gained. */
  lemma {:induction false} PaperFollowsBacktest(k: Config, cs: seq<Candle>, symbol: string)
    requires !k.futures && k.slMult != 0.0 && Affordable(k, cs)
    ensures Followed(SpotPaper.Run(k.balance, PaperEvents(k, cs, symbol), 0), Run(k, cs), k.balance, symbol)
  {
    if cs != [] {
      var n := |cs| - 1;
      PaperFollowsBacktest(k, cs[..n], symbol);
      var before, events := Run(k, cs[..n]), PaperEvents(k, cs[..n], symbol);
      var a, t := SpotPaper.Run(k.balance, events, 0), Tick(k, Run(k, cs[..n]), n, cs[n].close);
      var tick := SpotPaper.Tick(symbol, cs[n].close, n);
      TickFollows(k, a, before, n, cs[n].close, symbol);
      SpotPaper.RunOneMore(k.balance, events, tick, 0);
      if OpenedNow(k, cs).Some? {
        var p := OpenedNow(k, cs).value;
        EntryPaysFee(k, cs, t.equity);
        EntryFollows(k, SpotPaper.Advance(a, tick, 0), t, p, symbol);
        SpotPaper.RunOneMore(k.balance, events + [tick],
                             SpotPaper.Buy(symbol, p.qty, p.entry, SpotPaper.Guard(p.stop, p.target), n), 0);
      } else {
        assert events + [tick] + [] == events + [tick];
      }
    }
  }

  /** The paper engine has been where the backtest was after every candle. */
  ghost predicate FollowsThroughout(k: Config, cs: seq<Candle>, symbol: string)
    requires k.slMult != 0.0
  {
    && Followed(SpotPaper.Run(k.balance, PaperEvents(k, cs, symbol), 0), Run(k, cs), k.balance, symbol)
    && (cs == [] || FollowsThroughout(k, cs[..|cs| - 1], symbol))
  }

  /** An entry beyond the balance is refused, and the two part. */
  lemma RefusedEntryParts(k: Config, a: SpotPaper.Account, t: State, p: Pos, symbol: string)
    requires !k.futures && Followed(a, t, k.balance, symbol) && t.pos.None?
    requires SpotPaper.BuyCost(p.entry, p.qty) > t.equity
    ensures var buy := SpotPaper.Buy(symbol, p.qty, p.entry, SpotPaper.Guard(p.stop, p.target), p.openedAt);
            !Followed(SpotPaper.Advance(a, buy, 0), t.(pos := Some(p)), k.balance, symbol)
  {
    assert symbol in LedgerOf(t.(pos := Some(p)), symbol).holdings && symbol !in LedgerOf(t, symbol).holdings;
  }

  /** The last candle, if the paper engine has followed so far: it goes on following exactly if it
      can pay for an entry. */
  lemma LastCandleFollows(k: Config, cs: seq<Candle>, symbol: string)
    requires !k.futures && k.slMult != 0.0 && cs != []
    requires var before := cs[..|cs| - 1];
             Followed(SpotPaper.Run(k.balance, PaperEvents(k, before, symbol), 0), Run(k, before), k.balance, symbol)
    ensures Followed(SpotPaper.Run(k.balance, PaperEvents(k, cs, symbol), 0), Run(k, cs), k.balance, symbol) <==>
            (OpenedNow(k, cs).Some? ==> PaidFor(OpenedNow(k, cs).value, Run(k, cs).equity))
  {
    var n := |cs| - 1;
    var before, events := Run(k, cs[..n]), PaperEvents(k, cs[..n], symbol);
    var a, t := SpotPaper.Run(k.balance, events, 0), Tick(k, before, n, cs[n].close);
    var tick := SpotPaper.Tick(symbol, cs[n].close, n);
    TickFollows(k, a, before, n, cs[n].close, symbol);
    SpotPaper.RunOneMore(k.balance, events, tick, 0);
    if OpenedNow(k, cs).Some? {
      var p := OpenedNow(k, cs).value;
      EntryPaysFee(k, cs, t.equity);
      SpotPaper.RunOneMore(k.balance, events + [tick],
                           SpotPaper.Buy(symbol, p.qty, p.entry, SpotPaper.Guard(p.stop, p.target), n), 0);
      if PaidFor(p, t.equity) {
        EntryFollows(k, SpotPaper.Advance(a, tick, 0), t, p, symbol);
      } else {
        RefusedEntryParts(k, SpotPaper.Advance(a, tick, 0), t, p, symbol);
      }
    } else {
      assert events + [tick] + [] == events + [tick];
    }
  }

  /** It follows throughout exactly when it could pay for every entry: the backtest spends money it
      may not have, the paper engine does not. */
  lemma {:induction false} FollowsThroughoutIff(k: Config, cs: seq<Candle>, symbol: string)
    requires !k.futures && k.slMult != 0.0
    ensures FollowsThroughout(k, cs, symbol) <==> Affordable(k, cs)
  {
    if cs != [] {
      FollowsThroughoutIff(k, cs[..|cs| - 1], symbol);
      if FollowsThroughout(k, cs[..|cs| - 1], symbol) {
        LastCandleFollows(k, cs, symbol);
      }
    }
  }

  // ----- When every entry can be paid for ---------------------------------------------------------------------

  /** A quantity of at most twice a share of the equity costs at most the equity. */
  lemma ShareCost(entry: real, qty: real, equity: real, share: real, q: real)
    requires entry > 0.0 && 0.0 <= share && 2.002 * share <= 1.0 && equity > 0.0
    requires q * entry == equity * share && qty <= 2.0 * q
    ensures SpotPaper.BuyCost(entry, qty) <= equity
  {
    assert (2.0 * q - qty) * entry >= 0.0;
    assert (2.0 * q) * entry == 2.0 * (equity * share);
    assert equity * (1.0 - 2.002 * share) >= 0.0;
    assert equity * (2.002 * share) == 2.002 * (equity * share);
    assert SpotPaper.BuyCost(entry, qty) == 1.001 * (entry * qty);
  }

  /** A rounded quantity is zero or at least half a lot before rounding. */
  lemma RoundedPositive(x: real)
    requires Round8(x) > 0.0
    ensures x >= HALF_LOT && Round8(x) <= x + HALF_LOT
  {
    Round8Near(x);
    var n := RoundHalfEven(x * PRICE_SCALE);
    assert n >= 1;
    assert x * PRICE_SCALE >= 0.5;
  }

  lemma SizedEntryIsPaidFor(k: Config, equity: real, entry: real, stop: real, qty: real)
    requires 0.0 <= k.maxPct && 2.002 * k.maxPct <= 1.0 && entry > 0.0
    requires qty == RiskQty(k, equity, entry, stop) && qty > 0.0
    ensures SpotPaper.BuyCost(entry, qty) <= equity
  {
    var size := Min(RiskShare(k, equity, entry, stop), EquityShare(k, equity, entry));
    RoundedPositive(size);
    var share := EquityShare(k, equity, entry);
    DivMul(equity * k.maxPct, entry);
    PositiveEquity(equity, k.maxPct, entry, share);
    ShareCost(entry, qty, equity, k.maxPct, share);
  }

  lemma PositiveEquity(equity: real, share: real, entry: real, q: real)
    requires entry > 0.0 && share >= 0.0 && q > 0.0 && q * entry == equity * share
    ensures equity > 0.0
  {
    assert q * entry > 0.0;
    assert share != 0.0;
    SignFromProduct(equity, share);
  }

  lemma EntryIsPaidFor(k: Config, n: nat, price: real, equity: real, o: Opening)
    requires 0.0 <= k.maxPct && 2.002 * k.maxPct <= 1.0 && price > 0.0
    requires EntryAt(k, n, price, equity, o).Some?
    ensures PaidFor(EntryAt(k, n, price, equity, o).value, equity)
  {
    SizedEntryIsPaidFor(k, equity, price, LevelsAt(price, o.near, o.far, o.side).0,
                        EntryAt(k, n, price, equity, o).value.qty);
  }

  /** A condition to check before a run: with positive closes, a largest share of at most 1/2.002 of
      the equity leaves room for the fee and for rounding, so every entry is paid for. */
  lemma {:induction false} SmallShareIsAffordable(k: Config, cs: seq<Candle>)
    requires k.slMult != 0.0 && 0.0 <= k.maxPct && 2.002 * k.maxPct <= 1.0
    requires forall i | 0 <= i < |cs| :: cs[i].close > 0.0
    ensures Affordable(k, cs)
  {
    if cs != [] {
      var n := |cs| - 1;
      assert forall i | 0 <= i < n :: cs[..n][i] == cs[i];
      SmallShareIsAffordable(k, cs[..n]);
      if OpenedNow(k, cs).Some? {
        EntryIsPaidFor(k, n, cs[n].close, Run(k, cs).equity, OpeningOf(k, cs).value);
      }
    }
  }

  // ----- An entry that cannot ---------------------------------------------------------------------------------

  const BIG_SHARE := Config(false, 1000.0, 10.0, 1.0, 0.7, 1.4, 2.0)

  function Steady(price: real): Candle {
    Candle(0, price, price, price)
  }

  function Flat(n: nat): (cs: seq<Candle>)
    ensures |cs| == n && forall i | 0 <= i < n :: cs[i] == Steady(100.0)
  {
    seq(n, _ => Steady(100.0))
  }

  lemma {:induction false} NothingHappens(n: nat)
    requires n < MIN_CANDLES
    ensures Run(BIG_SHARE, Flat(n)) == State(None, 1000.0, [1000.0], [])
  {
    if n > 0 {
      assert Flat(n)[..n - 1] == Flat(n - 1);
      NothingHappens(n - 1);
    }
  }

  lemma {:induction false} SumOfZeros(xs: seq<real>)
    requires forall i | 0 <= i < |xs| :: xs[i] == 0.0
    ensures Sum(xs) == 0.0
  {
    if xs != [] { SumOfZeros(xs[..|xs| - 1]); }
  }

  /** The average true range after nineteen flat candles and a fall by 20. */
  lemma AtrOfFall(cs: seq<Candle>)
    requires cs == Flat(19) + [Steady(80.0)]
    ensures Atr(Last(cs, ATR_WINDOW)) == 20.0 / 14.0
  {
    assert Last(cs, ATR_WINDOW) == cs;
    var recent := Last(TrueRanges(cs), ATR_PERIOD);
    forall i | 0 <= i < 13 ensures recent[i] == 0.0 {
      assert recent[i] == TrueRanges(cs)[5 + i] == TrueRange(cs[5 + i], cs[6 + i]);
    }
    assert recent[13] == TrueRanges(cs)[18] == TrueRange(cs[18], cs[19]) == 20.0;
    SumOfZeros(recent[..13]);
  }

  lemma OpeningOfFall(cs: seq<Candle>)
    requires cs == Flat(19) + [Steady(80.0)]
    ensures OpeningOf(BIG_SHARE, cs) == Some(Opening(Long, 1.0, 2.0))
  {
    AtrOfFall(cs);
    assert cs[14] == Steady(100.0) && cs[19] == Steady(80.0);
    assert SpikeBps(80.0, 100.0) == -2000.0;
  }

  lemma EntryOfFall()
    ensures EntryAt(BIG_SHARE, 19, 80.0, 1000.0, Opening(Long, 1.0, 2.0)) ==
            Some(Pos(19, Long, 80.0, 25.0, 80.0 * 25.0 * 0.001, 79.0, 82.0))
  {
    assert Round8(79.0) == 79.0 && Round8(82.0) == 82.0;
    assert RiskShare(BIG_SHARE, 1000.0, 80.0, 79.0) == 1000.0 && EquityShare(BIG_SHARE, 1000.0, 80.0) == 25.0;
    assert Round8(25.0) == 25.0;
  }

  /** With a balance of 1000 and twice the equity allowed in a position, nineteen candles at 100 and
      one at 80 open a position of 25 at 80, which costs 2002. */
  lemma UnaffordableEntryOccurs()
    ensures !Affordable(BIG_SHARE, Flat(19) + [Steady(80.0)])
  {
    var cs := Flat(19) + [Steady(80.0)];
    assert cs[..19] == Flat(19);
    NothingHappens(19);
    OpeningOfFall(cs);
    EntryOfFall();
    assert OpenedNow(BIG_SHARE, cs) == Entry(BIG_SHARE, cs, 1000.0);
    assert Run(BIG_SHARE, cs).equity == 1000.0;
    assert SpotPaper.BuyCost(80.0, 25.0) == 2002.0;
  }

  // ----- The runner ---------------------------------------------------------------------------------------------

  class Runner {
    const k: Config
    var pos: Option<Pos>

    constructor (k: Config)
      ensures this.k == k && pos == None
    {
      this.k := k;
      pos := None;
    }

    /** Check the open position against one close. */
    method TickPrice(n: nat, price: real) returns (trades: seq<Trade>)
      modifies this
      ensures if old(pos).None? || ExitReason(k, old(pos).value, price).None? then trades == [] && pos == old(pos)
              else trades == [Trade(old(pos).value, n, price, Pnl(k, old(pos).value, price),
                  ExitReason(k, old(pos).value, price).value)] &&
                   pos == None
    {
      if pos.None? {
        return [];
      }
      var p := pos.value;
      var reason := ExitReason(k, p, price);
      if reason.None? {
        return [];
      }
      trades := [Trade(p, n, price, Pnl(k, p, price), reason.value)];
      pos := None;
    }

    method RunBacktest(candles: seq<Candle>) returns (equity: real, curve: seq<real>, closed: seq<Trade>)
      requires k.slMult != 0.0 && pos == None
      modifies this
      ensures State(pos, equity, curve, closed) == Run(k, candles)
    {
      equity, curve, closed := k.balance, [k.balance], [];
      for i := 0 to |candles|
        invariant State(pos, equity, curve, closed) == Run(k, candles[..i])
      {
        ghost var before := Run(k, candles[..i]);
        var seen := candles[..i + 1];
        assert seen[..i] == candles[..i];
        var price := candles[i].close;
        var trades := TickPrice(i, price);
        for j := 0 to |trades|
          invariant j == 0 ==> State(before.pos, equity, curve, closed) == before
          invariant j == 1 ==> State(pos, equity, curve, closed) == Tick(k, before, i, price)
        {
          equity := equity + trades[j].pnl;
          curve := curve + [equity];
          closed := closed + [trades[j]];
        }
        assert State(pos, equity, curve, closed) == Tick(k, before, i, price);
        if pos.Some? {
          continue;
        }
        pos := TryOpen(seen, equity);
      }
      assert candles[..|candles|] == candles;
    }

    method TryOpen(seen: seq<Candle>, equity: real) returns (entry: Option<Pos>)
      requires k.slMult != 0.0 && seen != []
      ensures entry == Entry(k, seen, equity)
    {
      var opening := FindOpening(seen);
      if opening.None? {
        return None;
      }
      var price := seen[|seen| - 1].close;
      var o := opening.value;
      var (stop, target) := LevelsAt(price, o.near, o.far, o.side);
      var qty := RiskQty(k, equity, price, stop);
      if qty <= 0.0 {
        return None;
      }
      if !k.futures && o.side != Long {
        return None;
      }
      return Some(Pos(|seen| - 1, o.side, price, qty, EntryFee(k, price, qty), stop, target));
    }

    method FindOpening(seen: seq<Candle>) returns (opening: Option<Opening>)
      requires k.slMult != 0.0 && seen != []
      ensures opening == OpeningOf(k, seen)
    {
      if |seen| < MIN_CANDLES {
        return None;
      }
      var atr := CalcAtr(Last(seen, ATR_WINDOW));
      if atr <= 0.0 {
        return None;
      }
      var ref := seen[|seen| - 6].close;
      if ref <= 0.0 {
        return None;
      }
      var side := Signal(k, SpikeBps(seen[|seen| - 1].close, ref));
      if side.None? {
        return None;
      }
      return Some(OpeningAt(k, side.value, atr));
    }
  }
}
