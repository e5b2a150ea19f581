/** The round-trip outcome of one signal, computed from volume-weighted prices, and its
    agreement with the average-cost ledger. */
module SignalOutcome {
  import opened PositionLedger
  import opened RealArith

  datatype Outcome = NoOutcome | Outcome(entry: real, exit: real, matched: real, gross: real)

  // ----- Totals --------------------------------------------------------------------------

  function QtyAs(f: Fill, side: Side): real {
    if Valid(f) && f.side == side then f.qty else 0.0
  }

  function NotionalAs(f: Fill, side: Side): real {
    if Valid(f) && f.side == side then f.price * f.qty else 0.0
  }

  function QtyOn(fills: seq<Fill>, side: Side): real {
    if fills == [] then 0.0 else QtyOn(fills[..|fills| - 1], side) + QtyAs(fills[|fills| - 1], side)
  }

  function NotionalOn(fills: seq<Fill>, side: Side): real {
    if fills == [] then 0.0 else NotionalOn(fills[..|fills| - 1], side) + NotionalAs(fills[|fills| - 1], side)
  }

  function RoundTrip(bq: real, bn: real, sq: real, sn: real): Outcome {
    if bq <= 0.0 || bn <= 0.0 || sq <= 0.0 || sn <= 0.0 then NoOutcome
    else
      var entry, exit, matched := bn / bq, sn / sq, Min(bq, sq);
      Outcome(entry, exit, matched, (exit - entry) * matched)
  }

  function OutcomeOf(fills: seq<Fill>): Outcome {
    RoundTrip(QtyOn(fills, Buy), NotionalOn(fills, Buy), QtyOn(fills, Sell), NotionalOn(fills, Sell))
  }

  /** The accumulation loop over a signal's executions. */
  method Accumulate(rows: seq<Fill>) returns (buyQty: real, buyNotional: real, sellQty: real, sellNotional: real)
    ensures buyQty == QtyOn(rows, Buy) && buyNotional == NotionalOn(rows, Buy)
    ensures sellQty == QtyOn(rows, Sell) && sellNotional == NotionalOn(rows, Sell)
  {
    buyQty, buyNotional, sellQty, sellNotional := 0.0, 0.0, 0.0, 0.0;
    for i := 0 to |rows|
      invariant buyQty == QtyOn(rows[..i], Buy) && buyNotional == NotionalOn(rows[..i], Buy)
      invariant sellQty == QtyOn(rows[..i], Sell) && sellNotional == NotionalOn(rows[..i], Sell)
    {
      var row := rows[i];
      assert rows[..i + 1][..i] == rows[..i];
      if row.price > 0.0 && row.qty > 0.0 {
        if row.side == Buy {
          buyQty := buyQty + row.qty;
          buyNotional := buyNotional + row.price * row.qty;
        } else if row.side == Sell {
          sellQty := sellQty + row.qty;
          sellNotional := sellNotional + row.price * row.qty;
        }
      }
    }
    assert rows[..|rows|] == rows;
  }

  method SyncSignalOutcome(rows: seq<Fill>) returns (outcome: Outcome)
    ensures outcome == OutcomeOf(rows)
  {
    var buyQty, buyNotional, sellQty, sellNotional := Accumulate(rows);
    if buyQty <= 0.0 || buyNotional <= 0.0 {
      return NoOutcome;
    }
    var entry := buyNotional / buyQty;
    if sellQty <= 0.0 || sellNotional <= 0.0 {
      return NoOutcome;
    }
    var exit := sellNotional / sellQty;
    var matched := Min(buyQty, sellQty);
    return Outcome(entry, exit, matched, (exit - entry) * matched);
  }

  lemma CostBySide(f: Fill)
    ensures CostOf(f) == NotionalAs(f, Buy) - NotionalAs(f, Sell)
  {
    if Valid(f) {
      if f.side == Buy { assert CostOf(f) == f.qty * f.price; }
      else { assert CostOf(f) == (-f.qty) * f.price == -(f.price * f.qty); }
    }
  }

  // ----- Totals and the ledger -------------------------------------------------------------

  lemma {:induction false} TotalsAreNet(fills: seq<Fill>)
    ensures NetQty(fills) == QtyOn(fills, Buy) - QtyOn(fills, Sell)
    ensures NetCash(fills) == NotionalOn(fills, Sell) - NotionalOn(fills, Buy)
  {
    if fills != [] {
      var f := fills[|fills| - 1];
      TotalsAreNet(fills[..|fills| - 1]);
      assert Signed(f) == QtyAs(f, Buy) - QtyAs(f, Sell);
      assert CostOf(f) == NotionalAs(f, Buy) - NotionalAs(f, Sell) by { CostBySide(f); }
    }
  }

  lemma {:induction false} NotionalPositiveIff(fills: seq<Fill>, side: Side)
    ensures QtyOn(fills, side) >= 0.0 && NotionalOn(fills, side) >= 0.0
    ensures QtyOn(fills, side) > 0.0 <==> NotionalOn(fills, side) > 0.0
  {
    if fills != [] {
      NotionalPositiveIff(fills[..|fills| - 1], side);
      var f := fills[|fills| - 1];
      if Valid(f) { assert f.price * f.qty > 0.0; }
    }
  }

  /** An outcome exists exactly when something was bought and something was sold. */
  lemma OutcomeIff(fills: seq<Fill>)
    ensures OutcomeOf(fills).Outcome? <==> QtyOn(fills, Buy) > 0.0 && QtyOn(fills, Sell) > 0.0
  {
    NotionalPositiveIff(fills, Buy);
    NotionalPositiveIff(fills, Sell);
  }

  /** x / y * y with a smaller multiplier falls short by a positive amount. */
  lemma ScaledDown(x: real, y: real, m: real)
    requires x > 0.0 && y > 0.0 && 0.0 < m <= y
    ensures (x / y) * m <= x
    ensures (x / y) * m == x <==> m == y
  {
    var u := x / y;
    assert u * y == x;
    assert u > 0.0;
    var gap := y - m;
    assert u * gap == x - u * m;
    if gap > 0.0 { assert u * gap > 0.0; }
  }

  lemma RoundTripGross(bq: real, bn: real, sq: real, sn: real)
    requires bq > 0.0 && bn > 0.0 && sq > 0.0 && sn > 0.0
    ensures RoundTrip(bq, bn, sq, sn).gross == sn - bn <==> bq == sq
  {
    var m := Min(bq, sq);
    var entry, exit := bn / bq, sn / sq;
    ScaledDown(bn, bq, m);
    ScaledDown(sn, sq, m);
    assert (exit - entry) * m == exit * m - entry * m;
  }

  /** The volume-weighted gross is the signal's cash flow exactly when as much was sold as was
      bought. */
  lemma GrossIsCashFlowIff(fills: seq<Fill>)
    requires OutcomeOf(fills).Outcome?
    ensures OutcomeOf(fills).gross == NetCash(fills) <==> NetQty(fills) == 0.0
  {
    TotalsAreNet(fills);
    RoundTripGross(QtyOn(fills, Buy), NotionalOn(fills, Buy), QtyOn(fills, Sell), NotionalOn(fills, Sell));
  }

  /** On a flat round trip the two computations agree: volume-weighted prices and realised
      profit at average cost, whatever partial closes and flips happened on the way. */
  lemma TwoComputationsAgree(fills: seq<Fill>)
    requires NetQty(fills) == 0.0 && QtyOn(fills, Buy) > 0.0
    ensures OutcomeOf(fills).Outcome?
    ensures OutcomeOf(fills).gross == Realised(fills)
    ensures OutcomeOf(fills).gross == NotionalOn(fills, Sell) - NotionalOn(fills, Buy)
  {
    TotalsAreNet(fills);
    OutcomeIff(fills);
    GrossIsCashFlowIff(fills);
    FlatRealisesCash(fills);
  }

  // ----- The position-flat formula ---------------------------------------------------------

  /** What the refresh loop records when a fill closes the position it had before. */
  function PositionFlatGross(held: Position, price: real): real {
    var entry := if held.avg > 0.0 then held.avg else price;
    if Abs(held.qty) > 0.0 then
      (if held.qty > 0.0 then (price - entry) * Abs(held.qty) else (entry - price) * Abs(held.qty))
    else 0.0
  }

  /** Profit at this price on each unit of a position. */
  function UnitGain(p: Position, price: real): real {
    if p.qty > 0.0 then price - p.avg else p.avg - price
  }

  /** What a fill leaves of the position it met: the remainder the refresh loop writes off when it
      is below the floor. */
  function LeftOpen(p: Position, f: Fill): real {
    Abs(p.qty) - ClosedBy(p, f)
  }

  /** The loop records its gross whenever what is left is below the floor, and books the whole old
      quantity. Against what the fill realises, the record is too large by the gain on the part
      left open; so it is exact if and only if nothing of the position was left or the price is
      the average. */
  lemma RecordedGrossIff(p: Position, f: Fill)
    requires Valid(f) && (p.qty != 0.0 ==> p.avg > 0.0)
    ensures PositionFlatGross(p, f.price) == RealisedBy(p, f) + UnitGain(p, f.price) * LeftOpen(p, f)
    ensures PositionFlatGross(p, f.price) == RealisedBy(p, f) <==> LeftOpen(p, f) == 0.0 || f.price == p.avg
  {
    var gain, left := UnitGain(p, f.price), LeftOpen(p, f);
    if p.qty == 0.0 {
      assert LeftOpen(p, f) == 0.0 && RealisedBy(p, f) == 0.0;
    } else {
      SplitProduct(gain, ClosedBy(p, f), left);
      NonZeroProduct(gain, left);
    }
  }

  lemma SplitProduct(gain: real, x: real, y: real)
    ensures gain * (x + y) == gain * x + gain * y
  {
  }

  lemma NonZeroProduct(x: real, y: real)
    ensures x * y == 0.0 <==> x == 0.0 || y == 0.0
  {
    if y != 0.0 { SignOfProduct(x, y); }
  }

  /** Over a whole signal: what the last fill records is everything the signal has realised if and
      only if what had been realised before it is the gain on the part it left open. */
  lemma RecordIsRealisedIff(entries: seq<Fill>, last: Fill, p: Position)
    requires Valid(last) && p == Replay(entries)
    ensures PositionFlatGross(p, last.price) == Realised(entries + [last]) <==>
            Realised(entries) == UnitGain(p, last.price) * LeftOpen(p, last)
  {
    RealisedStep(entries, last);
    HasAverage(entries);
    RecordAgainst(p, last, Realised(entries), Realised(entries + [last]));
  }

  lemma RealisedStep(entries: seq<Fill>, last: Fill)
    ensures Realised(entries + [last]) == Realised(entries) + RealisedBy(Replay(entries), last)
  {
    assert (entries + [last])[..|entries|] == entries;
  }

  lemma HasAverage(fills: seq<Fill>)
    ensures Replay(fills).qty != 0.0 ==> Replay(fills).avg > 0.0
  {
    AverageWithinLeg(fills);
  }

  lemma RecordAgainst(p: Position, f: Fill, before: real, after: real)
    requires Valid(f) && (p.qty != 0.0 ==> p.avg > 0.0) && after == before + RealisedBy(p, f)
    ensures PositionFlatGross(p, f.price) == after <==> before == UnitGain(p, f.price) * LeftOpen(p, f)
  {
    RecordedGrossIff(p, f);
  }

  /** When one fill closes the position exactly, the recorded formula gives the signal's
      volume-weighted result exactly when nothing had been realised before it. */
  lemma FlatFormulaAgreesIff(entries: seq<Fill>, close: Fill, p: Position)
    requires p == Replay(entries) && p.qty != 0.0 && Valid(close) && p.qty + Signed(close) == 0.0
    ensures OutcomeOf(entries + [close]).Outcome?
    ensures PositionFlatGross(p, close.price) == OutcomeOf(entries + [close]).gross <==> Realised(entries) == 0.0
  {
    ExactCloseRealises(entries, close);
    HasAverage(entries);
    RecordOfExactClose(p, close, Realised(entries), Realised(entries + [close]));
  }

  lemma ExactCloseRealises(entries: seq<Fill>, close: Fill)
    requires Valid(close) && Replay(entries).qty + Signed(close) == 0.0
    ensures OutcomeOf(entries + [close]).Outcome?
    ensures OutcomeOf(entries + [close]).gross == Realised(entries + [close])
    ensures Realised(entries + [close]) == Realised(entries) + RealisedBy(Replay(entries), close)
  {
    RealisedStep(entries, close);
    QtyIsNet(entries);
    NetStep(entries, close);
    BothSidesTraded(entries + [close], close);
    TwoComputationsAgree(entries + [close]);
  }

  lemma NetStep(entries: seq<Fill>, last: Fill)
    ensures NetQty(entries + [last]) == NetQty(entries) + Signed(last)
  {
    assert (entries + [last])[..|entries|] == entries;
  }

  lemma RecordOfExactClose(p: Position, close: Fill, before: real, after: real)
    requires Valid(close) && p.qty != 0.0 && p.avg > 0.0 && p.qty + Signed(close) == 0.0
    requires after == before + RealisedBy(p, close)
    ensures PositionFlatGross(p, close.price) == after <==> before == 0.0
  {
    OppositeCloses(p, close);
    RecordedGrossIff(p, close);
  }

  lemma BothSidesTraded(fills: seq<Fill>, last: Fill)
    requires fills != [] && fills[|fills| - 1] == last && Valid(last) && NetQty(fills) == 0.0
    ensures QtyOn(fills, Buy) > 0.0
  {
    TotalsAreNet(fills);
    NotionalPositiveIff(fills[..|fills| - 1], Buy);
    NotionalPositiveIff(fills[..|fills| - 1], Sell);
  }

  /** Entries on one side realise nothing, so a single closing fill agrees. */
  lemma {:induction false} OneSidedRealisesNothing(fills: seq<Fill>, side: Side)
    requires forall i | 0 <= i < |fills| && Valid(fills[i]) :: fills[i].side == side
    ensures Realised(fills) == 0.0
    ensures if side == Buy then Replay(fills).qty >= 0.0 else Replay(fills).qty <= 0.0
  {
    if fills != [] {
      var n := |fills| - 1;
      assert forall i | 0 <= i < n :: fills[..n][i] == fills[i];
      OneSidedRealisesNothing(fills[..n], side);
      SameSideRealisesNothing(Replay(fills[..n]), fills[n], side);
    }
  }

  /** Entries all on one side leave a position worth, at cost, their whole notional. */
  lemma OneSidedTotals(fills: seq<Fill>, side: Side)
    requires side != OtherSide
    requires forall i | 0 <= i < |fills| && Valid(fills[i]) :: fills[i].side == side
    ensures forall other | other != side :: QtyOn(fills, other) == NotionalOn(fills, other) == 0.0
    ensures Sized(Replay(fills), side, QtyOn(fills, side), NotionalOn(fills, side))
  {
    OneSidedRealisesNothing(fills, side);
    OtherSideEmpty(fills, side);
    LedgerIdentity(fills);
    TotalsAreNet(fills);
    SizedFromBooks(Replay(fills), side, NetQty(fills), NetCash(fills), QtyOn(fills, side), NotionalOn(fills, side));
  }

  /** A position on one side with this size and this value at cost. */
  predicate Sized(p: Position, side: Side, size: real, notional: real) {
    p.qty == (if side == Buy then size else -size) && size * p.avg == notional
  }

  lemma SizedFromBooks(p: Position, side: Side, net: real, cash: real, size: real, notional: real)
    requires Balanced(p, net, cash, 0.0)
    requires if side == Buy then net == size && cash == -notional else net == -size && cash == notional
    ensures Sized(p, side, size, notional)
  {
    if side != Buy { assert p.qty * p.avg == -(size * p.avg); }
  }

  lemma {:induction false} OtherSideEmpty(fills: seq<Fill>, side: Side)
    requires forall i | 0 <= i < |fills| && Valid(fills[i]) :: fills[i].side == side
    ensures forall other | other != side :: QtyOn(fills, other) == NotionalOn(fills, other) == 0.0
  {
    if fills != [] {
      var n := |fills| - 1;
      assert forall i | 0 <= i < n :: fills[..n][i] == fills[i];
      OtherSideEmpty(fills[..n], side);
    }
  }

  /** ONE CLOSE. After entries on one side, a single opposite fill of any size, short of the
      position, exact or through it, has a volume-weighted gross that is what it realises. So the
      record agrees with it if and only if nothing was left open or the price is the average. */
  lemma OneCloseAgreesIff(entries: seq<Fill>, close: Fill, side: Side, p: Position, outcome: Outcome)
    requires side != OtherSide && p == Replay(entries) && p.qty != 0.0 && outcome == OutcomeOf(entries + [close])
    requires forall i | 0 <= i < |entries| && Valid(entries[i]) :: entries[i].side == side
    requires Valid(close) && close.side != side
    ensures outcome.Outcome? && outcome.gross == RealisedBy(p, close)
    ensures PositionFlatGross(p, close.price) == outcome.gross <==> LeftOpen(p, close) == 0.0 || close.price == p.avg
  {
    var size, notional := QtyOn(entries, side), NotionalOn(entries, side);
    OneSidedTotals(entries, side);
    NotionalPositiveIff(entries, side);
    HasAverage(entries);
    OneMoreTotals(entries, close, side, size, notional);
    OneCloseGross(p, side, size, notional, close);
    RecordedGrossIff(p, close);
  }

  lemma OneMoreTotals(entries: seq<Fill>, close: Fill, side: Side, size: real, notional: real)
    requires side != OtherSide && Valid(close) && close.side != side
    requires size == QtyOn(entries, side) && notional == NotionalOn(entries, side)
    requires QtyOn(entries, close.side) == NotionalOn(entries, close.side) == 0.0
    ensures OutcomeOf(entries + [close]) == OneClose(side, size, notional, close)
  {
    OneMore(entries, close, side);
    OneMore(entries, close, close.side);
  }

  lemma OneMore(fills: seq<Fill>, f: Fill, side: Side)
    ensures QtyOn(fills + [f], side) == QtyOn(fills, side) + QtyAs(f, side)
    ensures NotionalOn(fills + [f], side) == NotionalOn(fills, side) + NotionalAs(f, side)
  {
    assert (fills + [f])[..|fills|] == fills;
  }

  /** The round trip of one side's totals against one fill. */
  function OneClose(side: Side, size: real, notional: real, close: Fill): Outcome {
    if side == Buy then RoundTrip(size, notional, close.qty, NotionalAs(close, close.side))
    else RoundTrip(close.qty, NotionalAs(close, close.side), size, notional)
  }

  lemma OneCloseGross(p: Position, side: Side, size: real, notional: real, close: Fill)
    requires Sized(p, side, size, notional) && size > 0.0 && notional > 0.0
    requires Valid(close) && side != OtherSide && close.side != side
    ensures OneClose(side, size, notional, close).Outcome?
    ensures OneClose(side, size, notional, close).gross == RealisedBy(p, close)
  {
    if side == Buy {
      LongCloseGross(p, size, notional, close);
    } else {
      ShortCloseGross(p, size, notional, close);
    }
  }

  lemma LongCloseGross(p: Position, size: real, notional: real, close: Fill)
    requires Sized(p, Buy, size, notional) && size > 0.0 && notional > 0.0 && Valid(close) && close.side == Sell
    ensures var trip := RoundTrip(size, notional, close.qty, NotionalAs(close, Sell));
            trip.Outcome? && trip.gross == RealisedBy(p, close)
  {
    NotionalPositive(close);
    OppositeCloses(p, close);
    TripAt(size, notional, close.qty, NotionalAs(close, Sell), p.avg, close.price);
  }

  lemma ShortCloseGross(p: Position, size: real, notional: real, close: Fill)
    requires Sized(p, Sell, size, notional) && size > 0.0 && notional > 0.0 && Valid(close) && close.side == Buy
    ensures var trip := RoundTrip(close.qty, NotionalAs(close, Buy), size, notional);
            trip.Outcome? && trip.gross == RealisedBy(p, close)
  {
    NotionalPositive(close);
    OppositeCloses(p, close);
    TripAt(close.qty, NotionalAs(close, Buy), size, notional, close.price, p.avg);
  }

  lemma NotionalPositive(f: Fill)
    requires Valid(f)
    ensures NotionalAs(f, f.side) == f.qty * f.price > 0.0
  {
    assert f.qty * f.price > 0.0;
  }

  /** A round trip whose volume-weighted prices are known. */
  lemma TripAt(bq: real, bn: real, sq: real, sn: real, entry: real, exit: real)
    requires bq > 0.0 && bn > 0.0 && sq > 0.0 && sn > 0.0 && bq * entry == bn && sq * exit == sn
    ensures RoundTrip(bq, bn, sq, sn) == Outcome(entry, exit, Min(bq, sq), (exit - entry) * Min(bq, sq))
  {
    Quotient(bn, bq, entry);
    Quotient(sn, sq, exit);
  }

  lemma OppositeCloses(p: Position, close: Fill)
    requires Valid(close) && Opposite(p, close)
    ensures ClosedBy(p, close) == Min(Abs(p.qty), close.qty)
  {
    SignOfProduct(p.qty, Signed(close));
  }

  lemma Quotient(x: real, y: real, q: real)
    requires y > 0.0 && (y * q == x || q * y == x)
    ensures x / y == q
  {
    DivMul(x, y);
    assert (x / y - q) * y == 0.0;
    NonZeroProduct(x / y - q, y);
  }

  lemma SameSideRealisesNothing(p: Position, f: Fill, side: Side)
    requires if side == Buy then p.qty >= 0.0 else p.qty <= 0.0
    requires Valid(f) ==> f.side == side
    ensures RealisedBy(p, f) == 0.0
    ensures if side == Buy then ApplyFill(p, f).qty >= 0.0 else ApplyFill(p, f).qty <= 0.0
  {
    if Valid(f) {
      SignOfProduct(p.qty, Signed(f));
      assert p.qty * Signed(f) >= 0.0;
    }
    assert ClosedBy(p, f) == 0.0;
  }

  // ----- Fees taken in the base coin -------------------------------------------------------

  /** An execution with the part of its fee that is charged in the base coin (0 otherwise). */
  datatype Trade = Trade(fill: Fill, baseFee: real)

  /** The quantity by which the wallet, and the tracked position, really moves. */
  function Effective(t: Trade): Fill {
    var f := t.fill;
    if f.side == Buy then f.(qty := if f.qty - t.baseFee > 0.0 then f.qty - t.baseFee else 0.0)
    else f.(qty := f.qty + (if t.baseFee > 0.0 then t.baseFee else 0.0))
  }

  function Fills(ts: seq<Trade>): (r: seq<Fill>)
    ensures |r| == |ts| && forall i | 0 <= i < |ts| :: r[i] == ts[i].fill
  {
    seq(|ts|, i requires 0 <= i < |ts| => ts[i].fill)
  }

  function EffectiveFills(ts: seq<Trade>): (r: seq<Fill>)
    ensures |r| == |ts| && forall i | 0 <= i < |ts| :: r[i] == Effective(ts[i])
  {
    seq(|ts|, i requires 0 <= i < |ts| => Effective(ts[i]))
  }

  /** Quantity lost to base-coin fees: bought but not received, or paid on top of a sale. */
  function LostToFees(ts: seq<Trade>): real {
    if ts == [] then 0.0
    else
      var t := ts[|ts| - 1];
      LostToFees(ts[..|ts| - 1]) +
      (if t.fill.side == Buy then t.fill.qty - Effective(t).qty else Effective(t).qty - t.fill.qty)
  }

  /** The part of a trade's quantity that its base-coin fee takes: of a purchase no more than was
      bought, and a rebate adds to it; of a sale the fee, and a rebate changes nothing. */
  function FeeTaken(t: Trade): real {
    if t.fill.side == Buy then Min(t.baseFee, t.fill.qty) else Max(t.baseFee, 0.0)
  }

  function FeesTaken(ts: seq<Trade>): real {
    if ts == [] then 0.0 else FeesTaken(ts[..|ts| - 1]) + FeeTaken(ts[|ts| - 1])
  }

  lemma {:induction false} LostIsFees(ts: seq<Trade>)
    ensures LostToFees(ts) == FeesTaken(ts)
  {
    if ts != [] {
      LostIsFees(ts[..|ts| - 1]);
    }
  }

  lemma {:induction false} EffectiveNet(ts: seq<Trade>)
    requires forall i | 0 <= i < |ts| :: Valid(ts[i].fill) && Valid(Effective(ts[i]))
    ensures NetQty(EffectiveFills(ts)) == NetQty(Fills(ts)) - LostToFees(ts)
  {
    if ts != [] {
      var n := |ts| - 1;
      EffectiveNet(ts[..n]);
      assert Fills(ts)[..n] == Fills(ts[..n]);
      assert EffectiveFills(ts)[..n] == EffectiveFills(ts[..n]);
    }
  }

  /** A flat tracked position means that more was bought than sold by just what the fees took. */
  lemma FlatNetIsFees(ts: seq<Trade>)
    requires forall i | 0 <= i < |ts| :: Valid(ts[i].fill) && Valid(Effective(ts[i]))
    requires NetQty(EffectiveFills(ts)) == 0.0
    ensures NetQty(Fills(ts)) == FeesTaken(ts)
  {
    EffectiveNet(ts);
    LostIsFees(ts);
  }

  /** When the tracked position is flat, the volume-weighted gross still is the cash flow
      exactly when base-coin fees, rebates counted against them, took no quantity. */
  lemma BaseFeesBreakAgreementIff(ts: seq<Trade>)
    requires forall i | 0 <= i < |ts| :: Valid(ts[i].fill) && Valid(Effective(ts[i]))
    requires NetQty(EffectiveFills(ts)) == 0.0 && OutcomeOf(Fills(ts)).Outcome?
    ensures OutcomeOf(Fills(ts)).gross == NetCash(Fills(ts)) <==> FeesTaken(ts) == 0.0
  {
    FlatNetIsFees(ts);
    GrossIsCashFlowIff(Fills(ts));
  }
}
