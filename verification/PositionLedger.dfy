/** The signed average-cost position and what it means over a whole sequence of fills. */
module PositionLedger {
  import opened RealArith

  datatype Side = Buy | Sell | OtherSide

  datatype Fill = Fill(side: Side, qty: real, price: real)

  /** Positive is long, negative is short. */
  datatype Position = Position(qty: real, avg: real)

  const FLAT := Position(0.0, 0.0)

  predicate Valid(f: Fill) {
    f.qty > 0.0 && f.price > 0.0 && f.side != OtherSide
  }

  function Signed(f: Fill): real {
    if !Valid(f) then 0.0 else if f.side == Buy then f.qty else -f.qty
  }

  function ApplyFill(p: Position, f: Fill): Position {
    if !Valid(f) then p
    else
      var signed := Signed(f);
      if p.qty == 0.0 then Position(signed, f.price)
      else if (p.qty > 0.0 && signed > 0.0) || (p.qty < 0.0 && signed < 0.0) then
        var qty := p.qty + signed;
        Position(qty, (Abs(p.qty) * p.avg + Abs(signed) * f.price) / Abs(qty))
      else if Abs(signed) < Abs(p.qty) then Position(p.qty + signed, p.avg)
      else if Abs(signed) == Abs(p.qty) then FLAT
      else Position(p.qty + signed, f.price)
  }

  function Replay(fills: seq<Fill>): Position {
    if fills == [] then FLAT else ApplyFill(Replay(fills[..|fills| - 1]), fills[|fills| - 1])
  }

  // ----- The independent books ---------------------------------------------------------

  /** Sum of the signed quantities. */
  function NetQty(fills: seq<Fill>): real {
    if fills == [] then 0.0 else NetQty(fills[..|fills| - 1]) + Signed(fills[|fills| - 1])
  }

  function AtCost(p: Position): real {
    p.qty * p.avg
  }

  function CostOf(f: Fill): real {
    Signed(f) * f.price
  }

  /** Cash received less cash paid. */
  function NetCash(fills: seq<Fill>): real {
    if fills == [] then 0.0
    else NetCash(fills[..|fills| - 1]) - CostOf(fills[|fills| - 1])
  }

  /** How much of the position a fill closes. */
  function ClosedBy(p: Position, f: Fill): real {
    if p.qty * Signed(f) >= 0.0 then 0.0
    else if Abs(Signed(f)) < Abs(p.qty) then Abs(Signed(f)) else Abs(p.qty)
  }

  /** Profit of closing that much at the fill price against the average cost. */
  function RealisedBy(p: Position, f: Fill): real {
    if p.qty > 0.0 then (f.price - p.avg) * ClosedBy(p, f) else (p.avg - f.price) * ClosedBy(p, f)
  }

  function Realised(fills: seq<Fill>): real {
    if fills == [] then 0.0
    else Realised(fills[..|fills| - 1]) + RealisedBy(Replay(fills[..|fills| - 1]), fills[|fills| - 1])
  }

  /** The prices of the fills that opened the current leg or added to it. */
  function OpeningPrices(fills: seq<Fill>): seq<real> {
    if fills == [] then []
    else
      var before := fills[..|fills| - 1];
      var f := fills[|fills| - 1];
      var p := Replay(before);
      var signed := Signed(f);
      if !Valid(f) then OpeningPrices(before)
      else if p.qty == 0.0 || (Abs(signed) > Abs(p.qty) && p.qty * signed < 0.0) then [f.price]
      else if p.qty * signed > 0.0 then OpeningPrices(before) + [f.price]
      else if Abs(signed) < Abs(p.qty) then OpeningPrices(before)
      else []
  }

  // ----- One step ----------------------------------------------------------------------

  lemma ProductOfSigns(x: real, y: real)
    requires x >= 0.0 && y >= 0.0
    ensures x * y >= 0.0
  {
  }

  /** A weighted mean m of two values lies between them. */
  lemma WeightedMeanBetween(a: real, u: real, b: real, v: real, m: real)
    requires u > 0.0 && v > 0.0 && m * (u + v) == u * a + v * b
    ensures if a <= b then a <= m <= b else b <= m <= a
  {
    assert (m - a) * (u + v) == v * (b - a);
    assert (b - m) * (u + v) == u * (b - a);
    assert (a - m) * (u + v) == v * (a - b);
    assert (m - b) * (u + v) == u * (a - b);
    if a <= b {
      ProductOfSigns(v, b - a);
      ProductOfSigns(u, b - a);
      SignFromProduct(m - a, u + v);
      SignFromProduct(b - m, u + v);
    } else {
      ProductOfSigns(v, a - b);
      ProductOfSigns(u, a - b);
      SignFromProduct(a - m, u + v);
      SignFromProduct(m - b, u + v);
    }
  }

  /** The value of a position at cost changes by the cash a fill costs plus what it realises. */
  lemma StepIdentity(p: Position, f: Fill)
    ensures var q := ApplyFill(p, f);
            && q.qty == p.qty + Signed(f)
            && AtCost(q) == AtCost(p) + CostOf(f) + RealisedBy(p, f)
  {
    if Valid(f) && p.qty != 0.0 {
      SignOfProduct(p.qty, Signed(f));
      if p.qty * Signed(f) > 0.0 {
        AddingIdentity(p, f);
      } else {
        ClosingIdentity(p, f);
      }
    }
  }

  predicate SameDirection(p: Position, f: Fill) {
    (p.qty > 0.0 && Signed(f) > 0.0) || (p.qty < 0.0 && Signed(f) < 0.0)
  }

  predicate Opposite(p: Position, f: Fill) {
    (p.qty > 0.0 && Signed(f) < 0.0) || (p.qty < 0.0 && Signed(f) > 0.0)
  }

  /** The new average times the new size is the old cost plus the cost of the fill. */
  lemma AddingAverage(p: Position, f: Fill)
    requires Valid(f) && SameDirection(p, f)
    ensures var q := ApplyFill(p, f);
            q.avg * (Abs(p.qty) + Abs(Signed(f))) == Abs(p.qty) * p.avg + Abs(Signed(f)) * f.price
  {
    DivMul(Abs(p.qty) * p.avg + Abs(Signed(f)) * f.price, Abs(p.qty + Signed(f)));
  }

  lemma AddingIdentity(p: Position, f: Fill)
    requires Valid(f) && SameDirection(p, f)
    ensures var q := ApplyFill(p, f);
            && q.qty == p.qty + Signed(f)
            && AtCost(q) == AtCost(p) + CostOf(f) + RealisedBy(p, f)
  {
    AddingAverage(p, f);
    SignOfProduct(p.qty, Signed(f));
    assert ClosedBy(p, f) == 0.0;
    AverageTimesSize(p.qty, p.avg, Signed(f), f.price, ApplyFill(p, f).avg);
  }

  lemma AverageTimesSize(q: real, a: real, s: real, x: real, m: real)
    requires (q > 0.0 && s > 0.0) || (q < 0.0 && s < 0.0)
    requires m * (Abs(q) + Abs(s)) == Abs(q) * a + Abs(s) * x
    ensures (q + s) * m == q * a + s * x
  {
  }

  lemma ClosingIdentity(p: Position, f: Fill)
    requires Valid(f) && Opposite(p, f)
    ensures var q := ApplyFill(p, f);
            AtCost(q) == AtCost(p) + CostOf(f) + RealisedBy(p, f)
  {
    var s, x, a := Signed(f), f.price, p.avg;
    SignOfProduct(p.qty, s);
    if Abs(s) < Abs(p.qty) {
      assert RealisedBy(p, f) == -(x - a) * s;
      assert (p.qty + s) * a == p.qty * a + s * x + (-(x - a) * s);
    } else {
      assert RealisedBy(p, f) == (x - a) * p.qty;
      assert (p.qty + s) * x == p.qty * a + s * x + (x - a) * p.qty;
      if Abs(s) == Abs(p.qty) { assert p.qty + s == 0.0; }
    }
  }

  /** The books agree: quantity is the net of the fills, and cash plus the position at cost is
      the realised profit. */
  predicate Balanced(p: Position, net: real, cash: real, realised: real) {
    p.qty == net && cash + AtCost(p) == realised
  }

  lemma StepKeepsBalance(p: Position, net: real, cash: real, realised: real, f: Fill)
    requires Balanced(p, net, cash, realised)
    ensures Balanced(ApplyFill(p, f), net + Signed(f), cash - CostOf(f), realised + RealisedBy(p, f))
  {
    StepIdentity(p, f);
    BalanceCarries(cash, AtCost(p), realised, CostOf(f), RealisedBy(p, f), AtCost(ApplyFill(p, f)));
  }

  lemma BalanceCarries(cash: real, held: real, realised: real, cost: real, gain: real, after: real)
    requires cash + held == realised && after == held + cost + gain
    ensures (cash - cost) + after == realised + gain
  {
  }

  // ----- Whole sequences ---------------------------------------------------------------

  /** THE LEDGER IDENTITY. From flat, over any fills: the quantity is the sum of the signed
      valid fills, and net cash plus the position at cost is exactly the realised profit. */
  lemma {:induction false} LedgerIdentity(fills: seq<Fill>)
    ensures Balanced(Replay(fills), NetQty(fills), NetCash(fills), Realised(fills))
  {
    if fills != [] {
      var n := |fills| - 1;
      LedgerIdentity(fills[..n]);
      StepKeepsBalance(Replay(fills[..n]), NetQty(fills[..n]), NetCash(fills[..n]), Realised(fills[..n]), fills[n]);
    }
  }

  /** x lies between two of the prices. */
  ghost predicate Within(prices: seq<real>, x: real) {
    exists i, j :: 0 <= i < |prices| && 0 <= j < |prices| && prices[i] <= x <= prices[j]
  }

  lemma WithinGrows(prices: seq<real>, x: real, price: real, mean: real)
    requires Within(prices, x)
    requires if x <= price then x <= mean <= price else price <= mean <= x
    ensures Within(prices + [price], mean)
  {
    var i, j :| 0 <= i < |prices| && 0 <= j < |prices| && prices[i] <= x <= prices[j];
    var more := prices + [price];
    assert more[i] == prices[i] && more[j] == prices[j] && more[|prices|] == price;
    if x <= price {
      assert more[i] <= mean <= more[|prices|];
    } else {
      assert more[|prices|] <= mean <= more[j];
    }
  }

  lemma AddingMovesTowardsPrice(p: Position, f: Fill)
    requires Valid(f) && SameDirection(p, f)
    ensures var m := ApplyFill(p, f).avg; if p.avg <= f.price then p.avg <= m <= f.price else f.price <= m <= p.avg
  {
    var u, v, m := Abs(p.qty), Abs(Signed(f)), ApplyFill(p, f).avg;
    AddingAverage(p, f);
    WeightedMeanBetween(p.avg, u, f.price, v, m);
  }

  /** The average is zero exactly when flat; otherwise it lies between the lowest and the
      highest price that opened or added to the current leg. */
  lemma {:induction false} AverageWithinLeg(fills: seq<Fill>)
    ensures var p := Replay(fills);
            && (p.avg == 0.0 <==> p.qty == 0.0)
            && (p.qty == 0.0 <==> OpeningPrices(fills) == [])
            && (p.qty != 0.0 ==> p.avg > 0.0 && Within(OpeningPrices(fills), p.avg))
            && (forall i | 0 <= i < |OpeningPrices(fills)| :: OpeningPrices(fills)[i] > 0.0)
  {
    if fills != [] {
      var n := |fills| - 1;
      var f := fills[n];
      AverageWithinLeg(fills[..n]);
      var p, q := Replay(fills[..n]), Replay(fills);
      var prices := OpeningPrices(fills[..n]);
      if Valid(f) {
        var s := Signed(f);
        SignOfProduct(p.qty, s);
        if p.qty != 0.0 && p.qty * s > 0.0 {
          AddingMovesTowardsPrice(p, f);
          WithinGrows(prices, p.avg, f.price, q.avg);
        } else if p.qty == 0.0 || Abs(s) > Abs(p.qty) {
          assert OpeningPrices(fills) == [f.price] && q.avg == f.price;
          assert [f.price][0] <= q.avg <= [f.price][0];
        }
      }
    }
  }

  lemma SignOfProduct(x: real, y: real)
    requires y != 0.0
    ensures x * y > 0.0 <==> (x > 0.0 && y > 0.0) || (x < 0.0 && y < 0.0)
    ensures x * y < 0.0 <==> (x > 0.0 && y < 0.0) || (x < 0.0 && y > 0.0)
  {
    if x > 0.0 && y > 0.0 { assert x * y > 0.0; }
    if x < 0.0 && y < 0.0 { assert (-x) * (-y) > 0.0; }
    if x > 0.0 && y < 0.0 { assert x * (-y) > 0.0; }
    if x < 0.0 && y > 0.0 { assert (-x) * y > 0.0; }
  }

  lemma FlatWhenNetZero(fills: seq<Fill>)
    requires NetQty(fills) == 0.0
    ensures Replay(fills) == FLAT
  {
    var p := Replay(fills);
    assert p.qty == 0.0 by { QtyIsNet(fills); }
    assert p.avg == 0.0 by { AverageWithinLeg(fills); }
  }

  lemma {:induction false} QtyIsNet(fills: seq<Fill>)
    ensures Replay(fills).qty == NetQty(fills)
  {
    LedgerIdentity(fills);
  }

  /** A round trip realises its whole cash flow. */
  lemma FlatRealisesCash(fills: seq<Fill>)
    requires NetQty(fills) == 0.0
    ensures Realised(fills) == NetCash(fills)
  {
    FlatWhenNetZero(fills);
    LedgerIdentity(fills);
    FlatBooks(NetQty(fills), NetCash(fills), Realised(fills));
  }

  lemma FlatBooks(net: real, cash: real, realised: real)
    requires Balanced(FLAT, net, cash, realised)
    ensures realised == cash
  {
  }
}
