/** Rounding an order quantity to the exchange's lot rules, and the closed form it computes. */
module LotNormalizer {
  import opened Options
  import opened RealArith

  // ----- Lots -------------------------------------------------------------------------------

  function Ceil(x: real): int {
    -((-x).Floor)
  }

  lemma AtMostCeil(x: real)
    ensures x <= Ceil(x) as real
  {
  }

  lemma BelowCeil(x: real, n: int)
    requires n < Ceil(x)
    ensures n as real < x
  {
    assert -n > (-x).Floor;
  }

  function Times(n: int, step: real): real {
    n as real * step
  }

  /** Every value rounded by the client is positive, so towards zero is down and away is up. */
  function QuantizeDown(value: real, step: real): real
    requires step > 0.0
  {
    Times((value / step).Floor, step)
  }

  function QuantizeUp(value: real, step: real): real
    requires step > 0.0
  {
    Times(Ceil(value / step), step)
  }

  ghost predicate IsLot(x: real, step: real) {
    exists n: int :: x == Times(n, step)
  }

  lemma TimesMonotone(a: real, b: real, step: real)
    requires step > 0.0 && a <= b
    ensures a * step <= b * step
  {
    var d := b - a;
    assert d * step >= 0.0;
    assert b * step == a * step + d * step;
  }

  /** Rounding down gives the greatest lot not above the value. */
  lemma DownIsGreatestLot(value: real, step: real)
    requires step > 0.0
    ensures IsLot(QuantizeDown(value, step), step) && QuantizeDown(value, step) <= value
    ensures forall n: int | Times(n, step) <= value :: Times(n, step) <= QuantizeDown(value, step)
  {
    var q := value / step;
    DivMul(value, step);
    TimesMonotone(q.Floor as real, q, step);
    forall n: int | Times(n, step) <= value ensures Times(n, step) <= QuantizeDown(value, step) {
      if n > q.Floor {
        StrictTimes(q, n as real, step);
        assert false;
      }
      TimesMonotone(n as real, q.Floor as real, step);
    }
  }

  lemma StrictTimes(a: real, b: real, step: real)
    requires step > 0.0 && a < b
    ensures a * step < b * step
  {
    var d := b - a;
    assert d * step > 0.0;
    assert b * step == a * step + d * step;
  }

  /** Rounding up gives the least lot not below the value. */
  lemma UpIsLeastLot(value: real, step: real)
    requires step > 0.0
    ensures IsLot(QuantizeUp(value, step), step) && QuantizeUp(value, step) >= value
    ensures forall n: int | Times(n, step) >= value :: Times(n, step) >= QuantizeUp(value, step)
  {
    var q := value / step;
    DivMul(value, step);
    AtMostCeil(q);
    TimesMonotone(q, Ceil(q) as real, step);
    forall n: int | Times(n, step) >= value ensures Times(n, step) >= QuantizeUp(value, step) {
      if n < Ceil(q) {
        BelowCeil(q, n);
        StrictTimes(n as real, q, step);
        assert false;
      }
      TimesMonotone(Ceil(q) as real, n as real, step);
    }
  }

  /** A lot is left alone by both roundings. */
  lemma LotFixed(x: real, step: real)
    requires step > 0.0 && IsLot(x, step)
    ensures QuantizeDown(x, step) == x && QuantizeUp(x, step) == x
  {
    DownIsGreatestLot(x, step);
    UpIsLeastLot(x, step);
  }

  // ----- The step-by-step normalisation -------------------------------------------------------

  /** Lot rules as the client keeps them: positive step and minimum, non-negative notional. */
  datatype Filters = Filters(step: real, minQty: real, minAmt: real)

  predicate Usable(f: Filters) {
    f.step > 0.0 && f.minQty > 0.0 && f.minAmt >= 0.0
  }

  /** What the client makes of the numbers the exchange reports. */
  function Sanitize(step: real, minQty: real, minAmt: real): (f: Filters)
    ensures Usable(f)
    ensures (step > 0.0 ==> f.step == step) && (step <= 0.0 ==> f.step == 0.000001)
    ensures (minQty > 0.0 ==> f.minQty == minQty) && (minQty <= 0.0 ==> f.minQty == f.step)
    ensures (minAmt >= 0.0 ==> f.minAmt == minAmt) && (minAmt < 0.0 ==> f.minAmt == 0.0)
  {
    var s := if step <= 0.0 then 0.000001 else step;
    Filters(s, if minQty <= 0.0 then s else minQty, if minAmt < 0.0 then 0.0 else minAmt)
  }

  // ----- The closed form ------------------------------------------------------------------------

  /** The least lot meeting the minimum notional; nothing to meet without a price or a minimum. */
  function AmountLot(price: real, f: Filters): real
    requires Usable(f)
  {
    if f.minAmt > 0.0 && price > 0.0 then QuantizeUp(f.minAmt / price, f.step) else 0.0
  }

  /** Request floored to a lot, least lot at or above the minimum quantity, and least lot meeting
      the minimum notional: the largest of the three. */
  function ClosedForm(qty: real, price: real, f: Filters): real
    requires Usable(f)
  {
    Max(FloorOrMinimum(qty, f), AmountLot(price, f))
  }

  function FloorOrMinimum(qty: real, f: Filters): real
    requires Usable(f)
  {
    Max(QuantizeDown(qty, f.step), QuantizeUp(f.minQty, f.step))
  }

  /** The specification. A spot sell is only ever floored; anything else gets the closed form;
      with a price, nothing above three times the request is let through. */
  function Normalized(qty: real, price: real, filters: Option<Filters>, strict: bool): Option<real>
    requires filters.Some? ==> Usable(filters.value)
  {
    if qty <= 0.0 then None
    else if filters.None? then Some(qty)
    else
      var f := filters.value;
      var q := ClosedForm(qty, price, f);
      if strict then
        (if q == QuantizeDown(qty, f.step) then Some(q) else None)
      else if price > 0.0 && q > 3.0 * qty then None
      else Some(q)
  }

  /** After the first two adjustments: the larger of the floored request and the minimum lot. */
  lemma FirstStage(qty: real, f: Filters, q: real)
    requires Usable(f) && qty > 0.0
    requires var q1 := if qty < f.minQty then f.minQty else qty;
             var q2 := QuantizeDown(q1, f.step);
             q == if q2 < f.minQty then QuantizeUp(f.minQty, f.step) else q2
    ensures q == FloorOrMinimum(qty, f)
  {
    var step, min := f.step, f.minQty;
    DownIsGreatestLot(qty, step);
    DownIsGreatestLot(min, step);
    UpIsLeastLot(min, step);
    if qty < min {
      LeastLotAbove(qty, min, step);
      if QuantizeDown(min, step) >= min {
        var n: int :| QuantizeDown(min, step) == Times(n, step);
      }
    } else if QuantizeDown(qty, step) >= min {
      var n: int :| QuantizeDown(qty, step) == Times(n, step);
    }
  }

  /** A floored request below the minimum is not the minimum lot. */
  lemma StrictBelowMinimum(qty: real, f: Filters)
    requires Usable(f) && (qty < f.minQty || QuantizeDown(qty, f.step) < f.minQty)
    ensures FloorOrMinimum(qty, f) != QuantizeDown(qty, f.step)
  {
    DownIsGreatestLot(qty, f.step);
    UpIsLeastLot(f.minQty, f.step);
  }

  lemma FloorOrMinimumIsLot(qty: real, f: Filters)
    requires Usable(f)
    ensures FloorOrMinimum(qty, f) > 0.0 && IsLot(FloorOrMinimum(qty, f), f.step)
  {
    DownIsGreatestLot(qty, f.step);
    UpIsLeastLot(f.minQty, f.step);
  }

  /** A closed form that is the floored request was raised by neither adjustment. */
  lemma StrictRaised(qty: real, price: real, f: Filters)
    requires Usable(f)
    requires FloorOrMinimum(qty, f) != QuantizeDown(qty, f.step) ||
        Max(FloorOrMinimum(qty, f), AmountLot(price, f)) != FloorOrMinimum(qty, f)
    ensures ClosedForm(qty, price, f) != QuantizeDown(qty, f.step)
  {
  }

  lemma FlooredIsWithin(qty: real, step: real)
    requires step > 0.0 && qty > 0.0
    ensures QuantizeDown(qty, step) <= 3.0 * qty
  {
    DownIsGreatestLot(qty, step);
  }

  lemma LeastLotAbove(x: real, y: real, step: real)
    requires step > 0.0 && x < y
    ensures QuantizeDown(x, step) <= QuantizeUp(y, step)
  {
    DownIsGreatestLot(x, step);
    UpIsLeastLot(y, step);
  }

  lemma QuotientBound(q: real, amt: real, price: real)
    requires price > 0.0
    ensures q * price < amt <==> q < amt / price
  {
    var u := amt / price;
    DivMul(amt, price);
    if q < u { StrictTimes(q, u, price); } else { TimesMonotone(u, q, price); }
  }

  /** Meeting the minimum notional with the least lot is taking the larger of two lots. */
  lemma AmountStage(q: real, price: real, f: Filters)
    requires Usable(f) && q > 0.0 && IsLot(q, f.step)
    ensures if f.minAmt > 0.0 && price > 0.0 && q * price < f.minAmt
            then AmountLot(price, f) > q && AmountLot(price, f) == QuantizeUp(f.minAmt / price, f.step)
            else AmountLot(price, f) <= q
  {
    if f.minAmt > 0.0 && price > 0.0 {
      QuotientBound(q, f.minAmt, price);
      LotAgainstNeed(q, f.minAmt / price, f.step);
    }
  }

  lemma LotAgainstNeed(q: real, need: real, step: real)
    requires step > 0.0 && IsLot(q, step)
    ensures q < need ==> QuantizeUp(need, step) > q
    ensures q >= need ==> QuantizeUp(need, step) <= q
  {
    UpIsLeastLot(need, step);
    var n: int :| q == Times(n, step);
  }

  lemma RatioIsQuantityRatio(q: real, qty: real, price: real)
    requires qty > 0.0 && price > 0.0
    ensures qty * price > 0.0
    ensures (q * price) / (qty * price) > 3.0 <==> q > 3.0 * qty
  {
    var o := qty * price;
    assert o > 0.0;
    DivMul(q * price, o);
    var ratio := (q * price) / o;
    assert ratio * o == q * price;
    if q > 3.0 * qty { StrictTimes(3.0 * qty, q, price); } else { TimesMonotone(q, 3.0 * qty, price); }
    if ratio > 3.0 { StrictTimes(3.0, ratio, o); } else { TimesMonotone(ratio, 3.0, o); }
  }

  // ----- What the closed form means ---------------------------------------------------------------

  /** A quantity the exchange takes: a lot, at least the minimum, worth at least the minimum. */
  ghost predicate Admissible(q: real, price: real, f: Filters) {
    IsLot(q, f.step) && q >= f.minQty && (price > 0.0 ==> q * price >= f.minAmt)
  }

  /** The closed form is the least admissible lot that is not below the floored request. */
  lemma ClosedFormIsLeastAdmissible(qty: real, price: real, f: Filters)
    requires Usable(f)
    ensures Admissible(ClosedForm(qty, price, f), price, f) && ClosedForm(qty, price, f) >= QuantizeDown(qty, f.step)
    ensures forall x | Admissible(x, price, f) && x >= QuantizeDown(qty, f.step) :: x >= ClosedForm(qty, price, f)
  {
    var q := ClosedForm(qty, price, f);
    FloorOrMinimumIsLot(qty, f);
    UpIsLeastLot(f.minQty, f.step);
    AmountStage(FloorOrMinimum(qty, f), price, f);
    if price > 0.0 {
      QuotientBound(q, f.minAmt, price);
      if f.minAmt > 0.0 { UpIsLeastLot(f.minAmt / price, f.step); } else { TimesMonotone(0.0, q, price); }
    }
    forall x | Admissible(x, price, f) && x >= QuantizeDown(qty, f.step) ensures x >= q {
      var n: int :| x == Times(n, f.step);
      if price > 0.0 && f.minAmt > 0.0 {
        QuotientBound(x, f.minAmt, price);
        LotAgainstNeed(x, f.minAmt / price, f.step);
      }
    }
  }

  /** A spot sell goes through exactly when its floored request is admissible, and then as that. */
  lemma SpotSellIff(qty: real, price: real, f: Filters)
    requires Usable(f) && qty > 0.0
    ensures Normalized(qty, price, Some(f), true) ==
            if Admissible(QuantizeDown(qty, f.step), price, f) then Some(QuantizeDown(qty, f.step)) else None
  {
    var floored := QuantizeDown(qty, f.step);
    ClosedFormIsLeastAdmissible(qty, price, f);
    assert Admissible(floored, price, f) ==> ClosedForm(qty, price, f) <= floored;
  }

  /** The least admissible quantity that is not below the floored request. */
  ghost predicate IsLeastAdmissible(q: real, qty: real, price: real, f: Filters)
    requires Usable(f)
  {
    && Admissible(q, price, f) && q >= QuantizeDown(qty, f.step)
    && forall x | Admissible(x, price, f) && x >= QuantizeDown(qty, f.step) :: x >= q
  }

  /** An order that is not a spot sell is accepted, as that quantity, if and only if the request is
      positive and, with a price, the quantity is no more than three times the request. */
  lemma AcceptedIff(qty: real, price: real, f: Filters, q: real)
    requires Usable(f) && IsLeastAdmissible(q, qty, price, f)
    ensures Normalized(qty, price, Some(f), false) ==
            if qty > 0.0 && (price > 0.0 ==> q <= 3.0 * qty) then Some(q) else None
  {
    ClosedFormIsLeastAdmissible(qty, price, f);
  }

  /** With a price, nothing accepted exceeds three times the request. */
  lemma AtMostTriple(qty: real, price: real, filters: Option<Filters>, strict: bool)
    requires filters.Some? ==> Usable(filters.value)
    requires price > 0.0 && Normalized(qty, price, filters, strict).Some?
    ensures Normalized(qty, price, filters, strict).value <= 3.0 * qty
  {
    if filters.Some? && strict {
      FlooredIsWithin(qty, filters.value.step);
    }
  }

  /** Without one (the emergency market close is sent with price 0; the forced exit passes the book
      price even for a market order) there is no such bound: the request is always accepted, and
      exceeds three times itself exactly when the minimum lot does. */
  lemma NoGuardWithoutPrice(qty: real, price: real, f: Filters)
    requires Usable(f) && qty > 0.0 && price <= 0.0
    ensures Normalized(qty, price, Some(f), false) == Some(FloorOrMinimum(qty, f))
    ensures FloorOrMinimum(qty, f) > 3.0 * qty <==> QuantizeUp(f.minQty, f.step) > 3.0 * qty
  {
    FloorOrMinimumIsLot(qty, f);
    FlooredIsWithin(qty, f.step);
  }

  /** Normalising twice changes nothing. */
  lemma NormalizeIsIdempotent(qty: real, price: real, filters: Option<Filters>, strict: bool)
    requires filters.Some? ==> Usable(filters.value)
    requires Normalized(qty, price, filters, strict).Some?
    ensures var r := Normalized(qty, price, filters, strict).value;
            Normalized(r, price, filters, strict) == Some(r)
  {
    if filters.Some? {
      var f := filters.value;
      var r := Normalized(qty, price, filters, strict).value;
      ClosedFormIsLeastAdmissible(qty, price, f);
      ClosedFormIsLeastAdmissible(r, price, f);
      LotFixed(r, f.step);
      assert r == ClosedForm(qty, price, f) && r >= f.minQty;
      assert ClosedForm(r, price, f) == r;
    }
  }

  // ----- The steps --------------------------------------------------------------------------------

  /** Raise to the minimum quantity and floor to a lot; a spot sell (strict) is never raised. */
  method ApplyMinQty(qty: real, f: Filters, strict: bool) returns (r: Option<real>)
    requires Usable(f) && qty > 0.0
    ensures r == var q := FloorOrMinimum(qty, f); if strict && q != QuantizeDown(qty, f.step) then None else Some(q)
  {
    var q := qty;
    if q < f.minQty {
      if strict {
        StrictBelowMinimum(qty, f);
        return None;
      }
      q := f.minQty;
    }
    q := QuantizeDown(q, f.step);
    if q < f.minQty {
      if strict {
        StrictBelowMinimum(qty, f);
        return None;
      }
      q := QuantizeUp(f.minQty, f.step);
    }
    FirstStage(qty, f, q);
    return Some(q);
  }

  /** Raise to the least lot that meets the minimum notional. */
  method ApplyMinAmount(q: real, price: real, f: Filters, strict: bool) returns (r: Option<real>)
    requires Usable(f) && q > 0.0 && IsLot(q, f.step)
    ensures r == var q' := Max(q, AmountLot(price, f)); if strict && q' != q then None else Some(q')
  {
    AmountStage(q, price, f);
    if f.minAmt > 0.0 && price > 0.0 && q * price < f.minAmt {
      if strict {
        return None;
      }
      return Some(QuantizeUp(f.minAmt / price, f.step));
    }
    return Some(q);
  }

  /** The inflation guard: with a price, the notional may not have more than tripled. */
  method WithinTriple(q: real, qty: real, price: real) returns (ok: bool)
    requires qty > 0.0
    ensures ok <==> !(price > 0.0 && q > 3.0 * qty)
  {
    var originalNotional := if price > 0.0 then qty * price else 0.0;
    ok := true;
    if price > 0.0 {
      RatioIsQuantityRatio(q, qty, price);
      if originalNotional > 0.0 {
        ok := (q * price) / originalNotional <= 3.0;
      }
    }
  }

  method NormalizeOrderQty(qty: real, price: real, filters: Option<Filters>, strict: bool) returns (r: Option<real>)
    requires filters.Some? ==> Usable(filters.value)
    ensures r == Normalized(qty, price, filters, strict)
  {
    if qty <= 0.0 {
      return None;
    }
    if filters.None? {
      return Some(qty);
    }
    var f := filters.value;
    var q := ApplyMinQty(qty, f, strict);
    FloorOrMinimumIsLot(qty, f);
    if q.None? {
      StrictRaised(qty, price, f);
      return None;
    }
    q := ApplyMinAmount(q.value, price, f, strict);
    if q.None? {
      StrictRaised(qty, price, f);
      return None;
    }
    assert q.value == ClosedForm(qty, price, f);
    var ok := WithinTriple(q.value, qty, price);
    if !ok {
      FlooredIsWithin(qty, f.step);
      return None;
    }
    return q;
  }
}
