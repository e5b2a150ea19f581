/** Numbers reported for a backtest: rounding, the rounded total, and the maximum drawdown. */
module BacktestReport {
  import opened RealArith

  // ----- Rounding ---------------------------------------------------------------------------------

  /** Round to the nearest integer, ties to the even one. */
  function RoundHalfEven(x: real): int {
    var low := x.Floor;
    var part := x - low as real;
    if part < 0.5 then low
    else if part > 0.5 then low + 1
    else if low % 2 == 0 then low else low + 1
  }

  function RoundTo(x: real, scale: real): real
    requires scale > 0.0
  {
    RoundHalfEven(x * scale) as real / scale
  }

  const CENTI_PIPS := 10000.0

  function Round4(x: real): real {
    RoundTo(x, CENTI_PIPS)
  }

  predicate Near(x: real, y: real, bound: real) {
    -bound <= x - y <= bound
  }

  const HALF_UNIT := 0.00005

  /** The nearest integer; of two equally near, the even one. */
  lemma RoundsToEven(x: real)
    ensures var n := RoundHalfEven(x) as real;
            && -0.5 <= n - x <= 0.5
            && (n - x == 0.5 || n - x == -0.5 ==> RoundHalfEven(x) % 2 == 0)
  {
  }

  lemma Round4Near(x: real)
    ensures Near(Round4(x), x, 0.00005) && Round4(x) * 10000.0 == RoundHalfEven(x * 10000.0) as real
  {
    var n := RoundHalfEven(x * 10000.0);
    assert -0.5 <= n as real - x * 10000.0 <= 0.5;
  }

  // ----- The reported total ---------------------------------------------------------------------------

  function SumRounded(xs: seq<real>): real {
    if xs == [] then 0.0 else SumRounded(xs[..|xs| - 1]) + Round4(xs[|xs| - 1])
  }

  /** The total as it is reported: each profit rounded, summed, and rounded again. */
  function ReportedTotal(xs: seq<real>): real {
    Round4(SumRounded(xs))
  }

  lemma {:induction false} RoundedSumNear(xs: seq<real>)
    ensures Near(SumRounded(xs), Sum(xs), HALF_UNIT * |xs| as real)
  {
    if xs != [] {
      RoundedSumNear(xs[..|xs| - 1]);
      Round4Near(xs[|xs| - 1]);
    }
  }

  lemma ReportedTotalNear(xs: seq<real>)
    ensures Near(ReportedTotal(xs), Sum(xs), 0.00005 * (|xs| + 1) as real)
  {
    RoundedSumNear(xs);
    Round4Near(SumRounded(xs));
  }

  // ----- The equity curve --------------------------------------------------------------------------------

  /** The curve that starts at the balance and steps by each profit in turn. */
  ghost predicate IsLedger(curve: seq<real>, balance: real, pnls: seq<real>) {
    && |curve| == |pnls| + 1 && curve[0] == balance
    && forall i | 0 <= i < |pnls| :: curve[i + 1] == curve[i] + pnls[i]
  }

  lemma {:induction false} LedgerEnd(curve: seq<real>, balance: real, pnls: seq<real>)
    requires IsLedger(curve, balance, pnls)
    ensures curve[|pnls|] == balance + Sum(pnls)
  {
    if pnls != [] {
      var n := |pnls| - 1;
      LedgerEnd(curve[..n + 1], balance, pnls[..n]);
    }
  }

  /** The reported total misses the equity's change by at most half a unit per rounding. */
  lemma ReportedTotalTracksEquity(curve: seq<real>, balance: real, pnls: seq<real>)
    requires IsLedger(curve, balance, pnls)
    ensures Near(ReportedTotal(pnls), curve[|pnls|] - balance, 0.00005 * (|pnls| + 1) as real)
  {
    LedgerEnd(curve, balance, pnls);
    ReportedTotalNear(pnls);
  }

  // ----- Drawdown -------------------------------------------------------------------------------------------

  /** The curve falls by d from point i to the same or a later point j. */
  predicate IsFall(curve: seq<real>, i: int, j: int, d: real) {
    0 <= i <= j < |curve| && curve[i] - curve[j] == d
  }

  /** The largest fall from a point of the curve to the same or a later point. */
  ghost predicate IsMaxDrawdown(curve: seq<real>, d: real) {
    && (forall i, j | 0 <= i <= j < |curve| :: curve[i] - curve[j] <= d)
    && (if curve == [] then d == 0.0 else exists i, j :: IsFall(curve, i, j, d))
  }

  lemma MaxDrawdownUnique(curve: seq<real>, d: real, e: real)
    requires IsMaxDrawdown(curve, d) && IsMaxDrawdown(curve, e)
    ensures d == e
  {
  }

  /** The fall as a percentage of the starting equity (of 1 when that is 0). */
  function DrawdownPercent(initial: real, d: real): real {
    var base := if initial == 0.0 then 1.0 else if initial < 0.0 then -initial else initial;
    d / base * 100.0
  }

  lemma PercentOf(initial: real, d: real)
    ensures initial != 0.0 ==> DrawdownPercent(initial, d) * Abs(initial) == 100.0 * d
    ensures initial == 0.0 ==> DrawdownPercent(initial, d) == 100.0 * d
  {
    var base := if initial == 0.0 then 1.0 else Abs(initial);
    DivMul(d, base);
    assert (d / base * 100.0) * base == (d / base * base) * 100.0;
  }

  /** One pass with a running peak. */
  method RunningDrawdown(curve: seq<real>) returns (maxDd: real)
    requires curve != []
    ensures IsMaxDrawdown(curve, maxDd) && maxDd >= 0.0
  {
    var peak := curve[0];
    maxDd := 0.0;
    ghost var top, from, to := 0, 0, 0;
    for k := 0 to |curve|
      invariant 0 <= top < |curve| && (if k == 0 then top == 0 else top < k) && peak == curve[top]
      invariant forall i | 0 <= i < k :: curve[i] <= peak
      invariant IsFall(curve, from, to, maxDd) && maxDd >= 0.0
      invariant forall i, j | 0 <= i <= j < k :: curve[i] - curve[j] <= maxDd
    {
      if curve[k] > peak {
        peak, top := curve[k], k;
      }
      var dd := peak - curve[k];
      if dd > maxDd {
        maxDd, from, to := dd, top, k;
      }
    }
  }

  method CalcMaxDrawdown(curve: seq<real>) returns (maxDd: real, percent: real)
    ensures IsMaxDrawdown(curve, maxDd) && maxDd >= 0.0
    ensures curve != [] && curve[0] != 0.0 ==> percent * Abs(curve[0]) == 100.0 * maxDd
    ensures curve != [] && curve[0] == 0.0 ==> percent == 100.0 * maxDd
    ensures curve == [] ==> percent == 0.0
  {
    if |curve| < 2 {
      if curve != [] {
        assert IsFall(curve, 0, 0, 0.0);
      }
      return 0.0, 0.0;
    }
    maxDd := RunningDrawdown(curve);
    percent := DrawdownPercent(curve[0], maxDd);
    PercentOf(curve[0], maxDd);
  }
}
