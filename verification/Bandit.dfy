/** The per-arm running mean and sum of squared deviations, updated one reward at a time. */
module Bandit {
  import opened RealArith

  datatype Arm = Arm(n: nat, mean: real, m2: real)

  const FRESH := Arm(0, 0.0, 0.0)

  function NewMean(mean: real, n: real, x: real): real
    requires n != 0.0
  {
    mean + (x - mean) / n
  }

  /** What one reward adds to m2, given the mean before and after it. */
  function Gain(x: real, before: real, after: real): real {
    (x - before) * (x - after)
  }

  function UpdateArm(a: Arm, x: real): Arm {
    var mean := NewMean(a.mean, (a.n + 1) as real, x);
    Arm(a.n + 1, mean, a.m2 + Gain(x, a.mean, mean))
  }

  function Learn(rewards: seq<real>): Arm {
    if rewards == [] then FRESH else UpdateArm(Learn(rewards[..|rewards| - 1]), rewards[|rewards| - 1])
  }

  /** Learning that goes on from an arm already stored. */
  function LearnFrom(a: Arm, rewards: seq<real>): Arm {
    if rewards == [] then a else UpdateArm(LearnFrom(a, rewards[..|rewards| - 1]), rewards[|rewards| - 1])
  }

  // ----- The statistics by definition ------------------------------------------------------------

  function Square(x: real): real {
    x * x
  }

  /** Sum of squared deviations from c. */
  function Deviations(xs: seq<real>, c: real): real {
    if xs == [] then 0.0 else Deviations(xs[..|xs| - 1], c) + Square(xs[|xs| - 1] - c)
  }

  // ----- One update ------------------------------------------------------------------------------

  /** Moving the centre of the deviations: the parallel-axis identity. */
  lemma {:induction false} Recentre(xs: seq<real>, c: real, d: real)
    ensures Deviations(xs, d) == Deviations(xs, c) + Shift(Sum(xs), |xs| as real, c, d)
  {
    if xs != [] {
      var n := |xs| - 1;
      Recentre(xs[..n], c, d);
      ShiftStep(Sum(xs[..n]), n as real, c, d, xs[n]);
    } else {
      ShiftZero(c, d);
    }
  }

  function Shift(sum: real, n: real, c: real, d: real): real {
    (d - c) * (n * (d + c) - 2.0 * sum)
  }

  lemma ShiftZero(c: real, d: real)
    ensures Shift(0.0, 0.0, c, d) == 0.0
  {
  }

  lemma ShiftStep(sum: real, n: real, c: real, d: real, x: real)
    ensures Shift(sum + x, n + 1.0, c, d) - Shift(sum, n, c, d) == Square(x - d) - Square(x - c)
  {
    var k := d - c;
    assert (n + 1.0) * (d + c) - 2.0 * (sum + x) == (n * (d + c) - 2.0 * sum) + (d + c - 2.0 * x);
    assert k * ((n * (d + c) - 2.0 * sum) + (d + c - 2.0 * x)) ==
           k * (n * (d + c) - 2.0 * sum) + k * (d + c - 2.0 * x);
    assert (d - c) * (d + c - 2.0 * x) == Square(x - d) - Square(x - c);
  }

  /** What the update adds to m2, when the old mean m becomes p by one more value x: the
      deviations of the old values about the new mean, and of the new one. */
  lemma UpdateArithmetic(n: real, m: real, p: real, sum: real, x: real)
    requires MeanOf(m, n, sum) && MeanOf(p, n + 1.0, sum + x)
    ensures Gain(x, m, p) == Shift(sum, n, m, p) + Square(x - p)
  {
    var d := p - m;
    assert d * (n + 1.0) == x - m by {
      assert d * (n + 1.0) == p * (n + 1.0) - m * n - m;
    }
    assert x - p == d * n by { assert d * (n + 1.0) == d * n + d; }
    assert n * (p + m) - 2.0 * sum == n * d by { assert n * (p + m) == n * p + n * m; assert n * d == n * p - n * m; }
    assert Shift(sum, n, m, p) == d * (n * d);
    assert (x - m) * (x - p) == (d * n + d) * (x - p);
    assert (d * n + d) * (x - p) == (d * n) * (x - p) + d * (x - p);
    assert d * (x - p) == d * (n * d);
  }

  /** The arm holds the number of rewards, their mean, and the sum of squared deviations from it. */
  ghost predicate Exact(a: Arm, xs: seq<real>) {
    a.n == |xs| && MeanOf(a.mean, |xs| as real, Sum(xs)) && a.m2 == Deviations(xs, a.mean)
  }

  predicate MeanOf(mean: real, n: real, sum: real) {
    mean * n == sum
  }

  lemma SpreadStep(a: Arm, xs: seq<real>, x: real, p: real)
    requires Exact(a, xs) && MeanOf(p, |xs| as real + 1.0, Sum(xs) + x)
    ensures a.m2 + Gain(x, a.mean, p) == Deviations(xs, p) + Square(x - p)
  {
    Recentre(xs, a.mean, p);
    UpdateArithmetic(|xs| as real, a.mean, p, Sum(xs), x);
    M2Step(a.m2, Gain(x, a.mean, p), Shift(Sum(xs), |xs| as real, a.mean, p), Square(x - p), Deviations(xs, p));
  }

  lemma TotalsStep(xs: seq<real>, x: real, c: real)
    ensures Sum(xs + [x]) == Sum(xs) + x && Deviations(xs + [x], c) == Deviations(xs, c) + Square(x - c)
  {
    assert (xs + [x])[..|xs|] == xs;
  }

  lemma UpdateKeepsExact(a: Arm, xs: seq<real>, x: real)
    requires Exact(a, xs)
    ensures Exact(UpdateArm(a, x), xs + [x])
  {
    var n := |xs| as real;
    var p := NewMean(a.mean, n + 1.0, x);
    MeanStep(a.mean, n, Sum(xs), x);
    SpreadStep(a, xs, x, p);
    TotalsStep(xs, x, p);
    assert (a.n + 1) as real == n + 1.0;
  }

  /** WELFORD. After any rewards the arm holds their number, their mean, and the sum of squared
      deviations from that mean. */
  lemma {:induction false} ArmIsExact(rewards: seq<real>)
    ensures Exact(Learn(rewards), rewards)
  {
    if rewards != [] {
      var k := |rewards| - 1;
      ArmIsExact(rewards[..k]);
      UpdateKeepsExact(Learn(rewards[..k]), rewards[..k], rewards[k]);
      assert rewards[..k] + [rewards[k]] == rewards;
    }
  }

  lemma M2Step(m2: real, gain: real, shift: real, last: real, rest: real)
    requires gain == shift + last && rest == m2 + shift
    ensures m2 + gain == rest + last
  {
  }

  lemma MeanStep(m: real, n: real, sum: real, x: real)
    requires n >= 0.0 && MeanOf(m, n, sum)
    ensures MeanOf(NewMean(m, n + 1.0, x), n + 1.0, sum + x)
  {
    var u := (x - m) / (n + 1.0);
    DivMul(x - m, n + 1.0);
    assert (m + u) * (n + 1.0) == m * (n + 1.0) + u * (n + 1.0);
  }

  lemma SquareNonNegative(x: real)
    ensures Square(x) >= 0.0
  {
  }

  lemma {:induction false} DeviationsNonNegative(xs: seq<real>, c: real)
    ensures Deviations(xs, c) >= 0.0
  {
    if xs != [] {
      DeviationsNonNegative(xs[..|xs| - 1], c);
      SquareNonNegative(xs[|xs| - 1] - c);
    }
  }

  lemma SpreadNonNegative(rewards: seq<real>)
    ensures Learn(rewards).m2 >= 0.0
  {
    ArmIsExact(rewards);
    DeviationsNonNegative(rewards, Learn(rewards).mean);
  }

  // ----- Order does not matter ---------------------------------------------------------------------

  lemma {:induction false} SumsWithout(xs: seq<real>, i: nat, c: real)
    requires i < |xs|
    ensures Sum(xs) == Sum(xs[..i] + xs[i + 1..]) + xs[i]
    ensures Deviations(xs, c) == Deviations(xs[..i] + xs[i + 1..], c) + Square(xs[i] - c)
  {
    var n := |xs| - 1;
    var rest := xs[..i] + xs[i + 1..];
    if i == n {
      assert rest == xs[..n];
    } else {
      SumsWithout(xs[..n], i, c);
      assert rest[..n - 1] == xs[..n][..i] + xs[..n][i + 1..];
      assert rest[n - 1] == xs[n];
    }
  }

  lemma RemoveOne(xs: seq<real>, i: nat)
    requires i < |xs|
    ensures multiset(xs[..i] + xs[i + 1..]) == multiset(xs) - multiset{xs[i]}
  {
    assert xs == xs[..i] + [xs[i]] + xs[i + 1..];
  }

  lemma {:induction false} SumsOfPermutation(xs: seq<real>, ys: seq<real>, c: real)
    requires multiset(xs) == multiset(ys)
    ensures |xs| == |ys| && Sum(xs) == Sum(ys) && Deviations(xs, c) == Deviations(ys, c)
  {
    assert |multiset(xs)| == |xs| && |multiset(ys)| == |ys|;
    if xs != [] {
      var n := |xs| - 1;
      assert xs[n] in multiset(ys);
      var i: nat :| i < |ys| && ys[i] == xs[n];
      RemoveOne(xs, n);
      RemoveOne(ys, i);
      SumsWithout(xs, n, c);
      SumsWithout(ys, i, c);
      SumsOfPermutation(xs[..n] + xs[n + 1..], ys[..i] + ys[i + 1..], c);
    }
  }

  lemma MeanUnique(m: real, p: real, n: real, sum: real)
    requires n > 0.0 && MeanOf(m, n, sum) && MeanOf(p, n, sum)
    ensures m == p
  {
    assert m == (m * n) / n;
    assert p == (p * n) / n;
  }

  /** The same rewards in any order leave the same arm. */
  lemma OrderDoesNotMatter(xs: seq<real>, ys: seq<real>)
    requires multiset(xs) == multiset(ys)
    ensures Learn(xs) == Learn(ys)
  {
    ArmIsExact(xs);
    ArmIsExact(ys);
    SumsOfPermutation(xs, ys, Learn(xs).mean);
    if xs != [] {
      MeanUnique(Learn(xs).mean, Learn(ys).mean, |xs| as real, Sum(xs));
    }
  }

  /** Stopping and going on from the stored arm is learning everything in one go. */
  lemma {:induction false} SessionsCompose(past: seq<real>, rewards: seq<real>)
    ensures LearnFrom(Learn(past), rewards) == Learn(past + rewards)
  {
    if rewards == [] {
      assert past + rewards == past;
    } else {
      var n := |rewards| - 1;
      assert (past + rewards)[..|past| + n] == past + rewards[..n];
      SessionsCompose(past, rewards[..n]);
    }
  }

  // ----- The arm table --------------------------------------------------------------------------------

  datatype ArmKey = ArmKey(symbol: string, profile: string)

  class Table {
    var rows: map<ArmKey, Arm>

    function Load(key: ArmKey): Arm
      reads this
    {
      if key in rows then rows[key] else FRESH
    }

    /** One reward: the arm moves on, the others stay. */
    method Update(key: ArmKey, reward: real)
      modifies this
      ensures Load(key) == UpdateArm(old(Load(key)), reward)
      ensures forall k | k != key :: Load(k) == old(Load(k))
    {
      var state := Load(key);
      var n := state.n + 1;
      var delta := reward - state.mean;
      var mean := state.mean + delta / n as real;
      rows := rows[key := Arm(n, mean, state.m2 + delta * (reward - mean))];
    }
  }

  /** Rewards of one arm in a stream for all arms. */
  function RewardsOf(stream: seq<(ArmKey, real)>, key: ArmKey): seq<real> {
    if stream == [] then []
    else
      var n := |stream| - 1;
      RewardsOf(stream[..n], key) + (if stream[n].0 == key then [stream[n].1] else [])
  }

  /** A stream of rewards, over whatever the table already holds: every arm ends as if it had gone
      on learning its own rewards alone. */
  method LearnStream(table: Table, stream: seq<(ArmKey, real)>)
    modifies table
    ensures forall k :: table.Load(k) == LearnFrom(old(table.Load(k)), RewardsOf(stream, k))
  {
    for i := 0 to |stream|
      invariant forall k :: table.Load(k) == LearnFrom(old(table.Load(k)), RewardsOf(stream[..i], k))
    {
      var (key, reward) := stream[i];
      assert stream[..i + 1][..i] == stream[..i];
      ghost var before := RewardsOf(stream[..i], key);
      assert (before + [reward])[..|before|] == before;
      table.Update(key, reward);
      forall k ensures table.Load(k) == LearnFrom(old(table.Load(k)), RewardsOf(stream[..i + 1], k)) {
        if k != key { assert RewardsOf(stream[..i + 1], k) == RewardsOf(stream[..i], k); }
      }
    }
    assert stream[..|stream|] == stream;
  }
}
