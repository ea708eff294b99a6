/** Running mean and sum of squared deviations without storing data, over exact reals. */
module RunningStat {
  import opened Arithmetic
  import opened Sequences

  datatype Stat = Stat(m: real, s: real, mLast: real, sLast: real, n: nat)

  /** One more sample; a non-negative `cap` bounds the weight of the past. */
  function Push(st: Stat, cap: int, x: real): Stat {
    var n := if cap < 0 || st.n < cap then st.n + 1 else st.n;
    if n == 0 then st.(m := x, mLast := x, sLast := 0.0)
    else
      var m := st.mLast + (x - st.mLast) / n as real;
      var s := st.sLast + Mul(x - st.mLast, x - m);
      Stat(m, s, m, s, n)
  }

  function PushAll(st: Stat, cap: int, xs: seq<real>): Stat {
    if xs == [] then st else Push(PushAll(st, cap, xs[..|xs| - 1]), cap, xs[|xs| - 1])
  }

  /** A tracker that starts from a prior mean, sum of squares and weight. */
  function FromPrior(m: real, s: real, n: nat): Stat {
    Stat(m, s, m, s, n)
  }

  class Tracker {
    const maxTrackable: int
    var m: real
    var s: real
    var mLast: real
    var sLast: real
    var n: nat

    ghost function Current(): Stat
      reads this
    {
      Stat(m, s, mLast, sLast, n)
    }

    constructor (m: real, s: real, n: nat, maxTrackable: int)
      ensures Current() == FromPrior(m, s, n) && this.maxTrackable == maxTrackable
    {
      this.maxTrackable := maxTrackable;
      this.m, this.s, this.n := m, s, n;
      mLast, sLast := m, s;
    }

    method Reset()
      modifies this
      ensures Current() == FromPrior(0.0, 0.0, 0)
    {
      m, s, mLast, sLast, n := 0.0, 0.0, 0.0, 0.0, 0;
    }

    method PushData(x: real)
      modifies this
      ensures Current() == Push(old(Current()), maxTrackable, x)
    {
      hide Mul;
      if maxTrackable < 0 || n < maxTrackable {
        n := n + 1;
      }
      if n == 0 {
        mLast := x;
        m := mLast;
        sLast := 0.0;
      } else {
        m := mLast + (x - mLast) / n as real;
        s := sLast + Mul(x - mLast, x - m);
        mLast := m;
        sLast := s;
      }
    }

    method PushRun(xs: seq<real>)
      modifies this
      ensures Current() == PushAll(old(Current()), maxTrackable, xs)
    {
      hide Push;
      for i := 0 to |xs|
        invariant Current() == PushAll(old(Current()), maxTrackable, xs[..i])
      {
        assert xs[..i + 1][..i] == xs[..i];
        PushData(xs[i]);
      }
      assert xs[..|xs|] == xs;
    }
  }

  // ---------- the batch form ----------

  function Square(x: real): real {
    x * x
  }

  function SumSquares(xs: seq<real>): real {
    if xs == [] then 0.0 else SumSquares(xs[..|xs| - 1]) + Square(xs[|xs| - 1])
  }

  /** Sum of squared deviations of the data from `c`. */
  function Deviations(xs: seq<real>, c: real): real {
    if xs == [] then 0.0 else Deviations(xs[..|xs| - 1], c) + Square(xs[|xs| - 1] - c)
  }

  /** Deviations from `c` of `k` numbers with sum `t` and sum of squares `q`. */
  function Expanded(q: real, t: real, k: real, c: real): real {
    q - 2.0 * c * t + k * c * c
  }

  lemma ExpandStep(q: real, t: real, k: real, x: real, c: real)
    ensures Expanded(q, t, k, c) + Square(x - c) == Expanded(q + Square(x), t + x, k + 1.0, c)
  {
  }

  lemma {:induction false} DeviationsExpand(xs: seq<real>, c: real)
    ensures Deviations(xs, c) == Expanded(SumSquares(xs), Sum(xs), |xs| as real, c)
  {
    if xs != [] {
      hide Expanded, Square;
      var init, x := xs[..|xs| - 1], xs[|xs| - 1];
      DeviationsExpand(init, c);
      ExpandStep(SumSquares(init), Sum(init), |init| as real, x, c);
      assert |xs| as real == |init| as real + 1.0;
    }
  }

  function FirstMoment(st: Stat): real {
    st.n as real * st.m
  }

  function SecondMoment(st: Stat): real {
    st.s + st.n as real * st.m * st.m
  }

  predicate Settled(st: Stat) {
    st.mLast == st.m && st.sLast == st.s
  }

  lemma PushMoments(p: Stat, x: real)
    requires Settled(p)
    ensures var r := Push(p, -1, x);
            && Settled(r) && r.n == p.n + 1
            && FirstMoment(r) == FirstMoment(p) + x && SecondMoment(r) == SecondMoment(p) + Square(x)
  {
  }

  /** Without a cap, weight, first and second moment add up over the prior and the data. */
  lemma {:induction false} MomentsConserved(prior: Stat, xs: seq<real>)
    requires Settled(prior)
    ensures var r := PushAll(prior, -1, xs);
            && Settled(r) && r.n == prior.n + |xs|
            && FirstMoment(r) == FirstMoment(prior) + Sum(xs)
            && SecondMoment(r) == SecondMoment(prior) + SumSquares(xs)
  {
    hide Push, FirstMoment, SecondMoment, Square;
    if xs != [] {
      MomentsConserved(prior, xs[..|xs| - 1]);
      PushMoments(PushAll(prior, -1, xs[..|xs| - 1]), xs[|xs| - 1]);
    }
  }

  /** The mean of a prior of weight `n0` and `k` samples with sum `t`. */
  function WeightedMean(n0: nat, m0: real, k: nat, t: real): real
    requires n0 + k > 0
  {
    (n0 as real * m0 + t) / (n0 + k) as real
  }

  /**
   Welford equals batch: the mean is the weighted mean of prior and data, and the sum of squares is
   the prior's own plus the squared deviations of prior mean and data from the new mean.
   */
  lemma WelfordIsBatch(m0: real, s0: real, n0: nat, xs: seq<real>)
    requires n0 + |xs| > 0
    ensures var r := PushAll(FromPrior(m0, s0, n0), -1, xs);
            && r.m == WeightedMean(n0, m0, |xs|, Sum(xs))
            && r.s == s0 + Mul(n0 as real, Square(m0 - r.m)) + Deviations(xs, r.m)
  {
    hide PushAll, Sum, SumSquares, Deviations, FirstMoment, SecondMoment, Expanded, Square, Mul, WeightedMean;
    var prior := FromPrior(m0, s0, n0);
    var r := PushAll(prior, -1, xs);
    MomentsConserved(prior, xs);
    DeviationsExpand(xs, r.m);
    BatchForm(prior, r, |xs|, Sum(xs), SumSquares(xs));
  }

  lemma BatchForm(prior: Stat, r: Stat, k: nat, t: real, q: real)
    requires r.n == prior.n + k > 0
    requires FirstMoment(r) == FirstMoment(prior) + t && SecondMoment(r) == SecondMoment(prior) + q
    ensures r.m == WeightedMean(prior.n, prior.m, k, t)
    ensures r.s == prior.s + Mul(prior.n as real, Square(prior.m - r.m)) + Expanded(q, t, k as real, r.m)
  {
  }

  // ---------- any cap ----------

  lemma Between(m: real, x: real, n: real, lo: real, hi: real)
    requires n >= 1.0 && lo <= m <= hi && lo <= x <= hi
    ensures lo <= m + (x - m) / n <= hi
  {
  }

  lemma ShareOfGap(n: real, d: real, gap: real)
    requires n >= 1.0 && gap >= 0.0 && n * d == gap
    ensures 0.0 <= d <= gap
  {
  }

  lemma GapProduct(m: real, x: real, n: real)
    requires n >= 1.0
    ensures Mul(x - m, x - (m + (x - m) / n)) >= 0.0
  {
    var gap, d := x - m, (x - m) / n;
    assert n * d == gap;
    if gap >= 0.0 {
      ShareOfGap(n, d, gap);
      assert gap * (gap - d) >= 0.0;
    } else {
      ShareOfGap(n, -d, -gap);
      assert (-gap) * (-gap - -d) >= 0.0;
    }
  }

  lemma ShareOfStep(m: real, x: real, n: real, next: real)
    requires n >= 1.0 && next == m + (x - m) / n
    ensures Mul(n, next - m) == x - m && Mul(n, x - next) == Mul(n - 1.0, x - m)
  {
  }

  /**
   At the cap the tracker forgets exponentially: the mean moves by exactly one part in `cap` of the way to the
   sample, and the sum grows by the product of the distances before and after.
   */
  lemma AtCap(p: Stat, cap: int, x: real)
    requires Settled(p) && p.n == cap > 0
    ensures var r := Push(p, cap, x);
            && Settled(r) && r.n == cap
            && Mul(cap as real, r.m - p.m) == x - p.m
            && Mul(cap as real, x - r.m) == Mul(cap as real - 1.0, x - p.m)
            && r.s == p.s + Mul(x - p.m, x - r.m)
  {
    hide Mul;
    ShareOfStep(p.m, x, cap as real, Push(p, cap, x).m);
  }

  /** With a cap of zero and no prior, the mean is the latest sample and nothing is summed. */
  lemma {:induction false} CapZero(xs: seq<real>)
    ensures var r := PushAll(FromPrior(0.0, 0.0, 0), 0, xs);
            && r.n == 0 && r.s == 0.0 && r.sLast == 0.0
            && r.m == r.mLast == if xs == [] then 0.0 else xs[|xs| - 1]
  {
    if xs != [] {
      CapZero(xs[..|xs| - 1]);
    }
  }

  /** The mean lies in `[lo, hi]` and no sum of squares is negative. */
  predicate InHull(st: Stat, lo: real, hi: real) {
    lo <= st.m <= hi && st.mLast == st.m && st.s >= 0.0 && st.sLast >= 0.0
  }

  lemma PushInHull(p: Stat, cap: int, x: real, lo: real, hi: real)
    requires InHull(p, lo, hi) && lo <= x <= hi
    ensures InHull(Push(p, cap, x), lo, hi)
  {
    hide Mul;
    var r := Push(p, cap, x);
    if r.n > 0 {
      var n := r.n as real;
      Between(p.m, x, n, lo, hi);
      GapProduct(p.m, x, n);
    }
  }

  /**
   With any cap the mean stays in every interval that holds prior mean and data, the sum of squares
   never becomes negative, and the weight never passes the larger of cap and prior.
   */
  lemma {:induction false} StaysInHull(prior: Stat, cap: int, xs: seq<real>, lo: real, hi: real)
    requires InHull(prior, lo, hi)
    requires forall i :: 0 <= i < |xs| ==> lo <= xs[i] <= hi
    ensures InHull(PushAll(prior, cap, xs), lo, hi)
    ensures cap >= 0 ==> PushAll(prior, cap, xs).n <= if prior.n >= cap then prior.n else cap
  {
    if xs != [] {
      var p, x := PushAll(prior, cap, xs[..|xs| - 1]), xs[|xs| - 1];
      StaysInHull(prior, cap, xs[..|xs| - 1], lo, hi);
      PushInHull(p, cap, x, lo, hi);
      hide InHull;
      PushWeight(p, cap, x);
      hide Push;
    }
  }

  lemma PushWeight(p: Stat, cap: int, x: real)
    ensures Push(p, cap, x).n == if cap < 0 || p.n < cap then p.n + 1 else p.n
  {
  }
}
