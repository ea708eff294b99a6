/** The search for the next transform length whose only prime factors are 2, 3, 5, 7 and 11. */
module FftSize {
  import opened Arithmetic

  // ---------- divisibility ----------

  predicate Divides(d: nat, m: nat) {
    d > 0 && m % d == 0
  }

  ghost predicate Prime(p: nat) {
    p >= 2 && forall d :: 2 <= d < p ==> !Divides(d, p)
  }

  lemma MultipleDivides(d: nat, c: nat)
    requires d > 0
    ensures Divides(d, d * c)
  {
    DivideProduct(d, c);
  }

  lemma Quotient(d: nat, m: nat) returns (c: nat)
    requires Divides(d, m)
    ensures m == d * c
  {
    c := m / d;
  }

  lemma DividesMultiple(d: nat, m: nat, c: nat)
    requires Divides(d, m)
    ensures Divides(d, m * c)
  {
    var q := Quotient(d, m);
    assert m * c == d * (q * c);
    MultipleDivides(d, q * c);
  }

  lemma DividesDifference(d: nat, a: nat, b: nat)
    requires Divides(d, a) && Divides(d, b) && b <= a
    ensures Divides(d, a - b)
  {
    var x := Quotient(d, a);
    var y := Quotient(d, b);
    var z: int := x - y;
    assert a - b == d * z;
    assert z < 0 ==> d * -z >= d;
    MultipleDivides(d, z);
  }

  /** A multiple of `p` less than another one, leaving `r * b` with `r` a remainder. */
  lemma RemainderTimes(p: nat, x: nat, a: nat, r: nat, b: nat)
    requires a == x * p + r
    ensures r * b == a * b - x * p * b && x * p * b <= a * b
  {
    assert a * b == x * p * b + r * b;
    assert r * b >= 0;
  }

  lemma ReduceAbove(p: nat, a: nat, b: nat)
    requires p > 0 && Divides(p, a * b)
    ensures Divides(p, a % p * b)
  {
    RemainderTimes(p, a / p, a, a % p, b);
    MultipleDivides(p, a / p * b);
    assert p * (a / p * b) == a / p * p * b;
    DividesDifference(p, a * b, a / p * p * b);
  }

  lemma ReduceBelow(p: nat, a: nat, b: nat)
    requires a > 0 && Divides(p, a * b)
    ensures Divides(p, p % a * b)
  {
    RemainderTimes(a, p / a, p, p % a, b);
    MultipleDivides(p, b);
    DividesMultiple(p, a * b, p / a);
    assert a * b * (p / a) == p / a * a * b;
    DividesDifference(p, p * b, p / a * a * b);
  }

  /** Euclid's lemma, by descent on `a`. */
  lemma {:induction false} Euclid(p: nat, a: nat, b: nat)
    requires Prime(p) && Divides(p, a * b) && !Divides(p, a)
    ensures Divides(p, b)
    decreases a
  {
    if a == 1 {
      assert a * b == b;
    } else if a >= p {
      ReduceAbove(p, a, b);
      SmallNotDivisible(p, a % p);
      Euclid(p, a % p, b);
    } else {
      ReduceBelow(p, a, b);
      assert !Divides(a, p);
      SmallNotDivisible(p, p % a);
      Euclid(p, p % a, b);
    }
  }

  lemma SmallNotDivisible(p: nat, a: nat)
    requires 0 < a < p
    ensures !Divides(p, a)
  {
  }

  lemma DividesTransitive(d: nat, p: nat, m: nat)
    requires Divides(d, p) && Divides(p, m)
    ensures Divides(d, m)
  {
    var c := Quotient(p, m);
    DividesMultiple(d, p, c);
  }

  lemma PrimeFactor(m: nat) returns (p: nat)
    requires m >= 2
    ensures Prime(p) && Divides(p, m)
  {
    hide Divides;
    p := 2;
    SelfDivides(m);
    while !Divides(p, m)
      invariant 2 <= p <= m
      invariant forall d :: 2 <= d < p ==> !Divides(d, m)
      decreases m - p
    {
      p := p + 1;
    }
    forall d: nat | 2 <= d < p ensures !Divides(d, p) {
      if Divides(d, p) {
        DividesTransitive(d, p, m);
      }
    }
  }

  lemma SelfDivides(m: nat)
    requires m > 0
    ensures Divides(m, m)
  {
  }

  // ---------- numbers with few prime factors ----------

  /** Every prime factor of `m` is in `ps`. */
  ghost predicate OnlyFactors(ps: seq<nat>, m: nat) {
    m >= 1 && forall q: nat :: Prime(q) && Divides(q, m) ==> q in ps
  }

  const FACTORS: seq<nat> := [2, 3, 5, 7, 11]

  ghost predicate Smooth(m: nat) {
    OnlyFactors(FACTORS, m)
  }

  lemma SmoothTimes(m: nat, p: nat)
    requires Smooth(m) && p in FACTORS
    ensures Smooth(p * m)
  {
    forall q: nat | Prime(q) && Divides(q, p * m) ensures q in FACTORS {
      if Divides(q, p) {
        assert q == p by { PrimeDividesFactor(q, p); }
      } else {
        Euclid(q, p, m);
      }
    }
  }

  lemma PrimeDividesFactor(q: nat, p: nat)
    requires Prime(q) && Divides(q, p) && p in FACTORS
    ensures q == p
  {
  }

  lemma SmallAreSmooth(m: nat)
    requires 1 <= m <= 6
    ensures Smooth(m)
  {
    assert Divides(2, 4) && Divides(2, 6);
    forall q: nat | Prime(q) && Divides(q, m) ensures q in FACTORS {
      assert q <= m by { if q > m { SmallNotDivisible(q, m); } }
      assert q == 2 || q == 3 || q == 4 || q == 5 || q == 6;
    }
  }

  function Pow(b: nat, k: nat): nat {
    if k == 0 then 1 else Times(b, Pow(b, k - 1))
  }

  lemma TimesAssociates(a: nat, b: nat, c: nat)
    ensures a * (b * c) == Times(a, b) * c
  {
  }

  /** Splits off the largest power of `p`. */
  lemma {:induction false} Strip(p: nat, m: nat) returns (k: nat, rest: nat)
    requires p >= 2 && m >= 1
    ensures m == Pow(p, k) * rest && rest >= 1 && !Divides(p, rest)
    decreases m
  {
    if Divides(p, m) {
      var c := Quotient(p, m);
      assert c < m by { assert 2 * c <= p * c; }
      k, rest := Strip(p, c);
      TimesAssociates(p, Pow(p, k), rest);
      k := k + 1;
    } else {
      k, rest := 0, m;
    }
  }

  lemma {:induction false} PowerOfTwoBetween(n: nat) returns (p: nat)
    requires n >= 1
    ensures n <= p < 2 * n && Smooth(p)
  {
    hide Smooth;
    if n == 1 {
      p := 1;
      SmallAreSmooth(1);
    } else {
      p := PowerOfTwoBetween(n - 1);
      if p < n {
        assert 2 == FACTORS[0];
        SmoothTimes(p, 2);
        p := 2 * p;
      }
    }
  }

  // ---------- what the loops have covered ----------

  function Term(f: nat, p: nat, k: nat): nat {
    Times(f, Pow(p, k))
  }

  /** No product of `f` with powers of `ps` lies in `[n, best)`. */
  ghost predicate Covered(ps: seq<nat>, f: nat, n: nat, best: nat)
    decreases |ps|
  {
    if ps == [] then f < n || best <= f
    else forall k: nat :: Covered(ps[1..], Term(f, ps[0], k), n, best)
  }

  /** The first `k` powers of `ps[0]` are covered. */
  ghost predicate CoveredUpTo(ps: seq<nat>, f: nat, k: nat, n: nat, best: nat)
    requires ps != []
  {
    forall j: nat :: j < k ==> Covered(ps[1..], Term(f, ps[0], j), n, best)
  }

  lemma {:induction false} CoveredShrink(ps: seq<nat>, f: nat, n: nat, best: nat, smaller: nat)
    requires Covered(ps, f, n, best) && smaller <= best
    ensures Covered(ps, f, n, smaller)
    decreases |ps|
  {
    if ps != [] {
      forall k: nat ensures Covered(ps[1..], Term(f, ps[0], k), n, smaller) {
        CoveredShrink(ps[1..], Term(f, ps[0], k), n, best, smaller);
      }
    }
  }

  lemma CoveredUpToShrink(ps: seq<nat>, f: nat, k: nat, n: nat, best: nat, smaller: nat)
    requires ps != [] && CoveredUpTo(ps, f, k, n, best) && smaller <= best
    ensures CoveredUpTo(ps, f, k, n, smaller)
  {
    forall j: nat | j < k ensures Covered(ps[1..], Term(f, ps[0], j), n, smaller) {
      CoveredShrink(ps[1..], Term(f, ps[0], j), n, best, smaller);
    }
  }

  lemma {:induction false} PowPositive(p: nat, k: nat)
    requires p >= 1
    ensures Pow(p, k) >= 1
  {
    if k > 0 { PowPositive(p, k - 1); }
  }

  lemma {:induction false} PowGrows(p: nat, j: nat, k: nat)
    requires p >= 1 && j <= k
    ensures Pow(p, j) <= Pow(p, k)
    decreases k - j
  {
    if j < k {
      PowGrows(p, j, k - 1);
      MonotoneTimes(Pow(p, k - 1), 1, p);
    }
  }

  /** Beyond the bound everything is covered: products only grow. */
  lemma {:induction false} CoveredBeyond(ps: seq<nat>, f: nat, n: nat, best: nat)
    requires best <= f && forall i :: 0 <= i < |ps| ==> ps[i] >= 1
    ensures Covered(ps, f, n, best)
    decreases |ps|
  {
    if ps != [] {
      forall k: nat ensures Covered(ps[1..], Term(f, ps[0], k), n, best) {
        PowPositive(ps[0], k);
        MonotoneTimes(f, 1, Pow(ps[0], k));
        CoveredBeyond(ps[1..], Term(f, ps[0], k), n, best);
      }
    }
  }

  /** Leaving the loop of the first factor of `ps` covers all of its powers. */
  lemma LoopExit(ps: seq<nat>, f: nat, k: nat, n: nat, best: nat)
    requires ps != [] && forall i :: 0 <= i < |ps| ==> ps[i] >= 1
    requires CoveredUpTo(ps, f, k, n, best) && best <= Term(f, ps[0], k)
    ensures Covered(ps, f, n, best)
  {
    forall j: nat ensures Covered(ps[1..], Term(f, ps[0], j), n, best) {
      if j >= k {
        PowGrows(ps[0], k, j);
        MonotoneTimes(f, Pow(ps[0], k), Pow(ps[0], j));
        CoveredBeyond(ps[1..], Term(f, ps[0], j), n, best);
      }
    }
  }

  /** Covering all powers leaves no number with these factors in `[n, best)`. */
  lemma {:induction false} CoveredExcludes(ps: seq<nat>, f: nat, m: nat, n: nat, best: nat)
    requires forall i :: 0 <= i < |ps| ==> ps[i] >= 2
    requires Covered(ps, f, n, best) && OnlyFactors(ps, m)
    ensures f * m < n || best <= f * m
    decreases |ps|
  {
    if ps == [] {
      if m > 1 {
        var q := PrimeFactor(m);
      }
    } else {
      var k, rest := Strip(ps[0], m);
      forall q: nat | Prime(q) && Divides(q, rest) ensures q in ps[1..] {
        DividesMultiple(q, rest, Pow(ps[0], k));
        assert Pow(ps[0], k) * rest == rest * Pow(ps[0], k);
        assert q in ps;
      }
      CoveredExcludes(ps[1..], Term(f, ps[0], k), rest, n, best);
      TimesAssociates(f, Pow(ps[0], k), rest);
    }
  }

  // ---------- the search ----------

  /** The bound is either the starting value or a genuine candidate. */
  ghost predicate Candidate(n: nat, best: nat) {
    n <= best && (best == 2 * n || Smooth(best))
  }

  const P11: seq<nat> := [11]
  const P7: seq<nat> := [7, 11]
  const P5: seq<nat> := [5, 7, 11]
  const P3: seq<nat> := [3, 5, 7, 11]

  /** One turn of a loop: `f * p^k` is covered, so the next power is due. */
  lemma LoopTurn(ps: seq<nat>, f: nat, g: nat, k: nat, n: nat, best: nat, smaller: nat)
    requires ps != [] && ps[0] in FACTORS && g == Term(f, ps[0], k) && Smooth(g)
    requires CoveredUpTo(ps, f, k, n, best) && smaller <= best && Covered(ps[1..], g, n, smaller)
    ensures CoveredUpTo(ps, f, k + 1, n, smaller)
    ensures g * ps[0] == Term(f, ps[0], k + 1) && Smooth(g * ps[0])
  {
    CoveredUpToShrink(ps, f, k, n, best, smaller);
    TermNext(f, ps[0], k);
    SmoothTimes(g, ps[0]);
  }

  lemma TermNext(f: nat, p: nat, k: nat)
    ensures p * Term(f, p, k) == Term(f, p, k) * p == Term(f, p, k + 1)
  {
  }

  lemma LoopEntry(ps: seq<nat>, f: nat, n: nat, best: nat)
    requires ps != []
    ensures CoveredUpTo(ps, f, 0, n, best) && f == Term(f, ps[0], 0)
  {
  }

  /** At the end the bound is the least candidate: the starting value cannot survive. */
  lemma SearchDone(n: nat, best: nat)
    requires n >= 1 && Candidate(n, best) && Covered(FACTORS, 1, n, best)
    ensures Smooth(best) && forall m: nat :: n <= m < best ==> !Smooth(m)
  {
    forall m: nat | n <= m < best ensures !Smooth(m) {
      if Smooth(m) {
        CoveredExcludes(FACTORS, 1, m, n, best);
      }
    }
    var p := PowerOfTwoBetween(n);
  }

  method FftNextGoodSize(n: int) returns (best: int)
    ensures n <= 6 ==> best == n
    ensures n >= 1 ==> best >= n && Smooth(best)
    ensures n >= 1 ==> forall m: nat :: n <= m < best ==> !Smooth(m)
  {
    hide CoveredUpTo, Covered, Smooth, Term;
    if n <= 6 {
      if n >= 1 { SmallAreSmooth(n); }
      return n;
    }
    best := 2 * n;
    var f2: nat := 1;
    SmallAreSmooth(1);
    ghost var k2: nat := 0;
    LoopEntry(FACTORS, 1, n, best);
    while f2 < best
      invariant n <= best && Candidate(n, best) && f2 >= 1 && Smooth(f2)
      invariant f2 == Term(1, 2, k2) && CoveredUpTo(FACTORS, 1, k2, n, best)
      decreases best - f2
    {
      ghost var best2 := best;
      var f23: nat := f2;
      ghost var k3: nat := 0;
      LoopEntry(P3, f2, n, best);
      while f23 < best
        invariant n <= best && Candidate(n, best) && best <= best2 && f23 >= 1 && Smooth(f23)
        invariant f23 == Term(f2, 3, k3) && CoveredUpTo(P3, f2, k3, n, best)
        decreases best - f23
      {
        ghost var best3 := best;
        var f235: nat := f23;
        ghost var k5: nat := 0;
        LoopEntry(P5, f23, n, best);
        while f235 < best
          invariant n <= best && Candidate(n, best) && best <= best3 && f235 >= 1 && Smooth(f235)
          invariant f235 == Term(f23, 5, k5) && CoveredUpTo(P5, f23, k5, n, best)
          decreases best - f235
        {
          ghost var best5 := best;
          var f2357: nat := f235;
          ghost var k7: nat := 0;
          LoopEntry(P7, f235, n, best);
          while f2357 < best
            invariant n <= best && Candidate(n, best) && best <= best5 && f2357 >= 1 && Smooth(f2357)
            invariant f2357 == Term(f235, 7, k7) && CoveredUpTo(P7, f235, k7, n, best)
            decreases best - f2357
          {
            ghost var best7 := best;
            var f235711: nat := f2357;
            ghost var k11: nat := 0;
            LoopEntry(P11, f2357, n, best);
            while f235711 < best
              invariant n <= best && Candidate(n, best) && best <= best7 && f235711 >= 1 && Smooth(f235711)
              invariant f235711 == Term(f2357, 11, k11) && CoveredUpTo(P11, f2357, k11, n, best)
              decreases best - f235711
            {
              ghost var before := best;
              best := if f235711 >= n then f235711 else best;
              CoveredSelf(f235711, n, best);
              LoopTurn(P11, f2357, f235711, k11, n, before, best);
              f235711 := f235711 * 11;
              k11 := k11 + 1;
            }
            LoopExit(P11, f2357, k11, n, best);
            LoopTurn(P7, f235, f2357, k7, n, best7, best);
            f2357 := f2357 * 7;
            k7 := k7 + 1;
          }
          LoopExit(P7, f235, k7, n, best);
          LoopTurn(P5, f23, f235, k5, n, best5, best);
          f235 := f235 * 5;
          k5 := k5 + 1;
        }
        LoopExit(P5, f23, k5, n, best);
        LoopTurn(P3, f2, f23, k3, n, best3, best);
        f23 := f23 * 3;
        k3 := k3 + 1;
      }
      LoopExit(P3, f2, k3, n, best);
      LoopTurn(FACTORS, 1, f2, k2, n, best2, best);
      f2 := f2 * 2;
      k2 := k2 + 1;
    }
    LoopExit(FACTORS, 1, k2, n, best);
    SearchDone(n, best);
  }

  lemma CoveredSelf(f: nat, n: nat, best: nat)
    requires f < n || best <= f
    ensures Covered(P11[1..], f, n, best)
  {
  }
}
