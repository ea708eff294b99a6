/** What the calibrator reports: the mean and spread of its blocks, its status, and how the blocks fill. */
module CalibratorReports {
  import opened Arithmetic
  import opened Sequences
  import opened Calibrator

  /** The indices below `n` except `skip`, in order. */
  function Others(n: nat, skip: nat): seq<nat> {
    if n == 0 then [] else Others(n - 1, skip) + if n - 1 == skip then [] else [n - 1]
  }

  lemma {:induction false} OthersExact(n: nat, skip: nat)
    ensures var idxs := Others(n, skip);
            && |idxs| == (if skip < n then n - 1 else n)
            && forall k :: 0 <= k < |idxs| ==> idxs[k] == if k < skip then k else k + 1
  {
    if n > 0 { OthersExact(n - 1, skip); }
  }

  lemma ValidIdxsAreOthers(blockIdx: nat, validBlocks: nat)
    requires blockIdx <= validBlocks
    ensures ValidIdxs(blockIdx, validBlocks) == Others(validBlocks, blockIdx)
  {
    ValidIdxsExact(blockIdx, validBlocks);
    OthersExact(validBlocks, blockIdx);
    hide ValidIdxs, Others;
  }

  /** The sum of the first `n` numbers without the one at `skip`. */
  function SumOthers(xs: seq<real>, n: nat, skip: nat): real
    requires n <= |xs|
  {
    if n == 0 then 0.0 else SumOthers(xs, n - 1, skip) + if n - 1 == skip then 0.0 else xs[n - 1]
  }

  function PickReals(xs: seq<real>, idxs: seq<nat>): (r: seq<real>)
    requires forall k :: 0 <= k < |idxs| ==> idxs[k] < |xs|
    ensures |r| == |idxs|
  {
    seq(|idxs|, k requires 0 <= k < |idxs| => xs[idxs[k]])
  }

  lemma OthersInBounds(n: nat, skip: nat, size: nat)
    requires n <= size
    ensures forall k :: 0 <= k < |Others(n, skip)| ==> Others(n, skip)[k] < size
  {
    OthersExact(n, skip);
  }

  lemma {:induction false} SumPicked(xs: seq<real>, n: nat, skip: nat)
    requires n <= |xs|
    ensures forall k :: 0 <= k < |Others(n, skip)| ==> Others(n, skip)[k] < |xs|
    ensures Sum(PickReals(xs, Others(n, skip))) == SumOthers(xs, n, skip)
  {
    OthersInBounds(n, skip, |xs|);
    if n > 0 {
      SumPicked(xs, n - 1, skip);
      var before := Others(n - 1, skip);
      if n - 1 == skip {
        assert Others(n, skip) == before;
      } else {
        assert Others(n, skip) == before + [n - 1];
        SumSnoc(PickReals(xs, before), xs[n - 1]);
        assert PickReals(xs, Others(n, skip)) == PickReals(xs, before) + [xs[n - 1]];
      }
    }
  }

  lemma SumSnoc(xs: seq<real>, x: real)
    ensures Sum(xs + [x]) == Sum(xs) + x
  {
    assert (xs + [x])[..|xs|] == xs;
  }

  /** Number of blocks that count. */
  function ValidCount(s: State): nat {
    if s.blockIdx < s.validBlocks then s.validBlocks - 1 else s.validBlocks
  }

  /** The values of one component over the blocks that count. */
  lemma PickedComponents(s: State)
    requires Indexed(s)
    ensures var idxs := Others(s.validBlocks, s.blockIdx);
            && ValidIdxs(s.blockIdx, s.validBlocks) == idxs && |idxs| == ValidCount(s)
            && (forall k :: 0 <= k < |idxs| ==> idxs[k] < |s.rpys|)
            && Rolls(Pick(s.rpys, idxs)) == PickReals(Rolls(s.rpys), idxs)
            && Pitches(Pick(s.rpys, idxs)) == PickReals(Pitches(s.rpys), idxs)
            && Yaws(Pick(s.rpys, idxs)) == PickReals(Yaws(s.rpys), idxs)
  {
    ValidIdxsAreOthers(s.blockIdx, s.validBlocks);
    OthersExact(s.validBlocks, s.blockIdx);
    OthersInBounds(s.validBlocks, s.blockIdx, |s.rpys|);
    hide ValidIdxs, Others;
  }

  lemma MeanTimesCount(xs: seq<real>)
    requires xs != []
    ensures Mul(|xs| as real, Mean(xs)) == Sum(xs)
  {
  }

  /** The estimate is the mean of the blocks that count: their sum is the count times the estimate. */
  lemma EstimateIsMean(s: State)
    requires Indexed(s) && ValidCount(s) > 0
    ensures var n, v := ValidCount(s) as real, Averaged(s).rpy;
            && Mul(n, v.roll) == SumOthers(Rolls(s.rpys), s.validBlocks, s.blockIdx)
            && Mul(n, v.pitch) == SumOthers(Pitches(s.rpys), s.validBlocks, s.blockIdx)
            && Mul(n, v.yaw) == SumOthers(Yaws(s.rpys), s.validBlocks, s.blockIdx)
  {
    hide Mul, Mean, Sum, SumOthers, ValidIdxs, Others, Rolls, Pitches, Yaws, Pick, PickReals, SpreadRpy;
    PickedComponents(s);
    var idxs := Others(s.validBlocks, s.blockIdx);
    var vs := Pick(s.rpys, idxs);
    SumPicked(Rolls(s.rpys), s.validBlocks, s.blockIdx);
    SumPicked(Pitches(s.rpys), s.validBlocks, s.blockIdx);
    SumPicked(Yaws(s.rpys), s.validBlocks, s.blockIdx);
    MeanTimesCount(Rolls(vs));
    MeanTimesCount(Pitches(vs));
    MeanTimesCount(Yaws(vs));
  }

  /** Unless it restarts, an update reports that mean; without any block that counts it keeps what it had. */
  lemma ReportIsMean(l: Limits, s: State)
    requires Indexed(s) && !Restarts(l, s)
    ensures var n, v := ValidCount(s) as real, UpdateStatus(l, s).rpy;
            if ValidCount(s) == 0 then v == s.rpy && UpdateStatus(l, s).spread == Rpy(0.0, 0.0, 0.0)
            else
              && Mul(n, v.roll) == SumOthers(Rolls(s.rpys), s.validBlocks, s.blockIdx)
              && Mul(n, v.pitch) == SumOthers(Pitches(s.rpys), s.validBlocks, s.blockIdx)
              && Mul(n, v.yaw) == SumOthers(Yaws(s.rpys), s.validBlocks, s.blockIdx)
  {
    StatusExact(l, s);
    if ValidCount(s) > 0 {
      EstimateIsMean(s);
    } else {
      ValidIdxsExact(s.blockIdx, s.validBlocks);
    }
    hide UpdateStatus, Restarts, GoodMean, MeanRpy, SpreadRpy;
  }

  lemma {:induction false} Extremes(xs: seq<real>) returns (i: nat, j: nat)
    requires xs != []
    ensures i < |xs| && j < |xs| && Largest(xs) == xs[i] && Smallest(xs) == xs[j]
    ensures forall k :: 0 <= k < |xs| ==> Smallest(xs) <= xs[k] <= Largest(xs)
  {
    var last := |xs| - 1;
    if last == 0 {
      i, j := 0, 0;
    } else {
      i, j := Extremes(xs[..last]);
      i, j := if xs[last] > xs[i] then last else i, if xs[last] < xs[j] then last else j;
    }
  }

  predicate Counts(s: State, i: nat) {
    i < s.validBlocks && i != s.blockIdx
  }

  /** `width` is the largest difference between two of the blocks that count, and some two differ by it. */
  ghost predicate IsSpread(s: State, xs: seq<real>, width: real)
    requires Indexed(s) && |xs| == INPUTS_WANTED
  {
    && (forall i: nat, j: nat :: Counts(s, i) && Counts(s, j) ==> xs[i] - xs[j] <= width)
    && exists i: nat, j: nat :: Counts(s, i) && Counts(s, j) && xs[i] - xs[j] == width
  }

  lemma SpreadPicked(s: State, xs: seq<real>)
    requires Indexed(s) && |xs| == INPUTS_WANTED && ValidCount(s) > 0
    ensures var idxs := Others(s.validBlocks, s.blockIdx);
            && (forall k :: 0 <= k < |idxs| ==> idxs[k] < |xs|) && idxs != []
            && var ys := PickReals(xs, idxs); IsSpread(s, xs, Largest(ys) - Smallest(ys))
  {
    hide Others, Largest, Smallest;
    OthersExact(s.validBlocks, s.blockIdx);
    OthersInBounds(s.validBlocks, s.blockIdx, |xs|);
    var idxs := Others(s.validBlocks, s.blockIdx);
    var ys := PickReals(xs, idxs);
    var a, b := Extremes(ys);
    assert Counts(s, idxs[a]) && Counts(s, idxs[b]) && xs[idxs[a]] - xs[idxs[b]] == Largest(ys) - Smallest(ys);
    forall i: nat | Counts(s, i) ensures Smallest(ys) <= xs[i] <= Largest(ys) {
      var k := if i < s.blockIdx then i else i - 1;
      assert ys[k] == xs[i];
    }
  }

  /** The reported spread is the widest difference between two of the blocks that count. */
  lemma SpreadIsWidest(s: State)
    requires Indexed(s) && ValidCount(s) > 0
    ensures IsSpread(s, Rolls(s.rpys), Averaged(s).spread.roll)
    ensures IsSpread(s, Pitches(s.rpys), Averaged(s).spread.pitch)
    ensures IsSpread(s, Yaws(s.rpys), Averaged(s).spread.yaw)
  {
    hide IsSpread, Largest, Smallest, ValidIdxs, Others, Rolls, Pitches, Yaws, Pick, PickReals, MeanRpy;
    PickedComponents(s);
    SpreadPicked(s, Rolls(s.rpys));
    SpreadPicked(s, Pitches(s.rpys));
    SpreadPicked(s, Yaws(s.rpys));
  }

  /** With at least five blocks and a mean strictly inside the limits. */
  ghost predicate GoodMean(l: Limits, s: State)
    requires Indexed(s)
  {
    var v := Averaged(s).rpy;
    s.validBlocks >= 5 && l.pitchLow < v.pitch < l.pitchHigh && l.yawLow < v.yaw < l.yawHigh
  }

  /**
   The status is calibrated exactly with a good mean and a spread within bounds; a good mean with a larger
   spread is the restart; otherwise five blocks make it invalid, and fewer leave it uncalibrated or recalibrating.
   */
  lemma StatusExact(l: Limits, s: State)
    requires Indexed(s)
    ensures var v, r := Averaged(s), UpdateStatus(l, s);
            var wide := v.spread.pitch > l.pitchSpread || v.spread.yaw > l.yawSpread;
            && (r.status.Calibrated? <==> GoodMean(l, s) && !wide)
            && (Restarts(l, s) <==> GoodMean(l, s) && wide)
            && (r.status.Invalid? <==> s.validBlocks >= 5 && !GoodMean(l, s))
            && (r.status.Recalibrating? <==> Restarts(l, s) || (s.validBlocks < 5 && s.status.Recalibrating?))
            && (!Restarts(l, s) ==> r == v.(status := r.status))
  {
    hide MeanRpy, SpreadRpy;
  }

  /** The distance to a new sample shrinks to exactly `idx` hundredths. */
  lemma DecayShrinksGap(previous: real, x: real, idx: nat)
    requires idx < 100
    ensures x - Decay(previous, x, idx) == idx as real / 100.0 * (x - previous)
  {
  }

  /** Messages that are used: straight and fast, and certain unless fewer than five blocks are there. */
  predicate Accepted(s: State, o: Odometry) {
    o.straightAndFast && (o.certain || s.validBlocks < 5)
  }

  /** Messages that are not used change nothing but the weight of the old mean. */
  lemma NotAccepted(l: Limits, s: State, o: Odometry)
    requires Indexed(s) && !Accepted(s, o)
    ensures HandleOdometry(l, s, o)
         == s.(oldWeight := if s.oldWeight > 0.1 then s.oldWeight - 0.1 else 0.0)
  {
  }

  /** The place after `n` samples: a block takes 100 of them and the fifty blocks are used in turn. */
  ghost predicate AtSample(s: State, n: nat) {
    && s.idx == n % 100 && s.blockIdx == n / 100 % 50
    && s.validBlocks == if n / 100 < 50 then n / 100 else 50
  }

  lemma NextPlace(n: nat)
    ensures n % 100 < 99 ==> (n + 1) % 100 == n % 100 + 1 && (n + 1) / 100 == n / 100
    ensures n % 100 == 99 ==> (n + 1) % 100 == 0 && (n + 1) / 100 == n / 100 + 1
    ensures n / 100 % 50 < 49 ==> (n / 100 + 1) % 50 == n / 100 % 50 + 1
    ensures n / 100 % 50 == 49 ==> (n / 100 + 1) % 50 == 0
  {
  }

  lemma AcceptedPlace(l: Limits, s: State, o: Odometry, n: nat)
    requires Indexed(s) && Accepted(s, o) && AtSample(s, n) && !HandleOdometry(l, s, o).status.Recalibrating?
    ensures AtSample(HandleOdometry(l, s, o), n + 1)
  {
    hide MovingAverage, SanityClip, MeanRpy, SpreadRpy;
    NextPlace(n);
    var stored := StoreSample(FadeOld(s), SanityClip(l, o.sample));
    assert AtSample(stored, n + 1);
    hide StoreSample;
    StatusExact(l, stored);
  }

  /** Every message of the run is accepted and none restarts the calibration. */
  ghost predicate Unbroken(l: Limits, s: State, run: seq<Odometry>)
    requires Indexed(s)
    decreases |run|
  {
    run == [] ||
    var init := run[..|run| - 1];
    && Unbroken(l, s, init) && Accepted(After(l, s, init), run[|run| - 1])
    && !After(l, s, run).status.Recalibrating?
  }

  /** As long as there is no restart, every accepted sample advances the place by one. */
  lemma {:induction false} BlocksFill(l: Limits, s: State, run: seq<Odometry>)
    requires Indexed(s) && AtSample(s, 0) && Unbroken(l, s, run)
    ensures AtSample(After(l, s, run), |run|)
    decreases |run|
  {
    hide HandleOdometry, Accepted, AtSample, Indexed;
    if run != [] {
      var init, last := run[..|run| - 1], run[|run| - 1];
      BlocksFill(l, s, init);
      AcceptedPlace(l, After(l, s, init), last, |init|);
    }
  }

  /** Clipping keeps a sample in range as it is and moves any other to the nearest end of the range. */
  lemma ClipIsNearest(x: real, low: real, high: real, y: real)
    requires low <= y <= high
    ensures low <= Clip(x, low, high) <= high && (low <= x <= high <==> Clip(x, low, high) == x)
    ensures (if x >= y then x - y else y - x) >=
            (if x >= Clip(x, low, high) then x - Clip(x, low, high) else Clip(x, low, high) - x)
  {
  }

  /** The ranges in radians of the two mounts, with their margin. */
  lemma DeviceRanges(pitchSpread: real, yawSpread: real, v: Rpy)
    ensures InRange(DeviceLimits(true, pitchSpread, yawSpread), v) <==>
            -0.148101 <= v.pitch <= 0.22735988 && -0.07412048084718224 <= v.yaw <= 0.07412048084718235
    ensures InRange(DeviceLimits(false, pitchSpread, yawSpread), v) <==>
            -0.09574112085129739 <= v.pitch <= 0.175 && -0.07412048084718224 <= v.yaw <= 0.07412048084718235
  {
  }

  lemma {:induction false} SumOfSame(xs: seq<real>, n: nat, skip: nat, x: real)
    requires n <= |xs| && forall k :: 0 <= k < n ==> xs[k] == x
    ensures SumOthers(xs, n, skip) == Mul((if skip < n then n - 1 else n) as real, x)
  {
    if n > 0 {
      SumOfSame(xs, n - 1, skip, x);
      OneMore(if skip < n - 1 then n - 2 else n - 1, x);
    }
  }

  lemma OneMore(n: int, x: real)
    ensures Mul((n + 1) as real, x) == Mul(n as real, x) + x && Mul(0.0, x) == 0.0
  {
  }

  lemma SameFactor(n: real, x: real, y: real)
    requires n > 0.0 && Mul(n, x) == Mul(n, y)
    ensures x == y
  {
  }

  lemma MeanOfSame(s: State, v: Rpy)
    requires Indexed(s) && ValidCount(s) > 0 && forall k :: 0 <= k < |s.rpys| ==> s.rpys[k] == v
    ensures Averaged(s).rpy == v && Averaged(s).spread.pitch == 0.0 && Averaged(s).spread.yaw == 0.0
  {
    hide Mul, SumOthers, Averaged;
    EstimateIsMean(s);
    SpreadIsWidest(s);
    var n := ValidCount(s) as real;
    SumOfSame(Rolls(s.rpys), s.validBlocks, s.blockIdx, v.roll);
    SumOfSame(Pitches(s.rpys), s.validBlocks, s.blockIdx, v.pitch);
    SumOfSame(Yaws(s.rpys), s.validBlocks, s.blockIdx, v.yaw);
    SameFactor(n, Averaged(s).rpy.roll, v.roll);
    SameFactor(n, Averaged(s).rpy.pitch, v.pitch);
    SameFactor(n, Averaged(s).rpy.yaw, v.yaw);
  }

  /** Start-up reports the stored angles, or zero when they were not numbers, and a negative count is none. */
  lemma SeedIsReported(l: Limits, seed: Option<Rpy>, validBlocks: int)
    requires validBlocks <= 50
    ensures var v := if seed.Some? then seed.value else Rpy(0.0, 0.0, 0.0);
            var r := Initial(l, seed, validBlocks);
            && r.rpy == v && (forall k :: 0 <= k < |r.rpys| ==> r.rpys[k] == v) && r.idx == 0 && r.blockIdx == 0
            && (l.pitchSpread >= 0.0 && l.yawSpread >= 0.0 ==>
                  r.validBlocks == (if validBlocks < 0 then 0 else validBlocks) && r.oldWeight == 0.0)
  {
    var s := Seeded(seed, validBlocks);
    var v := if seed.Some? then seed.value else Rpy(0.0, 0.0, 0.0);
    assert s.rpy == v && forall k :: 0 <= k < |s.rpys| ==> s.rpys[k] == v;
    assert Initial(l, seed, validBlocks) == UpdateStatus(l, s);
    hide Initial, Seeded;
    StatusExact(l, s);
    if ValidCount(s) > 0 {
      MeanOfSame(s, v);
    } else {
      ReportIsMean(l, s);
    }
    hide Averaged;
    if Restarts(l, s) {
      RestartIsSmooth(l, s);
    }
  }

  /** A reset forgets everything but status and spread; a seed that is not a number counts as zero. */
  lemma ResetForgets(s: State, t: State, seed: Option<Rpy>, validBlocks: int, smoothFrom: Option<Rpy>)
    ensures var r := Reset(s, seed, validBlocks, smoothFrom);
            && r == Reset(t, seed, validBlocks, smoothFrom).(status := s.status, spread := s.spread)
            && r == Reset(s, Some(if seed.Some? then seed.value else Rpy(0.0, 0.0, 0.0)),
                          if validBlocks < 0 then 0 else validBlocks, smoothFrom)
  {
  }

  /** The state that start-up evaluates. */
  function Seeded(seed: Option<Rpy>, validBlocks: int): State {
    Reset(State(RPY_INIT, 0, Tile(RPY_INIT), 0, 0, RPY_INIT, 0.0, Uncalibrated, RPY_INIT), seed, validBlocks, None)
  }
}
