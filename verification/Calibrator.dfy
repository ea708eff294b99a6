/** The camera calibrator: block averages of clipped angle samples, with a smooth restart when the mount moves. */
module Calibrator {
  import opened Arithmetic
  import opened Sequences

  datatype Rpy = Rpy(roll: real, pitch: real, yaw: real)

  /** Limits of a device; angles just outside them are still stored, further ones are clipped. */
  datatype Limits = Limits(pitchLow: real, pitchHigh: real, yawLow: real, yawHigh: real,
                           pitchSpread: real, yawSpread: real)

  datatype Status = Uncalibrated | Calibrated | Invalid | Recalibrating

  datatype State = State(
    rpy: Rpy, validBlocks: nat, rpys: seq<Rpy>, idx: nat, blockIdx: nat,
    oldRpy: Rpy, oldWeight: real, status: Status, spread: Rpy)

  const BLOCK_SIZE := 100
  const INPUTS_NEEDED := 5
  const INPUTS_WANTED := 50
  const MARGIN := 0.005
  const RPY_INIT := Rpy(0.0, 0.0, 0.0)

  predicate ProperLimits(l: Limits) {
    l.pitchLow <= 0.0 <= l.pitchHigh && l.yawLow <= 0.0 <= l.yawHigh
  }

  /** The limits of the two camera mounts; the allowed spreads are angles and enter as numbers. */
  function DeviceLimits(mici: bool, pitchSpread: real, yawSpread: real): (l: Limits)
    ensures ProperLimits(l)
  {
    var (low, high) := if mici then (-0.143101, 0.22235988) else (-0.09074112085129739, 0.17);
    Limits(low, high, -0.06912048084718224, 0.06912048084718235, pitchSpread, yawSpread)
  }

  function Clip(x: real, low: real, high: real): real {
    if x < low then low else if x > high then high else x
  }

  /** `None` stands for a sample with a component that is not a number. */
  function SanityClip(l: Limits, sample: Option<Rpy>): Rpy {
    var v := if sample.None? then RPY_INIT else sample.value;
    Rpy(v.roll, Clip(v.pitch, l.pitchLow - MARGIN, l.pitchHigh + MARGIN),
        Clip(v.yaw, l.yawLow - MARGIN, l.yawHigh + MARGIN))
  }

  /** Averages with a weight of `idx / BLOCK_SIZE` for the past. */
  function Decay(previous: real, x: real, idx: nat): real {
    (idx as real * previous + (BLOCK_SIZE - idx) as real * x) / BLOCK_SIZE as real
  }

  function MovingAverage(previous: Rpy, v: Rpy, idx: nat): Rpy {
    Rpy(Decay(previous.roll, v.roll, idx), Decay(previous.pitch, v.pitch, idx), Decay(previous.yaw, v.yaw, idx))
  }

  function Range(low: nat, high: nat): (r: seq<nat>)
    ensures |r| == if low <= high then high - low else 0
    ensures forall k :: 0 <= k < |r| ==> r[k] == low + k
    decreases high - low
  {
    if low >= high then [] else [low] + Range(low + 1, high)
  }

  /** Blocks that count: the current one is left out. */
  function ValidIdxs(blockIdx: nat, validBlocks: nat): seq<nat> {
    Range(0, blockIdx) + Range(if validBlocks <= blockIdx + 1 then validBlocks else blockIdx + 1, validBlocks)
  }

  function Pick(rpys: seq<Rpy>, idxs: seq<nat>): (r: seq<Rpy>)
    requires forall k :: 0 <= k < |idxs| ==> idxs[k] < |rpys|
    ensures |r| == |idxs|
  {
    seq(|idxs|, k requires 0 <= k < |idxs| => rpys[idxs[k]])
  }

  function Mean(xs: seq<real>): real
    requires xs != []
  {
    Sum(xs) / |xs| as real
  }

  function Largest(xs: seq<real>): real
    requires xs != []
  {
    if |xs| == 1 then xs[0]
    else
      var m := Largest(xs[..|xs| - 1]);
      if xs[|xs| - 1] > m then xs[|xs| - 1] else m
  }

  function Smallest(xs: seq<real>): real
    requires xs != []
  {
    if |xs| == 1 then xs[0]
    else
      var m := Smallest(xs[..|xs| - 1]);
      if xs[|xs| - 1] < m then xs[|xs| - 1] else m
  }

  function Pitches(vs: seq<Rpy>): (r: seq<real>) ensures |r| == |vs| {
    seq(|vs|, k requires 0 <= k < |vs| => vs[k].pitch)
  }

  function Yaws(vs: seq<Rpy>): (r: seq<real>) ensures |r| == |vs| {
    seq(|vs|, k requires 0 <= k < |vs| => vs[k].yaw)
  }

  function Rolls(vs: seq<Rpy>): (r: seq<real>) ensures |r| == |vs| {
    seq(|vs|, k requires 0 <= k < |vs| => vs[k].roll)
  }

  function MeanRpy(vs: seq<Rpy>): Rpy
    requires vs != []
  {
    Rpy(Mean(Rolls(vs)), Mean(Pitches(vs)), Mean(Yaws(vs)))
  }

  function SpreadRpy(vs: seq<Rpy>): Rpy
    requires vs != []
  {
    Rpy(Largest(Rolls(vs)) - Smallest(Rolls(vs)), Largest(Pitches(vs)) - Smallest(Pitches(vs)),
        Largest(Yaws(vs)) - Smallest(Yaws(vs)))
  }

  predicate WithinLimits(l: Limits, v: Rpy) {
    l.pitchLow < v.pitch < l.pitchHigh && l.yawLow < v.yaw < l.yawHigh
  }

  function Tile(v: Rpy): (r: seq<Rpy>)
    ensures |r| == INPUTS_WANTED && forall k :: 0 <= k < |r| ==> r[k] == v
  {
    seq(INPUTS_WANTED, k => v)
  }

  /** `None` stands for a seed that is not finite. */
  function Reset(s: State, seed: Option<Rpy>, validBlocks: int, smoothFrom: Option<Rpy>): State {
    var v := if seed.None? then RPY_INIT else seed.value;
    s.(rpy := v, validBlocks := if validBlocks < 0 then 0 else validBlocks, rpys := Tile(v), idx := 0, blockIdx := 0,
       oldRpy := if smoothFrom.None? then RPY_INIT else smoothFrom.value,
       oldWeight := if smoothFrom.None? then 0.0 else 1.0)
  }

  function SmoothRpy(s: State): Rpy {
    if s.oldWeight > 0.0 then
      Rpy(Blend(s.oldWeight, s.oldRpy.roll, s.rpy.roll), Blend(s.oldWeight, s.oldRpy.pitch, s.rpy.pitch),
          Blend(s.oldWeight, s.oldRpy.yaw, s.rpy.yaw))
    else s.rpy
  }

  function Blend(w: real, a: real, b: real): real {
    w * a + (1.0 - w) * b
  }

  // ---------- updates ----------

  /** The bookkeeping that indexing needs, kept by every update. */
  predicate Indexed(s: State) {
    && |s.rpys| == INPUTS_WANTED && s.idx < BLOCK_SIZE
    && s.blockIdx < INPUTS_WANTED && s.blockIdx <= s.validBlocks <= INPUTS_WANTED
  }

  lemma ValidIdxsInBounds(s: State)
    requires Indexed(s)
    ensures var idxs := ValidIdxs(s.blockIdx, s.validBlocks);
            forall k :: 0 <= k < |idxs| ==> idxs[k] < |s.rpys|
  {
  }

  function Averaged(s: State): State
    requires Indexed(s)
  {
    ValidIdxsInBounds(s);
    var vs := Pick(s.rpys, ValidIdxs(s.blockIdx, s.validBlocks));
    if vs == [] then s.(spread := Rpy(0.0, 0.0, 0.0)) else s.(rpy := MeanRpy(vs), spread := SpreadRpy(vs))
  }

  function Graded(l: Limits, s: State): State {
    s.(status :=
       if s.validBlocks < INPUTS_NEEDED then (if s.status.Recalibrating? then Recalibrating else Uncalibrated)
       else if WithinLimits(l, s.rpy) then Calibrated else Invalid)
  }

  predicate SpreadTooHigh(l: Limits, s: State) {
    s.spread.pitch > l.pitchSpread || s.spread.yaw > l.yawSpread
  }

  /** The last finished block; before the first one this wraps to the end, as negative indexing does. */
  function LastBlock(s: State): Rpy
    requires Indexed(s)
  {
    s.rpys[if s.blockIdx == 0 then INPUTS_WANTED - 1 else s.blockIdx - 1]
  }

  function UpdateStatus(l: Limits, s: State): (r: State)
    requires Indexed(s)
    ensures Indexed(r)
  {
    var g := Graded(l, Averaged(s));
    if SpreadTooHigh(l, g) && g.status.Calibrated? then
      Reset(g, Some(LastBlock(g)), 1, Some(g.rpy)).(status := Recalibrating)
    else g
  }

  /** Camera odometry: the gates, and the sample that the rotations gave. */
  datatype Odometry = Odometry(straightAndFast: bool, certain: bool, sample: Option<Rpy>)

  function StoreSample(s: State, v: Rpy): (r: State)
    requires Indexed(s)
    ensures Indexed(r)
  {
    var stored := s.(rpys := s.rpys[s.blockIdx := MovingAverage(s.rpys[s.blockIdx], v, s.idx)]);
    if s.idx + 1 < BLOCK_SIZE then stored.(idx := s.idx + 1)
    else
      stored.(idx := 0,
              validBlocks := if s.blockIdx + 1 > s.validBlocks then s.blockIdx + 1 else s.validBlocks,
              blockIdx := if s.blockIdx + 1 == INPUTS_WANTED then 0 else s.blockIdx + 1)
  }

  function FadeOld(s: State): State {
    s.(oldWeight := if s.oldWeight - 0.1 > 0.0 then s.oldWeight - 0.1 else 0.0)
  }

  function HandleOdometry(l: Limits, s: State, o: Odometry): (r: State)
    requires Indexed(s)
    ensures Indexed(r)
  {
    var f := FadeOld(s);
    if !(o.straightAndFast && (o.certain || s.validBlocks < INPUTS_NEEDED)) then f
    else UpdateStatus(l, StoreSample(f, SanityClip(l, o.sample)))
  }

  // ---------- what is kept ----------

  /** Pitch and yaw inside the clip range. */
  ghost predicate InRange(l: Limits, v: Rpy) {
    && l.pitchLow - MARGIN <= v.pitch <= l.pitchHigh + MARGIN
    && l.yawLow - MARGIN <= v.yaw <= l.yawHigh + MARGIN
  }

  ghost predicate AllInRange(l: Limits, vs: seq<Rpy>) {
    forall k :: 0 <= k < |vs| ==> InRange(l, vs[k])
  }

  /** Everything the calibrator holds is in range. */
  ghost predicate Sound(l: Limits, s: State) {
    && Indexed(s) && AllInRange(l, s.rpys) && InRange(l, s.rpy) && InRange(l, s.oldRpy)
    && 0.0 <= s.oldWeight <= 1.0
  }

  /** The valid blocks are exactly those before `validBlocks` except the current one, in increasing order. */
  lemma ValidIdxsExact(blockIdx: nat, validBlocks: nat)
    requires blockIdx <= validBlocks
    ensures var idxs := ValidIdxs(blockIdx, validBlocks);
            && |idxs| == (if blockIdx < validBlocks then validBlocks - 1 else validBlocks)
            && forall k :: 0 <= k < |idxs| ==> idxs[k] == if k < blockIdx then k else k + 1
    ensures forall i: nat :: i in ValidIdxs(blockIdx, validBlocks) <==> i < validBlocks && i != blockIdx
  {
    var idxs := ValidIdxs(blockIdx, validBlocks);
    forall i: nat | i < validBlocks && i != blockIdx ensures i in idxs {
      assert idxs[if i < blockIdx then i else i - 1] == i;
    }
  }

  lemma BlendBetween(w: real, a: real, b: real, low: real, high: real)
    requires 0.0 <= w <= 1.0 && low <= a <= high && low <= b <= high
    ensures low <= Blend(w, a, b) <= high
  {
    assert w * (a - low) >= 0.0 && (1.0 - w) * (b - low) >= 0.0;
    assert w * (high - a) >= 0.0 && (1.0 - w) * (high - b) >= 0.0;
  }

  lemma DecayIsBlend(previous: real, x: real, idx: nat)
    requires idx < BLOCK_SIZE
    ensures Decay(previous, x, idx) == Blend(idx as real / 100.0, previous, x)
  {
  }

  lemma MovingAverageInRange(l: Limits, previous: Rpy, v: Rpy, idx: nat)
    requires InRange(l, previous) && InRange(l, v) && idx < BLOCK_SIZE
    ensures InRange(l, MovingAverage(previous, v, idx))
  {
    hide Decay, Blend;
    var w := idx as real / 100.0;
    DecayIsBlend(previous.pitch, v.pitch, idx);
    DecayIsBlend(previous.yaw, v.yaw, idx);
    BlendBetween(w, previous.pitch, v.pitch, l.pitchLow - MARGIN, l.pitchHigh + MARGIN);
    BlendBetween(w, previous.yaw, v.yaw, l.yawLow - MARGIN, l.yawHigh + MARGIN);
  }

  lemma {:induction false} SumBetween(xs: seq<real>, low: real, high: real)
    requires forall k :: 0 <= k < |xs| ==> low <= xs[k] <= high
    ensures |xs| as real * low <= Sum(xs) <= |xs| as real * high
  {
    if xs != [] {
      SumBetween(xs[..|xs| - 1], low, high);
      var n := (|xs| - 1) as real;
      assert |xs| as real == n + 1.0;
      assert (n + 1.0) * low == n * low + low && (n + 1.0) * high == n * high + high;
    }
  }

  lemma MeanBetween(xs: seq<real>, low: real, high: real)
    requires xs != [] && forall k :: 0 <= k < |xs| ==> low <= xs[k] <= high
    ensures low <= Mean(xs) <= high
  {
    SumBetween(xs, low, high);
    DivideBounds(Sum(xs), |xs| as real, low, high);
  }

  lemma DivideBounds(t: real, n: real, low: real, high: real)
    requires n > 0.0 && n * low <= t <= n * high
    ensures low <= t / n <= high
  {
  }

  lemma MeanInRange(l: Limits, vs: seq<Rpy>)
    requires vs != [] && AllInRange(l, vs)
    ensures InRange(l, MeanRpy(vs))
  {
    hide Mean;
    MeanBetween(Pitches(vs), l.pitchLow - MARGIN, l.pitchHigh + MARGIN);
    MeanBetween(Yaws(vs), l.yawLow - MARGIN, l.yawHigh + MARGIN);
  }

  lemma SmoothInRange(l: Limits, s: State)
    requires Sound(l, s)
    ensures InRange(l, SmoothRpy(s))
  {
    hide Blend;
    if s.oldWeight > 0.0 {
      BlendBetween(s.oldWeight, s.oldRpy.pitch, s.rpy.pitch, l.pitchLow - MARGIN, l.pitchHigh + MARGIN);
      BlendBetween(s.oldWeight, s.oldRpy.yaw, s.rpy.yaw, l.yawLow - MARGIN, l.yawHigh + MARGIN);
    }
  }

  lemma UpdateStatusSound(l: Limits, s: State)
    requires ProperLimits(l) && Sound(l, s)
    ensures Sound(l, UpdateStatus(l, s))
  {
    hide MeanRpy, SpreadRpy, InRange;
    ValidIdxsInBounds(s);
    var vs := Pick(s.rpys, ValidIdxs(s.blockIdx, s.validBlocks));
    assert AllInRange(l, vs);
    if vs != [] {
      MeanInRange(l, vs);
    }
  }

  lemma StoreSampleSound(l: Limits, s: State, v: Rpy)
    requires Sound(l, s) && InRange(l, v)
    ensures Sound(l, StoreSample(s, v))
  {
    hide MovingAverage, InRange;
    MovingAverageInRange(l, s.rpys[s.blockIdx], v, s.idx);
  }

  lemma ClippedInRange(l: Limits, sample: Option<Rpy>)
    requires ProperLimits(l)
    ensures InRange(l, SanityClip(l, sample))
    ensures sample.None? ==> SanityClip(l, sample) == Rpy(0.0, 0.0, 0.0)
    ensures sample.Some? ==> SanityClip(l, sample).roll == sample.value.roll
    ensures sample.Some? ==> (SanityClip(l, sample) == sample.value <==> InRange(l, sample.value))
  {
  }

  lemma HandleOdometrySound(l: Limits, s: State, o: Odometry)
    requires ProperLimits(l) && Sound(l, s)
    ensures Sound(l, HandleOdometry(l, s, o))
  {
    hide UpdateStatus, StoreSample, SanityClip;
    var f := FadeOld(s);
    assert Sound(l, f);
    hide Sound;
    ClippedInRange(l, o.sample);
    StoreSampleSound(l, f, SanityClip(l, o.sample));
    UpdateStatusSound(l, StoreSample(f, SanityClip(l, o.sample)));
  }

  // ---------- runs ----------

  function After(l: Limits, s: State, run: seq<Odometry>): (r: State)
    requires Indexed(s)
    ensures Indexed(r)
    decreases |run|
  {
    if run == [] then s else HandleOdometry(l, After(l, s, run[..|run| - 1]), run[|run| - 1])
  }

  /** The state after start-up from a stored calibration. */
  function Initial(l: Limits, seed: Option<Rpy>, validBlocks: int): (r: State)
    requires validBlocks <= INPUTS_WANTED
    ensures Indexed(r)
  {
    UpdateStatus(l, Reset(State(RPY_INIT, 0, Tile(RPY_INIT), 0, 0, RPY_INIT, 0.0, Uncalibrated, RPY_INIT),
                          seed, validBlocks, None))
  }

  lemma InitialSound(l: Limits, seed: Option<Rpy>, validBlocks: int)
    requires ProperLimits(l) && validBlocks <= INPUTS_WANTED && (seed.Some? ==> InRange(l, seed.value))
    ensures Sound(l, Initial(l, seed, validBlocks))
  {
    hide UpdateStatus;
    UpdateStatusSound(l, Reset(State(RPY_INIT, 0, Tile(RPY_INIT), 0, 0, RPY_INIT, 0.0, Uncalibrated, RPY_INIT),
                               seed, validBlocks, None));
  }

  /** From an in-range seed, no sequence of samples takes anything held or reported out of the clip range. */
  lemma {:induction false} RunInRange(l: Limits, s: State, run: seq<Odometry>)
    requires ProperLimits(l) && Sound(l, s)
    ensures Sound(l, After(l, s, run)) && InRange(l, SmoothRpy(After(l, s, run)))
    decreases |run|
  {
    hide HandleOdometry, SmoothRpy, InRange;
    if run != [] {
      RunInRange(l, s, run[..|run| - 1]);
      HandleOdometrySound(l, After(l, s, run[..|run| - 1]), run[|run| - 1]);
    }
    SmoothInRange(l, After(l, s, run));
  }

  predicate Restarts(l: Limits, s: State)
    requires Indexed(s)
  {
    var g := Graded(l, Averaged(s));
    SpreadTooHigh(l, g) && g.status.Calibrated?
  }

  /** A restart discards all blocks but the last, and the reported angles do not jump: they still are the old mean. */
  lemma RestartIsSmooth(l: Limits, s: State)
    requires Indexed(s) && Restarts(l, s)
    ensures var r := UpdateStatus(l, s);
            var last := s.rpys[if s.blockIdx == 0 then 49 else s.blockIdx - 1];
            && SmoothRpy(r) == Averaged(s).rpy && JustRestarted(r)
            && r.rpy == last && forall k :: 0 <= k < |r.rpys| ==> r.rpys[k] == last
  {
    hide MeanRpy, SpreadRpy;
  }

  predicate JustRestarted(s: State) {
    s.status.Recalibrating? && s.oldWeight == 1.0 && s.validBlocks == 1 && s.idx == 0 && s.blockIdx == 0
  }

  /** From `a` the share `t` of the way to `b`. */
  function Mixed(t: real, a: Rpy, b: Rpy): Rpy {
    Rpy(a.roll + Mul(t, b.roll - a.roll), a.pitch + Mul(t, b.pitch - a.pitch), a.yaw + Mul(t, b.yaw - a.yaw))
  }

  lemma BlendIsShare(w: real, a: real, b: real)
    ensures Blend(w, a, b) == a + Mul(1.0 - w, b - a)
    ensures w == 0.0 ==> Blend(w, a, b) == b
  {
  }

  lemma SmoothIsMixed(s: State)
    requires s.oldWeight >= 0.0
    ensures SmoothRpy(s) == Mixed(1.0 - s.oldWeight, s.oldRpy, s.rpy)
  {
    hide Blend, Mul;
    BlendIsShare(s.oldWeight, s.oldRpy.roll, s.rpy.roll);
    BlendIsShare(s.oldWeight, s.oldRpy.pitch, s.rpy.pitch);
    BlendIsShare(s.oldWeight, s.oldRpy.yaw, s.rpy.yaw);
  }

  /**
   After a restart the old mean fades out over exactly ten odometry messages, accepted or not, and no
   second restart can interfere; from then on the new estimate is reported alone.
   */
  lemma {:induction false} OldMeanFades(l: Limits, s: State, run: seq<Odometry>)
    requires Indexed(s) && JustRestarted(s) && |run| <= 10
    ensures var r := After(l, s, run);
            && r.oldRpy == s.oldRpy && r.oldWeight == 1.0 - |run| as real / 10.0
            && r.validBlocks == 1 && r.blockIdx == 0 && r.idx <= |run|
            && SmoothRpy(r) == Mixed(|run| as real / 10.0, s.oldRpy, r.rpy)
            && (|run| == 10 ==> SmoothRpy(r) == r.rpy)
    decreases |run|
  {
    hide HandleOdometry, SmoothRpy, Mixed;
    if run != [] {
      OldMeanFades(l, s, run[..|run| - 1]);
      FadeStep(l, After(l, s, run[..|run| - 1]), run[|run| - 1]);
    }
    SmoothIsMixed(After(l, s, run));
    if |run| == 10 {
      NothingOld(After(l, s, run));
    }
  }

  lemma NothingOld(s: State)
    requires s.oldWeight == 0.0
    ensures SmoothRpy(s) == s.rpy
  {
  }

  lemma FadeStep(l: Limits, s: State, o: Odometry)
    requires Indexed(s) && s.validBlocks == 1 && s.blockIdx == 0 && s.idx < 10
    ensures var r := HandleOdometry(l, s, o);
            && r.oldRpy == s.oldRpy && r.oldWeight == FadeOld(s).oldWeight
            && r.validBlocks == 1 && r.blockIdx == 0 && r.idx <= s.idx + 1
  {
  }

  /** The first sample of a block replaces whatever the block held before. */
  lemma BlockStartsAfresh(s: State, v: Rpy)
    requires Indexed(s) && s.idx == 0
    ensures StoreSample(s, v).rpys[s.blockIdx] == v
  {
  }

  // ---------- the object that is updated in place ----------

  class Estimator {
    const limits: Limits
    var rpy: Rpy
    var validBlocks: nat
    var rpys: seq<Rpy>
    var idx: nat
    var blockIdx: nat
    var oldRpy: Rpy
    var oldWeight: real
    var status: Status
    var spread: Rpy

    ghost function Current(): State
      reads this
    {
      State(rpy, validBlocks, rpys, idx, blockIdx, oldRpy, oldWeight, status, spread)
    }

    constructor (limits: Limits, seed: Option<Rpy>, validBlocks: int)
      requires validBlocks <= INPUTS_WANTED
      ensures this.limits == limits && Current() == Initial(limits, seed, validBlocks)
    {
      this.limits := limits;
      rpy, this.validBlocks, rpys, idx, blockIdx := RPY_INIT, 0, Tile(RPY_INIT), 0, 0;
      oldRpy, oldWeight, status, spread := RPY_INIT, 0.0, Uncalibrated, RPY_INIT;
      new;
      Restart(seed, validBlocks, None);
      Evaluate();
    }

    method Restart(seed: Option<Rpy>, validBlocks: int, smoothFrom: Option<Rpy>)
      modifies this
      ensures Current() == Reset(old(Current()), seed, validBlocks, smoothFrom)
    {
      rpy := if seed.None? then RPY_INIT else seed.value;
      this.validBlocks := if validBlocks < 0 then 0 else validBlocks;
      rpys := Tile(rpy);
      idx := 0;
      blockIdx := 0;
      if smoothFrom.None? {
        oldRpy, oldWeight := RPY_INIT, 0.0;
      } else {
        oldRpy, oldWeight := smoothFrom.value, 1.0;
      }
    }

    method Evaluate()
      requires Indexed(Current())
      modifies this
      ensures Current() == UpdateStatus(limits, old(Current()))
    {
      hide MeanRpy, SpreadRpy, ValidIdxs;
      ValidIdxsInBounds(Current());
      var valid := Pick(rpys, ValidIdxs(blockIdx, validBlocks));
      if valid != [] {
        rpy := MeanRpy(valid);
        spread := SpreadRpy(valid);
      } else {
        spread := Rpy(0.0, 0.0, 0.0);
      }
      if validBlocks < INPUTS_NEEDED {
        if !status.Recalibrating? {
          status := Uncalibrated;
        }
      } else if WithinLimits(limits, rpy) {
        status := Calibrated;
      } else {
        status := Invalid;
      }
      if (spread.pitch > limits.pitchSpread || spread.yaw > limits.yawSpread) && status.Calibrated? {
        var last := rpys[if blockIdx == 0 then INPUTS_WANTED - 1 else blockIdx - 1];
        Restart(Some(last), 1, Some(rpy));
        status := Recalibrating;
      }
    }

    method Store(v: Rpy)
      requires Indexed(Current())
      modifies this
      ensures Current() == StoreSample(old(Current()), v)
    {
      hide MovingAverage;
      rpys := rpys[blockIdx := MovingAverage(rpys[blockIdx], v, idx)];
      idx := (idx + 1) % BLOCK_SIZE;
      if idx == 0 {
        blockIdx := blockIdx + 1;
        validBlocks := if blockIdx > validBlocks then blockIdx else validBlocks;
        blockIdx := blockIdx % INPUTS_WANTED;
      }
    }

    method Handle(o: Odometry)
      requires Indexed(Current())
      modifies this
      ensures Current() == HandleOdometry(limits, old(Current()), o)
    {
      hide UpdateStatus, SanityClip, StoreSample;
      oldWeight := if oldWeight - 0.1 > 0.0 then oldWeight - 0.1 else 0.0;
      if !(o.straightAndFast && (o.certain || validBlocks < INPUTS_NEEDED)) {
        return;
      }
      Store(SanityClip(limits, o.sample));
      Evaluate();
    }

    method Run(run: seq<Odometry>)
      requires Indexed(Current())
      modifies this
      ensures Current() == After(limits, old(Current()), run)
    {
      hide HandleOdometry, Indexed;
      for n := 0 to |run|
        invariant Indexed(Current()) && Current() == After(limits, old(Current()), run[..n])
      {
        assert run[..n + 1][..n] == run[..n];
        Handle(run[n]);
      }
      assert run[..|run|] == run;
    }
  }

  /** Start-up: fails, as reading a block that does not exist does, when the stored count exceeds the blocks. */
  method StartUp(limits: Limits, seed: Option<Rpy>, validBlocks: int) returns (e: Estimator?)
    ensures e == null <==> validBlocks > INPUTS_WANTED
    ensures e != null ==> fresh(e) && e.limits == limits && e.Current() == Initial(limits, seed, validBlocks)
  {
    if validBlocks > INPUTS_WANTED {
      return null;
    }
    e := new Estimator(limits, seed, validBlocks);
  }

  /** At start-up the valid blocks all exist if and only if the stored count is at most their number. */
  lemma StoredBlocksFit(validBlocks: nat)
    ensures validBlocks <= INPUTS_WANTED <==> forall i :: i in ValidIdxs(0, validBlocks) ==> i < INPUTS_WANTED
  {
    ValidIdxsExact(0, validBlocks);
    if validBlocks > INPUTS_WANTED {
      assert validBlocks - 1 in ValidIdxs(0, validBlocks);
    }
  }
}
