/** What holds over every run of driver monitoring. */
module MonitoringRuns {
  import opened Sequences
  import opened DriverMonitoring

  /** Kept by every update: stored values are never red, and thresholds belong to the active policy. */
  ghost predicate Sound(s: State) {
    && -0.1 <= s.awareness <= 1.0
    && 5.0 / 13.0 < s.lastVision <= 1.0
    && 0.0 < s.lastWheelTouch <= 1.0
    && (s.policy.Vision? ==>
          && s.threshold1 == 8.0 / 13.0 && s.threshold2 == 5.0 / 13.0
          && (s.step == 1.0 / 260.0 || s.step == 0.0))
    && (s.policy.WheelTouch? ==> s.threshold1 == 0.8 && s.threshold2 == 0.4 && s.step == 1.0 / 500.0)
  }

  predicate Red(s: State) {
    s.awareness <= 0.0
  }

  /** Fields that the lockout bookkeeping leaves alone. */
  lemma LockoutKeepsAwareness(s: State)
    ensures var r := UpdateLockout(s);
            r == s.(alert3Count := r.alert3Count, sinceAlert3 := r.sinceAlert3, noResponseCount := r.noResponseCount,
                    lockout := r.lockout, lockoutCount := r.lockoutCount, lockoutDuration := r.lockoutDuration,
                    lockoutElapsed := r.lockoutElapsed)
  {
  }

  /** Recovery moves up by 1.25 to 5 steps and stops at full. */
  lemma RaisedBounds(awareness: real, step: real)
    requires 0.0 < awareness <= 1.0 && 0.0 <= step
    ensures Raised(awareness, step) <= 1.0
    ensures Min(awareness + 1.25 * step, 1.0) <= Raised(awareness, step) <= Min(awareness + 5.0 * step, 1.0)
  {
    var factor := (RECOVERY_MAX - RECOVERY_MIN) * (1.0 - awareness) + RECOVERY_MIN;
    assert 1.25 <= factor <= 5.0;
    ScaleMonotone(1.25, factor, step);
    ScaleMonotone(factor, 5.0, step);
    assert Raised(awareness, step) == Min(awareness + factor * step, 1.0);
  }

  lemma ScaleMonotone(a: real, b: real, c: real)
    requires a <= b && 0.0 <= c
    ensures a * c <= b * c
  {
  }

  lemma InitialSound(savedLockout: bool, savedCount: nat)
    ensures Sound(Initial(savedLockout, savedCount)) && Initial(savedLockout, savedCount).policy.Vision?
    ensures AtLeast(Initial(savedLockout, savedCount), 1.0)
  {
  }

  /**
   A policy switch neither enters nor leaves red; below orange the vision policy cannot be left and
   asking for wheel touch only freezes its countdown.
   */
  lemma SwitchKeepsRed(s: State, i: Input)
    requires Sound(s)
    ensures Sound(ApplyTarget(s, i))
    ensures Red(ApplyTarget(s, i)) <==> Red(s)
    ensures Red(s) ==> ApplyTarget(s, i).awareness == s.awareness
    ensures s.policy.Vision? && s.awareness <= s.threshold2 ==>
              ApplyTarget(s, i) == s.(step := ApplyTarget(s, i).step)
    ensures s.policy.Vision? && s.awareness <= s.threshold2 && i.target == Some(WheelTouch) ==>
              ApplyTarget(s, i).step == 0.0
  {
  }

  /** Exactly when an update takes the awareness from positive to red. */
  predicate EntersRed(s: State, i: Input) {
    && 0.0 < s.awareness <= s.step && i.engaged && !i.lowSpeed
    && ((i.distraction > 0.63 && i.distracted && i.faceDetected) || i.modelUncertain || !i.faceDetected)
    && !(i.distraction < 0.37 && i.faceDetected && i.lowStd)
    && !(i.touching && s.policy.WheelTouch?)
  }

  lemma RecoverSound(s: State)
    requires Sound(s) && s.awareness > 0.0
    ensures Sound(Recover(s))
  {
  }

  lemma CountDownSound(s: State, counts: bool, previous: real)
    requires Sound(s)
    ensures Sound(CountDown(s, counts, previous))
  {
  }

  /** One event update keeps the invariant. */
  lemma EventsSound(s: State, i: Input)
    requires Sound(s)
    ensures Sound(UpdateEvents(s, i))
  {
    var a := UpdateLockout(s.(alert := NoAlert));
    LockoutKeepsAwareness(s.(alert := NoAlert));
    var counts := Counting(i) && !LowSpeedExempt(a, i) && !AlwaysOnExempt(a, i);
    hide UpdateLockout, Recover, CountDown, Counting, Attentive;
    assert Sound(a);
    if a.awareness > 0.0 {
      RecoverSound(a);
      CountDownSound(Recover(a), counts, a.awareness);
    }
    CountDownSound(a, counts, a.awareness);
  }

  /** Red is entered by the countdown alone and then cannot rise while engaged; alert three shows exactly red. */
  lemma EventsRed(s: State, i: Input)
    requires Sound(s)
    ensures !Red(s) ==> (Red(UpdateEvents(s, i)) <==> EntersRed(s, i))
    ensures EntersRed(s, i) ==> UpdateEvents(s, i).awareness == s.awareness - s.step
    ensures Red(s) && i.engaged ==> UpdateEvents(s, i).awareness <= s.awareness
    ensures UpdateEvents(s, i).alert.Three? <==> Red(UpdateEvents(s, i))
  {
    LockoutKeepsAwareness(s.(alert := NoAlert));
    hide UpdateLockout, Raised;
    if s.awareness > 0.0 {
      RaisedBounds(s.awareness, s.step);
    }
  }

  // ---------- runs ----------

  lemma {:induction false} RunSound(s: State, inputs: seq<Input>)
    requires Sound(s)
    ensures Sound(After(s, inputs))
  {
    hide Sound, Update;
    if inputs != [] {
      var init, last := inputs[..|inputs| - 1], inputs[|inputs| - 1];
      RunSound(s, init);
      UpdateSound(After(s, init), last);
    }
  }

  lemma UpdateSound(s: State, i: Input)
    requires Sound(s)
    ensures Sound(Update(s, i))
  {
    SwitchKeepsRed(s, i);
    EventsSound(ApplyTarget(s, i), i);
  }

  /** Over a whole update, red is entered exactly by the countdown of the policy then active. */
  lemma UpdateRed(s: State, i: Input)
    requires Sound(s)
    ensures !Red(s) ==> (Red(Update(s, i)) <==> EntersRed(ApplyTarget(s, i), i))
    ensures Red(s) && i.engaged ==> Red(Update(s, i)) && Update(s, i).awareness <= s.awareness
    ensures Update(s, i).alert.Three? <==> Red(Update(s, i))
  {
    hide UpdateEvents;
    SwitchKeepsRed(s, i);
    EventsRed(ApplyTarget(s, i), i);
  }

  /** Red is latched: while engaged, every later update shows alert three and awareness never rises. */
  lemma {:induction false} RedLatched(s: State, inputs: seq<Input>)
    requires Sound(s) && Red(s)
    requires forall k :: 0 <= k < |inputs| ==> inputs[k].engaged
    ensures After(s, inputs).awareness <= s.awareness
    ensures inputs != [] ==> After(s, inputs).alert.Three?
  {
    hide Sound, Update;
    if inputs != [] {
      var init, last := inputs[..|inputs| - 1], inputs[|inputs| - 1];
      RedLatched(s, init);
      RunSound(s, init);
      UpdateRed(After(s, init), last);
    }
  }

  /** Awareness and both stored values are at least `floor`. */
  ghost predicate AtLeast(s: State, floor: real) {
    s.awareness >= floor && s.lastVision >= floor && s.lastWheelTouch >= floor
  }

  lemma TargetFloor(s: State, i: Input, floor: real)
    requires AtLeast(s, floor)
    ensures AtLeast(ApplyTarget(s, i), floor)
  {
  }

  lemma CountDownFloor(s: State, counts: bool, previous: real, floor: real)
    requires AtLeast(s, floor) && 0.0 <= s.step <= 1.0 / 260.0
    ensures AtLeast(CountDown(s, counts, previous), floor - 1.0 / 260.0)
  {
  }

  lemma RecoverFloor(s: State, floor: real)
    requires AtLeast(s, floor) && floor <= 1.0 && 0.0 < s.awareness <= 1.0 && 0.0 <= s.step
    ensures AtLeast(Recover(s), floor)
  {
    hide Raised;
    RaisedBounds(s.awareness, s.step);
  }

  lemma EventsFloor(s: State, i: Input, floor: real)
    requires Sound(s) && AtLeast(s, floor) && floor <= 1.0
    ensures AtLeast(UpdateEvents(s, i), floor - 1.0 / 260.0)
  {
    var a := UpdateLockout(s.(alert := NoAlert));
    LockoutKeepsAwareness(s.(alert := NoAlert));
    var counts := Counting(i) && !LowSpeedExempt(a, i) && !AlwaysOnExempt(a, i);
    hide UpdateLockout, CountDown, Counting, Attentive;
    if a.awareness > 0.0 {
      RecoverFloor(a, floor);
      CountDownFloor(Recover(a), counts, a.awareness, floor);
    }
    CountDownFloor(a, counts, a.awareness, floor);
  }

  /**
   However the policies alternate, one update costs at most 1/260 of awareness, so red is at least
   260 updates away from a full reset.
   */
  lemma {:induction false} RedNotBefore260(s: State, inputs: seq<Input>)
    requires Sound(s) && AtLeast(s, 1.0)
    ensures AtLeast(After(s, inputs), 1.0 - |inputs| as real / 260.0)
    ensures |inputs| < 260 ==> !Red(After(s, inputs))
    ensures 0 < |inputs| < 260 ==> !After(s, inputs).alert.Three?
  {
    hide Sound, UpdateEvents, ApplyTarget;
    if inputs != [] {
      var init, last := inputs[..|inputs| - 1], inputs[|inputs| - 1];
      var mid := After(s, init);
      RedNotBefore260(s, init);
      RunSound(s, init);
      var floor := 1.0 - |init| as real / 260.0;
      TargetFloor(mid, last, floor);
      SwitchKeepsRed(mid, last);
      EventsFloor(ApplyTarget(mid, last), last, floor);
      UpdateRed(mid, last);
    }
  }
}
