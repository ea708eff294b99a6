/** Exact timing of alerts, recovery and lockouts over runs of driver monitoring. */
module MonitoringTiming {
  import opened Arithmetic
  import opened Sequences
  import opened DriverMonitoring
  import opened MonitoringRuns

  /** Certain distraction seen by the vision policy; wheel touches and gear are free. */
  predicate Distracted(i: Input) {
    && i.target == Some(Vision) && i.distraction > 0.63 && i.distracted && i.faceDetected
    && i.engaged && !i.lowSpeed
  }

  /** No face in view, hands off, above the alert speed. */
  predicate Unattended(i: Input) {
    i.target == Some(WheelTouch) && !i.faceDetected && !i.touching && i.engaged && !i.lowSpeed
  }

  predicate Watching(i: Input) {
    && i.target == Some(Vision) && i.distraction < 0.37 && i.faceDetected && i.lowStd
    && !i.modelUncertain && i.engaged
  }

  /** The level shown after `n` updates when the three alerts are due at the given updates. */
  function LevelAt(n: nat, first: nat, second: nat, third: nat): AlertLevel {
    if n < first then NoAlert else if n < second then One else if n < third then Two else Three
  }

  lemma DistractedStep(s: State, i: Input)
    requires Sound(s) && s.policy.Vision? && s.awareness >= 1.0 / 260.0 && Distracted(i)
    ensures var r := Update(s, i);
            && r.policy.Vision? && r.awareness == s.awareness - 1.0 / 260.0
            && r.alert == if r.awareness <= 0.0 then Three else if r.awareness <= 5.0 / 13.0 then Two
                          else if r.awareness <= 8.0 / 13.0 then One else NoAlert
  {
    LockoutKeepsAwareness(ApplyTarget(s, i).(alert := NoAlert));
    hide UpdateLockout, Recover;
  }

  /** In vision policy the alerts begin exactly 100, 160 and 260 updates after a reset: 5, 8 and 13 seconds. */
  lemma {:induction false} VisionCountdown(s: State, inputs: seq<Input>)
    requires Sound(s) && AtLeast(s, 1.0) && s.policy.Vision?
    requires forall k :: 0 <= k < |inputs| ==> Distracted(inputs[k])
    ensures |inputs| <= 260 ==>
              After(s, inputs).policy.Vision? && After(s, inputs).awareness == 1.0 - |inputs| as real / 260.0
    ensures |inputs| >= 260 ==> Red(After(s, inputs))
    ensures inputs != [] ==> After(s, inputs).alert == LevelAt(|inputs|, 100, 160, 260)
  {
    hide Sound, Update;
    if inputs == [] {
      assert s.awareness == 1.0 by { assert Sound(s); SoundBounds(s); }
    } else {
      var init, last := inputs[..|inputs| - 1], inputs[|inputs| - 1];
      var mid := After(s, init);
      VisionCountdown(s, init);
      RunSound(s, init);
      if |init| < 260 {
        DistractedStep(mid, last);
        assert After(s, inputs).awareness == 1.0 - |inputs| as real / 260.0;
      } else {
        UpdateRed(mid, last);
      }
    }
  }

  lemma SoundBounds(s: State)
    requires Sound(s)
    ensures s.awareness <= 1.0 && s.lastVision <= 1.0 && s.lastWheelTouch <= 1.0
  {
  }

  lemma UnattendedStep(s: State, i: Input)
    requires Sound(s) && s.policy.WheelTouch? && s.awareness >= 1.0 / 500.0 && Unattended(i)
    ensures var r := Update(s, i);
            && r.policy.WheelTouch? && r.awareness == s.awareness - 1.0 / 500.0
            && r.alert == if r.awareness <= 0.0 then Three else if r.awareness <= 0.4 then Two
                          else if r.awareness <= 0.8 then One else NoAlert
  {
    LockoutKeepsAwareness(ApplyTarget(s, i).(alert := NoAlert));
    hide UpdateLockout, Recover;
  }

  /** Selecting a policy is idempotent above red, so a run may start with the switch already made. */
  lemma SwitchFirst(s: State, i: Input)
    requires Sound(s) && AtLeast(s, 1.0) && i.target == Some(WheelTouch)
    ensures var t := ApplyTarget(s, i);
            Sound(t) && AtLeast(t, 1.0) && t.policy.WheelTouch? && Update(s, i) == Update(t, i)
  {
  }

  /** Without a face the alerts begin exactly 100, 300 and 500 updates after a reset: 5, 15 and 25 seconds. */
  lemma {:induction false} WheelTouchCountdown(s: State, inputs: seq<Input>)
    requires Sound(s) && AtLeast(s, 1.0) && inputs != []
    requires forall k :: 0 <= k < |inputs| ==> Unattended(inputs[k])
    ensures |inputs| <= 500 ==>
              After(s, inputs).policy.WheelTouch? && After(s, inputs).awareness == 1.0 - |inputs| as real / 500.0
    ensures |inputs| >= 500 ==> Red(After(s, inputs))
    ensures After(s, inputs).alert == LevelAt(|inputs|, 100, 300, 500)
  {
    hide Sound, Update, ApplyTarget;
    var init, last := inputs[..|inputs| - 1], inputs[|inputs| - 1];
    if init == [] {
      SwitchFirst(s, last);
      var t := ApplyTarget(s, last);
      SoundBounds(t);
      UnattendedStep(t, last);
    } else {
      var mid := After(s, init);
      WheelTouchCountdown(s, init);
      RunSound(s, init);
      if |init| < 500 {
        UnattendedStep(mid, last);
        assert After(s, inputs).awareness == 1.0 - |inputs| as real / 500.0;
      } else {
        UpdateRed(mid, last);
      }
    }
  }

  lemma WatchingStep(s: State, i: Input)
    requires Sound(s) && s.policy.Vision? && s.awareness > 0.0 && Watching(i)
    ensures var r := Update(s, i);
            && r.policy.Vision? && Min(s.awareness + 1.25 / 260.0, 1.0) <= r.awareness
            && (r.awareness > 5.0 / 13.0 ==> r.alert.NoAlert?)
  {
    LockoutKeepsAwareness(ApplyTarget(s, i).(alert := NoAlert));
    RaisedBounds(s.awareness, 1.0 / 260.0);
    hide UpdateLockout, Raised;
  }

  /** From any state short of red, 208 updates of watching the road restore full awareness; alerts end above orange. */
  lemma {:induction false} WatchingRecovers(s: State, inputs: seq<Input>)
    requires Sound(s) && s.policy.Vision? && s.awareness > 0.0
    requires forall k :: 0 <= k < |inputs| ==> Watching(inputs[k])
    ensures After(s, inputs).policy.Vision?
    ensures Min(s.awareness + 1.25 * |inputs| as real / 260.0, 1.0) <= After(s, inputs).awareness <= 1.0
    ensures |inputs| >= 208 ==> After(s, inputs).awareness == 1.0
    ensures inputs != [] && After(s, inputs).awareness > 5.0 / 13.0 ==> After(s, inputs).alert.NoAlert?
  {
    hide Sound, Update;
    SoundBounds(s);
    if inputs != [] {
      var init, last := inputs[..|inputs| - 1], inputs[|inputs| - 1];
      WatchingRecovers(s, init);
      RunSound(s, init);
      WatchingStep(After(s, init), last);
      UpdateSound(After(s, init), last);
      SoundBounds(After(s, inputs));
    }
  }

  /** At full awareness, watching the road also restores the stored wheel-touch awareness, one step per update. */
  lemma {:induction false} WatchingRestoresWheelTouch(s: State, inputs: seq<Input>)
    requires Sound(s) && s.policy.Vision? && s.awareness == 1.0
    requires forall k :: 0 <= k < |inputs| ==> Watching(inputs[k]) && !inputs[k].touching
    ensures var r := After(s, inputs);
            && r.policy.Vision? && r.awareness == 1.0
            && r.lastWheelTouch == Min(s.lastWheelTouch + |inputs| as real / 260.0, 1.0)
  {
    hide Sound, Update;
    if inputs == [] {
      SoundBounds(s);
    } else {
      WatchingRestoresWheelTouch(s, inputs[..|inputs| - 1]);
      RunSound(s, inputs[..|inputs| - 1]);
      WatchingFullStep(After(s, inputs[..|inputs| - 1]), inputs[|inputs| - 1]);
    }
  }

  lemma WatchingFullStep(s: State, i: Input)
    requires Sound(s) && s.policy.Vision? && s.awareness == 1.0 && Watching(i) && !i.touching
    ensures var r := Update(s, i);
            r.policy.Vision? && r.awareness == 1.0 && r.lastWheelTouch == Min(s.lastWheelTouch + 1.0 / 260.0, 1.0)
  {
  }

  /**
   Below the alert speed a driver under vision policy is never alerted, however distracted: awareness
   stays above the first threshold.
   */
  lemma {:induction false} NoAlertAtLowSpeed(s: State, inputs: seq<Input>)
    requires Sound(s) && s.policy.Vision? && s.awareness > 8.0 / 13.0
    requires forall k :: 0 <= k < |inputs| ==> inputs[k].lowSpeed && inputs[k].target == Some(Vision)
    ensures var r := After(s, inputs);
            r.policy.Vision? && r.awareness > 8.0 / 13.0 && (inputs != [] ==> r.alert.NoAlert?)
  {
    hide Sound, Update;
    if inputs != [] {
      NoAlertAtLowSpeed(s, inputs[..|inputs| - 1]);
      RunSound(s, inputs[..|inputs| - 1]);
      LowSpeedStep(After(s, inputs[..|inputs| - 1]), inputs[|inputs| - 1]);
    }
  }

  lemma LowSpeedStep(s: State, i: Input)
    requires Sound(s) && s.policy.Vision? && s.awareness > 8.0 / 13.0 && i.lowSpeed && i.target == Some(Vision)
    ensures var r := Update(s, i);
            r.policy.Vision? && r.awareness > 8.0 / 13.0 && r.alert.NoAlert?
  {
    LockoutKeepsAwareness(ApplyTarget(s, i).(alert := NoAlert));
    RaisedBounds(s.awareness, 1.0 / 260.0);
    hide UpdateLockout, Raised;
  }

  /** The share of the distance to 4/3 that is left after `n` updates of recovery. */
  function Fade(n: nat): real {
    if n == 0 then 1.0 else Fade(n - 1) * 205.0 / 208.0
  }

  lemma {:induction false} FadeBounds(n: nat)
    ensures 0.0 < Fade(n) <= 1.0
  {
    if n > 0 { FadeBounds(n - 1); }
  }

  lemma WatchingExact(s: State, i: Input)
    requires Sound(s) && s.policy.Vision? && s.awareness > 0.0 && Watching(i) && !i.touching
    ensures Update(s, i).awareness == Raised(s.awareness, 1.0 / 260.0) && Update(s, i).policy.Vision?
  {
    LockoutKeepsAwareness(ApplyTarget(s, i).(alert := NoAlert));
    hide UpdateLockout, Raised;
  }

  /** One update of recovery on the curve, with `gap` the distance to 4/3 at the start. */
  lemma CurveStep(gap: real, n: nat, awareness: real)
    requires 0.0 < gap && awareness == Min(4.0 / 3.0 - Mul(gap, Fade(n)), 1.0)
    ensures Raised(awareness, 1.0 / 260.0) == Min(4.0 / 3.0 - Mul(gap, Fade(n + 1)), 1.0)
  {
    FadeBounds(n);
    var left := Mul(gap, Fade(n));
    assert left > 0.0;
    assert Mul(gap, Fade(n + 1)) == left * 205.0 / 208.0;
    hide Mul, Fade;
    assert Raised(awareness, 1.0 / 260.0) == Min(awareness * 205.0 / 208.0 + 5.0 / 260.0, 1.0);
  }

  /** Recovery follows one curve: the distance to 4/3 shrinks by 205/208 per update, until awareness is full. */
  lemma {:induction false} RecoveryCurve(s: State, inputs: seq<Input>)
    requires Sound(s) && s.policy.Vision? && s.awareness > 0.0
    requires forall k :: 0 <= k < |inputs| ==> Watching(inputs[k]) && !inputs[k].touching
    ensures After(s, inputs).awareness == Min(4.0 / 3.0 - Mul(4.0 / 3.0 - s.awareness, Fade(|inputs|)), 1.0)
  {
    hide Sound, Update, Raised;
    SoundBounds(s);
    if inputs == [] {
      assert Mul(4.0 / 3.0 - s.awareness, 1.0) == 4.0 / 3.0 - s.awareness;
    } else {
      var init, last := inputs[..|inputs| - 1], inputs[|inputs| - 1];
      hide Mul;
      RecoveryCurve(s, init);
      RunSound(s, init);
      WatchingRecovers(s, init);
      WatchingExact(After(s, init), last);
      CurveStep(4.0 / 3.0 - s.awareness, |init|, After(s, init).awareness);
    }
  }

  /** A face that is neither clearly attentive nor clearly distracted. */
  predicate Undecided(i: Input) {
    && i.target == Some(Vision) && i.faceDetected && !i.modelUncertain && i.engaged && !i.lowSpeed
    && (i.distraction >= 0.37 || !i.lowStd) && (i.distraction <= 0.63 || !i.distracted)
  }

  lemma UndecidedStep(s: State, i: Input)
    requires Sound(s) && s.policy.Vision? && Undecided(i)
    ensures var r := Update(s, i);
            && r.policy.Vision? && r.awareness == s.awareness
            && r.lastVision == s.lastVision && r.lastWheelTouch == s.lastWheelTouch
  {
    LockoutKeepsAwareness(ApplyTarget(s, i).(alert := NoAlert));
    hide UpdateLockout, Raised;
  }

  /** Between the two thresholds of the distraction filter nothing moves, however long that lasts. */
  lemma {:induction false} UndecidedHolds(s: State, inputs: seq<Input>)
    requires Sound(s) && s.policy.Vision?
    requires forall k :: 0 <= k < |inputs| ==> Undecided(inputs[k])
    ensures var r := After(s, inputs);
            && r.policy.Vision? && r.awareness == s.awareness
            && r.lastVision == s.lastVision && r.lastWheelTouch == s.lastWheelTouch
  {
    hide Sound, Update;
    if inputs != [] {
      UndecidedHolds(s, inputs[..|inputs| - 1]);
      RunSound(s, inputs[..|inputs| - 1]);
      UndecidedStep(After(s, inputs[..|inputs| - 1]), inputs[|inputs| - 1]);
    }
  }

  /** Certain distraction while not engaged, with always-on monitoring in a forward gear. */
  predicate DistractedAlwaysOn(i: Input) {
    && i.target == Some(Vision) && i.distraction > 0.63 && i.distracted && i.faceDetected
    && !i.engaged && i.alwaysOn && !i.wrongGear && !i.lowSpeed
  }

  lemma AlwaysOnStep(s: State, i: Input)
    requires Sound(s) && s.policy.Vision? && s.awareness > 0.0 && DistractedAlwaysOn(i)
    ensures var r := Update(s, i);
            && r.policy.Vision?
            && r.awareness == (if s.awareness > 1.0 / 260.0 then s.awareness - 1.0 / 260.0 else s.awareness)
            && r.alert == if r.awareness <= 5.0 / 13.0 then Two else if r.awareness <= 8.0 / 13.0 then One else NoAlert
  {
    LockoutKeepsAwareness(ApplyTarget(s, i).(alert := NoAlert));
    hide UpdateLockout, Raised;
  }

  /** Not engaged, the countdown stops one step short of red: alerts one and two come on time and three never does. */
  lemma {:induction false} AlwaysOnCountdown(s: State, inputs: seq<Input>)
    requires Sound(s) && AtLeast(s, 1.0) && s.policy.Vision?
    requires forall k :: 0 <= k < |inputs| ==> DistractedAlwaysOn(inputs[k])
    ensures var r := After(s, inputs);
            && r.policy.Vision?
            && r.awareness == 1.0 - (if |inputs| <= 259 then |inputs| else 259) as real / 260.0
            && (inputs != [] ==> r.alert == if |inputs| < 100 then NoAlert else if |inputs| < 160 then One else Two)
  {
    hide Sound, Update;
    SoundBounds(s);
    if inputs != [] {
      AlwaysOnCountdown(s, inputs[..|inputs| - 1]);
      RunSound(s, inputs[..|inputs| - 1]);
      AlwaysOnStep(After(s, inputs[..|inputs| - 1]), inputs[|inputs| - 1]);
    }
  }

  /** Certain distraction below the alert speed, hands off. */
  predicate DistractedSlow(i: Input) {
    && i.target == Some(Vision) && i.distraction > 0.63 && i.distracted && i.faceDetected
    && i.engaged && i.lowSpeed && !i.touching
  }

  lemma SlowStep(s: State, i: Input)
    requires Sound(s) && s.policy.Vision? && s.awareness > 8.0 / 13.0 && DistractedSlow(i)
    ensures Update(s, i).policy.Vision?
    ensures s.awareness > 161.0 / 260.0 ==> Update(s, i).awareness == s.awareness - 1.0 / 260.0
    ensures s.awareness <= 161.0 / 260.0 ==> Update(s, i).awareness == Raised(s.awareness, 1.0 / 260.0) > s.awareness
  {
    LockoutKeepsAwareness(ApplyTarget(s, i).(alert := NoAlert));
    RaisedBounds(s.awareness, 1.0 / 260.0);
    hide UpdateLockout, Raised;
  }

  /** At low speed the countdown runs as usual up to the update before the first alert and then turns back. */
  lemma {:induction false} SlowCountdown(s: State, inputs: seq<Input>)
    requires Sound(s) && AtLeast(s, 1.0) && s.policy.Vision? && |inputs| <= 100
    requires forall k :: 0 <= k < |inputs| ==> DistractedSlow(inputs[k])
    ensures After(s, inputs).policy.Vision?
    ensures |inputs| <= 99 ==> After(s, inputs).awareness == 1.0 - |inputs| as real / 260.0
    ensures |inputs| == 100 ==> After(s, inputs).awareness == Raised(161.0 / 260.0, 1.0 / 260.0) > 161.0 / 260.0
  {
    hide Sound, Update, Raised;
    SoundBounds(s);
    if inputs != [] {
      SlowCountdown(s, inputs[..|inputs| - 1]);
      RunSound(s, inputs[..|inputs| - 1]);
      SlowStep(After(s, inputs[..|inputs| - 1]), inputs[|inputs| - 1]);
    }
  }

  /**
   What resets everything, in the state `s` after policy selection: disengaging, except that with
   always-on monitoring only red is cleared, and touching the wheel short of red under the wheel-touch
   policy, or under vision policy while attentive or exempt at low speed.
   */
  predicate ResetRequested(s: State, i: Input) {
    || (!i.engaged && (!(i.alwaysOn && !i.wrongGear) || Red(s)))
    || (i.touching && !Red(s) && (s.policy.WheelTouch? || Attentive(i) || LowSpeedExempt(s, i)))
  }

  /** Without a reset: one step of recovery completes all three values, or they are full and nothing is deducted. */
  predicate StaysFull(s: State, i: Input) {
    && s.lastVision == 1.0 && !Red(s)
    && if Attentive(i) || LowSpeedExempt(s, i) then
         Raised(s.awareness, s.step) == 1.0 && s.lastWheelTouch + s.step >= 1.0
       else
         s.awareness == 1.0 && s.lastWheelTouch == 1.0 && (!Counting(i) || AlwaysOnExempt(s, i) || s.step == 0.0)
  }

  /**
   A requested reset fills all three values and silences the alert.  Nothing else fills them at once, and
   nothing else touches the stored vision awareness.
   */
  lemma FullReset(s: State, i: Input)
    requires Sound(s)
    ensures var t := ApplyTarget(s, i);
            && (AtLeast(Update(s, i), 1.0) <==> ResetRequested(t, i) || StaysFull(t, i))
            && (ResetRequested(t, i) ==> Update(s, i).alert.NoAlert?)
            && (!ResetRequested(t, i) ==> Update(s, i).lastVision == t.lastVision)
  {
    SwitchKeepsRed(s, i);
    ResetEvents(ApplyTarget(s, i), i);
  }

  lemma ResetEvents(s: State, i: Input)
    requires Sound(s)
    ensures AtLeast(UpdateEvents(s, i), 1.0) <==> ResetRequested(s, i) || StaysFull(s, i)
    ensures ResetRequested(s, i) ==> UpdateEvents(s, i).alert.NoAlert?
    ensures !ResetRequested(s, i) ==> UpdateEvents(s, i).lastVision == s.lastVision
  {
    LockoutKeepsAwareness(s.(alert := NoAlert));
    hide UpdateLockout, Raised;
    if s.awareness > 0.0 {
      RaisedBounds(s.awareness, s.step);
    }
  }
}
