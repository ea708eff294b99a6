/** What each policy of driver monitoring remembers while the other one is active. */
module MonitoringPolicies {
  import opened Sequences
  import opened DriverMonitoring
  import opened MonitoringRuns
  import opened MonitoringTiming

  /** Above orange, leaving the vision policy and coming back restores its awareness. */
  lemma VisionRemembered(s: State)
    requires Sound(s) && s.policy.Vision? && s.awareness > 5.0 / 13.0
    ensures var away := SetPolicy(s, WheelTouch);
            && away.policy.WheelTouch? && away.awareness == s.lastWheelTouch && away.lastVision == s.awareness
            && SetPolicy(away, Vision) == s.(lastVision := s.awareness, step := 1.0 / 260.0)
  {
  }

  /** Short of red, leaving the wheel-touch policy and coming back restores its awareness. */
  lemma WheelTouchRemembered(s: State)
    requires Sound(s) && s.policy.WheelTouch? && !Red(s)
    ensures var away := SetPolicy(s, Vision);
            && away.policy.Vision? && away.awareness == s.lastVision && away.lastWheelTouch == s.awareness
            && SetPolicy(away, WheelTouch) == s.(lastWheelTouch := s.awareness)
  {
  }

  /** The state in which the events of update `k` are handled. */
  function Before(s: State, inputs: seq<Input>, k: nat): State
    requires k < |inputs|
  {
    ApplyTarget(After(s, inputs[..k]), inputs[k])
  }

  ghost predicate NoReset(s: State, inputs: seq<Input>) {
    forall k :: 0 <= k < |inputs| ==> !ResetRequested(Before(s, inputs, k), inputs[k])
  }

  /** The run switches to `policy` at once and stays there; face data may be missing. */
  ghost predicate StaysUnder(inputs: seq<Input>, policy: Policy) {
    && inputs != [] && inputs[0].target == Some(policy)
    && forall k :: 0 <= k < |inputs| ==> inputs[k].target in {None, Some(policy)}
  }

  lemma NoResetInit(s: State, inputs: seq<Input>)
    requires NoReset(s, inputs) && inputs != []
    ensures NoReset(s, inputs[..|inputs| - 1])
    ensures !ResetRequested(ApplyTarget(After(s, inputs[..|inputs| - 1]), inputs[|inputs| - 1]), inputs[|inputs| - 1])
  {
    var init := inputs[..|inputs| - 1];
    forall k | 0 <= k < |init| ensures !ResetRequested(Before(s, init, k), init[k]) {
      assert init[..k] == inputs[..k];
      assert !ResetRequested(Before(s, inputs, k), inputs[k]);
    }
    assert !ResetRequested(Before(s, inputs, |inputs| - 1), inputs[|inputs| - 1]);
  }

  lemma EventsKeepPolicy(s: State, i: Input)
    ensures UpdateEvents(s, i).policy == s.policy && UpdateEvents(s, i).step == s.step
  {
    LockoutKeepsAwareness(s.(alert := NoAlert));
    hide UpdateLockout, Raised, Counting, Attentive;
  }

  lemma AwayStep(s: State, i: Input)
    requires Sound(s) && i.target in {None, Some(WheelTouch)} && !ResetRequested(ApplyTarget(s, i), i)
    requires s.policy.Vision? ==> s.awareness > 5.0 / 13.0 && i.target == Some(WheelTouch)
    ensures var r := Update(s, i);
            r.policy.WheelTouch? && r.lastVision == if s.policy.Vision? then s.awareness else s.lastVision
  {
    FullReset(s, i);
    EventsKeepPolicy(ApplyTarget(s, i), i);
    hide UpdateEvents, ResetRequested, StaysFull;
  }

  /**
   However long the wheel-touch policy is active, and whatever it counts, without a reset the vision
   policy finds its awareness as it left it.
   */
  lemma {:induction false} VisionRememberedOverRun(s: State, inputs: seq<Input>)
    requires Sound(s) && s.policy.Vision? && s.awareness > 5.0 / 13.0
    requires StaysUnder(inputs, WheelTouch) && NoReset(s, inputs)
    ensures var r := After(s, inputs);
            && r.policy.WheelTouch? && r.lastVision == s.awareness
            && (!Red(r) ==> SetPolicy(r, Vision).policy.Vision? && SetPolicy(r, Vision).awareness == s.awareness)
    decreases |inputs|
  {
    hide Sound, Update, ResetRequested;
    var init, last := inputs[..|inputs| - 1], inputs[|inputs| - 1];
    NoResetInit(s, inputs);
    RunSound(s, init);
    if init != [] {
      VisionRememberedOverRun(s, init);
    }
    AwayStep(After(s, init), last);
  }

  /** Recovery that leaves the vision policy at full awareness. */
  predicate FullRecovery(s: State, i: Input) {
    s.awareness > 0.0 && (Attentive(i) || LowSpeedExempt(s, i)) && Raised(s.awareness, s.step) == 1.0
  }

  function CountFull(s: State, inputs: seq<Input>): nat {
    if inputs == [] then 0
    else
      var init, last := inputs[..|inputs| - 1], inputs[|inputs| - 1];
      CountFull(s, init) + if FullRecovery(ApplyTarget(After(s, init), last), last) then 1 else 0
  }

  lemma VisionEvents(s: State, i: Input)
    requires Sound(s) && s.policy.Vision? && !ResetRequested(s, i)
    ensures UpdateEvents(s, i).lastWheelTouch
         == if FullRecovery(s, i) then Min(s.lastWheelTouch + s.step, 1.0) else s.lastWheelTouch
  {
    LockoutKeepsAwareness(s.(alert := NoAlert));
    hide UpdateLockout, Raised, Counting, Attentive;
  }

  lemma BackStep(s: State, i: Input)
    requires Sound(s) && i.target in {None, Some(Vision)} && !ResetRequested(ApplyTarget(s, i), i)
    requires s.policy.WheelTouch? ==> !Red(s) && i.target == Some(Vision)
    requires s.policy.Vision? ==> s.step == 1.0 / 260.0
    ensures var r := Update(s, i);
            var stored := if s.policy.WheelTouch? then s.awareness else s.lastWheelTouch;
            && r.policy.Vision? && r.step == 1.0 / 260.0
            && r.lastWheelTouch ==
               if FullRecovery(ApplyTarget(s, i), i) then Min(stored + 1.0 / 260.0, 1.0) else stored
  {
    SwitchKeepsRed(s, i);
    VisionEvents(ApplyTarget(s, i), i);
    EventsKeepPolicy(ApplyTarget(s, i), i);
    hide UpdateEvents, ResetRequested, FullRecovery;
  }

  /**
   While the vision policy is active the wheel-touch awareness waits where it was, and gains one vision
   step for every update at which the driver has recovered fully.
   */
  lemma {:induction false} WheelTouchRememberedOverRun(s: State, inputs: seq<Input>)
    requires Sound(s) && s.policy.WheelTouch? && !Red(s)
    requires StaysUnder(inputs, Vision) && NoReset(s, inputs)
    ensures var r := After(s, inputs);
            && r.policy.Vision? && r.step == 1.0 / 260.0
            && r.lastWheelTouch == Min(s.awareness + CountFull(s, inputs) as real / 260.0, 1.0)
            && (r.awareness > 5.0 / 13.0 ==>
                  && SetPolicy(r, WheelTouch).policy.WheelTouch?
                  && SetPolicy(r, WheelTouch).awareness == r.lastWheelTouch)
    decreases |inputs|
  {
    hide Update, ResetRequested, FullRecovery;
    var init, last := inputs[..|inputs| - 1], inputs[|inputs| - 1];
    NoResetInit(s, inputs);
    RunSound(s, init);
    RunSound(s, inputs);
    if init != [] {
      WheelTouchRememberedOverRun(s, init);
    } else {
      assert CountFull(s, init) == 0;
    }
    BackStep(After(s, init), last);
  }

  /** Without face data the policy stays what it is. */
  lemma {:induction false} NoTargetKeepsPolicy(s: State, inputs: seq<Input>)
    requires forall k :: 0 <= k < |inputs| ==> inputs[k].target.None?
    ensures After(s, inputs).policy == s.policy && After(s, inputs).step == s.step
    decreases |inputs|
  {
    hide UpdateEvents;
    if inputs != [] {
      var init, last := inputs[..|inputs| - 1], inputs[|inputs| - 1];
      NoTargetKeepsPolicy(s, init);
      EventsKeepPolicy(After(s, init), last);
    }
  }
}
