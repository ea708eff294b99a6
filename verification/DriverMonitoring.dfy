/**
 The awareness policy of driver monitoring: one counter per policy, alerts that latch, recovery,
 exemptions and lockouts.  Time is counted in updates of 50 ms; arithmetic is over exact reals.
 */
module DriverMonitoring {
  import opened Sequences

  datatype Policy = Vision | WheelTouch

  datatype AlertLevel = NoAlert | One | Two | Three

  /**
   What perception, the car and the settings say at one update.  `target` is absent when the face data
   is empty; the daemon reloads the always-on toggle between updates, so it may change at any of them.
   */
  datatype Input = Input(
    target: Option<Policy>,
    distraction: real,       // output of the distraction filter
    faceDetected: bool,
    lowStd: bool,
    distracted: bool,
    modelUncertain: bool,
    touching: bool,          // the driver interacts with wheel or pedals
    engaged: bool,
    lowSpeed: bool,
    wrongGear: bool,
    alwaysOn: bool)

  datatype State = State(
    awareness: real, lastVision: real, lastWheelTouch: real,
    policy: Policy, threshold1: real, threshold2: real, step: real,
    alert: AlertLevel,
    alert3Count: nat, sinceAlert3: nat, noResponseCount: nat,
    lockout: bool, lockoutCount: nat, lockoutDuration: nat, lockoutElapsed: nat)

  const DT_DMON := 0.05
  const WHEELTOUCH_ALERT_1 := 5.0
  const WHEELTOUCH_ALERT_2 := 15.0
  const WHEELTOUCH_ALERT_3 := 25.0
  const VISION_ALERT_1 := 5.0
  const VISION_ALERT_2 := 8.0
  const VISION_ALERT_3 := 13.0
  const NO_RESPONSE_UPDATES := 100
  const MAX_ALERT_3 := 2
  const MAX_NO_RESPONSE := 1
  const LOCKOUT_TIMES: seq<nat> := [1200, 6000, 18000, 36000]
  const RECOVERY_MAX := 5.0
  const RECOVERY_MIN := 1.25

  function Min(a: real, b: real): real { if a <= b then a else b }

  function Max(a: real, b: real): real { if a <= b then b else a }

  /** The duration of the `count`-th lockout: 1, 5, 15, 30, 30, ... minutes. */
  function Ladder(count: nat): (updates: nat)
    ensures updates == if count <= 1 then 1200 else if count == 2 then 6000 else if count == 3 then 18000 else 36000
  {
    LOCKOUT_TIMES[if count <= 1 then 0 else if count <= 4 then count - 1 else 3]
  }

  function ResetAwareness(s: State): State {
    s.(awareness := 1.0, lastVision := 1.0, lastWheelTouch := 1.0)
  }

  function SetPolicy(s: State, target: Policy): State {
    if s.policy.Vision? && s.awareness <= s.threshold2 then
      s.(step := if target.Vision? then DT_DMON / VISION_ALERT_3 else 0.0)
    else if s.awareness <= 0.0 then s
    else if target.Vision? then
      var r := if s.policy.Vision? then s else s.(lastWheelTouch := s.awareness, awareness := s.lastVision);
      r.(threshold1 := 1.0 - VISION_ALERT_1 / VISION_ALERT_3,
         threshold2 := 1.0 - VISION_ALERT_2 / VISION_ALERT_3,
         step := DT_DMON / VISION_ALERT_3, policy := Vision)
    else
      var r := if s.policy.Vision? then s.(lastVision := s.awareness, awareness := s.lastWheelTouch) else s;
      r.(threshold1 := 1.0 - WHEELTOUCH_ALERT_1 / WHEELTOUCH_ALERT_3,
         threshold2 := 1.0 - WHEELTOUCH_ALERT_2 / WHEELTOUCH_ALERT_3,
         step := DT_DMON / WHEELTOUCH_ALERT_3, policy := WheelTouch)
  }

  /** Too many red alerts, or none answered, start a lockout; each start is counted once. */
  function StartLockout(s: State): State {
    if !s.lockout && (s.alert3Count >= MAX_ALERT_3 || s.noResponseCount >= MAX_NO_RESPONSE) then
      s.(lockoutCount := s.lockoutCount + 1, lockoutDuration := Ladder(s.lockoutCount + 1), lockout := true)
    else s
  }

  function TickLockout(s: State): State {
    if !s.lockout then s
    else if s.lockoutElapsed + 1 > s.lockoutDuration then
      s.(lockout := false, alert3Count := 0, sinceAlert3 := 0, noResponseCount := 0, lockoutElapsed := 0)
    else s.(lockoutElapsed := s.lockoutElapsed + 1)
  }

  function UpdateLockout(s: State): State {
    TickLockout(StartLockout(s))
  }

  predicate Attentive(i: Input) {
    i.distraction < 0.37 && i.faceDetected && i.lowStd
  }

  predicate Counting(i: Input) {
    (i.distraction > 0.63 && i.distracted && i.faceDetected) || i.modelUncertain || !i.faceDetected
  }

  predicate AlwaysOnValid(i: Input) {
    i.alwaysOn && !i.wrongGear
  }

  predicate Resets(s: State, i: Input) {
    || (i.touching && s.awareness > 0.0 && s.policy.WheelTouch?)
    || (!AlwaysOnValid(i) && !i.engaged)
    || (AlwaysOnValid(i) && !i.engaged && s.awareness <= 0.0)
  }

  predicate LowSpeedExempt(s: State, i: Input) {
    i.lowSpeed && s.awareness - s.step <= s.threshold1
  }

  predicate AlwaysOnExempt(s: State, i: Input) {
    AlwaysOnValid(i) && !i.engaged && s.awareness - s.step <= 0.0
  }

  /** Recovery is faster the lower the awareness is. */
  function Raised(awareness: real, step: real): real {
    Min(awareness + ((RECOVERY_MAX - RECOVERY_MIN) * (1.0 - awareness) + RECOVERY_MIN) * step, 1.0)
  }

  function Recover(s: State): State {
    var raised := Raised(s.awareness, s.step);
    s.(awareness := raised,
       lastWheelTouch := if raised == 1.0 then Min(s.lastWheelTouch + s.step, 1.0) else s.lastWheelTouch)
  }

  /** Counts down when `counts`, then sets the alert.  `previous` is the awareness before this update. */
  function CountDown(s: State, counts: bool, previous: real): State {
    var r := if counts then s.(awareness := Max(s.awareness - s.step, -0.1)) else s;
    if r.awareness <= 0.0 then
      var since := if previous > 0.0 then 0 else r.sinceAlert3 + 1;
      r.(alert := Three,
         alert3Count := if previous > 0.0 then r.alert3Count + 1 else r.alert3Count,
         sinceAlert3 := since,
         noResponseCount := if since == NO_RESPONSE_UPDATES then r.noResponseCount + 1 else r.noResponseCount)
    else if r.awareness <= r.threshold2 then r.(alert := Two)
    else if r.awareness <= r.threshold1 then r.(alert := One)
    else r
  }

  /** Recovery, a reset by touch, or the countdown, when nothing has reset the awareness yet. */
  function Judge(s: State, i: Input): State {
    var counts := Counting(i) && !LowSpeedExempt(s, i) && !AlwaysOnExempt(s, i);
    if s.awareness > 0.0 && (Attentive(i) || LowSpeedExempt(s, i)) then
      if i.touching then ResetAwareness(s)
      else if Recover(s).awareness > s.threshold2 then Recover(s)
      else CountDown(Recover(s), counts, s.awareness)
    else CountDown(s, counts, s.awareness)
  }

  function UpdateEvents(s: State, i: Input): State {
    var a := UpdateLockout(s.(alert := NoAlert));
    if Resets(a, i) then ResetAwareness(a) else Judge(a, i)
  }

  /** The start-up state; the lockout flag and count are restored from storage. */
  function Initial(savedLockout: bool, savedCount: nat): State {
    SetPolicy(State(1.0, 1.0, 1.0, Vision, 0.0, 0.0, 0.0, NoAlert, 0, 0, 0,
                    savedLockout, savedCount, Ladder(savedCount), 0), Vision)
  }

  function ApplyTarget(s: State, i: Input): State {
    match i.target
    case None => s
    case Some(target) => SetPolicy(s, target)
  }

  /** One whole update: policy selection and then events. */
  function Update(s: State, i: Input): State {
    UpdateEvents(ApplyTarget(s, i), i)
  }

  /** The state after a run of updates. */
  function After(s: State, inputs: seq<Input>): State {
    if inputs == [] then s else Update(After(s, inputs[..|inputs| - 1]), inputs[|inputs| - 1])
  }

  /** The object that the daemon updates in place. */
  class Monitor {
    var awareness: real
    var lastVision: real
    var lastWheelTouch: real
    var policy: Policy
    var threshold1: real
    var threshold2: real
    var step: real
    var alert: AlertLevel
    var alert3Count: nat
    var sinceAlert3: nat
    var noResponseCount: nat
    var lockout: bool
    var lockoutCount: nat
    var lockoutDuration: nat
    var lockoutElapsed: nat

    ghost function Current(): State
      reads this
    {
      State(awareness, lastVision, lastWheelTouch, policy, threshold1, threshold2, step, alert,
            alert3Count, sinceAlert3, noResponseCount,
            lockout, lockoutCount, lockoutDuration, lockoutElapsed)
    }

    constructor (savedLockout: bool, savedCount: nat)
      ensures Current() == Initial(savedLockout, savedCount)
    {
      alert, alert3Count, sinceAlert3, noResponseCount := NoAlert, 0, 0, 0;
      lockout, lockoutCount := savedLockout, savedCount;
      lockoutDuration, lockoutElapsed := Ladder(savedCount), 0;
      step, policy, threshold1, threshold2 := 0.0, Vision, 0.0, 0.0;
      awareness, lastVision, lastWheelTouch := 1.0, 1.0, 1.0;
      new;
      SelectPolicy(Vision);
    }

    method Reset()
      modifies this
      ensures Current() == ResetAwareness(old(Current()))
    {
      awareness := 1.0;
      lastVision := 1.0;
      lastWheelTouch := 1.0;
    }

    method SelectPolicy(target: Policy)
      modifies this
      ensures Current() == SetPolicy(old(Current()), target)
    {
      if policy.Vision? && awareness <= threshold2 {
        if target.Vision? {
          step := DT_DMON / VISION_ALERT_3;
        } else {
          step := 0.0;
        }
        return;
      } else if awareness <= 0.0 {
        return;
      }
      if target.Vision? {
        if !policy.Vision? {
          lastWheelTouch := awareness;
          awareness := lastVision;
        }
        threshold1 := 1.0 - VISION_ALERT_1 / VISION_ALERT_3;
        threshold2 := 1.0 - VISION_ALERT_2 / VISION_ALERT_3;
        step := DT_DMON / VISION_ALERT_3;
        policy := Vision;
      } else {
        if policy.Vision? {
          lastVision := awareness;
          awareness := lastWheelTouch;
        }
        threshold1 := 1.0 - WHEELTOUCH_ALERT_1 / WHEELTOUCH_ALERT_3;
        threshold2 := 1.0 - WHEELTOUCH_ALERT_2 / WHEELTOUCH_ALERT_3;
        step := DT_DMON / WHEELTOUCH_ALERT_3;
        policy := WheelTouch;
      }
    }

    method BeginLockout()
      modifies this
      ensures Current() == StartLockout(old(Current()))
    {
      hide Ladder;
      if alert3Count >= MAX_ALERT_3 || noResponseCount >= MAX_NO_RESPONSE {
        if !lockout {
          lockoutCount := lockoutCount + 1;
          lockoutDuration := Ladder(lockoutCount);
        }
        lockout := true;
      }
    }

    method AdvanceLockout()
      modifies this
      ensures Current() == UpdateLockout(old(Current()))
    {
      hide StartLockout;
      BeginLockout();
      if lockout {
        lockoutElapsed := lockoutElapsed + 1;
        if lockoutElapsed > lockoutDuration {
          lockout := false;
          alert3Count := 0;
          sinceAlert3 := 0;
          noResponseCount := 0;
          lockoutElapsed := 0;
        }
      }
    }

    method RaiseAlerts(previous: real, counts: bool)
      modifies this
      ensures Current() == CountDown(old(Current()), counts, previous)
    {
      if counts {
        awareness := Max(awareness - step, -0.1);
      }
      if awareness <= 0.0 {
        alert := Three;
        if previous > 0.0 {
          alert3Count := alert3Count + 1;
          sinceAlert3 := 0;
        } else {
          sinceAlert3 := sinceAlert3 + 1;
        }
        if sinceAlert3 == NO_RESPONSE_UPDATES {
          noResponseCount := noResponseCount + 1;
        }
      } else if awareness <= threshold2 {
        alert := Two;
      } else if awareness <= threshold1 {
        alert := One;
      }
    }

    method JudgeDriver(i: Input)
      modifies this
      ensures Current() == Judge(old(Current()), i)
    {
      hide CountDown, Raised, Counting, Attentive;
      var previous := awareness;
      var reachingAlert1 := awareness - step <= threshold1;
      var reachingAlert3 := awareness - step <= 0.0;
      var lowSpeedExemption := i.lowSpeed && reachingAlert1;
      var alwaysOnExemption := AlwaysOnValid(i) && !i.engaged && reachingAlert3;
      if awareness > 0.0 && (Attentive(i) || lowSpeedExemption) {
        if i.touching {
          Reset();
          return;
        }
        awareness := Raised(awareness, step);
        if awareness == 1.0 {
          lastWheelTouch := Min(lastWheelTouch + step, 1.0);
        }
        if awareness > threshold2 {
          return;
        }
      }
      RaiseAlerts(previous, Counting(i) && !(lowSpeedExemption || alwaysOnExemption));
    }

    method HandleEvents(i: Input)
      modifies this
      ensures Current() == UpdateEvents(old(Current()), i)
    {
      hide UpdateLockout, Judge;
      alert := NoAlert;
      AdvanceLockout();
      if || (i.touching && awareness > 0.0 && policy.WheelTouch?)
         || (!AlwaysOnValid(i) && !i.engaged)
         || (AlwaysOnValid(i) && !i.engaged && awareness <= 0.0)
      {
        Reset();
        return;
      }
      JudgeDriver(i);
    }

    method Step(i: Input)
      modifies this
      ensures Current() == Update(old(Current()), i)
    {
      if i.target.Some? {
        SelectPolicy(i.target.value);
      }
      HandleEvents(i);
    }

    method Run(inputs: seq<Input>)
      modifies this
      ensures Current() == After(old(Current()), inputs)
    {
      for n := 0 to |inputs|
        invariant Current() == After(old(Current()), inputs[..n])
      {
        assert inputs[..n + 1][..n] == inputs[..n];
        Step(inputs[n]);
      }
      assert inputs[..|inputs|] == inputs;
    }
  }
}
