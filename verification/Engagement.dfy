/** The engagement state machine: when the system is enabled, active or being softly disabled. */
module Engagement {

  datatype Mode = Disabled | PreEnabled | Enabled | SoftDisabling | Overriding

  datatype Event =
    | Enable | PreEnable | OverrideLateral | OverrideLongitudinal | NoEntry
    | Warning | UserDisable | SoftDisable | ImmediateDisable | Permanent

  /** `alerts` are the alert types shown for the last update, in order. */
  datatype State = State(mode: Mode, timer: nat, alerts: seq<Event>)

  const SOFT_DISABLE_UPDATES := 300

  const INITIAL := State(Disabled, 0, [Permanent])

  predicate IsEnabled(s: State) {
    !s.mode.Disabled?
  }

  predicate IsActive(s: State) {
    s.mode.Enabled? || s.mode.SoftDisabling? || s.mode.Overriding?
  }

  predicate Overrides(events: set<Event>) {
    OverrideLateral in events || OverrideLongitudinal in events
  }

  const OVERRIDE_ALERTS := [OverrideLateral, OverrideLongitudinal]

  /** Next mode, timer and alert types (before the warning is added). */
  function Next(mode: Mode, timer: nat, events: set<Event>): State {
    var left := if timer > 0 then timer - 1 else 0;
    if mode.Disabled? then
      if Enable !in events then State(Disabled, left, [Permanent])
      else if NoEntry in events then State(Disabled, left, [Permanent, NoEntry])
      else State(if PreEnable in events then PreEnabled else if Overrides(events) then Overriding else Enabled,
                 left, [Permanent, Enable])
    else if ImmediateDisable in events then State(Disabled, left, [Permanent, ImmediateDisable])
    else if UserDisable in events then State(Disabled, left, [Permanent, UserDisable])
    else match mode
      case Enabled =>
        if SoftDisable in events then State(SoftDisabling, SOFT_DISABLE_UPDATES, [Permanent, SoftDisable])
        else if Overrides(events) then State(Overriding, left, [Permanent] + OVERRIDE_ALERTS)
        else State(Enabled, left, [Permanent])
      case SoftDisabling =>
        if SoftDisable !in events then State(Enabled, left, [Permanent])
        else if left > 0 then State(SoftDisabling, left, [Permanent, SoftDisable])
        else State(Disabled, left, [Permanent])
      case PreEnabled =>
        if PreEnable !in events then State(Enabled, left, [Permanent])
        else State(PreEnabled, left, [Permanent, PreEnable])
      case Overriding =>
        if SoftDisable in events then State(SoftDisabling, SOFT_DISABLE_UPDATES, [Permanent, SoftDisable])
        else if !Overrides(events) then State(Enabled, left, [Permanent])
        else State(Overriding, left, [Permanent] + OVERRIDE_ALERTS)
  }

  function Update(s: State, events: set<Event>): State {
    var r := Next(s.mode, s.timer, events);
    if IsActive(r) then r.(alerts := r.alerts + [Warning]) else r
  }

  function After(s: State, run: seq<set<Event>>): State {
    if run == [] then s else Update(After(s, run[..|run| - 1]), run[|run| - 1])
  }

  class StateMachine {
    var mode: Mode
    var timer: nat
    var alerts: seq<Event>

    ghost function Current(): State
      reads this
    {
      State(mode, timer, alerts)
    }

    constructor ()
      ensures Current() == INITIAL
    {
      mode, timer, alerts := Disabled, 0, [Permanent];
    }

    method Step(events: set<Event>) returns (enabled: bool, active: bool)
      modifies this
      ensures Current() == Update(old(Current()), events)
      ensures enabled == IsEnabled(Current()) && active == IsActive(Current())
    {
      timer := if timer > 0 then timer - 1 else 0;
      alerts := [Permanent];
      if !mode.Disabled? {
        if ImmediateDisable in events {
          mode := Disabled;
          alerts := alerts + [ImmediateDisable];
        } else if UserDisable in events {
          mode := Disabled;
          alerts := alerts + [UserDisable];
        } else {
          match mode {
            case Enabled =>
              if SoftDisable in events {
                mode, timer := SoftDisabling, SOFT_DISABLE_UPDATES;
                alerts := alerts + [SoftDisable];
              } else if Overrides(events) {
                mode := Overriding;
                alerts := alerts + OVERRIDE_ALERTS;
              }
            case SoftDisabling =>
              if SoftDisable !in events {
                mode := Enabled;
              } else if timer > 0 {
                alerts := alerts + [SoftDisable];
              } else {
                mode := Disabled;
              }
            case PreEnabled =>
              if PreEnable !in events {
                mode := Enabled;
              } else {
                alerts := alerts + [PreEnable];
              }
            case Overriding =>
              if SoftDisable in events {
                mode, timer := SoftDisabling, SOFT_DISABLE_UPDATES;
                alerts := alerts + [SoftDisable];
              } else if !Overrides(events) {
                mode := Enabled;
              } else {
                alerts := alerts + OVERRIDE_ALERTS;
              }
          }
        }
      } else if Enable in events {
        if NoEntry in events {
          alerts := alerts + [NoEntry];
        } else {
          if PreEnable in events {
            mode := PreEnabled;
          } else if Overrides(events) {
            mode := Overriding;
          } else {
            mode := Enabled;
          }
          alerts := alerts + [Enable];
        }
      }
      enabled := !mode.Disabled?;
      active := mode.Enabled? || mode.SoftDisabling? || mode.Overriding?;
      if active {
        alerts := alerts + [Warning];
      }
    }

    method Run(run: seq<set<Event>>)
      modifies this
      ensures Current() == After(old(Current()), run)
    {
      hide Update;
      for n := 0 to |run|
        invariant Current() == After(old(Current()), run[..n])
      {
        assert run[..n + 1][..n] == run[..n];
        var enabled, active := Step(run[n]);
      }
      assert run[..|run|] == run;
    }
  }

  // ---------- runs ----------

  /** In every reachable state soft disabling has between 1 and 300 updates left. */
  ghost predicate TimerSound(s: State) {
    s.timer <= 300 && (s.mode.SoftDisabling? ==> s.timer >= 1)
  }

  lemma {:induction false} RunTimerSound(s: State, run: seq<set<Event>>)
    requires TimerSound(s)
    ensures TimerSound(After(s, run))
  {
    if run != [] {
      RunTimerSound(s, run[..|run| - 1]);
    }
  }

  predicate HeldSoftDisable(events: set<Event>) {
    SoftDisable in events && ImmediateDisable !in events && UserDisable !in events
  }

  /** `run[0]` starts soft disabling; the alerts and the countdown then depend on nothing but the number of updates. */
  lemma {:induction false} SoftDisableTakes300(s: State, run: seq<set<Event>>)
    requires (s.mode.Enabled? || s.mode.Overriding?) && 1 <= |run| <= 301
    requires forall k :: 0 <= k < |run| ==> HeldSoftDisable(run[k])
    ensures var r := After(s, run);
            && r.timer == 301 - |run|
            && (|run| <= 300 ==>
                  r.mode.SoftDisabling? && r.alerts == [Permanent, SoftDisable, Warning])
            && (|run| == 301 ==> r.mode.Disabled? && r.alerts == [Permanent])
  {
    var init := run[..|run| - 1];
    if init != [] {
      SoftDisableTakes300(s, init);
    }
  }

  /**
   Every enabled interval has a beginning: some update `k` that found the system disabled, carried an
   enable request and no refusal, and the system has been enabled after every update since.
   */
  lemma {:induction false} EnabledSince(s: State, run: seq<set<Event>>) returns (k: nat)
    requires s.mode.Disabled? && IsEnabled(After(s, run))
    ensures k < |run| && After(s, run[..k]).mode.Disabled?
    ensures Enable in run[k] && NoEntry !in run[k]
    ensures forall j :: k < j <= |run| ==> IsEnabled(After(s, run[..j]))
  {
    var init, last := run[..|run| - 1], run[|run| - 1];
    if IsEnabled(After(s, init)) {
      k := EnabledSince(s, init);
      assert run[..k] == init[..k];
      forall j | k < j <= |run| ensures IsEnabled(After(s, run[..j])) {
        assert j < |run| ==> run[..j] == init[..j];
        assert j == |run| ==> run[..j] == run;
      }
    } else {
      k := |init|;
      assert run[..|run|] == run;
    }
  }

  /**
   A disable request leaves the system disabled unless that very update enables it: from the disabled
   state disable requests are not looked at.
   */
  lemma DisableRequest(s: State, events: set<Event>)
    requires ImmediateDisable in events || UserDisable in events
    ensures Update(s, events).mode.Disabled? <==> !(s.mode.Disabled? && Enable in events && NoEntry !in events)
  {
  }

  /** The state in which an immediate disable does not disable. */
  lemma DisableRequestIgnoredWhenEnabling()
    ensures Update(INITIAL, {Enable, ImmediateDisable}).mode.Enabled?
  {
  }

  predicate Stopped(events: set<Event>) {
    ImmediateDisable in events || UserDisable in events
  }

  predicate Overridden(events: set<Event>) {
    OverrideLateral in events || OverrideLongitudinal in events
  }

  predicate Enters(s: State, events: set<Event>) {
    s.mode.Disabled? && Enable in events && NoEntry !in events
  }

  /** Exactly when each mode is reached. */
  lemma ModeAfter(s: State, events: set<Event>)
    ensures var r := Update(s, events).mode;
            var goesOn := !s.mode.Disabled? && !Stopped(events);
            var runs := goesOn && (s.mode.Enabled? || s.mode.Overriding?);
            && (r.PreEnabled? <==> PreEnable in events && (Enters(s, events) || (goesOn && s.mode.PreEnabled?)))
            && (r.Overriding? <==>
                  && Overridden(events)
                  && ((Enters(s, events) && PreEnable !in events) || (runs && SoftDisable !in events)))
            && (r.SoftDisabling? <==>
                  SoftDisable in events && (runs || (goesOn && s.mode.SoftDisabling? && s.timer > 1)))
            && (r.Enabled? <==>
                  || (Enters(s, events) && PreEnable !in events && !Overridden(events))
                  || (goesOn && s.mode.PreEnabled? && PreEnable !in events)
                  || (goesOn && s.mode.SoftDisabling? && SoftDisable !in events)
                  || (runs && SoftDisable !in events && !Overridden(events)))
            && (r.Disabled? <==>
                  || (s.mode.Disabled? && !Enters(s, events))
                  || (!s.mode.Disabled? && Stopped(events))
                  || (goesOn && s.mode.SoftDisabling? && SoftDisable in events && s.timer <= 1))
  {
  }

  /** Exactly when each alert type is shown, besides the permanent one and the warning. */
  lemma AlertsAfter(s: State, events: set<Event>)
    ensures var r := Update(s, events);
            var goesOn := !s.mode.Disabled? && !Stopped(events);
            && (Enable in r.alerts <==> Enters(s, events))
            && (NoEntry in r.alerts <==> s.mode.Disabled? && Enable in events && NoEntry in events)
            && (ImmediateDisable in r.alerts <==> !s.mode.Disabled? && ImmediateDisable in events)
            && (UserDisable in r.alerts <==>
                  !s.mode.Disabled? && UserDisable in events && ImmediateDisable !in events)
            && (SoftDisable in r.alerts <==> r.mode.SoftDisabling?)
            && (PreEnable in r.alerts <==> goesOn && s.mode.PreEnabled? && PreEnable in events)
            && (OverrideLateral in r.alerts <==> goesOn && r.mode.Overriding?)
            && (OverrideLongitudinal in r.alerts <==> goesOn && r.mode.Overriding?)
  {
  }

  /** Warnings are shown exactly in the active states, always last. */
  lemma WarningWhenActive(s: State, events: set<Event>)
    ensures Warning in Update(s, events).alerts <==> IsActive(Update(s, events))
    ensures Update(s, events).alerts[0] == Permanent
  {
  }
}
