/** Lockouts over runs of driver monitoring: how long they are seen, how they are counted, what starts them. */
module MonitoringLockout {
  import opened DriverMonitoring
  import opened MonitoringRuns
  import opened MonitoringTiming

  /** Bookkeeping kept by every update. */
  ghost predicate LockoutSound(s: State) {
    && s.lockoutDuration == Ladder(s.lockoutCount)
    && s.lockoutElapsed <= s.lockoutDuration
    && (!s.lockout ==> s.lockoutElapsed == 0)
  }

  /** Minutes of the `k`-th lockout. */
  function Minutes(k: nat): nat {
    if k <= 1 then 1 else if k == 2 then 5 else if k == 3 then 15 else 30
  }

  /** Durations in updates of 50 ms are the minutes of the ladder, which never goes down. */
  lemma LadderMinutes(j: nat, k: nat)
    requires j <= k
    ensures Ladder(k) as real * 0.05 == 60.0 * Minutes(k) as real
    ensures Ladder(j) <= Ladder(k)
  {
  }

  lemma InitialLockoutSound(savedLockout: bool, savedCount: nat)
    ensures var s := Initial(savedLockout, savedCount);
            && LockoutSound(s) && s.lockout == savedLockout && s.lockoutCount == savedCount && s.lockoutElapsed == 0
            && s.alert3Count == 0 && s.sinceAlert3 == 0 && s.noResponseCount == 0
  {
  }

  /**
   From `l`, reached by the lockout bookkeeping, to the end of the update `r`: the lockout fields stay,
   an entry into red is counted, time in red is measured, and the hundredth update in red is a no-response.
   */
  ghost predicate Counted(l: State, wasRed: bool, r: State) {
    && r.lockout == l.lockout && r.lockoutCount == l.lockoutCount
    && r.lockoutDuration == l.lockoutDuration && r.lockoutElapsed == l.lockoutElapsed
    && r.alert3Count == l.alert3Count + (if !wasRed && Red(r) then 1 else 0)
    && r.sinceAlert3 == (if !Red(r) then l.sinceAlert3 else if wasRed then l.sinceAlert3 + 1 else 0)
    && r.noResponseCount == l.noResponseCount + (if Red(r) && r.sinceAlert3 == NO_RESPONSE_UPDATES then 1 else 0)
  }

  lemma CountDownCounted(s: State, counts: bool, previous: real)
    ensures Counted(s, previous <= 0.0, CountDown(s, counts, previous))
  {
  }

  /** Policy selection and alerts leave the lockout fields alone and only ever add to the counters. */
  lemma UpdateCounters(s: State, i: Input)
    requires Sound(s)
    ensures Counted(UpdateLockout(s), Red(s), Update(s, i))
  {
    var t := ApplyTarget(s, i);
    SwitchKeepsRed(s, i);
    LockoutIgnoresAwareness(s, t);
    EventCounters(t, i);
    hide UpdateLockout, UpdateEvents, ApplyTarget;
  }

  /** The lockout bookkeeping reads nothing but its own fields. */
  lemma LockoutIgnoresAwareness(s: State, t: State)
    requires t.alert3Count == s.alert3Count && t.sinceAlert3 == s.sinceAlert3 && t.noResponseCount == s.noResponseCount
    requires t.lockout == s.lockout && t.lockoutCount == s.lockoutCount
    requires t.lockoutDuration == s.lockoutDuration && t.lockoutElapsed == s.lockoutElapsed
    ensures var a, b := UpdateLockout(s), UpdateLockout(t);
            && a.alert3Count == b.alert3Count && a.sinceAlert3 == b.sinceAlert3
            && a.noResponseCount == b.noResponseCount
            && a.lockout == b.lockout && a.lockoutCount == b.lockoutCount
            && a.lockoutDuration == b.lockoutDuration && a.lockoutElapsed == b.lockoutElapsed
  {
  }

  lemma RecoverCounted(s: State, counts: bool, previous: real)
    ensures Recover(s).awareness > 0.0 ==> Counted(s, false, Recover(s))
    ensures Counted(s, previous <= 0.0, CountDown(Recover(s), counts, previous))
  {
  }

  lemma EventsCountedFrom(s: State, i: Input)
    requires Sound(s)
    ensures Counted(UpdateLockout(s.(alert := NoAlert)), Red(s), UpdateEvents(s, i))
  {
    var a := UpdateLockout(s.(alert := NoAlert));
    LockoutKeepsAwareness(s.(alert := NoAlert));
    var counts := Counting(i) && !LowSpeedExempt(a, i) && !AlwaysOnExempt(a, i);
    CountDownCounted(a, counts, a.awareness);
    RecoverCounted(a, counts, a.awareness);
    assert Counted(a, Red(s), ResetAwareness(a)) by { hide UpdateLockout; }
    hide UpdateLockout, CountDown, Recover, Counted, Counting, Attentive;
  }

  lemma EventCounters(s: State, i: Input)
    requires Sound(s)
    ensures Counted(UpdateLockout(s), Red(s), UpdateEvents(s, i))
  {
    LockoutIgnoresAwareness(s, s.(alert := NoAlert));
    EventsCountedFrom(s, i);
    hide UpdateLockout, UpdateEvents;
  }

  lemma UpdateLockoutSound(s: State, i: Input)
    requires Sound(s) && LockoutSound(s)
    ensures LockoutSound(Update(s, i))
  {
    UpdateCounters(s, i);
    hide Update, Ladder;
  }

  lemma {:induction false} RunLockoutSound(s: State, inputs: seq<Input>)
    requires Sound(s) && LockoutSound(s)
    ensures LockoutSound(After(s, inputs))
  {
    hide Sound, LockoutSound, Update;
    if inputs != [] {
      var init, last := inputs[..|inputs| - 1], inputs[|inputs| - 1];
      RunLockoutSound(s, init);
      RunSound(s, init);
      UpdateLockoutSound(After(s, init), last);
    }
  }

  predicate Starts(s: State, i: Input) {
    !s.lockout && Update(s, i).lockout
  }

  predicate Expires(s: State, i: Input) {
    s.lockout && !Update(s, i).lockout
  }

  /** A lockout starts exactly after two red alerts or one unanswered one; only then it is counted. */
  lemma StartsWhen(s: State, i: Input)
    requires Sound(s) && LockoutSound(s) && !s.lockout
    ensures Starts(s, i) <==> s.alert3Count >= 2 || s.noResponseCount >= 1
    ensures Starts(s, i) ==> var r := Update(s, i);
              && r.lockoutElapsed == 1 && r.lockoutCount == s.lockoutCount + 1
              && r.lockoutDuration == Ladder(s.lockoutCount + 1)
    ensures !Starts(s, i) ==> Update(s, i).lockoutCount == s.lockoutCount
  {
    UpdateCounters(s, i);
    hide Update;
  }

  /** While active a lockout ticks once per update, is not counted again, and ends when its duration is used up. */
  lemma ActiveStep(s: State, i: Input)
    requires Sound(s) && LockoutSound(s) && s.lockout
    ensures var r := Update(s, i);
            && r.lockoutCount == s.lockoutCount
            && (r.lockout <==> s.lockoutElapsed < s.lockoutDuration)
            && (r.lockout ==> r.lockoutElapsed == s.lockoutElapsed + 1)
            && (!r.lockout ==> r.alert3Count <= 1 && r.noResponseCount == 0)
  {
    UpdateCounters(s, i);
    hide Update;
  }

  /** An expiry forgets all red alerts: only one that begins with it counts, and time in red starts anew. */
  lemma ExpiryForgets(s: State, i: Input)
    requires Sound(s) && LockoutSound(s) && Expires(s, i)
    ensures var r := Update(s, i);
            && r.lockoutElapsed == 0 && r.noResponseCount == 0
            && r.alert3Count == (if !Red(s) && Red(r) then 1 else 0)
            && r.sinceAlert3 == (if Red(s) && Red(r) then 1 else 0)
  {
    UpdateCounters(s, i);
    hide Update;
  }

  /**
   A lockout is visible for exactly its duration: it starts with `inputs[0]`, is still there after
   `duration` updates with the same count, is gone after one more, and cannot restart right away.
   */
  lemma {:induction false} LockoutVisibleExactly(s: State, inputs: seq<Input>)
    requires Sound(s) && LockoutSound(s) && inputs != [] && Starts(s, inputs[0])
    ensures var duration := 1200 * Minutes(s.lockoutCount + 1);
            var r := After(s, inputs);
            && (|inputs| <= duration ==> r.lockout && r.lockoutElapsed == |inputs|)
            && (duration < |inputs| <= duration + 2 ==> !r.lockout)
            && (|inputs| == duration + 1 ==> r.alert3Count <= 1 && r.noResponseCount == 0)
            && (|inputs| <= duration + 2 ==> r.lockoutCount == s.lockoutCount + 1)
  {
    hide Sound, Update;
    var duration := Ladder(s.lockoutCount + 1);
    var init, last := inputs[..|inputs| - 1], inputs[|inputs| - 1];
    var mid := After(s, init);
    RunSound(s, init);
    RunLockoutSound(s, init);
    if init == [] {
      StartsWhen(s, last);
    } else if |inputs| <= duration + 2 {
      LockoutVisibleExactly(s, init);
      if mid.lockout {
        ActiveStep(mid, last);
      } else {
        StartsWhen(mid, last);
      }
    }
  }

  function CountStarts(s: State, inputs: seq<Input>): nat {
    if inputs == [] then 0
    else
      var init, last := inputs[..|inputs| - 1], inputs[|inputs| - 1];
      CountStarts(s, init) + if Starts(After(s, init), last) then 1 else 0
  }

  /** Every lockout is counted exactly once, and the durations are 1, 5, 15, 30, 30, ... minutes. */
  lemma {:induction false} LockoutsCounted(s: State, inputs: seq<Input>)
    requires Sound(s) && LockoutSound(s)
    ensures After(s, inputs).lockoutCount == s.lockoutCount + CountStarts(s, inputs)
    ensures var k := s.lockoutCount + CountStarts(s, inputs);
            && After(s, inputs).lockoutDuration as real * 0.05 == 60.0 * Minutes(k) as real
            && After(s, inputs).lockoutDuration
               == if k <= 1 then 1200 else if k == 2 then 6000 else if k == 3 then 18000 else 36000
  {
    hide Sound, Update, Ladder;
    RunLockoutSound(s, inputs);
    if inputs != [] {
      var init, last := inputs[..|inputs| - 1], inputs[|inputs| - 1];
      LockoutsCounted(s, init);
      RunSound(s, init);
      RunLockoutSound(s, init);
      if After(s, init).lockout {
        ActiveStep(After(s, init), last);
      } else {
        StartsWhen(After(s, init), last);
      }
    }
  }

  /** Entries into red since the last lockout expired; an entry in the expiring update itself counts. */
  function RedEntries(s: State, inputs: seq<Input>): nat {
    if inputs == [] then 0
    else
      var init, last := inputs[..|inputs| - 1], inputs[|inputs| - 1];
      var mid := After(s, init);
      (if Expires(mid, last) then 0 else RedEntries(s, init))
      + (if !Red(mid) && Red(Update(mid, last)) then 1 else 0)
  }

  /** The reported alert-3 count is the number of entries into red since the last lockout expired. */
  lemma {:induction false} Alert3CountsEntries(s: State, inputs: seq<Input>)
    requires Sound(s) && LockoutSound(s) && s.alert3Count == 0
    ensures After(s, inputs).alert3Count == RedEntries(s, inputs)
  {
    hide Sound, Update;
    if inputs != [] {
      var init, last := inputs[..|inputs| - 1], inputs[|inputs| - 1];
      Alert3CountsEntries(s, init);
      RunSound(s, init);
      RunLockoutSound(s, init);
      UpdateCounters(After(s, init), last);
    }
  }

  /** No lockout is active or due. */
  predicate Quiet(s: State) {
    !s.lockout && s.alert3Count == 0 && s.sinceAlert3 == 0 && s.noResponseCount == 0 && s.lockoutElapsed == 0
  }

  /**
   A driver who never reacts: red at update 260, unanswered for 100 updates at 360, and the lockout
   begins exactly at update 361.
   */
  lemma {:induction false} UnansweredRedLocksOut(s: State, inputs: seq<Input>)
    requires Sound(s) && AtLeast(s, 1.0) && s.policy.Vision? && Quiet(s) && |inputs| <= 361
    requires forall k :: 0 <= k < |inputs| ==> Distracted(inputs[k])
    ensures var r := After(s, inputs);
            && (|inputs| < 260 ==> Quiet(r))
            && (260 <= |inputs| <= 360 ==>
                  !r.lockout && r.alert3Count == 1 && r.lockoutElapsed == 0 && r.sinceAlert3 == |inputs| - 260
                  && r.noResponseCount == if |inputs| == 360 then 1 else 0)
            && (r.lockout <==> |inputs| == 361)
  {
    hide Sound, Update, AtLeast;
    if inputs != [] {
      var init, last := inputs[..|inputs| - 1], inputs[|inputs| - 1];
      UnansweredRedLocksOut(s, init);
      RunSound(s, init);
      VisionCountdown(s, init);
      VisionCountdown(s, inputs);
      UpdateCounters(After(s, init), last);
    }
  }
}
