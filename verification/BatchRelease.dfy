// Time-and-count mode: when a met count releases a batch without the timer, and who is let go without a
// new caller.

module BatchRelease {
  import opened Wrappers
  import Pipeline
  import opened Batch
  import opened BatchSchedules

  // No timer elapses, and nobody new arrives.
  predicate Unaided(steps: seq<Step>) {
    forall i :: 0 <= i < |steps| ==> !steps[i].TimerFires? && !steps[i].Arrive?
  }

  // One caller is handed exactly what is buffered.
  ghost predicate HandsOutBuffer(s: State, s': State) {
    s'.buffer.data == [] && exists c :: s'.log == s.log + [(c, s.buffer.data)]
  }

  ghost predicate ReleasedBy(s: State, more: seq<Step>) {
    |more| <= 2 && Unaided(more) && LegalRun(s, more) && HandsOutBuffer(s, Exec(s, more))
  }

  ghost predicate ReachableWith(threshold: int, e: State) {
    exists s, steps ::
      Initial(s) && s.mode == TimeAndCount && s.threshold == threshold && LegalRun(s, steps) && Exec(s, steps) == e
  }

  // Whenever the buffer has met the threshold, those callers that are there already can hand it out without
  // waiting for the timer.
  ghost predicate ReleasesOnCount(threshold: int) {
    forall e :: ReachableWith(threshold, e) && e.buffer.data != [] && |e.buffer.data| >= threshold ==>
                  exists more :: ReleasedBy(e, more)
  }

  // ---- thresholds from 2 on ----

  // A caller that found the threshold met is on its way to hand out what is buffered now.
  ghost predicate OnItsWay(s: State, c: nat) {
    Is(s, c, Blocked(|s.log|)) || Is(s, c, Sent(|s.log|))
  }

  ghost predicate MetIsSent(s: State) {
    |s.buffer.data| >= s.threshold ==> exists c :: OnItsWay(s, c)
  }

  lemma MetIsSentStep(s: State, step: Step)
    requires Inv(s) && s.mode == TimeAndCount && s.threshold >= 2 && MetIsSent(s) && Legal(s, step)
    ensures MetIsSent(Apply(s, step))
  {
    var s' := Apply(s, step);
    if |s'.buffer.data| >= s.threshold {
      match step
      case Arrive(c, params) =>
        if params != [] && Pipeline.CoerceType(params[0]).Success? { assert OnItsWay(s', c); } else { SameWay(s, s'); }
      case TimerFires(_) => SameWay(s, s');
      case Receive(w, c) =>
        var d :| OnItsWay(s, d);
        assert OnItsWay(s', d);
      case _ =>
    }
  }

  lemma SameWay(s: State, s': State)
    requires MetIsSent(s) && |s.buffer.data| >= s.threshold && s'.log == s.log
    requires forall c :: c in s.callers && !s.callers[c].Waiting? ==> c in s'.callers && s'.callers[c] == s.callers[c]
    ensures exists c :: OnItsWay(s', c)
  {
    var c :| OnItsWay(s, c);
    assert OnItsWay(s', c);
  }

  lemma {:induction false} MetIsSentAlways(s: State, steps: seq<Step>)
    requires Inv(s) && s.mode == TimeAndCount && s.threshold >= 2 && MetIsSent(s) && LegalRun(s, steps)
    ensures Inv(Exec(s, steps)) && MetIsSent(Exec(s, steps))
    decreases |steps|
  {
    if steps != [] {
      StepKeepsInv(s, steps[0]);
      MetIsSentStep(s, steps[0]);
      SettingsStay(s, [steps[0]] + []);
      RunCons(s, steps[0], []);
      MetIsSentAlways(Apply(s, steps[0]), steps[1..]);
    }
  }

  lemma OneStepReleases(s: State, step: Step)
    requires s.buffer.data != [] && GoesOn(s, step)
    ensures ReleasedBy(s, [step] + [])
  {
    RunCons(s, step, []);
    assert Apply(s, step).log == s.log + [(step.caller, s.buffer.data)];
  }

  lemma SenderReleases(s: State, c: nat) returns (more: seq<Step>)
    requires Inv(s) && s.mode == TimeAndCount && s.buffer.data != [] && OnItsWay(s, c)
    ensures ReleasedBy(s, more)
  {
    if IsSent(s, c) {
      more := [Finish(c)] + [];
      OneStepReleases(s, Finish(c));
    } else {
      var w :| OnTimer(s, w);
      if Is(s, w, Waiting) {
        more := [Receive(w, c)] + [Finish(c)];
        LetGo(s, w, c);
        BothRelease(s, w, c);
      } else {
        more := [Resume(w)] + [];
        OneStepReleases(s, Resume(w));
      }
    }
  }

  lemma BothRelease(s: State, w: nat, c: nat)
    requires Is(s, w, Waiting) && IsBlocked(s, c) && s.buffer.data != []
    ensures var more := [Receive(w, c)] + [Finish(c)]; LegalRun(s, more) && Exec(s, more).buffer.data == []
  {
    var s1 := Apply(s, Receive(w, c));
    RunCons(s1, Finish(c), []);
    assert [Finish(c)] + [] == [Finish(c)];
    RunCons(s, Receive(w, c), [Finish(c)]);
  }

  // ---- thresholds up to 1 ----

  // The first caller goes into the select before the threshold is looked at.
  function OneCall(threshold: int, x: Bytes): State {
    State(TimeAndCount, threshold, Buffer([x], true), map[0 := Waiting], [x], [])
  }

  // A single call that meets the threshold waits for the timer, or for another call.
  lemma OneCallWaits(threshold: int, x: Bytes)
    ensures ReachableWith(threshold, OneCall(threshold, x))
    ensures forall step :: Legal(OneCall(threshold, x), step) ==> step.TimerFires? || step.Arrive?
    ensures forall more :: !ReleasedBy(OneCall(threshold, x), more)
  {
    var s, a := State(TimeAndCount, threshold, Buffer([], false), map[], [], []), Arrive(0, [Pipeline.Raw(x)]);
    var e := OneCall(threshold, x);
    assert Apply(s, a) == e;
    RunCons(s, a, []);
    assert Initial(s) && LegalRun(s, [a] + []) && Exec(s, [a] + []) == e;
    forall more: seq<Step> ensures !ReleasedBy(e, more) {
      assert more != [] && Legal(e, more[0]) ==> more[0].TimerFires? || more[0].Arrive?;
    }
  }

  // A met count releases the batch without the timer, in every reachable state, exactly when the threshold
  // is at least 2.
  lemma CountReleasesExactly(threshold: int)
    ensures ReleasesOnCount(threshold) <==> threshold >= 2
  {
    if threshold >= 2 {
      forall e | ReachableWith(threshold, e) && e.buffer.data != [] && |e.buffer.data| >= threshold
        ensures exists more :: ReleasedBy(e, more)
      {
        var s, steps :|
          Initial(s) && s.mode == TimeAndCount && s.threshold == threshold && LegalRun(s, steps) && Exec(s, steps) == e;
        Reachable(s, []);
        SettingsStay(s, steps);
        MetIsSentAlways(s, steps);
        var c :| OnItsWay(e, c);
        var more := SenderReleases(e, c);
      }
    } else {
      OneCallWaits(threshold, []);
      assert OneCall(threshold, []).buffer.data != [];
    }
  }

  // ---- who is let go without a new caller ----

  predicate NobodyArrives(steps: seq<Step>) {
    forall i :: 0 <= i < |steps| ==> !steps[i].Arrive?
  }

  // How often a blocked caller is received.
  function Receipts(steps: seq<Step>): nat {
    if steps == [] then 0 else (if steps[0].Receive? then 1 else 0) + Receipts(steps[1..])
  }

  ghost predicate SomebodyWaits(s: State) { exists w :: Is(s, w, Waiting) }

  lemma {:induction false} NobodyIsLetGo(s: State, more: seq<Step>)
    requires !SomebodyWaits(s) && LegalRun(s, more) && NobodyArrives(more)
    ensures Receipts(more) == 0
    decreases |more|
  {
    if more != [] {
      var s' := Apply(s, more[0]);
      assert !more[0].Receive?;
      forall w ensures !Is(s', w, Waiting) { assert !Is(s, w, Waiting); }
      NobodyIsLetGo(s', more[1..]);
    }
  }

  lemma {:induction false} OneIsLetGo(s: State, more: seq<Step>)
    requires Timed(s) && s.mode != CountOnly && LegalRun(s, more) && NobodyArrives(more)
    ensures Receipts(more) <= 1
    decreases |more|
  {
    if more != [] {
      var step, s' := more[0], Apply(s, more[0]);
      if step.Receive? {
        forall w ensures !Is(s', w, Waiting) { assert OnTimer(s, step.waiter) && (OnTimer(s, w) ==> w == step.waiter); }
        NobodyIsLetGo(s', more[1..]);
      } else {
        TimedStep(s, step);
        RunCons(s, step, []);
        SettingsStay(s, [step] + []);
        OneIsLetGo(s', more[1..]);
      }
    }
  }

  // In every reachable state of the timed modes: until somebody new arrives at most one blocked caller is let
  // go, and one can be exactly when somebody waits and somebody is blocked.
  lemma AtMostOneLetGo(s: State, steps: seq<Step>)
    requires Initial(s) && s.mode != CountOnly && LegalRun(s, steps)
    ensures var e := Exec(s, steps);
            && (forall more :: LegalRun(e, more) && NobodyArrives(more) ==> Receipts(more) <= 1)
            && ((exists more :: LegalRun(e, more) && NobodyArrives(more) && Receipts(more) == 1) <==>
                SomebodyWaits(e) && exists c :: IsBlocked(e, c))
  {
    Reachable(s, steps);
    SettingsStay(s, steps);
    var e := Exec(s, steps);
    forall more | LegalRun(e, more) && NobodyArrives(more) ensures Receipts(more) <= 1 { OneIsLetGo(e, more); }
    if SomebodyWaits(e) && exists c :: IsBlocked(e, c) {
      var w :| Is(e, w, Waiting);
      var c :| IsBlocked(e, c);
      RunCons(e, Receive(w, c), []);
      var one := [Receive(w, c)] + [];
      assert one[1..] == [] && Receipts(one) == 1 && NobodyArrives(one);
    } else if more :| LegalRun(e, more) && NobodyArrives(more) && Receipts(more) == 1 {
      if SomebodyWaits(e) { NobodyWasBlocked(e, more); } else { NobodyIsLetGo(e, more); }
    }
  }

  lemma {:induction false} NobodyWasBlocked(s: State, more: seq<Step>)
    requires LegalRun(s, more) && NobodyArrives(more) && forall c :: !IsBlocked(s, c)
    ensures Receipts(more) == 0
    decreases |more|
  {
    if more != [] {
      var s' := Apply(s, more[0]);
      forall c ensures !IsBlocked(s', c) { assert !IsBlocked(s, c); }
      NobodyWasBlocked(s', more[1..]);
    }
  }
}
