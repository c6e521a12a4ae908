// What every stretch of Batch does, told by the history alone: the data appended and the batches handed out so
// far, and who is on the timer.

module BatchSteps {
  import opened Wrappers
  import Pipeline
  import opened Batch
  import opened BatchSchedules

  ghost predicate Reached(s: State, steps: seq<Step>, e: State) {
    Initial(s) && LegalRun(s, steps) && Exec(s, steps) == e
  }

  ghost predicate SomebodyOnTimer(e: State) { exists c :: OnTimer(e, c) }

  // The caller has returned without stopping or waiting for anything, and nothing was handed out.
  ghost predicate ReturnsNothing(e: State, e': State, c: nat) {
    Is(e', c, Returned(None)) && e'.log == e.log
  }

  // The caller has returned with this batch, the next one.
  ghost predicate ReturnsBatch(e: State, e': State, c: nat, batch: seq<Bytes>) {
    Is(e', c, Returned(Some(batch))) && e'.log == e.log + [(c, batch)]
  }

  ghost predicate SparesOthers(e: State, e': State, c: nat) {
    && e'.mode == e.mode && e'.threshold == e.threshold
    && (forall d :: d != c ==> (d in e'.callers <==> d in e.callers))
    && (forall d :: d != c && d in e.callers ==> e'.callers[d] == e.callers[d])
  }

  // A call whose data arrives when `pending`, with it, is what was appended since the last batch: in count-only
  // mode it is all handed out once there are enough; in the timed modes the first caller waits, and others
  // leave their data there, unless the count matters and is met.
  ghost predicate Arrives(e: State, e': State, c: nat, pending: seq<Bytes>) {
    match e.mode
    case CountOnly =>
      if |pending| < e.threshold then ReturnsNothing(e, e', c) else ReturnsBatch(e, e', c, pending)
    case TimeOnly =>
      if SomebodyOnTimer(e) then ReturnsNothing(e, e', c) else Is(e', c, Waiting) && e'.log == e.log
    case TimeAndCount =>
      if !SomebodyOnTimer(e) then Is(e', c, Waiting) && e'.log == e.log
      else if |pending| < e.threshold then ReturnsNothing(e, e', c)
      else IsBlocked(e', c) && e'.log == e.log
  }

  // What the shared fields are, told by the history.
  lemma FieldsAreHistory(s: State, steps: seq<Step>, e: State)
    requires Reached(s, steps, e)
    ensures e.mode == s.mode && |Handed(e.log)| <= |e.appended| && e.buffer.data == Fresh(e)
    ensures e.mode != CountOnly ==> (e.buffer.timerActive <==> SomebodyOnTimer(e))
    ensures e.mode != TimeAndCount ==> forall c <- e.callers :: Signal(e.callers[c]) == None
  {
    Reachable(s, steps);
    SettingsStay(s, steps);
    assert Handed(e.log) + e.buffer.data == e.appended;
  }

  // In every reachable state of any mode: data that does not coerce changes nothing but that its caller
  // returns; other data is appended, and its caller goes where the history says.
  lemma ArrivalExactly(s: State, steps: seq<Step>, e: State, c: nat, params: seq<Pipeline.Value>)
    requires Reached(s, steps, e) && Legal(e, Arrive(c, params))
    ensures var e' := Apply(e, Arrive(c, params));
            && SparesOthers(e, e', c) && |Handed(e.log)| <= |e.appended|
            && if params == [] || Pipeline.CoerceType(params[0]).Failure? then
                 ReturnsNothing(e, e', c) && e'.appended == e.appended
               else
                 var item := Pipeline.CoerceType(params[0]).value;
                 e'.appended == e.appended + [item] && Arrives(e, e', c, Fresh(e) + [item])
  {
    FieldsAreHistory(s, steps, e);
  }

  // Whoever goes on after the select or the send returns with all data appended since the last batch, and with
  // nothing if there is none.
  lemma GoingOnExactly(s: State, steps: seq<Step>, e: State, step: Step)
    requires Reached(s, steps, e) && Legal(e, step) && GoesOn(e, step)
    ensures var e' := Apply(e, step);
            && SparesOthers(e, e', step.caller) && e'.appended == e.appended && |Handed(e.log)| <= |e.appended|
            && if Fresh(e) == [] then ReturnsNothing(e, e', step.caller)
               else ReturnsBatch(e, e', step.caller, Fresh(e))
  {
    FieldsAreHistory(s, steps, e);
  }

  // ---- time-only mode ----

  // A batch is handed out exactly when a caller whose timer has fired goes on and something was appended since
  // the last one, which it all takes; and nobody is ever blocked on the channel or let go by it.
  lemma TimeOnlyExactly(s: State, steps: seq<Step>, e: State, step: Step)
    requires Reached(s, steps, e) && s.mode == TimeOnly && Legal(e, step)
    ensures forall c :: !IsBlocked(e, c) && !IsSent(e, c) && (IsWoken(e, c) ==> Is(e, c, Woken(None)))
    ensures |Handed(e.log)| <= |e.appended|
    ensures Apply(e, step).log != e.log <==> step.Resume? && Fresh(e) != []
    ensures step.Resume? && Fresh(e) != [] ==> ReturnsBatch(e, Apply(e, step), step.caller, Fresh(e))
  {
    FieldsAreHistory(s, steps, e);
    forall c ensures !IsBlocked(e, c) && !IsSent(e, c) && (IsWoken(e, c) ==> Is(e, c, Woken(None))) {
      if c in e.callers { assert Signal(e.callers[c]) == None; }
    }
  }

  function Firings(steps: seq<Step>): nat {
    if steps == [] then 0 else (if steps[0].TimerFires? then 1 else 0) + Firings(steps[1..])
  }

  ghost predicate SomebodyWoken(e: State) { exists c :: IsWoken(e, c) }

  // The firings so far have each let one batch go at most, one of them perhaps not yet.
  ghost predicate Paid(e: State, firings: nat) {
    |e.log| + (if SomebodyWoken(e) then 1 else 0) <= firings
  }

  lemma PaidStep(e: State, step: Step, firings: nat)
    requires Inv(e) && e.mode == TimeOnly && Legal(e, step) && Paid(e, firings)
    ensures Paid(Apply(e, step), firings + if step.TimerFires? then 1 else 0)
  {
    var e' := Apply(e, step);
    match step
    case Arrive(c, params) => assert forall d :: IsWoken(e', d) ==> IsWoken(e, d);
    case TimerFires(c) =>
      assert OnTimer(e, c);
      assert forall d :: IsWoken(e, d) ==> OnTimer(e, d);
    case Receive(w, c) =>
    case Resume(c) =>
      assert OnTimer(e, c);
      forall d ensures !IsWoken(e', d) { assert IsWoken(e, d) ==> OnTimer(e, d); }
    case Finish(c) =>
  }

  lemma {:induction false} PaidRuns(e: State, steps: seq<Step>, firings: nat)
    requires Inv(e) && e.mode == TimeOnly && LegalRun(e, steps) && Paid(e, firings)
    ensures Paid(Exec(e, steps), firings + Firings(steps))
    decreases |steps|
  {
    if steps != [] {
      StepKeepsInv(e, steps[0]);
      PaidStep(e, steps[0], firings);
      RunCons(e, steps[0], []);
      SettingsStay(e, [steps[0]] + []);
      PaidRuns(Apply(e, steps[0]), steps[1..], firings + if steps[0].TimerFires? then 1 else 0);
    }
  }

  // So there is at most one batch for every timer that fires.
  lemma OneBatchPerTimer(s: State, steps: seq<Step>)
    requires Initial(s) && s.mode == TimeOnly && LegalRun(s, steps)
    ensures |Exec(s, steps).log| <= Firings(steps)
  {
    Reachable(s, []);
    PaidRuns(s, steps, 0);
  }
}
