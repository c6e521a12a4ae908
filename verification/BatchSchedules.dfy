// Any number of callers of one Batch, interleaved at its blocking points.

module BatchSchedules {
  import opened Wrappers
  import opened Pipeline
  import opened Batch

  // Where a caller is. A waiting caller is in the select; a woken one has left it, by its timer (None) or by
  // the channel, but not yet gone on. A blocked one is sending on the channel; a sent one has been received
  // but not yet gone on. A signal is the number of batches that had been handed out when its sender found
  // the threshold met.
  datatype Caller =
    | Waiting
    | Woken(signal: Option<nat>)
    | Blocked(since: nat)
    | Sent(since: nat)
    | Returned(batch: Option<seq<Bytes>>)

  // `appended` and `log` are history: all data in append order, all batches in forwarding order.
  datatype State = State(
    mode: Mode,
    threshold: int,
    buffer: Buffer,
    callers: map<nat, Caller>,
    appended: seq<Bytes>,
    log: seq<(nat, seq<Bytes>)>)

  datatype Step =
    | Arrive(caller: nat, params: seq<Value>)
    | TimerFires(caller: nat)
    | Receive(waiter: nat, sender: nat)
    | Resume(caller: nat)
    | Finish(caller: nat)

  predicate Is(s: State, c: nat, where: Caller) {
    c in s.callers && s.callers[c] == where
  }

  predicate IsBlocked(s: State, c: nat) {
    c in s.callers && s.callers[c].Blocked?
  }

  predicate IsWoken(s: State, c: nat) {
    c in s.callers && s.callers[c].Woken?
  }

  predicate IsSent(s: State, c: nat) {
    c in s.callers && s.callers[c].Sent?
  }

  predicate Legal(s: State, step: Step) {
    match step
    case Arrive(c, _) => c !in s.callers
    case TimerFires(c) => Is(s, c, Waiting)
    case Receive(w, c) => Is(s, w, Waiting) && IsBlocked(s, c)
    case Resume(c) => IsWoken(s, c)
    case Finish(c) => IsSent(s, c)
  }

  // Where a stretch leaves its caller, and what it adds to the log.
  function Settle(s: State, c: nat, buffer: Buffer, next: Next): State {
    var s' := s.(buffer := buffer);
    match next
    case Stop => s'.(callers := s.callers[c := Returned(None)])
    case Fail(_) => s'.(callers := s.callers[c := Returned(None)])
    case Forward(batch) => s'.(callers := s.callers[c := Returned(Some(batch))], log := s.log + [(c, batch)])
    case Wait => s'.(callers := s.callers[c := Waiting])
    case Send => s'.(callers := s.callers[c := Blocked(|s.log|)])
  }

  function Apply(s: State, step: Step): State
    requires Legal(s, step)
  {
    match step
    case Arrive(c, params) =>
      if params == [] || CoerceType(params[0]).Failure? then Settle(s, c, s.buffer, Fail(""))
      else
        var item := CoerceType(params[0]).value;
        var (buffer, next) := Enter(s.mode, s.threshold, s.buffer, item);
        Settle(s.(appended := s.appended + [item]), c, buffer, next)
    case TimerFires(c) => s.(callers := s.callers[c := Woken(None)])
    case Receive(w, c) =>
      var since := s.callers[c].since;
      s.(callers := s.callers[w := Woken(Some(since))][c := Sent(since)])
    case Resume(c) => var (buffer, next) := Wake(s.buffer); Settle(s, c, buffer, next)
    case Finish(c) => var (buffer, next) := Flush(s.buffer); Settle(s, c, buffer, next)
  }

  predicate LegalRun(s: State, steps: seq<Step>)
    decreases |steps|
  {
    steps != [] ==> Legal(s, steps[0]) && LegalRun(Apply(s, steps[0]), steps[1..])
  }

  function Exec(s: State, steps: seq<Step>): State
    requires LegalRun(s, steps)
    decreases |steps|
  {
    if steps == [] then s else Exec(Apply(s, steps[0]), steps[1..])
  }

  predicate Initial(s: State) {
    s.buffer == Buffer([], false) && s.callers == map[] && s.appended == [] && s.log == []
  }

  // ---- invariants ----

  function Handed(log: seq<(nat, seq<Bytes>)>): seq<Bytes> {
    if log == [] then [] else Handed(log[..|log| - 1]) + log[|log| - 1].1
  }

  // Nothing is lost, repeated or reordered.
  ghost predicate Conserved(s: State) {
    Handed(s.log) + s.buffer.data == s.appended
  }

  ghost predicate InLog(s: State, c: nat) {
    exists i :: 0 <= i < |s.log| && s.log[i].0 == c
  }

  // Each logged batch is nonempty and is what one caller returned with; no caller returned with two.
  ghost predicate Exclusive(s: State) {
    && (forall i :: 0 <= i < |s.log| ==> s.log[i].1 != [] && Is(s, s.log[i].0, Returned(Some(s.log[i].1))))
    && (forall i, j :: 0 <= i < j < |s.log| ==> s.log[i].0 != s.log[j].0)
    && (forall c <- s.callers :: s.callers[c].Returned? && s.callers[c].batch.Some? ==> InLog(s, c))
  }

  predicate OnTimer(s: State, c: nat) {
    Is(s, c, Waiting) || IsWoken(s, c)
  }

  // In the timed modes the flag is up exactly while one caller waits or has been woken but has not
  // reset it, and data is buffered only then.
  ghost predicate Timed(s: State) {
    && (forall c, d :: OnTimer(s, c) && OnTimer(s, d) ==> c == d)
    && (s.buffer.timerActive <==> exists c :: OnTimer(s, c))
    && (s.buffer.data != [] ==> s.buffer.timerActive)
  }

  function Size(threshold: int): nat {
    if threshold < 1 then 1 else threshold
  }

  // In count-only mode nobody blocks, and batches have one size.
  ghost predicate Counted(s: State) {
    && !s.buffer.timerActive
    && (forall c <- s.callers :: s.callers[c].Returned?)
    && |s.buffer.data| < Size(s.threshold)
    && (forall i :: 0 <= i < |s.log| ==> |s.log[i].1| == Size(s.threshold))
  }

  function Signal(where: Caller): Option<nat> {
    match where
    case Woken(signal) => signal
    case Blocked(since) => Some(since)
    case Sent(since) => Some(since)
    case _ => None
  }

  // Only time-and-count mode uses the channel; and a signal means that the threshold is met by data that
  // is still buffered, unless a batch has been handed out since.
  ghost predicate Senders(s: State) {
    forall c <- s.callers :: Signal(s.callers[c]).Some? ==> ValidSignal(s, Signal(s.callers[c]).value)
  }

  predicate ValidSignal(s: State, since: nat) {
    s.mode == TimeAndCount && since <= |s.log| && (since == |s.log| ==> |s.buffer.data| >= s.threshold)
  }

  ghost predicate Inv(s: State) {
    Conserved(s) && Exclusive(s) && Senders(s) && if s.mode == CountOnly then Counted(s) else Timed(s)
  }

  // ---- preservation ----

  lemma ConservedStep(s: State, step: Step)
    requires Conserved(s) && Legal(s, step)
    ensures Conserved(Apply(s, step))
  {
    var s' := Apply(s, step);
    if |s'.log| > |s.log| {
      assert s'.log[..|s'.log| - 1] == s.log;
    }
  }

  // A caller that has not returned returns, or goes on.
  lemma SettleKeepsExclusive(s: State, c: nat, buffer: Buffer, next: Next)
    requires Exclusive(s) && (c in s.callers ==> !s.callers[c].Returned?)
    requires next.Forward? ==> next.batch != []
    ensures Exclusive(Settle(s, c, buffer, next))
  {
    var s' := Settle(s, c, buffer, next);
    assert forall i :: 0 <= i < |s.log| ==> s.log[i].0 != c && s'.log[i] == s.log[i];
    forall d | d in s'.callers && s'.callers[d].Returned? && s'.callers[d].batch.Some? ensures InLog(s', d) {
      SettleLogs(s, c, buffer, next, d);
    }
  }

  lemma SettleLogs(s: State, c: nat, buffer: Buffer, next: Next, d: nat)
    requires d != c && d in s.callers && s.callers[d].Returned? && s.callers[d].batch.Some? ==> InLog(s, d)
    ensures var s' := Settle(s, c, buffer, next);
            d in s'.callers && s'.callers[d].Returned? && s'.callers[d].batch.Some? ==> InLog(s', d)
  {
    var s' := Settle(s, c, buffer, next);
    if d == c {
      assert next.Forward? ==> s'.log[|s.log|].0 == c;
    } else if i :| 0 <= i < |s.log| && s.log[i].0 == d {
      assert s'.log[i].0 == d;
    }
  }

  lemma MoveKeepsExclusive(s: State, c: nat, where: Caller)
    requires Exclusive(s) && c in s.callers && !s.callers[c].Returned? && !where.Returned?
    ensures Exclusive(s.(callers := s.callers[c := where]))
  {
  }

  lemma ExclusiveStep(s: State, step: Step)
    requires Exclusive(s) && Legal(s, step)
    ensures Exclusive(Apply(s, step))
  {
    match step
    case Arrive(c, params) =>
      if params == [] || CoerceType(params[0]).Failure? {
        SettleKeepsExclusive(s, c, s.buffer, Fail(""));
      } else {
        var item := CoerceType(params[0]).value;
        var (buffer, next) := Enter(s.mode, s.threshold, s.buffer, item);
        SettleKeepsExclusive(s.(appended := s.appended + [item]), c, buffer, next);
      }
    case TimerFires(c) => MoveKeepsExclusive(s, c, Woken(None));
    case Receive(w, c) =>
      var since := s.callers[c].since;
      MoveKeepsExclusive(s, w, Woken(Some(since)));
      MoveKeepsExclusive(s.(callers := s.callers[w := Woken(Some(since))]), c, Sent(since));
    case Resume(c) => var (buffer, next) := Wake(s.buffer); SettleKeepsExclusive(s, c, buffer, next);
    case Finish(c) => var (buffer, next) := Flush(s.buffer); SettleKeepsExclusive(s, c, buffer, next);
  }

  lemma SendersStep(s: State, step: Step)
    requires Senders(s) && Legal(s, step)
    ensures Senders(Apply(s, step))
  {
    var s' := Apply(s, step);
    forall c | c in s'.callers && Signal(s'.callers[c]).Some?
      ensures ValidSignal(s', Signal(s'.callers[c]).value)
    {
      SignalStays(s, step, c);
    }
  }

  lemma SignalStays(s: State, step: Step, c: nat)
    requires Senders(s) && Legal(s, step)
    requires var s' := Apply(s, step); c in s'.callers && Signal(s'.callers[c]).Some?
    ensures var s' := Apply(s, step); ValidSignal(s', Signal(s'.callers[c]).value)
  {
    var before := if step.Receive? && step.waiter == c then step.sender else c;
    assert before in s.callers && Signal(s.callers[before]).Some? ==> ValidSignal(s, Signal(s.callers[before]).value);
  }

  lemma CountedStep(s: State, step: Step)
    requires Counted(s) && s.mode == CountOnly && Legal(s, step)
    ensures Counted(Apply(s, step))
  {
  }

  lemma TimedStep(s: State, step: Step)
    requires Timed(s) && s.mode != CountOnly && Legal(s, step)
    ensures Timed(Apply(s, step))
  {
    var s' := Apply(s, step);
    match step
    case Arrive(c, _) =>
      assert forall d :: d != c ==> (OnTimer(s', d) <==> OnTimer(s, d));
      assert s'.buffer.timerActive != s.buffer.timerActive ==> OnTimer(s', c);
    case TimerFires(c) => assert forall d :: OnTimer(s', d) <==> OnTimer(s, d);
    case Receive(w, c) => assert forall d :: OnTimer(s', d) <==> OnTimer(s, d);
    case Resume(c) =>
      assert OnTimer(s, c);
      assert forall d :: OnTimer(s', d) <==> OnTimer(s, d) && d != c;
    case Finish(c) => assert forall d :: OnTimer(s', d) <==> OnTimer(s, d);
  }

  lemma StepKeepsInv(s: State, step: Step)
    requires Inv(s) && Legal(s, step)
    ensures Inv(Apply(s, step))
  {
    ConservedStep(s, step);
    ExclusiveStep(s, step);
    SendersStep(s, step);
    if s.mode == CountOnly { CountedStep(s, step); } else { TimedStep(s, step); }
  }

  lemma {:induction false} RunsKeepInv(s: State, steps: seq<Step>)
    requires Inv(s) && LegalRun(s, steps)
    ensures Inv(Exec(s, steps))
    decreases |steps|
  {
    if steps != [] {
      StepKeepsInv(s, steps[0]);
      RunsKeepInv(Apply(s, steps[0]), steps[1..]);
    }
  }

  // Every reachable state, under any schedule and in every mode: the batches in forwarding order
  // followed by the buffer are the data in append order; each batch is nonempty and went to exactly
  // one caller; count-only batches have max(1, threshold) items; and in the timed modes the flag,
  // the one caller on the timer and nonempty buffers go together.
  lemma Reachable(s: State, steps: seq<Step>)
    requires Initial(s) && LegalRun(s, steps)
    ensures Inv(Exec(s, steps))
  {
    RunsKeepInv(s, steps);
  }

  // ---- count-only mode cuts the data into equal batches ----

  // The full blocks of n items at the front of `data`.
  function Blocks(data: seq<Bytes>, n: nat): seq<seq<Bytes>>
    requires n > 0
    decreases |data|
  {
    if |data| < n then [] else [data[..n]] + Blocks(data[n..], n)
  }

  function Batches(log: seq<(nat, seq<Bytes>)>): (r: seq<seq<Bytes>>)
    ensures |r| == |log|
  {
    seq(|log|, i requires 0 <= i < |log| => log[i].1)
  }

  lemma {:induction false} HandedPrepend(first: (nat, seq<Bytes>), rest: seq<(nat, seq<Bytes>)>)
    ensures Handed([first] + rest) == first.1 + Handed(rest)
  {
    var all := [first] + rest;
    if rest == [] {
      assert all[..0] == [] && Handed(all) == Handed([]) + first.1;
    } else {
      var front, last := rest[..|rest| - 1], rest[|rest| - 1];
      assert all[..|all| - 1] == [first] + front && all[|all| - 1] == last;
      HandedPrepend(first, front);
      assert first.1 + (Handed(front) + last.1) == (first.1 + Handed(front)) + last.1;
    }
  }

  lemma {:induction false} EqualBlocks(log: seq<(nat, seq<Bytes>)>, left: seq<Bytes>, n: nat)
    requires n > 0 && |left| < n && forall i :: 0 <= i < |log| ==> |log[i].1| == n
    ensures Blocks(Handed(log) + left, n) == Batches(log)
    decreases |log|
  {
    if log == [] {
      assert Handed(log) + left == left;
    } else {
      var rest := log[1..];
      assert log == [log[0]] + rest;
      HandedPrepend(log[0], rest);
      EqualBlocks(rest, left, n);
      var data := Handed(log) + left;
      assert data == log[0].1 + (Handed(rest) + left);
      assert data[..n] == log[0].1 && data[n..] == Handed(rest) + left;
      assert Batches(log) == [log[0].1] + Batches(rest);
    }
  }

  // Whatever the schedule, the batches forwarded are the consecutive full blocks of the data.
  lemma CountOnlyBlocks(s: State, steps: seq<Step>)
    requires Initial(s) && s.mode == CountOnly && LegalRun(s, steps)
    ensures var e := Exec(s, steps);
            && Batches(e.log) == Blocks(e.appended, Size(s.threshold))
            && |e.buffer.data| < Size(s.threshold)
  {
    Reachable(s, steps);
    SettingsStay(s, steps);
    var e := Exec(s, steps);
    EqualBlocks(e.log, e.buffer.data, Size(s.threshold));
  }

  lemma {:induction false} SettingsStay(s: State, steps: seq<Step>)
    requires LegalRun(s, steps)
    ensures Exec(s, steps).mode == s.mode && Exec(s, steps).threshold == s.threshold
    decreases |steps|
  {
    if steps != [] { SettingsStay(Apply(s, steps[0]), steps[1..]); }
  }

  // ---- no data is stranded, but a caller can be ----

  // Whenever data is buffered in a timed mode, the caller on the timer needs at most its timer to
  // fire to take all of it; no new caller is needed.
  lemma BufferedDataCanLeave(s: State, steps: seq<Step>) returns (c: nat, more: seq<Step>)
    requires Initial(s) && s.mode != CountOnly && LegalRun(s, steps) && Exec(s, steps).buffer.data != []
    ensures var e := Exec(s, steps);
            && |more| <= 2
            && LegalRun(e, more)
            && Exec(e, more).buffer == Buffer([], false)
            && Exec(e, more).log == e.log + [(c, e.buffer.data)]
  {
    Reachable(s, steps);
    SettingsStay(s, steps);
    var e := Exec(s, steps);
    c :| OnTimer(e, c);
    if Is(e, c, Waiting) {
      var e' := Apply(e, TimerFires(c));
      RunCons(e', Resume(c), []);
      RunCons(e, TimerFires(c), [Resume(c)] + []);
      more := [TimerFires(c)] + ([Resume(c)] + []);
    } else {
      RunCons(e, Resume(c), []);
      more := [Resume(c)] + [];
    }
  }

  lemma RunCons(s: State, step: Step, rest: seq<Step>)
    requires Legal(s, step) && LegalRun(Apply(s, step), rest)
    ensures LegalRun(s, [step] + rest) && Exec(s, [step] + rest) == Exec(Apply(s, step), rest)
  {
    assert ([step] + rest)[1..] == rest;
  }

  // A blocked sender goes on exactly when somebody waits.
  lemma SenderNeedsWaiter(s: State, c: nat)
    requires IsBlocked(s, c)
    ensures (exists step :: Legal(s, step) && !Is(Apply(s, step), c, s.callers[c])) <==> (exists w :: Is(s, w, Waiting))
  {
    if w :| Is(s, w, Waiting) {
      assert Is(Apply(s, Receive(w, c)), c, Sent(s.callers[c].since));
    }
  }

  // ---- when a batch is short ----

  // The data appended since the last batch was handed out.
  function Fresh(s: State): seq<Bytes>
    requires |Handed(s.log)| <= |s.appended|
  {
    s.appended[|Handed(s.log)|..]
  }

  // The step hands out a batch below the threshold.
  predicate HandsOutShort(s: State, step: Step)
    requires Legal(s, step)
  {
    var log := Apply(s, step).log;
    |log| > |s.log| && |log[|log| - 1].1| < s.threshold
  }

  // The step goes on after the select or the send: a caller, and its signal if it has one.
  predicate GoesOn(s: State, step: Step) {
    (step.Resume? && IsWoken(s, step.caller)) || (step.Finish? && IsSent(s, step.caller))
  }

  function SignalOf(s: State, step: Step): Option<nat>
    requires GoesOn(s, step)
  {
    Signal(s.callers[step.caller])
  }

  // In every reachable state of time-and-count mode: who goes on takes exactly the data appended since the
  // last batch, by whatever it was let go. So a batch is short exactly when fewer than `threshold` items have
  // been appended since the last one; and then either a timer has elapsed, or another batch has been handed
  // out since the threshold was found met. If none has, at least `threshold` items go out.
  lemma ShortExactly(s: State, steps: seq<Step>, step: Step)
    requires Initial(s) && s.mode == TimeAndCount && LegalRun(s, steps) && Legal(Exec(s, steps), step)
    ensures var e := Exec(s, steps);
            && |Handed(e.log)| <= |e.appended| && e.threshold == s.threshold
            && (GoesOn(e, step) ==>
                  Apply(e, step).log == if Fresh(e) == [] then e.log else e.log + [(step.caller, Fresh(e))])
            && (HandsOutShort(e, step) <==> GoesOn(e, step) && 0 < |Fresh(e)| < s.threshold)
            && (GoesOn(e, step) && SignalOf(e, step) == Some(|e.log|) ==> |Fresh(e)| >= s.threshold)
            && (HandsOutShort(e, step) ==> SignalOf(e, step) == None || SignalOf(e, step).value < |e.log|)
  {
    Reachable(s, steps);
    SettingsStay(s, steps);
    TakesFresh(Exec(s, steps), step);
  }

  lemma TakesFresh(e: State, step: Step)
    requires Inv(e) && e.mode == TimeAndCount && Legal(e, step)
    ensures |Handed(e.log)| <= |e.appended| && Fresh(e) == e.buffer.data
    ensures !GoesOn(e, step) ==> Apply(e, step).log == e.log
    ensures GoesOn(e, step) ==>
              Apply(e, step).log == if Fresh(e) == [] then e.log else e.log + [(step.caller, Fresh(e))]
    ensures GoesOn(e, step) && SignalOf(e, step).Some? ==> ValidSignal(e, SignalOf(e, step).value)
  {
    assert Handed(e.log) + e.buffer.data == e.appended;
  }

  // A blocked caller that is let go forwards what is buffered then, with no timer elapsed.
  lemma LetGo(s: State, w: nat, c: nat)
    requires Is(s, w, Waiting) && IsBlocked(s, c) && s.buffer.data != []
    ensures var steps := [Receive(w, c)] + [Finish(c)];
            LegalRun(s, steps) && Exec(s, steps).log == s.log + [(c, s.buffer.data)]
  {
    var s1 := Apply(s, Receive(w, c));
    RunCons(s1, Finish(c), []);
    assert [Finish(c)] + [] == [Finish(c)];
    RunCons(s, Receive(w, c), [Finish(c)]);
  }

  // ---- two schedules with a short batch and no timer elapsed for it ----

  function Start(): State { State(TimeAndCount, 2, Buffer([], false), map[], [], []) }

  function OneWaits(x: Bytes): State { State(TimeAndCount, 2, Buffer([x], true), map[0 := Waiting], [x], []) }

  lemma FirstArrives(x: Bytes)
    ensures Legal(Start(), Arrive(0, [Raw(x)])) && Apply(Start(), Arrive(0, [Raw(x)])) == OneWaits(x)
  {
  }

  // The waiter can leave by its timer while a sender is already committed to the channel: the sender
  // is then stuck, with nothing buffered, until a later caller waits.
  function Stranded(x: Bytes, y: Bytes): State {
    State(TimeAndCount, 2, Buffer([], false), map[0 := Returned(Some([x, y])), 1 := Blocked(0)], [x, y], [(0, [x, y])])
  }

  function TimerFired(x: Bytes): State { OneWaits(x).(callers := map[0 := Woken(None)]) }

  function SenderCommitted(x: Bytes, y: Bytes): State {
    State(TimeAndCount, 2, Buffer([x, y], true), map[0 := Woken(None), 1 := Blocked(0)], [x, y], [])
  }

  lemma TimerThenSender(x: Bytes, y: Bytes)
    ensures Legal(OneWaits(x), TimerFires(0)) && Apply(OneWaits(x), TimerFires(0)) == TimerFired(x)
    ensures var arrive := Arrive(1, [Raw(y)]);
            Legal(TimerFired(x), arrive) && Apply(TimerFired(x), arrive) == SenderCommitted(x, y)
  {
  }

  lemma WaiterLeaves(x: Bytes, y: Bytes)
    ensures Legal(SenderCommitted(x, y), Resume(0)) && Apply(SenderCommitted(x, y), Resume(0)) == Stranded(x, y)
  {
  }

  lemma SenderCanBeStranded(x: Bytes, y: Bytes) returns (stuck: seq<Step>)
    ensures LegalRun(Start(), stuck) && Exec(Start(), stuck) == Stranded(x, y)
    ensures forall step :: Legal(Stranded(x, y), step) ==> step.Arrive?
  {
    var a, b, c, d := Arrive(0, [Raw(x)]), TimerFires(0), Arrive(1, [Raw(y)]), Resume(0);
    FirstArrives(x);
    TimerThenSender(x, y);
    WaiterLeaves(x, y);
    RunCons(SenderCommitted(x, y), d, []);
    RunCons(TimerFired(x), c, [d] + []);
    RunCons(OneWaits(x), b, [c] + ([d] + []));
    RunCons(Start(), a, [b] + ([c] + ([d] + [])));
    stuck := [a] + ([b] + ([c] + ([d] + [])));
  }

  // Let go by a later caller, the stranded sender forwards what that caller brought.
  lemma StrandedSenderCutsShort(x: Bytes, y: Bytes, z: Bytes) returns (freed: seq<Step>)
    ensures LegalRun(Stranded(x, y), freed) && forall i :: 0 <= i < |freed| ==> !freed[i].TimerFires?
    ensures Exec(Stranded(x, y), freed).log == [(0, [x, y]), (1, [z])]
  {
    var s0, a := Stranded(x, y), Arrive(2, [Raw(z)]);
    var s1 := Apply(s0, a);
    assert s1.buffer == Buffer([z], true) && Is(s1, 2, Waiting) && IsBlocked(s1, 1) && s1.log == s0.log;
    LetGo(s1, 2, 1);
    freed := [a] + ([Receive(2, 1)] + [Finish(1)]);
    RunCons(s0, a, [Receive(2, 1)] + [Finish(1)]);
  }

  // No sender need be stranded for that: woken by the channel, the waiter is overtaken by the sender, and
  // takes what a third caller brings in between.
  function Signalled(x: Bytes, y: Bytes): State {
    State(TimeAndCount, 2, Buffer([x, y], true), map[0 := Woken(Some(0)), 1 := Sent(0)], [x, y], [])
  }

  function Overtaken(x: Bytes, y: Bytes): State {
    State(TimeAndCount, 2, Buffer([], true), map[0 := Woken(Some(0)), 1 := Returned(Some([x, y]))], [x, y],
          [(1, [x, y])])
  }

  lemma SenderSignals(x: Bytes, y: Bytes)
    ensures var arrive := Arrive(1, [Raw(y)]);
            && Legal(OneWaits(x), arrive) && Legal(Apply(OneWaits(x), arrive), Receive(0, 1))
            && Apply(Apply(OneWaits(x), arrive), Receive(0, 1)) == Signalled(x, y)
  {
    var sending := Apply(OneWaits(x), Arrive(1, [Raw(y)]));
    assert sending == State(TimeAndCount, 2, Buffer([x, y], true), map[0 := Waiting, 1 := Blocked(0)], [x, y], []);
    assert Apply(sending, Receive(0, 1)).callers == map[0 := Woken(Some(0)), 1 := Sent(0)];
  }

  lemma SenderOvertakes(x: Bytes, y: Bytes)
    ensures Legal(Signalled(x, y), Finish(1)) && Apply(Signalled(x, y), Finish(1)) == Overtaken(x, y)
  {
  }

  lemma WaiterCutsShort(x: Bytes, y: Bytes, z: Bytes) returns (steps: seq<Step>)
    ensures LegalRun(Start(), steps) && forall i :: 0 <= i < |steps| ==> !steps[i].TimerFires?
    ensures Exec(Start(), steps).log == [(1, [x, y]), (0, [z])]
  {
    var a, b, c, d := Arrive(0, [Raw(x)]), Arrive(1, [Raw(y)]), Receive(0, 1), Finish(1);
    FirstArrives(x);
    SenderSignals(x, y);
    SenderOvertakes(x, y);
    var end := WaiterTakesRest(x, y, z);
    RunCons(Signalled(x, y), d, end);
    RunCons(Apply(OneWaits(x), b), c, [d] + end);
    RunCons(OneWaits(x), b, [c] + ([d] + end));
    RunCons(Start(), a, [b] + ([c] + ([d] + end)));
    steps := [a] + ([b] + ([c] + ([d] + end)));
  }

  lemma WaiterTakesRest(x: Bytes, y: Bytes, z: Bytes) returns (end: seq<Step>)
    ensures end == [Arrive(2, [Raw(z)]), Resume(0)]
    ensures LegalRun(Overtaken(x, y), end) && Exec(Overtaken(x, y), end).log == [(1, [x, y]), (0, [z])]
  {
    var s, a := Overtaken(x, y), Arrive(2, [Raw(z)]);
    var s1 := Apply(s, a);
    assert s1.buffer == Buffer([z], true) && IsWoken(s1, 0) && s1.log == s.log;
    RunCons(s1, Resume(0), []);
    RunCons(s, a, [Resume(0)] + []);
    end := [a] + ([Resume(0)] + []);
  }
}
