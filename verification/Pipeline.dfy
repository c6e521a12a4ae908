// ExecutePipeline in internal/runtime/runtime.go: a resumable run over the pipeline's functions.

module Pipeline {
  import opened Wrappers

  // What passes between functions. `json` is what json.Marshal makes of the value, None on error.
  datatype Value =
    | Nil
    | Str(text: Bytes)
    | Raw(bytes: Bytes)
    | Object(identity: int, json: Option<Bytes>)
    | Error(message: string, json: Option<Bytes>)

  const JSON_NULL: Bytes := [0x6e, 0x75, 0x6c, 0x6c]

  // pkg/util/helpers.go: string and []byte as they are, anything else by way of JSON.
  function CoerceType(param: Value): (r: Result<Bytes>)
    ensures forall text :: param == Str(text) || param == Raw(text) ==> r == Success(text)
    ensures param == Nil ==> r == Success([0x6e, 0x75, 0x6c, 0x6c])
    ensures param.Object? || param.Error? ==>
              if param.json.Some? then r == Success(param.json.value) else r.Failure?
  {
    match param
    case Str(text) => Success(text)
    case Raw(bytes) => Success(bytes)
    case Nil => Success(JSON_NULL)
    case Object(_, json) => if json.Some? then Success(json.value) else Failure("marshaling input data to JSON failed")
    case Error(_, json) => if json.Some? then Success(json.value) else Failure("marshaling input data to JSON failed")
  }

  // The part of the context that identifies the event; it is also what a stored object keeps.
  datatype Ids = Ids(correlationID: string, eventID: string, eventChecksum: string)

  // `sets` is what the function puts into the context's RetryData; None leaves it alone.
  datatype Outcome = Outcome(continuing: bool, result: Value, sets: Option<Bytes>)

  // The context's RetryData after a call, when it held `before`.
  function AfterCall(before: Option<Bytes>, out: Outcome): Option<Bytes> {
    if out.sets.Some? then out.sets else before
  }

  // One call: at which position, on what, and with the content type when it gets one.
  datatype Call = Call(position: nat, input: Value, contentType: Option<string>)

  // A transform. `act` also depends on the moment of the call, so an export may fail now and
  // succeed later.
  datatype AppFunction = AppFunction(name: string, act: (nat, Ids, Value, Option<string>) -> Outcome)

  function Names(fns: seq<AppFunction>): (names: seq<string>)
    ensures |names| == |fns|
    ensures forall i :: 0 <= i < |fns| ==> names[i] == fns[i].name
  {
    seq(|fns|, i requires 0 <= i < |fns| => fns[i].name)
  }

  // One execution of the pipeline: the functions, the moment it starts, the event, the target, its
  // content type, and whether it is a retry.
  datatype Attempt = Attempt(fns: seq<AppFunction>, moment: nat, ids: Ids, target: Value, contentType: string,
                             isRetry: bool)

  // The call at position p is made at the attempt's moment + p.
  function OutcomeOf(a: Attempt, c: Call): Outcome
    requires c.position < |a.fns|
  {
    a.fns[c.position].act(a.moment + c.position, a.ids, c.input, c.contentType)
  }

  // A finished run: its calls in order, the error it returned, and what it handed to
  // storeForLaterRetry (payload and position).
  datatype Run = Run(calls: seq<Call>, error: Option<string>, handedOff: Option<(Bytes, nat)>)

  // A function that stops without an error ends the run quietly. `retryData` is the context's.
  function Stopped(a: Attempt, c: Call, result: Value, retryData: Option<Bytes>): Run {
    if result.Error? then
      var handedOff := if retryData.Some? && !a.isRetry then Some((retryData.value, c.position)) else None;
      Run([c], Some(result.message), handedOff)
    else Run([c], None, None)
  }

  function Extend(c: Call, rest: Run): Run {
    Run([c] + rest.calls, rest.error, rest.handedOff)
  }

  // The original target and its content type serve whenever no result is at hand: at the first
  // function that runs, but also after a function that continued with nil.
  function NextCall(a: Attempt, result: Value, i: nat): Call {
    if result == Nil then Call(i, a.target, Some(a.contentType)) else Call(i, result, None)
  }

  // The run from position i with `result` at hand, on a context whose RetryData is `held`. The loop
  // sets RetryData to nil before each call; `clears` says whether it does.
  function RunWith(a: Attempt, clears: bool, result: Value, held: Option<Bytes>, i: nat): Run
    decreases |a.fns| - i
  {
    if i >= |a.fns| then Run([], None, None)
    else
      var before := if clears then None else held;
      var c := NextCall(a, result, i);
      var out := OutcomeOf(a, c);
      var after := AfterCall(before, out);
      if out.continuing then Extend(c, RunWith(a, clears, out.result, after, i + 1))
      else Stopped(a, c, out.result, after)
  }

  function RunFrom(a: Attempt, result: Value, i: nat): Run {
    RunWith(a, true, result, None, i)
  }

  // What the context held before makes no difference to a loop that clears.
  lemma Forgets(a: Attempt, result: Value, held: Option<Bytes>, i: nat)
    ensures RunWith(a, true, result, held, i) == RunFrom(a, result, i)
  {
  }

  lemma RunStep(a: Attempt, result: Value, i: nat)
    requires i < |a.fns|
    ensures var c := NextCall(a, result, i);
            var out := OutcomeOf(a, c);
            RunFrom(a, result, i)
            == if out.continuing then Extend(c, RunFrom(a, out.result, i + 1)) else Stopped(a, c, out.result, out.sets)
  {
    var out := OutcomeOf(a, NextCall(a, result, i));
    Forgets(a, out.result, out.sets, i + 1);
  }

  // A message runs the pipeline from its first function.
  function Message(fns: seq<AppFunction>, moment: nat, ids: Ids, target: Value, contentType: string): Attempt {
    Attempt(fns, moment, ids, target, contentType, false)
  }

  function MessageRun(fns: seq<AppFunction>, moment: nat, ids: Ids, target: Value, contentType: string): Run {
    RunFrom(Message(fns, moment, ids, target, contentType), Nil, 0)
  }

  // A retry runs it on the stored payload from the stored position.
  function Retry(fns: seq<AppFunction>, moment: nat, ids: Ids, payload: Bytes): Attempt {
    Attempt(fns, moment, ids, Raw(payload), "", true)
  }

  function RetryRun(fns: seq<AppFunction>, moment: nat, ids: Ids, payload: Bytes, position: int): Run {
    RunFrom(Retry(fns, moment, ids, payload), Nil, if position < 0 then 0 else position)
  }

  // ---- what a run can hand off ----

  // A run from position i calls consecutive positions; all calls but the last continued; and it
  // hands something off exactly when it is no retry and its last call stopped with an error and itself
  // set retry data, which is then handed off with that call's position.
  ghost predicate Shaped(a: Attempt, i: nat, r: Run) {
    var n := |r.calls|;
    && (n == 0 <==> i >= |a.fns|)
    && (n == 0 ==> r == Run([], None, None))
    && (forall k :: 0 <= k < n ==> r.calls[k].position == i + k < |a.fns|)
    && (forall k :: 0 <= k < n - 1 ==> OutcomeOf(a, r.calls[k]).continuing)
    && (n > 0 ==> EndsWith(a, OutcomeOf(a, r.calls[n - 1]), r.calls[n - 1].position, r))
  }

  predicate EndsWith(a: Attempt, last: Outcome, p: nat, r: Run) {
    && (last.continuing ==> p + 1 == |a.fns|)
    && r.error == (if !last.continuing && last.result.Error? then Some(last.result.message) else None)
    && r.handedOff == if r.error.Some? && last.sets.Some? && !a.isRetry then Some((last.sets.value, p)) else None
  }

  lemma ExtendShaped(a: Attempt, c: Call, r: Run)
    requires c.position < |a.fns| && OutcomeOf(a, c).continuing
    requires Shaped(a, c.position + 1, r)
    ensures Shaped(a, c.position, Extend(c, r))
  {
  }

  lemma {:induction false} RunShape(a: Attempt, result: Value, i: nat)
    ensures Shaped(a, i, RunFrom(a, result, i))
    decreases |a.fns| - i
  {
    if i < |a.fns| {
      var c := NextCall(a, result, i);
      var out := OutcomeOf(a, c);
      RunStep(a, result, i);
      if out.continuing {
        RunShape(a, out.result, i + 1);
        ExtendShaped(a, c, RunFrom(a, out.result, i + 1));
      }
    }
  }

  // At most one payload per message, none on a retry; and a payload handed off was set by the very
  // call at its position, which returned an error after every earlier function continued.
  lemma HandOffProvenance(fns: seq<AppFunction>, moment: nat, ids: Ids, target: Value, contentType: string)
    ensures var a := Message(fns, moment, ids, target, contentType);
            var r := MessageRun(fns, moment, ids, target, contentType);
            r.handedOff.Some? ==>
              var (payload, p) := r.handedOff.value;
              && |r.calls| == p + 1 <= |fns|
              && r.error.Some?
              && (forall k :: 0 <= k < p ==> r.calls[k].position == k && OutcomeOf(a, r.calls[k]).continuing)
              && r.calls[p].position == p
              && var out := OutcomeOf(a, r.calls[p]);
              !out.continuing && out.result.Error? && out.sets == Some(payload)
    ensures forall payload, position :: RetryRun(fns, moment, ids, payload, position).handedOff == None
  {
    RunShape(Message(fns, moment, ids, target, contentType), Nil, 0);
    forall payload, position ensures RetryRun(fns, moment, ids, payload, position).handedOff == None {
      RunShape(Retry(fns, moment, ids, payload), Nil, if position < 0 then 0 else position);
    }
  }

  // ---- a run read off its calls ----

  // What the function at the call's position answers when it is called at the attempt's moment for that
  // position, with the attempt's identifiers, on the call's input and content type.
  function Answer(a: Attempt, c: Call): Outcome
    requires c.position < |a.fns|
  {
    a.fns[c.position].act(a.moment + c.position, a.ids, c.input, c.contentType)
  }

  // The call is on exactly the value at hand and without a content type, or, when that is nil, on the target
  // with the content type.
  predicate FedWith(a: Attempt, atHand: Value, c: Call) {
    if atHand == Nil then c.input == a.target && c.contentType == Some(a.contentType)
    else c.input == atHand && c.contentType == None
  }

  // From position i with `result` at hand: one function after the other is called, each on what the one
  // before returned, as long as they continue; the error is that of a last call that stopped with one, and a
  // message hands off what that call set, under its position.
  ghost predicate IsTrace(a: Attempt, result: Value, i: nat, r: Run) {
    var n := |r.calls|;
    && (forall k :: 0 <= k < n ==> r.calls[k].position == i + k < |a.fns|)
    && (n == 0 <==> i >= |a.fns|)
    && (n > 0 ==> FedWith(a, result, r.calls[0]))
    && (forall k :: 0 < k < n ==> FedWith(a, Answer(a, r.calls[k - 1]).result, r.calls[k]))
    && (forall k :: 0 <= k < n - 1 ==> Answer(a, r.calls[k]).continuing)
    && (n == 0 ==> r.error == None && r.handedOff == None)
    && (n > 0 ==> EndsLike(a, Answer(a, r.calls[n - 1]), r.calls[n - 1].position, r))
  }

  predicate EndsLike(a: Attempt, last: Outcome, p: nat, r: Run) {
    && (last.continuing ==> p + 1 == |a.fns| && r.error == None)
    && (!last.continuing && last.result.Error? ==> r.error == Some(last.result.message))
    && (!last.continuing && !last.result.Error? ==> r.error == None)
    && (r.handedOff.Some? <==> !a.isRetry && !last.continuing && last.result.Error? && last.sets.Some?)
    && (r.handedOff.Some? ==> r.handedOff.value == (last.sets.value, p))
  }

  lemma ExtendTrace(a: Attempt, result: Value, c: Call, r: Run)
    requires c.position < |a.fns| && FedWith(a, result, c) && Answer(a, c).continuing
    requires IsTrace(a, Answer(a, c).result, c.position + 1, r)
    ensures IsTrace(a, result, c.position, Extend(c, r))
  {
    var calls := Extend(c, r).calls;
    assert forall k :: 0 < k < |calls| ==> calls[k] == r.calls[k - 1];
  }

  lemma {:induction false} RunIsTrace(a: Attempt, result: Value, i: nat)
    ensures IsTrace(a, result, i, RunFrom(a, result, i))
    decreases |a.fns| - i
  {
    if i < |a.fns| {
      var c := NextCall(a, result, i);
      RunStep(a, result, i);
      if Answer(a, c).continuing {
        RunIsTrace(a, Answer(a, c).result, i + 1);
        ExtendTrace(a, result, c, RunFrom(a, Answer(a, c).result, i + 1));
      }
    }
  }

  // A trace is the only one: the first call is given, and each call gives the next.
  lemma {:induction false} TraceIsUnique(a: Attempt, result: Value, i: nat, r: Run, r': Run, k: nat)
    requires IsTrace(a, result, i, r) && IsTrace(a, result, i, r') && k < |r.calls|
    ensures k < |r'.calls| && r'.calls[k] == r.calls[k]
  {
    if k > 0 { TraceIsUnique(a, result, i, r, r', k - 1); }
  }

  // A run is a trace, and nothing else is.
  lemma RunsExactly(a: Attempt, result: Value, i: nat, r: Run)
    ensures IsTrace(a, result, i, r) <==> r == RunFrom(a, result, i)
  {
    var run := RunFrom(a, result, i);
    RunIsTrace(a, result, i);
    if IsTrace(a, result, i, r) {
      forall k | 0 <= k < |r.calls| ensures k < |run.calls| && run.calls[k] == r.calls[k] {
        TraceIsUnique(a, result, i, r, run, k);
      }
      forall k | 0 <= k < |run.calls| ensures k < |r.calls| && r.calls[k] == run.calls[k] {
        TraceIsUnique(a, result, i, run, r, k);
      }
      assert r.calls == run.calls;
    }
  }

  // So this is what a run is, for a message from the first function and for a retry from its position, a
  // negative one standing for the first.
  lemma RunsAreTraces(fns: seq<AppFunction>, moment: nat, ids: Ids, target: Value, contentType: string, payload: Bytes,
                      position: int)
    ensures IsTrace(Attempt(fns, moment, ids, target, contentType, false), Nil, 0,
                    MessageRun(fns, moment, ids, target, contentType))
    ensures IsTrace(Attempt(fns, moment, ids, Raw(payload), "", true), Nil, if position < 0 then 0 else position,
                    RetryRun(fns, moment, ids, payload, position))
  {
    RunIsTrace(Message(fns, moment, ids, target, contentType), Nil, 0);
    RunIsTrace(Retry(fns, moment, ids, payload), Nil, if position < 0 then 0 else position);
  }

  // What a run leaves in the context's RetryData.
  function LeftIn(a: Attempt, result: Value, held: Option<Bytes>, i: nat): Option<Bytes>
    decreases |a.fns| - i
  {
    if i >= |a.fns| then held
    else
      var out := OutcomeOf(a, NextCall(a, result, i));
      if out.continuing then LeftIn(a, out.result, out.sets, i + 1) else out.sets
  }

  // It is what the last call set, or nothing if that set nothing; without a call it is what was there.
  lemma {:induction false} LeftInExactly(a: Attempt, result: Value, held: Option<Bytes>, i: nat)
    ensures var calls := RunFrom(a, result, i).calls;
            && (calls == [] ==> LeftIn(a, result, held, i) == held)
            && (calls != [] ==>
                  var last := calls[|calls| - 1];
                  last.position < |a.fns| && LeftIn(a, result, held, i) == Answer(a, last).sets)
    decreases |a.fns| - i
  {
    if i < |a.fns| {
      var c := NextCall(a, result, i);
      var out := OutcomeOf(a, c);
      RunStep(a, result, i);
      if out.continuing { LeftInExactly(a, out.result, out.sets, i + 1); }
    }
  }

  // ---- what clearing RetryData is for ----

  // A message run by a loop that does not clear.
  function UnclearedRun(fns: seq<AppFunction>, moment: nat, ids: Ids, target: Value, contentType: string): Run {
    RunWith(Message(fns, moment, ids, target, contentType), false, Nil, None, 0)
  }

  ghost predicate InRange(a: Attempt, calls: seq<Call>) {
    forall j :: 0 <= j < |calls| ==> calls[j].position < |a.fns|
  }

  // What a context that held `held` holds after these calls if it is never cleared.
  ghost function LastSet(a: Attempt, calls: seq<Call>, held: Option<Bytes>): Option<Bytes>
    requires InRange(a, calls)
    decreases |calls|
  {
    if calls == [] then held else LastSet(a, calls[1..], AfterCall(held, OutcomeOf(a, calls[0])))
  }

  // The j-th call set `data`, and no later one set anything.
  ghost predicate SetLastAt(a: Attempt, calls: seq<Call>, j: nat, data: Option<Bytes>)
    requires InRange(a, calls)
  {
    && j < |calls| && data.Some? && OutcomeOf(a, calls[j]).sets == data
    && forall k :: j < k < |calls| ==> OutcomeOf(a, calls[k]).sets.None?
  }

  ghost predicate NoneSet(a: Attempt, calls: seq<Call>)
    requires InRange(a, calls)
  {
    forall j :: 0 <= j < |calls| ==> OutcomeOf(a, calls[j]).sets.None?
  }

  lemma {:induction false} LastSetWasSet(a: Attempt, calls: seq<Call>, held: Option<Bytes>)
    requires InRange(a, calls)
    ensures if NoneSet(a, calls) then LastSet(a, calls, held) == held
            else exists j: nat :: SetLastAt(a, calls, j, LastSet(a, calls, held))
    decreases |calls|
  {
    if calls != [] {
      var rest, sets := calls[1..], OutcomeOf(a, calls[0]).sets;
      LastSetWasSet(a, rest, AfterCall(held, OutcomeOf(a, calls[0])));
      assert forall k :: 0 < k < |calls| ==> calls[k] == rest[k - 1];
      if NoneSet(a, rest) {
        assert sets.Some? ==> SetLastAt(a, calls, 0, LastSet(a, calls, held));
      } else {
        var last := LastSet(a, rest, AfterCall(held, OutcomeOf(a, calls[0])));
        var j: nat :| SetLastAt(a, rest, j, last);
        assert j < |rest| && SetLastAt(a, calls, j + 1, last) && LastSet(a, calls, held) == last;
      }
    }
  }

  ghost predicate Uncleared(a: Attempt, held: Option<Bytes>, r: Run, u: Run) {
    && InRange(a, r.calls) && u.calls == r.calls && u.error == r.error
    && (r.error.Some? ==> r.calls != [])
    && u.handedOff ==
       if r.error.Some? && !a.isRetry && LastSet(a, r.calls, held).Some? then
         Some((LastSet(a, r.calls, held).value, r.calls[|r.calls| - 1].position))
       else None
  }

  // Without clearing a run makes the same calls and fails alike, but hands off what was set last.
  lemma {:induction false} UnclearedShape(a: Attempt, result: Value, held: Option<Bytes>, i: nat)
    ensures Uncleared(a, held, RunFrom(a, result, i), RunWith(a, false, result, held, i))
    decreases |a.fns| - i
  {
    if i < |a.fns| {
      var c := NextCall(a, result, i);
      var out := OutcomeOf(a, c);
      var after := AfterCall(held, out);
      RunStep(a, result, i);
      if out.continuing {
        UnclearedShape(a, out.result, after, i + 1);
        ExtendUncleared(a, held, c, RunFrom(a, out.result, i + 1), RunWith(a, false, out.result, after, i + 1));
      } else {
        assert [c][1..] == [];
      }
    }
  }

  lemma ExtendUncleared(a: Attempt, held: Option<Bytes>, c: Call, r: Run, u: Run)
    requires c.position < |a.fns| && Uncleared(a, AfterCall(held, OutcomeOf(a, c)), r, u)
    ensures Uncleared(a, held, Extend(c, r), Extend(c, u))
  {
    assert ([c] + r.calls)[1..] == r.calls;
  }

  // Clearing matters to r, of which u is the uncleared variant: r failed at a function that set nothing
  // after an earlier one had.
  ghost predicate FailsAfterSet(a: Attempt, r: Run)
    requires InRange(a, r.calls) && (r.error.Some? ==> r.calls != [])
  {
    r.error.Some? && OutcomeOf(a, r.calls[|r.calls| - 1]).sets.None? && !NoneSet(a, r.calls)
  }

  // Under the position of its last call u stores what an earlier call set.
  ghost predicate Misattributes(a: Attempt, r: Run, u: Run)
    requires InRange(a, r.calls)
  {
    && r.handedOff == None && u.handedOff.Some? && r.calls != []
    && u.handedOff.value.1 == r.calls[|r.calls| - 1].position
    && exists j: nat :: j < |r.calls| - 1 && SetLastAt(a, r.calls, j, Some(u.handedOff.value.0))
  }

  lemma UnclearedDiffers(a: Attempt, r: Run, u: Run)
    requires Uncleared(a, None, r, u) && Shaped(a, 0, r) && !a.isRetry
    ensures u.handedOff != r.handedOff <==> FailsAfterSet(a, r)
    ensures u.handedOff != r.handedOff ==> Misattributes(a, r, u)
  {
    LastSetWasSet(a, r.calls, None);
    if !NoneSet(a, r.calls) {
      var j: nat :| SetLastAt(a, r.calls, j, LastSet(a, r.calls, None));
      assert OutcomeOf(a, r.calls[|r.calls| - 1]).sets.None? ==> j < |r.calls| - 1;
    }
  }

  // Clearing makes a difference exactly when the message fails at a function that set nothing after an
  // earlier one had. Uncleared, the payload of the earlier function would be stored under the position of
  // the later one.
  lemma ClearingMatters(fns: seq<AppFunction>, moment: nat, ids: Ids, target: Value, contentType: string)
    ensures var a := Message(fns, moment, ids, target, contentType);
            var r := MessageRun(fns, moment, ids, target, contentType);
            var u := UnclearedRun(fns, moment, ids, target, contentType);
            && InRange(a, r.calls) && (r.error.Some? ==> r.calls != [])
            && (u.handedOff != r.handedOff <==> FailsAfterSet(a, r))
            && (u.handedOff != r.handedOff ==> Misattributes(a, r, u))
  {
    var a := Message(fns, moment, ids, target, contentType);
    RunShape(a, Nil, 0);
    UnclearedShape(a, Nil, None, 0);
    UnclearedDiffers(a, RunFrom(a, Nil, 0), RunWith(a, false, Nil, None, 0));
  }

  // An exporter that persists on error but succeeds in part, before one that does not persist.
  lemma UnclearedStoresEarlierPayload()
    ensures exists fns, ids, target, payload: Bytes ::
              && UnclearedRun(fns, 0, ids, target, "").handedOff == Some((payload, 1))
              && MessageRun(fns, 0, ids, target, "").handedOff == None
              && OutcomeOf(Message(fns, 0, ids, target, ""), Call(0, target, Some(""))).sets == Some(payload)
  {
    var first := AppFunction("first", (m, ids, v, c) => Outcome(true, Raw([2]), Some([1])));
    var second := AppFunction("second", (m, ids, v, c) => Outcome(false, Error("down", None), None));
    var fns, ids := [first, second], Ids("", "", "");
    var a := Message(fns, 0, ids, Nil, "");
    assert RunWith(a, false, Raw([2]), Some([1]), 1).handedOff == Some(([1], 1));
    assert UnclearedRun(fns, 0, ids, Nil, "").handedOff == Some(([1], 1));
    assert RunFrom(a, Raw([2]), 1).handedOff == None;
    RunStep(a, Nil, 0);
  }

  // A retry at a position inside the pipeline calls the function there first, on the payload; at
  // any later position it calls nothing and reports no error.
  lemma RetryCallsItsFunction(fns: seq<AppFunction>, moment: nat, ids: Ids, payload: Bytes, position: nat)
    ensures var r := RetryRun(fns, moment, ids, payload, position);
            if position < |fns| then r.calls != [] && r.calls[0] == Call(position, Raw(payload), Some(""))
            else r == Run([], None, None)
  {
    if position < |fns| { RunStep(Retry(fns, moment, ids, payload), Nil, position); }
  }

  // ---- resuming ----

  ghost predicate SameAnswer(f: AppFunction, ids: Ids, m: nat, v: Value, c: Option<string>, v': Value,
                             c': Option<string>) {
    f.act(m, ids, v, c) == f.act(m, ids, v', c')
  }

  // From position k on: equal outcomes on inputs that coerce to the same bytes, whatever the
  // content type.
  ghost predicate CoercesInput(fns: seq<AppFunction>, k: nat) {
    forall j, ids, m: nat, v, v', c, c' ::
      k <= j < |fns| && CoerceType(v) == CoerceType(v') ==> SameAnswer(fns[j], ids, m, v, c, v', c')
  }

  // No function that was followed by another one continued with nil.
  ghost predicate NoNil(a: Attempt, calls: seq<Call>) {
    forall j :: 0 <= j < |calls| - 1 && calls[j].position < |a.fns| ==> OutcomeOf(a, calls[j]).result != Nil
  }

  ghost predicate SameCalls(a: seq<Call>, b: seq<Call>) {
    && |a| == |b|
    && forall i :: 0 <= i < |a| ==> a[i].position == b[i].position && CoerceType(a[i].input) == CoerceType(b[i].input)
  }

  ghost predicate SameRun(r: Run, r': Run) {
    SameCalls(r.calls, r'.calls) && r.error == r'.error
  }

  // Two runs are the same exactly when `alike` holds or no function in the second one, but its last,
  // continued with nil.
  ghost predicate SameIff(alike: bool, r: Run, b: Attempt, r': Run) {
    SameRun(r, r') <==> alike || NoNil(b, r'.calls)
  }

  lemma ExtendAlike(alike: bool, c: Call, r: Run, b: Attempt, c': Call, r': Run)
    requires c.position == c'.position < |b.fns| && CoerceType(c.input) == CoerceType(c'.input)
    requires
      || (r.calls == r'.calls == [] && r.error == r'.error)
      || ((alike || OutcomeOf(b, c').result != Nil) && SameIff(alike, r, b, r'))
      || (!alike && OutcomeOf(b, c').result == Nil && r'.calls != [] && !SameRun(r, r'))
    ensures SameIff(alike, Extend(c, r), b, Extend(c', r'))
  {
    var x, y := [c] + r.calls, [c'] + r'.calls;
    assert x[1..] == r.calls && y[1..] == r'.calls && y[0] == c';
    if SameRun(Extend(c, r), Extend(c', r')) {
      forall i | 0 <= i < |r.calls|
        ensures r.calls[i].position == r'.calls[i].position
        ensures CoerceType(r.calls[i].input) == CoerceType(r'.calls[i].input) {
        assert x[i + 1] == r.calls[i] && y[i + 1] == r'.calls[i];
      }
    }
    if NoNil(b, y) {
      forall j | 0 <= j < |r'.calls| - 1 && r'.calls[j].position < |b.fns|
        ensures OutcomeOf(b, r'.calls[j]).result != Nil {
        assert y[j + 1] == r'.calls[j];
      }
    }
  }

  lemma StopAlike(alike: bool, a: Attempt, c: Call, b: Attempt, c': Call, out: Outcome)
    requires c.position == c'.position < |b.fns| && CoerceType(c.input) == CoerceType(c'.input)
    ensures SameIff(alike, Stopped(a, c, out.result, out.sets), b, Stopped(b, c', out.result, out.sets))
  {
  }

  // Two attempts of the same functions at the same moment for the same event.
  ghost predicate Companions(a: Attempt, b: Attempt) {
    a.fns == b.fns && a.moment == b.moment && a.ids == b.ids
  }

  lemma AnswersAlike(a: Attempt, c: Call, b: Attempt, c': Call)
    requires Companions(a, b) && c.position == c'.position < |a.fns|
    requires CoercesInput(a.fns, c.position) && CoerceType(c.input) == CoerceType(c'.input)
    ensures OutcomeOf(a, c) == OutcomeOf(b, c')
  {
    assert SameAnswer(a.fns[c.position], a.ids, a.moment + c.position, c.input, c.contentType, c'.input,
                      c'.contentType);
  }

  ghost predicate AlikeFrom(a: Attempt, result: Value, b: Attempt, result': Value, i: nat) {
    SameIff(CoerceType(a.target) == CoerceType(b.target), RunFrom(a, result, i), b, RunFrom(b, result', i))
  }

  // Two companions run on from position i with inputs that coerce alike: they make the same calls,
  // up to coercion, and end alike exactly when the targets coerce alike too or no function in
  // between continued with nil.
  lemma {:induction false} RunsAlike(a: Attempt, result: Value, b: Attempt, result': Value, i: nat)
    requires Companions(a, b) && CoercesInput(a.fns, i)
    requires CoerceType(NextCall(a, result, i).input) == CoerceType(NextCall(b, result', i).input)
    ensures AlikeFrom(a, result, b, result', i)
    decreases |a.fns| - i, 0
  {
    if i < |a.fns| {
      var c, c' := NextCall(a, result, i), NextCall(b, result', i);
      var out := OutcomeOf(b, c');
      AnswersAlike(a, c, b, c');
      RunStep(a, result, i);
      RunStep(b, result', i);
      if out.continuing {
        LaterAlike(a, b, out.result, i + 1);
        AlikeOneEarlier(a, result, b, result', i, out);
      } else {
        StopAlike(CoerceType(a.target) == CoerceType(b.target), a, c, b, c', out);
      }
    }
  }

  ghost predicate AlikeAfter(a: Attempt, b: Attempt, r: Value, i: nat) {
    var alike, x, y := CoerceType(a.target) == CoerceType(b.target), RunFrom(a, r, i), RunFrom(b, r, i);
    || (x.calls == y.calls == [] && x.error == y.error)
    || ((alike || r != Nil) && SameIff(alike, x, b, y))
    || (!alike && r == Nil && y.calls != [] && !SameRun(x, y))
  }

  lemma AlikeOneEarlier(a: Attempt, result: Value, b: Attempt, result': Value, i: nat, out: Outcome)
    requires Companions(a, b) && i < |a.fns|
    requires CoerceType(NextCall(a, result, i).input) == CoerceType(NextCall(b, result', i).input)
    requires out == OutcomeOf(a, NextCall(a, result, i)) == OutcomeOf(b, NextCall(b, result', i)) && out.continuing
    requires AlikeAfter(a, b, out.result, i + 1)
    ensures AlikeFrom(a, result, b, result', i)
  {
    RunStep(a, result, i);
    RunStep(b, result', i);
    ExtendAlike(CoerceType(a.target) == CoerceType(b.target), NextCall(a, result, i), RunFrom(a, out.result, i + 1),
                b, NextCall(b, result', i), RunFrom(b, out.result, i + 1));
  }

  // The rest of two such runs after a call that continued with `r` in both.
  lemma LaterAlike(a: Attempt, b: Attempt, r: Value, i: nat)
    requires i <= |a.fns| && Companions(a, b) && CoercesInput(a.fns, i)
    ensures AlikeAfter(a, b, r, i)
    decreases |a.fns| - i, 1
  {
    if i < |a.fns| {
      if CoerceType(a.target) == CoerceType(b.target) || r != Nil {
        RunsAlike(a, r, b, r, i);
      } else {
        FirstCall(a, r, i);
        FirstCall(b, r, i);
      }
    }
  }

  lemma FirstCall(a: Attempt, result: Value, i: nat)
    requires i < |a.fns|
    ensures var calls := RunFrom(a, result, i).calls; calls != [] && calls[0] == NextCall(a, result, i)
  {
    RunStep(a, result, i);
  }

  ghost predicate AlikeAt(f: AppFunction, i: nat, t: nat, t': nat, ids: Ids, v: Value, c: Option<string>) {
    f.act(t + i, ids, v, c) == f.act(t' + i, ids, v, c)
  }

  // Up to position k, functions behave alike in runs that start at the two moments.
  ghost predicate AlikeBefore(fns: seq<AppFunction>, k: nat, t: nat, t': nat) {
    forall i: nat, ids, v, c :: i < k && i < |fns| ==> AlikeAt(fns[i], i, t, t', ids, v, c)
  }

  ghost predicate Continues(whole: Run, prefix: seq<Call>, rest: Run) {
    whole == Run(prefix + rest.calls, rest.error, rest.handedOff)
  }

  // The run from position i makes the calls of `prefix` and then is the run from k with `atHand`.
  ghost predicate Reaches(a: Attempt, result: Value, i: nat, prefix: seq<Call>, atHand: Value, k: nat) {
    Continues(RunFrom(a, result, i), prefix, RunFrom(a, atHand, k))
  }

  lemma ReachesOneEarlier(a: Attempt, result: Value, i: nat, out: Outcome, later: seq<Call>, atHand: Value, k: nat)
    requires i < |a.fns| && out == OutcomeOf(a, NextCall(a, result, i)) && out.continuing
    requires Reaches(a, out.result, i + 1, later, atHand, k)
    ensures Reaches(a, result, i, [NextCall(a, result, i)] + later, atHand, k)
  {
    var c, rest := NextCall(a, result, i), RunFrom(a, atHand, k);
    RunStep(a, result, i);
    assert [c] + (later + rest.calls) == [c] + later + rest.calls;
  }

  lemma GoesOn(a: Attempt, result: Value, i: nat)
    requires i < |a.fns| && |RunFrom(a, result, i).calls| > 1
    ensures var out := OutcomeOf(a, NextCall(a, result, i));
            out.continuing && |RunFrom(a, out.result, i + 1).calls| == |RunFrom(a, result, i).calls| - 1
  {
    RunStep(a, result, i);
  }

  // A run that reaches position k reaches it with the same calls and the same result at hand when
  // it starts at a moment at which the functions before k behave alike.
  lemma {:induction false} ReachesAlike(a: Attempt, t': nat, result: Value, i: nat, k: nat)
    returns (prefix: seq<Call>, atHand: Value)
    requires i <= k < |a.fns| && AlikeBefore(a.fns, k, a.moment, t')
    requires |RunFrom(a, result, i).calls| > k - i
    ensures |prefix| == k - i
    ensures Reaches(a, result, i, prefix, atHand, k) && Reaches(a.(moment := t'), result, i, prefix, atHand, k)
    decreases k - i
  {
    if i == k {
      prefix, atHand := [], result;
    } else {
      var c, b := NextCall(a, result, i), a.(moment := t');
      var out := OutcomeOf(a, c);
      GoesOn(a, result, i);
      assert AlikeAt(a.fns[i], i, a.moment, t', a.ids, c.input, c.contentType);
      var later;
      later, atHand := ReachesAlike(a, t', out.result, i + 1, k);
      prefix := [c] + later;
      ReachesOneEarlier(a, result, i, out, later, atHand, k);
      ReachesOneEarlier(b, result, i, out, later, atHand, k);
    }
  }

  // A message fails at position k at moment t, handing off its coerced input. A first run of the
  // same message at a later moment t' starts with the same calls up to k; and resuming from k at t'
  // makes the same calls from there, up to coercion, and ends alike, exactly when the message itself
  // coerces to the payload or no function resumed over (but the last) continued with nil.
  lemma ResumeEquivalence(fns: seq<AppFunction>, t: nat, t': nat, ids: Ids, target: Value, contentType: string)
    requires var failed := MessageRun(fns, t, ids, target, contentType);
             && failed.handedOff.Some?
             && var (payload, k) := failed.handedOff.value;
             && |failed.calls| > k
             && CoerceType(failed.calls[k].input) == Success(payload)
             && AlikeBefore(fns, k, t, t')
             && CoercesInput(fns, k)
    ensures var failed := MessageRun(fns, t, ids, target, contentType);
            var (payload, k) := failed.handedOff.value;
            var first := MessageRun(fns, t', ids, target, contentType);
            var resumed := RetryRun(fns, t', ids, payload, k);
            && |first.calls| > k
            && first.calls[..k + 1] == failed.calls
            && (SameCalls(first.calls[k..], resumed.calls) && first.error == resumed.error <==>
                CoerceType(target) == Success(payload) || NoNil(Retry(fns, t', ids, payload), resumed.calls))
  {
    var a := Message(fns, t, ids, target, contentType);
    var b := a.(moment := t');
    var failed := RunFrom(a, Nil, 0);
    var (payload, k) := failed.handedOff.value;
    HandOffProvenance(fns, t, ids, target, contentType);
    var prefix, atHand := ReachesAlike(a, t', Nil, 0, k);
    FirstCall(a, atHand, k);
    FirstCall(b, atHand, k);
    RunsAlike(b, atHand, Retry(fns, t', ids, payload), Nil, k);
    ResumeSplit(failed, RunFrom(b, Nil, 0), prefix, NextCall(a, atHand, k), RunFrom(a, atHand, k),
                RunFrom(b, atHand, k));
  }

  lemma ResumeSplit(failed: Run, first: Run, prefix: seq<Call>, c: Call, x: Run, y: Run)
    requires Continues(failed, prefix, x) && Continues(first, prefix, y)
    requires |failed.calls| == |prefix| + 1 && x.calls != [] && x.calls[0] == c && y.calls != [] && y.calls[0] == c
    ensures |first.calls| > |prefix| && failed.calls[|prefix|] == c
    ensures first.calls[..|prefix| + 1] == failed.calls && first.calls[|prefix|..] == y.calls && first.error == y.error
  {
    assert x.calls == [c];
  }

  // An MQTT sender answers nil on success, so a second exporter behind it is given the message
  // itself. Resuming at the MQTT sender gives the second exporter the stored payload instead, and
  // the retry fails where a first run succeeds.
  lemma NilResultBreaksResume()
    ensures exists fns, t: nat, t': nat, ids, target, contentType ::
              var failed := MessageRun(fns, t, ids, target, contentType);
              && failed.handedOff.Some?
              && MessageRun(fns, t', ids, target, contentType).error == None
              && RetryRun(fns, t', ids, failed.handedOff.value.0, failed.handedOff.value.1).error.Some?
  {
    var convert := AppFunction("convert", (m, ids, v, c) => Outcome(true, Raw([2]), None));
    var done, down := Outcome(true, Nil, None), Outcome(false, Error("down", None), Some([2]));
    var rejected := Outcome(false, Error("rejected", None), None);
    var mqtt := AppFunction("mqtt", (m, ids, v, c) => if m < 10 then down else done);
    var post := AppFunction("post", (m, ids, v, c) => if v == Raw([1]) then done else rejected);
    var fns, ids := [convert, mqtt, post], Ids("", "", "");
    var early, late := Message(fns, 0, ids, Raw([1]), ""), Message(fns, 10, ids, Raw([1]), "");
    var retry := Retry(fns, 10, ids, [2]);
    RunStep(early, Nil, 0);
    RunStep(early, Raw([2]), 1);
    RunStep(late, Nil, 0);
    RunStep(late, Raw([2]), 1);
    RunStep(late, Nil, 2);
    RunStep(retry, Nil, 1);
    RunStep(retry, Nil, 2);
    assert MessageRun(fns, 0, ids, Raw([1]), "").handedOff == Some(([2], 1));
    assert MessageRun(fns, 10, ids, Raw([1]), "").error == None;
    assert RetryRun(fns, 10, ids, [2], 1).error == Some("rejected");
  }
}
