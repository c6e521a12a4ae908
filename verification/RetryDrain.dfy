// How long an object stays, over whole runs: no longer than the maximum number of passes, whatever is stored
// beside it meanwhile.

module RetryDrain {
  import opened Wrappers
  import opened Contracts
  import opened Pipeline
  import opened StoreForward
  import opened StoreForwardRuns
  import opened RetryBounds
  import opened RetryAttempts
  import RedisStore

  // The passes that begin.
  function Passes(steps: seq<Step>): nat {
    if steps == [] then 0 else (if steps[0].Retrieve? then 1 else 0) + Passes(steps[1..])
  }

  // No write is lost, and no pass broken off.
  predicate Flawless(s: State, step: Step) {
    match step
    case RemoveNext(ok) => ok
    case UpdateNext(ok) => ok
    case Restart => Idle(s)
    case _ => true
  }

  ghost predicate FlawlessThroughout(s: State, steps: seq<Step>)
    requires LegalRun(s, steps)
    decreases |steps|
  {
    steps != [] ==> Flawless(s, steps[0]) && FlawlessThroughout(Apply(s, steps[0]), steps[1..])
  }

  ghost predicate Handled(s: State, id: string) {
    Among(s.todo, id) || Among(s.updates, id) || Among(s.removes, id)
  }

  // While the object is stored, its count has reached the passes begun, but for the one that has it in hand.
  ghost predicate KeepsUp(s: State, id: string, passes: nat) {
    && id in s.ledger.accepted
    && (id in s.store ==> s.store[id].retryCount + (if Handled(s, id) then 1 else 0) >= passes)
  }

  lemma RetrieveKeepsUp(s: State, items: seq<StoredObject>, id: string, passes: nat)
    requires Inv(s) && KeepsUp(s, id, passes) && Legal(s, Retrieve(items))
    ensures KeepsUp(Apply(s, Retrieve(items)), id, passes + 1)
  {
    if id in s.store {
      assert s.store[id].appServiceKey == s.serviceKey;
      assert Among(items, id);
    }
  }

  lemma DecideKeepsUp(s: State, verdict: Verdict, delivery: Option<Delivery>, id: string, passes: nat)
    requires KeepsUp(s, id, passes) && s.todo != []
    ensures KeepsUp(Decide(s, verdict, delivery), id, passes)
  {
    AmongTail(s.todo, id);
    AmongAppend(s.removes, Listed(s.todo[0], verdict), id);
    AmongAppend(s.updates, Listed(s.todo[0], verdict), id);
  }

  lemma RemoveKeepsUp(s: State, id: string, passes: nat)
    requires KeepsUp(s, id, passes) && s.removes != []
    ensures KeepsUp(RemoveFirst(s, true), id, passes)
  {
    AmongTail(s.removes, id);
  }

  lemma UpdateKeepsUp(s: State, id: string, passes: nat)
    requires Orderly(s) && Counted(s) && KeepsUp(s, id, passes) && s.updates != []
    ensures KeepsUp(UpdateFirst(s, true), id, passes)
  {
    AmongTail(s.updates, id);
  }

  lemma ProcessKeepsUp(s: State, step: Step, id: string, passes: nat)
    requires Inv(s) && step.Process? && Legal(s, step) && KeepsUp(s, id, passes)
    ensures KeepsUp(Apply(s, step), id, passes)
  {
    if Added(s, step).Some? { AddedIsValid(s, step); }
  }

  lemma RetryKeepsUp(s: State, moment: nat, id: string, passes: nat)
    requires s.todo != [] && KeepsUp(s, id, passes)
    ensures KeepsUp(Apply(s, RetryNext(moment)), id, passes)
  {
    var item := s.todo[0];
    DecideKeepsUp(s, Judge(item, s.fns, s.maxRetry, moment), FirstDelivery(item, s.fns, moment), id, passes);
  }

  lemma OthersKeepUp(s: State, store: Objects, keys: RedisStore.Keyspace, id: string, passes: nat)
    requires Inv(s) && Legal(s, Others(store, keys)) && KeepsUp(s, id, passes)
    ensures KeepsUp(s.(store := store), id, passes)
  {
    OthersSpare(s, store, keys, id);
  }

  lemma WriteKeepsUp(s: State, step: Step, id: string, passes: nat)
    requires Orderly(s) && Counted(s) && (step.RemoveNext? || step.UpdateNext?)
    requires Legal(s, step) && Flawless(s, step) && KeepsUp(s, id, passes)
    ensures KeepsUp(Apply(s, step), id, passes)
  {
    if step.RemoveNext? { RemoveKeepsUp(s, id, passes); } else { UpdateKeepsUp(s, id, passes); }
  }

  lemma StepKeepsUp(s: State, step: Step, m: int, id: string, passes: nat)
    requires Sound(s, m) && Legal(s, step) && Flawless(s, step) && KeepsUp(s, id, passes)
    ensures KeepsUp(Apply(s, step), id, passes + if step.Retrieve? then 1 else 0)
  {
    match step
    case Process(_, _, _, _, _, _, _) => ProcessKeepsUp(s, step, id, passes);
    case Retrieve(items) => RetrieveKeepsUp(s, items, id, passes);
    case RetryNext(moment) => RetryKeepsUp(s, moment, id, passes);
    case RemoveNext(_) => WriteKeepsUp(s, step, id, passes);
    case UpdateNext(_) => WriteKeepsUp(s, step, id, passes);
    case Others(store, keys) => OthersKeepUp(s, store, keys, id, passes);
    case _ =>
  }

  lemma GoneInTime(s: State, m: int, id: string, passes: nat)
    requires Bounded(s, m) && m != 0 && Idle(s) && KeepsUp(s, id, passes) && passes >= Limit(m)
    ensures id !in s.store
  {
  }

  lemma {:induction false} RunKeepsUp(s: State, steps: seq<Step>, m: int, id: string, passes: nat)
    requires Sound(s, m) && KeepsUp(s, id, passes) && LegalRun(s, steps) && ConstantMaximum(steps)
    requires FlawlessThroughout(s, steps)
    ensures Sound(Exec(s, steps), m) && KeepsUp(Exec(s, steps), id, passes + Passes(steps))
    decreases |steps|
  {
    if steps != [] {
      StepKeepsSound(s, steps[0], m);
      StepKeepsUp(s, steps[0], m, id, passes);
      RunKeepsUp(Apply(s, steps[0]), steps[1..], m, id, passes + if steps[0].Retrieve? then 1 else 0);
    }
  }

  // After any run from an initial state, whatever it lost, let a flawless run follow between two points
  // without a pass under way. With constant maximum m other than 0, everything that had been accepted is gone
  // from the store once m passes have been made, even while messages go on storing new objects.
  lemma RunsDrain(s: State, before: seq<Step>, steps: seq<Step>, id: string)
    requires Initial(s) && s.maxRetry != 0 && LegalRun(s, before) && ConstantMaximum(before) && Idle(Exec(s, before))
    requires LegalRun(Exec(s, before), steps) && ConstantMaximum(steps) && FlawlessThroughout(Exec(s, before), steps)
    requires Idle(Exec(Exec(s, before), steps)) && Passes(steps) >= Limit(s.maxRetry)
    requires id in Exec(s, before).ledger.accepted
    ensures id !in Exec(Exec(s, before), steps).store
  {
    InitialInv(s);
    SoundRuns(s, before, s.maxRetry);
    var e := Exec(s, before);
    RunKeepsUp(e, steps, s.maxRetry, id, 0);
    GoneInTime(Exec(e, steps), s.maxRetry, id, Passes(steps));
  }
}
