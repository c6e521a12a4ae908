// The retry counts in the store, over whole runs with a constant maximum.

module RetryBounds {
  import opened Wrappers
  import opened Contracts
  import opened Pipeline
  import opened StoreForward
  import opened StoreForwardRuns
  import RedisStore

  // The maximum a negative one stands for.
  function Limit(m: int): int { if m < 0 then 1 else m }

  // An item of a pass has the count its object has in the store, and an update under way one more.
  ghost predicate Counted(s: State) {
    && (forall i :: 0 <= i < |s.todo| && s.todo[i].id in s.store ==>
                      s.todo[i].retryCount == s.store[s.todo[i].id].retryCount)
    && (forall i :: 0 <= i < |s.updates| && s.updates[i].id in s.store ==>
                      s.updates[i].retryCount == s.store[s.updates[i].id].retryCount + 1)
  }

  // What is stored, or is about to be, has been retried fewer than m times; with maximum 0 nothing expires.
  ghost predicate Bounded(s: State, m: int) {
    && s.maxRetry == m
    && (forall id <- s.ledger.accepted :: id in s.store ==> 0 <= s.store[id].retryCount)
    && (m != 0 ==>
          && (forall id <- s.ledger.accepted :: id in s.store ==> s.store[id].retryCount < Limit(m))
          && (forall i :: 0 <= i < |s.updates| ==> s.updates[i].retryCount < Limit(m)))
    && (m == 0 ==> s.ledger.expired == {})
  }

  // ---- stored counts, whatever fails ----

  lemma DecideKeepsCounted(s: State, verdict: Verdict, delivery: Option<Delivery>)
    requires Counted(s) && s.todo != []
    ensures Counted(Decide(s, verdict, delivery))
  {
    assert forall i :: 0 <= i < |s.todo| - 1 ==> s.todo[1..][i] == s.todo[i + 1];
  }

  lemma UpdateKeepsCounted(s: State, ok: bool)
    requires Counted(s) && s.todo == [] && s.updates != [] && DistinctIds(s.updates)
    ensures Counted(UpdateFirst(s, ok))
  {
    assert forall i :: 0 <= i < |s.updates| - 1 ==> s.updates[1..][i] == s.updates[i + 1];
  }

  lemma AddKeepsCounted(s: State, o: StoredObject)
    requires Orderly(s) && Counted(s) && o.id !in s.store
    ensures Counted(Add(s, o))
  {
  }

  // The service's own objects are as they were.
  lemma OthersSpare(s: State, store: Objects, keys: RedisStore.Keyspace, id: string)
    requires Inv(s) && Legal(s, Others(store, keys)) && id in s.ledger.accepted
    ensures id in store <==> id in s.store
    ensures id in s.store ==> store[id] == s.store[id]
  {
  }

  lemma OthersKeepCounted(s: State, store: Objects, keys: RedisStore.Keyspace)
    requires Inv(s) && Orderly(s) && Counted(s) && Legal(s, Others(store, keys))
    ensures Counted(s.(store := store))
  {
    forall i | 0 <= i < |s.todo|
      ensures store[s.todo[i].id] == s.store[s.todo[i].id] { OthersSpare(s, store, keys, s.todo[i].id); }
    forall i | 0 <= i < |s.updates|
      ensures store[s.updates[i].id] == s.store[s.updates[i].id] { OthersSpare(s, store, keys, s.updates[i].id); }
  }

  lemma StepKeepsCounted(s: State, step: Step)
    requires Inv(s) && Orderly(s) && Counted(s) && Legal(s, step)
    ensures Counted(Apply(s, step))
  {
    match step
    case Process(_, _, _, _, _, _, _) =>
      if Added(s, step).Some? { AddKeepsCounted(s, Added(s, step).value); }
    case RetryNext(moment) =>
      DecideKeepsCounted(s, Judge(s.todo[0], s.fns, s.maxRetry, moment), FirstDelivery(s.todo[0], s.fns, moment));
    case UpdateNext(ok) => UpdateKeepsCounted(s, ok);
    case Others(store, keys) => OthersKeepCounted(s, store, keys);
    case _ =>
  }

  lemma JudgeBounds(item: StoredObject, fns: seq<AppFunction>, m: int, moment: nat)
    requires item.retryCount >= 0
    ensures m != 0 && Judge(item, fns, m, moment) == Again ==> item.retryCount + 1 < Limit(m)
    ensures m == 0 ==> Judge(item, fns, m, moment) != Expired
  {
    MaxRetryCorners(item, fns, m, moment);
  }

  lemma DecideKeepsBounded(s: State, m: int, verdict: Verdict, delivery: Option<Delivery>)
    requires Bounded(s, m) && s.todo != []
    requires m != 0 && verdict == Again ==> s.todo[0].retryCount + 1 < Limit(m)
    requires m == 0 ==> verdict != Expired
    ensures Bounded(Decide(s, verdict, delivery), m)
  {
  }

  lemma UpdateKeepsBounded(s: State, m: int, ok: bool)
    requires Counted(s) && Orderly(s) && Bounded(s, m) && s.updates != []
    ensures Bounded(UpdateFirst(s, ok), m)
  {
  }

  lemma AddKeepsBounded(s: State, o: StoredObject, m: int)
    requires Bounded(s, m) && o.retryCount == 0
    ensures Bounded(Add(s, o), m)
  {
  }

  lemma OthersKeepBounded(s: State, store: Objects, keys: RedisStore.Keyspace, m: int)
    requires Inv(s) && Bounded(s, m) && Legal(s, Others(store, keys))
    ensures Bounded(s.(store := store), m)
  {
    forall id | id in s.ledger.accepted && id in store ensures id in s.store && store[id] == s.store[id] {
      OthersSpare(s, store, keys, id);
    }
  }

  lemma StepKeepsBounded(s: State, step: Step, m: int)
    requires Inv(s) && Orderly(s) && Counted(s) && Bounded(s, m) && Legal(s, step) && !step.SetMaxRetry?
    ensures Bounded(Apply(s, step), m)
  {
    match step
    case Process(_, _, _, _, _, _, _) =>
      if Added(s, step).Some? {
        AddedIsValid(s, step);
        AddKeepsBounded(s, Added(s, step).value, m);
      }
    case RetryNext(moment) =>
      var item := s.todo[0];
      assert item.id in s.store && item.id in s.ledger.accepted;
      JudgeBounds(item, s.fns, m, moment);
      DecideKeepsBounded(s, m, Judge(item, s.fns, m, moment), FirstDelivery(item, s.fns, moment));
    case UpdateNext(ok) => UpdateKeepsBounded(s, m, ok);
    case Others(store, keys) => OthersKeepBounded(s, store, keys, m);
    case _ =>
  }

  // What every step keeps as long as the maximum stays.
  ghost predicate Sound(s: State, m: int) {
    Inv(s) && Orderly(s) && Counted(s) && Bounded(s, m)
  }

  lemma StepKeepsSound(s: State, step: Step, m: int)
    requires Sound(s, m) && Legal(s, step) && !step.SetMaxRetry?
    ensures Sound(Apply(s, step), m)
  {
    StepKeepsInv(s, step);
    StepKeepsOrderly(s, step);
    StepKeepsCounted(s, step);
    StepKeepsBounded(s, step, m);
  }

  lemma {:induction false} SoundRuns(s: State, steps: seq<Step>, m: int)
    requires Sound(s, m) && LegalRun(s, steps) && ConstantMaximum(steps)
    ensures Sound(Exec(s, steps), m)
    decreases |steps|
  {
    if steps != [] {
      StepKeepsSound(s, steps[0], m);
      SoundRuns(Apply(s, steps[0]), steps[1..], m);
    }
  }

  // Stored counts stay below the maximum, and with maximum 0 nothing expires.
  ghost predicate CountWithin(s: State, m: int, id: string) {
    && (m != 0 && Held(s, id) ==> 0 <= s.store[id].retryCount < Limit(m))
    && (m == 0 ==> id !in s.ledger.expired)
  }

  // That is so over any run from an initial state with a constant maximum, whichever writes fail and whenever
  // the service restarts.
  lemma BoundedCounts(s: State, steps: seq<Step>, id: string)
    requires Initial(s) && LegalRun(s, steps) && ConstantMaximum(steps)
    requires id in Exec(s, steps).ledger.accepted
    ensures CountWithin(Exec(s, steps), s.maxRetry, id)
  {
    InitialInv(s);
    SoundRuns(s, steps, s.maxRetry);
  }
}
