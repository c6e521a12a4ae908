// How often an item is retried, over whole runs with a constant maximum: the attempts, its count in the
// store, and the writes about it that were lost.

module RetryAttempts {
  import opened Wrappers
  import opened Contracts
  import opened Pipeline
  import opened PipelineHash
  import opened StoreForward
  import opened StoreForwardRuns
  import opened RetryBounds
  import RedisStore

  // What a run has come to for one object: an attempt whose write is due, and attempts whose write was lost,
  // because it failed or a restart forgot it. A version mismatch is no attempt.
  datatype Tally = Tally(lost: nat, due: bool)

  function Settle(t: Tally, ok: bool): Tally {
    Tally(if t.due && !ok then t.lost + 1 else t.lost, false)
  }

  ghost function TallyAfter(s: State, step: Step, id: string, t: Tally): Tally
    requires Legal(s, step)
  {
    match step
    case RetryNext(moment) =>
      if s.todo[0].id == id then t.(due := Judge(s.todo[0], s.fns, s.maxRetry, moment) != Invalidated) else t
    case RemoveNext(ok) => if s.removes[0].id == id then Settle(t, ok) else t
    case UpdateNext(ok) => if s.updates[0].id == id then Settle(t, ok) else t
    case Restart => Settle(t, false)
    case _ => t
  }

  ghost function TallyRun(s: State, steps: seq<Step>, id: string, t: Tally): Tally
    requires LegalRun(s, steps)
    decreases |steps|
  {
    if steps == [] then t else TallyRun(Apply(s, steps[0]), steps[1..], id, TallyAfter(s, steps[0], id, t))
  }

  // The attempts lost in a run that starts between passes.
  ghost function Lost(s: State, steps: seq<Step>, id: string): nat
    requires LegalRun(s, steps)
  {
    TallyRun(s, steps, id, Tally(0, false)).lost
  }

  // While the object is stored its attempts are its count there, the one whose write is due, and those lost;
  // in any case they are no more than the maximum and those lost.
  ghost predicate Tallied(s: State, m: int, id: string, t: Tally) {
    var n := Attempts(s.ledger, id);
    && (id !in s.ledger.accepted ==> n == 0 && t == Tally(0, false))
    && (m != 0 ==> n <= Limit(m) + t.lost)
    && (t.due ==> Among(s.updates, id) || Among(s.removes, id))
    && (Among(s.updates, id) ==> t.due)
    && (id in s.ledger.accepted && id in s.store ==>
          n == s.store[id].retryCount + (if t.due then 1 else 0) + t.lost)
  }

  lemma AmongAppend(items: seq<StoredObject>, item: StoredObject, id: string)
    ensures Among(items + [item], id) <==> Among(items, id) || item.id == id
  {
    var longer := items + [item];
    assert longer[|items|] == item;
    if i :| 0 <= i < |items| && items[i].id == id { assert longer[i].id == id; }
  }

  lemma AmongTail(items: seq<StoredObject>, id: string)
    requires items != []
    ensures Among(items, id) <==> items[0].id == id || Among(items[1..], id)
  {
    AmongAppend([], items[0], id);
    if i :| 0 <= i < |items| && items[i].id == id && i > 0 { assert items[1..][i - 1].id == id; }
    if i :| 0 <= i < |items| - 1 && items[1..][i].id == id { assert items[i + 1].id == id; }
  }

  lemma DecideKeepsTally(s: State, m: int, id: string, t: Tally, verdict: Verdict, delivery: Option<Delivery>)
    requires Orderly(s) && Bounded(s, m) && Tallied(s, m, id, t) && s.todo != []
    ensures var t' := if s.todo[0].id == id then t.(due := verdict != Invalidated) else t;
            Tallied(Decide(s, verdict, delivery), m, id, t')
  {
    var item := s.todo[0];
    AmongAppend(s.removes, Listed(item, verdict), id);
    AmongAppend(s.updates, Listed(item, verdict), id);
    if item.id == id { assert !Among(s.removes, id) && !Among(s.updates, id); }
  }

  lemma RetryKeepsTally(s: State, moment: nat, m: int, id: string, t: Tally)
    requires Orderly(s) && Bounded(s, m) && Tallied(s, m, id, t) && s.todo != []
    ensures Tallied(Apply(s, RetryNext(moment)), m, id, TallyAfter(s, RetryNext(moment), id, t))
  {
    var item := s.todo[0];
    DecideKeepsTally(s, m, id, t, Judge(item, s.fns, s.maxRetry, moment), FirstDelivery(item, s.fns, moment));
  }

  lemma RemoveKeepsTally(s: State, m: int, id: string, t: Tally, ok: bool)
    requires Orderly(s) && Tallied(s, m, id, t) && s.removes != []
    ensures Tallied(RemoveFirst(s, ok), m, id, if s.removes[0].id == id then Settle(t, ok) else t)
  {
    AmongTail(s.removes, id);
    assert s.removes[0].id == id ==> !Among(s.updates, id);
    assert s.removes[0].id == id ==> !Among(s.removes[1..], id) by {
      assert forall i :: 0 <= i < |s.removes| - 1 ==> s.removes[1..][i] == s.removes[i + 1];
    }
  }

  lemma UpdateKeepsTally(s: State, m: int, id: string, t: Tally, ok: bool)
    requires Orderly(s) && Counted(s) && Tallied(s, m, id, t) && s.updates != [] && s.removes == []
    ensures Tallied(UpdateFirst(s, ok), m, id, if s.updates[0].id == id then Settle(t, ok) else t)
  {
    AmongTail(s.updates, id);
    assert forall i :: 0 <= i < |s.updates| - 1 ==> s.updates[1..][i] == s.updates[i + 1];
    assert s.updates[0].id == id ==> !Among(s.updates[1..], id);
  }

  lemma AddKeepsTally(s: State, m: int, id: string, t: Tally, o: StoredObject)
    requires Orderly(s) && Tallied(s, m, id, t) && o.id !in s.store && o.id !in s.ledger.accepted
    requires o.retryCount == 0
    ensures Tallied(Add(s, o), m, id, t)
  {
    assert !Among(s.updates, o.id) && !Among(s.removes, o.id);
  }

  lemma OthersKeepTally(s: State, store: Objects, keys: RedisStore.Keyspace, m: int, id: string, t: Tally)
    requires Inv(s) && Tallied(s, m, id, t) && Legal(s, Others(store, keys))
    ensures Tallied(s.(store := store), m, id, t)
  {
    if id in s.ledger.accepted { OthersSpare(s, store, keys, id); }
  }

  lemma ProcessKeepsTally(s: State, step: Step, m: int, id: string, t: Tally)
    requires Inv(s) && Orderly(s) && Tallied(s, m, id, t) && step.Process? && Legal(s, step)
    ensures Tallied(Apply(s, step), m, id, t)
  {
    if Added(s, step).Some? {
      AddedIsValid(s, step);
      AddKeepsTally(s, m, id, t, Added(s, step).value);
    }
  }

  // The steps that write, or forget a write.
  lemma WriteKeepsTally(s: State, step: Step, m: int, id: string, t: Tally)
    requires Orderly(s) && Counted(s) && Tallied(s, m, id, t)
    requires Legal(s, step) && (step.RemoveNext? || step.UpdateNext? || step.Restart?)
    ensures Tallied(Apply(s, step), m, id, TallyAfter(s, step, id, t))
  {
    match step
    case RemoveNext(ok) => RemoveKeepsTally(s, m, id, t, ok);
    case UpdateNext(ok) => UpdateKeepsTally(s, m, id, t, ok);
    case Restart =>
  }

  lemma StepKeepsTally(s: State, step: Step, m: int, id: string, t: Tally)
    requires Sound(s, m) && Legal(s, step) && Tallied(s, m, id, t)
    ensures Tallied(Apply(s, step), m, id, TallyAfter(s, step, id, t))
  {
    match step
    case Process(_, _, _, _, _, _, _) => ProcessKeepsTally(s, step, m, id, t);
    case RetryNext(moment) => RetryKeepsTally(s, moment, m, id, t);
    case Others(store, keys) => OthersKeepTally(s, store, keys, m, id, t);
    case Retrieve(_) =>
    case SetTransforms(_) =>
    case SetMaxRetry(_) =>
    case _ => WriteKeepsTally(s, step, m, id, t);
  }

  // ---- whole runs ----

  lemma StepKeepsBoth(s: State, step: Step, m: int, id: string, t: Tally)
    requires Sound(s, m) && Tallied(s, m, id, t) && Legal(s, step) && !step.SetMaxRetry?
    ensures Sound(Apply(s, step), m) && Tallied(Apply(s, step), m, id, TallyAfter(s, step, id, t))
  {
    StepKeepsSound(s, step, m);
    StepKeepsTally(s, step, m, id, t);
  }

  lemma {:induction false} TalliedRuns(s: State, steps: seq<Step>, m: int, id: string, t: Tally)
    requires Sound(s, m) && Tallied(s, m, id, t)
    requires LegalRun(s, steps) && ConstantMaximum(steps)
    ensures Sound(Exec(s, steps), m) && Tallied(Exec(s, steps), m, id, TallyRun(s, steps, id, t))
    decreases |steps|
  {
    if steps != [] {
      StepKeepsBoth(s, steps[0], m, id, t);
      TalliedRuns(Apply(s, steps[0]), steps[1..], m, id, TallyAfter(s, steps[0], id, t));
    }
  }

  // What holds of an object after a run with a constant maximum m in which so many of its attempts were lost.
  ghost predicate Accounted(s: State, m: int, id: string, lost: nat) {
    && (m != 0 ==> Attempts(s.ledger, id) <= Limit(m) + lost)
    && (Idle(s) && Held(s, id) ==> Attempts(s.ledger, id) == s.store[id].retryCount + lost)
  }

  // Over any run from an initial state with a constant maximum, whichever writes fail and whenever the
  // service restarts: an object is retried at most m times and once more for every attempt whose write was
  // lost; and between passes, while it is stored, its attempts are exactly its count and those lost.
  lemma BoundedRetries(s: State, steps: seq<Step>, id: string)
    requires Initial(s) && LegalRun(s, steps) && ConstantMaximum(steps)
    requires id in Exec(s, steps).ledger.accepted
    ensures Accounted(Exec(s, steps), s.maxRetry, id, Lost(s, steps, id))
  {
    InitialInv(s);
    TalliedRuns(s, steps, s.maxRetry, id, Tally(0, false));
  }

  // ---- the bound is reached ----

  lemma TallyCons(s: State, step: Step, rest: seq<Step>, id: string, t: Tally)
    requires Legal(s, step) && LegalRun(Apply(s, step), rest)
    ensures var steps := [step] + rest;
            && LegalRun(s, steps) && Exec(s, steps) == Exec(Apply(s, step), rest)
            && TallyRun(s, steps, id, t) == TallyRun(Apply(s, step), rest, id, TallyAfter(s, step, id, t))
  {
    assert ([step] + rest)[1..] == rest;
  }

  lemma {:induction false} TallyAppend(s: State, a: seq<Step>, b: seq<Step>, id: string, t: Tally)
    requires LegalRun(s, a) && LegalRun(Exec(s, a), b)
    ensures LegalRun(s, a + b) && Exec(s, a + b) == Exec(Exec(s, a), b)
    ensures TallyRun(s, a + b, id, t) == TallyRun(Exec(s, a), b, id, TallyRun(s, a, id, t))
    decreases |a|
  {
    if a == [] {
      assert a + b == b;
    } else {
      assert (a + b)[1..] == a[1..] + b;
      TallyAppend(Apply(s, a[0]), a[1..], b, id, TallyAfter(s, a[0], id, t));
    }
  }

  // Between passes the service has stored this one object only, which its pipeline keeps failing on.
  ghost predicate FailsAlone(s: State, o: StoredObject) {
    && Idle(s) && s.store == map[o.id := o] && o.appServiceKey == s.serviceKey
    && o.version == Hash(Names(s.fns)) && ItemRun(o, s.fns, 0).error.Some?
  }

  // What a pass makes of it if its write succeeds, or does not.
  function AfterFailure(s: State, o: StoredObject, ok: bool): State {
    var verdict := Judge(o, s.fns, s.maxRetry, 0);
    var store := if !ok then s.store else if verdict == Again then map[o.id := Bumped(o)] else map[];
    s.(store := store, ledger := Record(s.ledger, o.id, verdict, FirstDelivery(o, s.fns, 0)))
  }

  lemma AloneIsRetrieved(s: State, o: StoredObject)
    requires FailsAlone(s, o)
    ensures Legal(s, Retrieve([o]))
  {
    assert [o][0].id == o.id;
  }

  lemma AloneIsRetried(s: State, o: StoredObject)
    requires s.todo == [o] && s.removes == s.updates == []
    requires o.version == Hash(Names(s.fns)) && ItemRun(o, s.fns, 0).error.Some?
    ensures var verdict := Judge(o, s.fns, s.maxRetry, 0);
            var ledger := Record(s.ledger, o.id, verdict, FirstDelivery(o, s.fns, 0));
            && verdict != Invalidated
            && Attempts(ledger, o.id) == Attempts(s.ledger, o.id) + 1
            && Apply(s, RetryNext(0)) ==
               s.(todo := [], removes := if verdict == Again then [] else [Bumped(o)],
               updates := if verdict == Again then [Bumped(o)] else [], ledger := ledger)
  {
    assert s.todo[1..] == [];
  }

  lemma OnePass(s: State, o: StoredObject, ok: bool, lost: nat) returns (pass: seq<Step>)
    requires FailsAlone(s, o)
    ensures LegalRun(s, pass) && ConstantMaximum(pass) && Exec(s, pass) == AfterFailure(s, o, ok)
    ensures TallyRun(s, pass, o.id, Tally(lost, false)) == Tally(if ok then lost else lost + 1, false)
    ensures Attempts(Exec(s, pass).ledger, o.id) == Attempts(s.ledger, o.id) + 1
  {
    var again := Judge(o, s.fns, s.maxRetry, 0) == Again;
    var write := if again then UpdateNext(ok) else RemoveNext(ok);
    AloneIsRetrieved(s, o);
    var s1 := Apply(s, Retrieve([o]));
    AloneIsRetried(s1, o);
    var s2 := Apply(s1, RetryNext(0));
    WriteSettles(s2, o, ok, again);
    TallyCons(s2, write, [], o.id, Tally(lost, true));
    TallyCons(s1, RetryNext(0), [write] + [], o.id, Tally(lost, false));
    TallyCons(s, Retrieve([o]), [RetryNext(0)] + ([write] + []), o.id, Tally(lost, false));
    pass := [Retrieve([o])] + ([RetryNext(0)] + ([write] + []));
  }

  lemma WriteSettles(s: State, o: StoredObject, ok: bool, again: bool)
    requires s.store == map[o.id := o] && s.todo == []
    requires s.updates == (if again then [Bumped(o)] else []) && s.removes == (if again then [] else [Bumped(o)])
    ensures var write := if again then UpdateNext(ok) else RemoveNext(ok);
            var store := if !ok then s.store else if again then map[o.id := Bumped(o)] else map[];
            && Legal(s, write) && LegalRun(s, [write] + [])
            && Exec(s, [write] + []) == s.(store := store, updates := [], removes := [])
  {
    var write := if again then UpdateNext(ok) else RemoveNext(ok);
    TallyCons(s, write, [], o.id, Tally(0, false));
  }

  // From there, for any n: a run that loses n attempts' writes and retries it the maximum and n times.
  lemma {:induction false} BoundIsReached(s: State, o: StoredObject, n: nat, lost: nat) returns (steps: seq<Step>)
    requires FailsAlone(s, o) && s.maxRetry != 0 && 0 <= o.retryCount < Limit(s.maxRetry)
    ensures LegalRun(s, steps) && ConstantMaximum(steps)
    ensures TallyRun(s, steps, o.id, Tally(lost, false)) == Tally(lost + n, false)
    ensures Attempts(Exec(s, steps).ledger, o.id) == Attempts(s.ledger, o.id) + Limit(s.maxRetry) - o.retryCount + n
    decreases n, Limit(s.maxRetry) - o.retryCount
  {
    var pass := OnePass(s, o, n == 0, lost);
    var e, rest := Exec(s, pass), [];
    if n > 0 {
      rest := BoundIsReached(e, o, n - 1, lost + 1);
    } else if Judge(o, s.fns, s.maxRetry, 0) == Again {
      JudgeBounds(o, s.fns, s.maxRetry, 0);
      rest := BoundIsReached(e, Bumped(o), 0, lost);
    } else {
      assert o.retryCount + 1 == Limit(s.maxRetry);
    }
    TallyAppend(s, pass, rest, o.id, Tally(lost, false));
    steps := pass + rest;
  }

  // ---- and not only for one object ----

  // What the ledger is told of one item of a pass.
  datatype Entry = Entry(id: string, verdict: Verdict, delivery: Option<Delivery>)

  function EntryOf(p: Pass, i: nat): Entry
    requires i < |p.items|
  {
    Entry(p.items[i].id, VerdictOf(p, i), FirstDelivery(p.items[i], p.fns, p.clock(i)))
  }

  function Entries(p: Pass, n: nat): (r: seq<Entry>)
    requires n <= |p.items|
    ensures |r| == n && forall i :: 0 <= i < n ==> r[i] == EntryOf(p, i)
  {
    seq(n, i requires 0 <= i < n => EntryOf(p, i))
  }

  function Told(l: Ledger, entries: seq<Entry>): Ledger {
    if entries == [] then l
    else
      var front, last := entries[..|entries| - 1], entries[|entries| - 1];
      Record(Told(l, front), last.id, last.verdict, last.delivery)
  }

  lemma {:induction false} RecordsAreTold(l: Ledger, p: Pass, n: nat)
    requires n <= |p.items|
    ensures RecordAll(l, p, n) == Told(l, Entries(p, n))
    decreases n
  {
    if n > 0 {
      RecordsAreTold(l, p, n - 1);
      assert Entries(p, n)[..n - 1] == Entries(p, n - 1) && Entries(p, n)[n - 1] == EntryOf(p, n - 1);
    }
  }

  lemma {:induction false} ToldAttempts(l: Ledger, entries: seq<Entry>, i: nat)
    requires i < |entries| && forall j, k :: 0 <= j < k < |entries| ==> entries[j].id != entries[k].id
    ensures Attempts(Told(l, entries), entries[i].id)
         == Attempts(l, entries[i].id) + if entries[i].verdict != Invalidated then 1 else 0
    decreases |entries|
  {
    var front, last := entries[..|entries| - 1], entries[|entries| - 1];
    RecordAttempts(Told(l, front), last.id, last.verdict, last.delivery, entries[i].id);
    if i < |front| {
      ToldAttempts(l, front, i);
    } else {
      NotTold(l, front, last.id);
    }
  }

  lemma {:induction false} NotTold(l: Ledger, entries: seq<Entry>, id: string)
    requires forall j :: 0 <= j < |entries| ==> entries[j].id != id
    ensures Attempts(Told(l, entries), id) == Attempts(l, id)
  {
    if entries != [] {
      var front, last := entries[..|entries| - 1], entries[|entries| - 1];
      NotTold(l, front, id);
      RecordAttempts(Told(l, front), last.id, last.verdict, last.delivery, id);
    }
  }

  lemma PassAttempts(l: Ledger, p: Pass, i: nat)
    requires DistinctIds(p.items) && i < |p.items|
    ensures Attempts(RecordAll(l, p, |p.items|), p.items[i].id)
         == Attempts(l, p.items[i].id) + if VerdictOf(p, i) != Invalidated then 1 else 0
  {
    RecordsAreTold(l, p, |p.items|);
    ToldAttempts(l, Entries(p, |p.items|), i);
  }

  lemma RecordAttempts(l: Ledger, id: string, verdict: Verdict, delivery: Option<Delivery>, id': string)
    ensures Attempts(Record(l, id, verdict, delivery), id')
         == Attempts(l, id') + if id' == id && verdict != Invalidated then 1 else 0
  {
  }

  lemma {:induction false} NothingRemoved(store: Objects, removes: seq<StoredObject>)
    ensures RemoveEach(store, removes, (id: string) => false) == store
    decreases |removes|
  {
    if removes != [] { NothingRemoved(store, removes[1..]); }
  }

  lemma {:induction false} NothingUpdated(store: Objects, updates: seq<StoredObject>)
    ensures UpdateEach(store, updates, (id: string) => false) == store
    decreases |updates|
  {
    if updates != [] { NothingUpdated(store, updates[1..]); }
  }

  // However small the maximum: while all writes are lost, an object whose version matches is retried in
  // every pass, n times for any n.
  lemma {:induction false} LostWritesRetryOn(s: State, items: seq<StoredObject>, i: nat, n: nat)
    returns (steps: seq<Step>)
    requires Idle(s) && IsRetrieval(s.store, s.serviceKey, items)
    requires i < |items| && items[i].version == Hash(Names(s.fns))
    ensures LegalRun(s, steps) && ConstantMaximum(steps)
    ensures Exec(s, steps) == s.(ledger := Exec(s, steps).ledger)
    ensures Attempts(Exec(s, steps).ledger, items[i].id) == Attempts(s.ledger, items[i].id) + n
    decreases n
  {
    if n == 0 {
      steps := [];
    } else {
      var before := LostWritesRetryOn(s, items, i, n - 1);
      var e, no := Exec(s, before), (id: string) => false;
      var p := Pass(items, s.fns, s.maxRetry, k => 0);
      var pass := PassIsARun(e, p, no, no);
      NothingRemoved(s.store, Sorted(p, |items|).0);
      NothingUpdated(s.store, Sorted(p, |items|).1);
      PassAttempts(e.ledger, p, i);
      ExecAppend(s, before, pass);
      steps := before + pass;
    }
  }
}
