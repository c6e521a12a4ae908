// Whole runs of the store-and-forward protocol: messages, retry passes, pipeline changes, restarts
// and other services, interleaved at the grain of one store call or one retried item.

module StoreForwardRuns {
  import opened Wrappers
  import opened Contracts
  import opened Pipeline
  import opened PipelineHash
  import opened StoreForward
  import RedisStore

  // What the ledger remembers of an accepted object: the object, and the pipeline it came from.
  datatype Origin = Origin(item: StoredObject, names: seq<string>)

  // The first call of a successful retry: the function's name and the payload it was given.
  datatype Delivery = Delivery(name: string, payload: Bytes)

  // The history of a run. It steers nothing.
  datatype Ledger = Ledger(
    accepted: map<string, Origin>,
    delivered: map<string, Option<Delivery>>,
    expired: set<string>,
    invalidated: set<string>,
    attempts: map<string, nat>)

  // A pass works off `todo` into `removes` and `updates`, then the removes, then the updates.
  datatype State = State(
    serviceKey: string,
    store: Objects,
    fns: seq<AppFunction>,
    maxRetry: int,
    todo: seq<StoredObject>,
    removes: seq<StoredObject>,
    updates: seq<StoredObject>,
    ledger: Ledger)

  datatype Step =
    | Process(moment: nat, ids: Ids, target: Value, contentType: string, enabled: bool, generated: string, up: bool)
    | Retrieve(items: seq<StoredObject>)
    | RetryNext(moment: nat)
    | RemoveNext(ok: bool)
    | UpdateNext(ok: bool)
    | SetTransforms(fns: seq<AppFunction>)
    | SetMaxRetry(maxRetry: int)
    | Restart
    | Others(store: Objects, keys: RedisStore.Keyspace)

  // ---- steps ----

  // The object a message step adds to the store, if it adds one.
  function Added(s: State, step: Step): Option<StoredObject>
    requires step.Process?
  {
    var run := MessageRun(s.fns, step.moment, step.ids, step.target, step.contentType);
    if run.handedOff.None? then None
    else
      var item := NewItem(s.serviceKey, step.ids, run.handedOff.value, Hash(Names(s.fns)));
      var v := ValidateContract(item, false, step.generated);
      if step.enabled && step.up && v.Success? && v.value.id !in s.store then Some(v.value) else None
  }

  function FirstDelivery(item: StoredObject, fns: seq<AppFunction>, moment: nat): Option<Delivery> {
    var calls := ItemRun(item, fns, moment).calls;
    if calls != [] && calls[0].position < |fns| && calls[0].input.Raw? then
      Some(Delivery(fns[calls[0].position].name, calls[0].input.bytes))
    else None
  }

  function Attempts(l: Ledger, id: string): nat {
    if id in l.attempts then l.attempts[id] else 0
  }

  function Record(l: Ledger, id: string, verdict: Verdict, delivery: Option<Delivery>): Ledger {
    if verdict == Invalidated then l.(invalidated := l.invalidated + {id})
    else
      var l' := l.(attempts := l.attempts[id := Attempts(l, id) + 1]);
      match verdict
      case Delivered => l'.(delivered := l.delivered[id := delivery])
      case Expired => l'.(expired := l.expired + {id})
      case _ => l'
  }

  function Add(s: State, o: StoredObject): State {
    s.(store := s.store[o.id := o],
    ledger := s.ledger.(accepted := s.ledger.accepted[o.id := Origin(o, Names(s.fns))]))
  }

  // The first item of the pass goes where its verdict sends it.
  function Decide(s: State, verdict: Verdict, delivery: Option<Delivery>): State
    requires s.todo != []
  {
    var item := s.todo[0];
    var s' := s.(todo := s.todo[1..], ledger := Record(s.ledger, item.id, verdict, delivery));
    if verdict == Again then s'.(updates := s.updates + [Listed(item, verdict)])
    else s'.(removes := s.removes + [Listed(item, verdict)])
  }

  function RemoveFirst(s: State, ok: bool): State
    requires s.removes != []
  {
    s.(removes := s.removes[1..], store := if ok then s.store - {s.removes[0].id} else s.store)
  }

  function UpdateFirst(s: State, ok: bool): State
    requires s.updates != []
  {
    s.(updates := s.updates[1..], store := if ok then Replace(s.store, s.updates[0]) else s.store)
  }

  function Idle(s: State): bool {
    s.todo == [] && s.removes == [] && s.updates == []
  }

  // What may happen next. A generated UUID is new; retrieval is what the store client promises
  // (IsRetrieval); function names hold no space; other services keep to their own objects.
  ghost predicate Legal(s: State, step: Step) {
    match step
    case Process(_, _, _, _, _, generated, _) =>
      ParseUuid(generated).Some? ==> ParseUuid(generated).value !in s.ledger.accepted
    case Retrieve(items) => Idle(s) && IsRetrieval(s.store, s.serviceKey, items)
    case RetryNext(_) => s.todo != []
    case RemoveNext(_) => s.todo == [] && s.removes != []
    case UpdateNext(_) => s.todo == [] && s.removes == [] && s.updates != []
    case SetTransforms(fns) => SpaceFree(Names(fns))
    case SetMaxRetry(_) => true
    case Restart => true
    case Others(store, keys) =>
      && RedisStore.Represents(keys, store)
      && (forall id :: id in s.store && s.store[id].appServiceKey == s.serviceKey ==>
                         id in store && store[id] == s.store[id])
      && (forall id :: id in store && (store[id].appServiceKey == s.serviceKey || id in s.ledger.accepted)
                       ==> id in s.store && s.store[id].appServiceKey == s.serviceKey)
  }

  ghost function Apply(s: State, step: Step): State
    requires Legal(s, step)
  {
    match step
    case Process(_, _, _, _, _, _, _) => if Added(s, step).Some? then Add(s, Added(s, step).value) else s
    case Retrieve(items) => s.(todo := items)
    case RetryNext(moment) =>
      Decide(s, Judge(s.todo[0], s.fns, s.maxRetry, moment), FirstDelivery(s.todo[0], s.fns, moment))
    case RemoveNext(ok) => RemoveFirst(s, ok)
    case UpdateNext(ok) => UpdateFirst(s, ok)
    case SetTransforms(fns) => s.(fns := fns)
    case SetMaxRetry(maxRetry) => s.(maxRetry := maxRetry)
    case Restart => s.(todo := [], removes := [], updates := [])
    case Others(store, _) => s.(store := store)
  }

  ghost predicate LegalRun(s: State, steps: seq<Step>)
    decreases |steps|
  {
    steps != [] ==> Legal(s, steps[0]) && LegalRun(Apply(s, steps[0]), steps[1..])
  }

  ghost function Exec(s: State, steps: seq<Step>): State
    requires LegalRun(s, steps)
    decreases |steps|
  {
    if steps == [] then s else Exec(Apply(s, steps[0]), steps[1..])
  }

  // A service that has stored nothing yet, beside whatever other services keep in the store.
  ghost predicate Initial(s: State) {
    && Idle(s)
    && RedisStore.ValidObjects(s.store)
    && (forall id <- s.store :: s.store[id].appServiceKey != s.serviceKey)
    && SpaceFree(Names(s.fns))
    && s.ledger == Ledger(map[], map[], {}, {}, map[])
  }

  // ---- conservation, whatever store writes fail ----

  predicate Decided(l: Ledger, id: string) {
    id in l.delivered || id in l.expired || id in l.invalidated
  }

  predicate Held(s: State, id: string) {
    id in s.store && s.store[id].appServiceKey == s.serviceKey
  }

  ghost predicate Traced(l: Ledger, item: StoredObject) {
    item.id in l.accepted && SameOrigin(item, l.accepted[item.id].item)
  }

  ghost predicate AllTraced(l: Ledger, items: seq<StoredObject>) {
    forall i :: 0 <= i < |items| ==> Traced(l, items[i])
  }

  // An accepted object is well formed and stamped with the pipeline it names, at one of its positions.
  ghost predicate ValidOrigin(serviceKey: string, id: string, o: Origin) {
    && WellFormed(o.item) && o.item.id == id && o.item.appServiceKey == serviceKey && o.item.retryCount == 0
    && SpaceFree(o.names) && o.item.version == Hash(o.names) && 0 <= o.item.pipelinePosition < |o.names|
  }

  // A delivered object's payload was given to a function of the name that had failed on it.
  ghost predicate ValidDelivery(o: Origin, d: Option<Delivery>) {
    0 <= o.item.pipelinePosition < |o.names| && d == Some(Delivery(o.names[o.item.pipelinePosition], o.item.payload))
  }

  ghost predicate ValidOrigins(s: State) {
    forall id <- s.ledger.accepted :: ValidOrigin(s.serviceKey, id, s.ledger.accepted[id])
  }

  ghost predicate ValidFates(l: Ledger) {
    && (forall id <- l.delivered :: id in l.accepted && ValidDelivery(l.accepted[id], l.delivered[id]))
    && (forall id <- l.expired :: id in l.accepted)
    && (forall id <- l.invalidated :: id in l.accepted)
  }

  ghost predicate ValidLedger(s: State) {
    ValidOrigins(s) && ValidFates(s.ledger)
  }

  // The service's objects in the store are accepted ones, as accepted but for retry count and
  // optional strings.
  ghost predicate Inventory(s: State) {
    && RedisStore.ValidObjects(s.store)
    && (forall id <- s.store :: s.store[id].appServiceKey == s.serviceKey <==> id in s.ledger.accepted)
    && (forall id <- s.store :: id in s.ledger.accepted ==> Traced(s.ledger, s.store[id]))
  }

  // So are the items of the pass under way; and what it is about to remove has its fate decided.
  ghost predicate Working(s: State) {
    && AllTraced(s.ledger, s.todo) && AllTraced(s.ledger, s.removes) && AllTraced(s.ledger, s.updates)
    && (forall i :: 0 <= i < |s.removes| ==> Decided(s.ledger, s.removes[i].id))
  }

  ghost predicate NoneLost(s: State) {
    forall id <- s.ledger.accepted :: Held(s, id) || Decided(s.ledger, id)
  }

  ghost predicate Inv(s: State) {
    SpaceFree(Names(s.fns)) && ValidLedger(s) && Inventory(s) && Working(s) && NoneLost(s)
  }

  lemma AddedIsValid(s: State, step: Step)
    requires Inv(s) && step.Process? && Legal(s, step) && Added(s, step).Some?
    ensures var o := Added(s, step).value;
            ValidOrigin(s.serviceKey, o.id, Origin(o, Names(s.fns))) && o.id !in s.store && o.id !in s.ledger.accepted
  {
    var run := MessageRun(s.fns, step.moment, step.ids, step.target, step.contentType);
    HandOffProvenance(s.fns, step.moment, step.ids, step.target, step.contentType);
    ValidateExactly(NewItem(s.serviceKey, step.ids, run.handedOff.value, Hash(Names(s.fns))), false, step.generated);
  }

  // An item whose version matches is judged delivered only after the function named at its position
  // was called on its payload.
  lemma DeliveredWasCalled(item: StoredObject, o: Origin, serviceKey: string, fns: seq<AppFunction>, maxRetry: int,
                           moment: nat)
    requires ValidOrigin(serviceKey, item.id, o) && SameOrigin(item, o.item) && SpaceFree(Names(fns))
    requires Judge(item, fns, maxRetry, moment) == Delivered
    ensures Names(fns) == o.names && ValidDelivery(o, FirstDelivery(item, fns, moment))
  {
    HashIsInjective(Names(fns), o.names);
    RetryCallsItsFunction(fns, moment, ItemIds(item), item.payload, item.pipelinePosition);
  }

  lemma RecordKeepsFates(l: Ledger, id: string, verdict: Verdict, delivery: Option<Delivery>)
    requires ValidFates(l) && id in l.accepted && (verdict == Delivered ==> ValidDelivery(l.accepted[id], delivery))
    ensures ValidFates(Record(l, id, verdict, delivery))
  {
  }

  lemma RecordKeepsLedger(s: State, verdict: Verdict, delivery: Option<Delivery>)
    requires ValidLedger(s) && s.todo != [] && s.todo[0].id in s.ledger.accepted
    requires verdict == Delivered ==> ValidDelivery(s.ledger.accepted[s.todo[0].id], delivery)
    ensures var s' := Decide(s, verdict, delivery);
            && ValidLedger(s')
            && s'.ledger.accepted == s.ledger.accepted
            && (forall id :: Decided(s'.ledger, id) <==>
                             Decided(s.ledger, id) || (verdict != Again && id == s.todo[0].id))
  {
    RecordKeepsFates(s.ledger, s.todo[0].id, verdict, delivery);
  }

  lemma DecideKeepsWorking(s: State, verdict: Verdict, delivery: Option<Delivery>)
    requires Working(s) && s.todo != []
    requires var s' := Decide(s, verdict, delivery);
             && s'.ledger.accepted == s.ledger.accepted
             && (forall id :: Decided(s'.ledger, id) <==>
                              Decided(s.ledger, id) || (verdict != Again && id == s.todo[0].id))
    ensures Working(Decide(s, verdict, delivery))
  {
    assert Traced(s.ledger, s.todo[0]) && Traced(s.ledger, Listed(s.todo[0], verdict));
  }

  lemma DecideKeepsInv(s: State, verdict: Verdict, delivery: Option<Delivery>)
    requires Inv(s) && s.todo != []
    requires verdict == Delivered ==>
               s.todo[0].id in s.ledger.accepted && ValidDelivery(s.ledger.accepted[s.todo[0].id], delivery)
    ensures Inv(Decide(s, verdict, delivery))
  {
    assert Traced(s.ledger, s.todo[0]);
    RecordKeepsLedger(s, verdict, delivery);
    DecideKeepsWorking(s, verdict, delivery);
  }

  lemma RetryKeepsInv(s: State, moment: nat)
    requires Inv(s) && s.todo != []
    ensures Inv(Decide(s, Judge(s.todo[0], s.fns, s.maxRetry, moment), FirstDelivery(s.todo[0], s.fns, moment)))
  {
    var item := s.todo[0];
    var verdict, delivery := Judge(item, s.fns, s.maxRetry, moment), FirstDelivery(item, s.fns, moment);
    assert Traced(s.ledger, item);
    if verdict == Delivered {
      DeliveredWasCalled(item, s.ledger.accepted[item.id], s.serviceKey, s.fns, s.maxRetry, moment);
    }
    DecideKeepsInv(s, verdict, delivery);
  }

  lemma AddKeepsInventory(s: State, o: StoredObject)
    requires Inventory(s) && WellFormed(o) && o.appServiceKey == s.serviceKey && o.id !in s.store
    requires o.id !in s.ledger.accepted
    ensures Inventory(Add(s, o))
  {
    var s' := Add(s, o);
    forall id | id in s'.store && id in s'.ledger.accepted ensures Traced(s'.ledger, s'.store[id]) {
      if id != o.id { assert Traced(s.ledger, s.store[id]); }
    }
  }

  lemma AddKeepsWorking(s: State, o: StoredObject)
    requires Working(s) && o.id !in s.ledger.accepted
    ensures Working(Add(s, o))
  {
  }

  lemma AddKeepsOrigins(s: State, o: StoredObject)
    requires ValidOrigins(s) && ValidOrigin(s.serviceKey, o.id, Origin(o, Names(s.fns)))
    ensures ValidOrigins(Add(s, o))
  {
    var s' := Add(s, o);
    forall id | id in s'.ledger.accepted ensures ValidOrigin(s'.serviceKey, id, s'.ledger.accepted[id]) {
      if id != o.id { assert s'.ledger.accepted[id] == s.ledger.accepted[id]; }
    }
  }

  lemma AddKeepsFates(s: State, o: StoredObject)
    requires ValidFates(s.ledger) && NoneLost(s) && o.appServiceKey == s.serviceKey && o.id !in s.ledger.accepted
    ensures ValidFates(Add(s, o).ledger) && NoneLost(Add(s, o))
  {
  }

  lemma AddKeepsInv(s: State, o: StoredObject)
    requires Inv(s) && ValidOrigin(s.serviceKey, o.id, Origin(o, Names(s.fns)))
    requires o.id !in s.store && o.id !in s.ledger.accepted
    ensures Inv(Add(s, o))
  {
    AddKeepsOrigins(s, o);
    AddKeepsFates(s, o);
    AddKeepsInventory(s, o);
    AddKeepsWorking(s, o);
  }

  lemma RemoveKeepsInv(s: State, ok: bool)
    requires Inv(s) && s.removes != []
    ensures Inv(RemoveFirst(s, ok))
  {
  }

  lemma UpdateKeepsInv(s: State, ok: bool)
    requires Inv(s) && s.updates != []
    ensures Inv(UpdateFirst(s, ok))
  {
    assert Traced(s.ledger, s.updates[0]);
  }

  lemma OthersKeepInv(s: State, store: Objects, keys: RedisStore.Keyspace)
    requires Inv(s) && Legal(s, Others(store, keys))
    ensures Inv(s.(store := store))
  {
  }

  lemma RetrieveKeepsInv(s: State, items: seq<StoredObject>)
    requires Inv(s) && IsRetrieval(s.store, s.serviceKey, items)
    ensures Inv(s.(todo := items))
  {
    assert forall i :: 0 <= i < |items| ==> Traced(s.ledger, items[i]);
  }

  lemma StepKeepsInv(s: State, step: Step)
    requires Inv(s) && Legal(s, step)
    ensures Inv(Apply(s, step))
  {
    match step
    case Process(_, _, _, _, _, _, _) =>
      if Added(s, step).Some? {
        AddedIsValid(s, step);
        AddKeepsInv(s, Added(s, step).value);
      }
    case Retrieve(items) => RetrieveKeepsInv(s, items);
    case RetryNext(moment) => RetryKeepsInv(s, moment);
    case RemoveNext(ok) => RemoveKeepsInv(s, ok);
    case UpdateNext(ok) => UpdateKeepsInv(s, ok);
    case SetTransforms(_) =>
    case SetMaxRetry(_) =>
    case Restart =>
    case Others(store, keys) => OthersKeepInv(s, store, keys);
  }

  lemma InitialInv(s: State)
    requires Initial(s)
    ensures Inv(s)
  {
  }

  lemma {:induction false} RunsKeepInv(s: State, steps: seq<Step>)
    requires Inv(s) && LegalRun(s, steps)
    ensures Inv(Exec(s, steps))
    decreases |steps|
  {
    if steps != [] {
      StepKeepsInv(s, steps[0]);
      RunsKeepInv(Apply(s, steps[0]), steps[1..]);
    }
  }

  // In the store, with service key, payload, position and version as accepted; or fate decided.
  ghost predicate Kept(s: State, id: string) {
    var o := s.ledger.accepted;
    && id in o
    && (Decided(s.ledger, id) || (Held(s, id) && SameOrigin(s.store[id], o[id].item)))
    && (id in s.ledger.delivered ==> ValidDelivery(o[id], s.ledger.delivered[id]))
  }

  // No run loses an object: whichever store writes fail, whatever restarts and pipeline changes come
  // in between, an accepted object is in the store as accepted, or its fate has been decided; and what
  // counts as delivered was handed to the function that had failed on it.
  lemma NothingIsLost(s: State, steps: seq<Step>, id: string)
    requires Initial(s) && LegalRun(s, steps) && id in Exec(s, steps).ledger.accepted
    ensures Kept(Exec(s, steps), id)
  {
    InitialInv(s);
    RunsKeepInv(s, steps);
    var e := Exec(s, steps);
    if !Decided(e.ledger, id) { assert Held(e, id) && Traced(e.ledger, e.store[id]); }
  }

  // ---- what the lists of a pass hold, whatever fails ----

  ghost predicate Apart(a: seq<StoredObject>, b: seq<StoredObject>) {
    forall i, j :: 0 <= i < |a| && 0 <= j < |b| ==> a[i].id != b[j].id
  }

  ghost predicate Spread(s: State) {
    && DistinctIds(s.todo) && DistinctIds(s.removes) && DistinctIds(s.updates)
    && Apart(s.todo, s.removes) && Apart(s.todo, s.updates) && Apart(s.removes, s.updates)
  }

  ghost predicate Among(items: seq<StoredObject>, id: string) {
    exists i :: 0 <= i < |items| && items[i].id == id
  }

  ghost predicate StillStored(s: State, items: seq<StoredObject>) {
    forall i :: 0 <= i < |items| ==> items[i].id in s.store && items[i].id in s.ledger.accepted
  }

  // Each object is on one list at most, and none of them leaves the store before its removal.
  ghost predicate Orderly(s: State) {
    Spread(s) && StillStored(s, s.todo) && StillStored(s, s.removes) && StillStored(s, s.updates)
  }

  lemma DecideKeepsOrderly(s: State, verdict: Verdict, delivery: Option<Delivery>)
    requires Orderly(s) && s.todo != []
    ensures Orderly(Decide(s, verdict, delivery))
  {
    DecideKeepsSpread(s, verdict, delivery);
    DecideKeepsStored(s, verdict, delivery);
  }

  lemma DecideKeepsSpread(s: State, verdict: Verdict, delivery: Option<Delivery>)
    requires Spread(s) && s.todo != []
    ensures Spread(Decide(s, verdict, delivery))
  {
    var item := s.todo[0];
    assert Listed(item, verdict).id == item.id;
    assert forall i :: 0 < i < |s.todo| ==> s.todo[i].id != item.id;
  }

  lemma DecideKeepsStored(s: State, verdict: Verdict, delivery: Option<Delivery>)
    requires Orderly(s) && s.todo != []
    ensures var s' := Decide(s, verdict, delivery);
            StillStored(s', s'.todo) && StillStored(s', s'.removes) && StillStored(s', s'.updates)
  {
    assert Listed(s.todo[0], verdict).id == s.todo[0].id;
  }

  lemma RemoveKeepsOrderly(s: State, ok: bool)
    requires Orderly(s) && s.todo == [] && s.removes != []
    ensures Orderly(RemoveFirst(s, ok))
  {
    assert forall i :: 0 <= i < |s.removes| - 1 ==> s.removes[1..][i] == s.removes[i + 1];
  }

  lemma UpdateKeepsOrderly(s: State, ok: bool)
    requires Orderly(s) && s.todo == s.removes == [] && s.updates != []
    ensures Orderly(UpdateFirst(s, ok))
  {
    assert forall i :: 0 <= i < |s.updates| - 1 ==> s.updates[1..][i] == s.updates[i + 1];
  }

  lemma OthersKeepOrderly(s: State, store: Objects, keys: RedisStore.Keyspace)
    requires Inv(s) && Orderly(s) && Legal(s, Others(store, keys))
    ensures Orderly(s.(store := store))
  {
    assert forall id :: id in s.store && id in s.ledger.accepted ==> id in store;
  }

  lemma StepKeepsOrderly(s: State, step: Step)
    requires Inv(s) && Orderly(s) && Legal(s, step)
    ensures Orderly(Apply(s, step))
  {
    match step
    case RetryNext(moment) =>
      DecideKeepsOrderly(s, Judge(s.todo[0], s.fns, s.maxRetry, moment), FirstDelivery(s.todo[0], s.fns, moment));
    case RemoveNext(ok) => RemoveKeepsOrderly(s, ok);
    case UpdateNext(ok) => UpdateKeepsOrderly(s, ok);
    case Others(store, keys) => OthersKeepOrderly(s, store, keys);
    case _ =>
  }

  // ---- exactly one fate, when removals succeed ----

  predicate OneFate(l: Ledger, id: string) {
    && !(id in l.delivered && id in l.expired)
    && !(id in l.delivered && id in l.invalidated)
    && !(id in l.expired && id in l.invalidated)
  }

  // A decided object that is still in the store is about to be removed.
  ghost predicate Settled(s: State) {
    forall id <- s.ledger.accepted ::
      OneFate(s.ledger, id) && (Decided(s.ledger, id) && id in s.store ==> Among(s.removes, id))
  }

  ghost predicate Undecided(s: State, items: seq<StoredObject>) {
    forall i :: 0 <= i < |items| ==> !Decided(s.ledger, items[i].id)
  }

  ghost predicate Tidy(s: State) {
    Settled(s) && Undecided(s, s.todo) && Undecided(s, s.updates)
  }

  // What goes wrong: a removal that fails, or a restart that forgets a removal. Failing updates do no harm.
  predicate Reliable(s: State, step: Step) {
    match step
    case RemoveNext(ok) => ok
    case Restart => s.removes == []
    case _ => true
  }

  lemma DecideKeepsSettled(s: State, verdict: Verdict, delivery: Option<Delivery>)
    requires Settled(s) && s.todo != [] && Undecided(s, s.todo)
    ensures Settled(Decide(s, verdict, delivery))
  {
    var s', id0 := Decide(s, verdict, delivery), s.todo[0].id;
    assert !Decided(s.ledger, id0);
    assert forall id :: Decided(s'.ledger, id) <==> Decided(s.ledger, id) || (verdict != Again && id == id0);
    if verdict != Again {
      assert s'.removes[|s.removes|].id == id0;
    }
    forall id | id in s'.ledger.accepted && Decided(s'.ledger, id) && id in s'.store ensures Among(s'.removes, id) {
      if id != id0 {
        var i :| 0 <= i < |s.removes| && s.removes[i].id == id;
        assert s'.removes[i].id == id;
      }
    }
  }

  lemma DecideKeepsUndecided(s: State, verdict: Verdict, delivery: Option<Delivery>)
    requires Spread(s) && s.todo != [] && Undecided(s, s.todo) && Undecided(s, s.updates)
    ensures var s' := Decide(s, verdict, delivery); Undecided(s', s'.todo) && Undecided(s', s'.updates)
  {
    var s', id0 := Decide(s, verdict, delivery), s.todo[0].id;
    assert forall id :: Decided(s'.ledger, id) ==> Decided(s.ledger, id) || (verdict != Again && id == id0);
    assert forall i :: 0 <= i < |s'.todo| ==> s'.todo[i] == s.todo[i + 1];
    assert Listed(s.todo[0], verdict).id == id0;
  }

  // From a tidy state, a removal keeps it exactly when the store deletes the object. A failed one leaves a
  // decided object to be retried again.
  lemma RemovalExactly(s: State, ok: bool)
    requires Inv(s) && Orderly(s) && Tidy(s) && s.todo == [] && s.removes != []
    ensures Tidy(RemoveFirst(s, ok)) <==> ok
  {
    var s', id0 := RemoveFirst(s, ok), s.removes[0].id;
    assert forall i :: 0 <= i < |s'.removes| ==> s'.removes[i] == s.removes[i + 1];
    if ok {
      forall id | id in s'.ledger.accepted && Decided(s'.ledger, id) && id in s'.store ensures Among(s'.removes, id) {
        var i :| 0 <= i < |s.removes| && s.removes[i].id == id;
        assert s'.removes[i - 1].id == id;
      }
    } else {
      assert Decided(s.ledger, id0) && !Among(s'.removes, id0);
    }
  }

  // So does a restart exactly when it forgets no removal.
  lemma RestartExactly(s: State)
    requires Inv(s) && Orderly(s) && Tidy(s)
    ensures Tidy(Apply(s, Restart)) <==> s.removes == []
  {
    if s.removes != [] {
      assert Decided(s.ledger, s.removes[0].id) && !Among([], s.removes[0].id);
    }
  }

  lemma UpdateKeepsTidy(s: State, ok: bool)
    requires Tidy(s) && s.updates != [] && s.todo == s.removes == []
    ensures Tidy(UpdateFirst(s, ok))
  {
    assert forall i :: 0 <= i < |s.updates| - 1 ==> s.updates[1..][i] == s.updates[i + 1];
  }

  lemma AddKeepsTidy(s: State, o: StoredObject)
    requires Inv(s) && Tidy(s) && o.id !in s.store && o.id !in s.ledger.accepted
    ensures Tidy(Add(s, o))
  {
  }

  lemma OthersKeepTidy(s: State, store: Objects, keys: RedisStore.Keyspace)
    requires Inv(s) && Tidy(s) && Legal(s, Others(store, keys))
    ensures Tidy(s.(store := store))
  {
  }

  lemma RetrieveKeepsTidy(s: State, items: seq<StoredObject>)
    requires Inv(s) && Tidy(s) && Idle(s) && IsRetrieval(s.store, s.serviceKey, items)
    ensures Tidy(s.(todo := items))
  {
    forall i | 0 <= i < |items| ensures !Decided(s.ledger, items[i].id) {
      assert items[i].id in s.store && items[i].id in s.ledger.accepted && !Among(s.removes, items[i].id);
    }
  }

  lemma TidyExactly(s: State, step: Step)
    requires Inv(s) && Orderly(s) && Tidy(s) && Legal(s, step)
    ensures Tidy(Apply(s, step)) <==> Reliable(s, step)
  {
    match step
    case Process(_, _, _, _, _, _, _) =>
      if Added(s, step).Some? {
        AddedIsValid(s, step);
        AddKeepsTidy(s, Added(s, step).value);
      }
    case Retrieve(items) => RetrieveKeepsTidy(s, items);
    case RetryNext(moment) =>
      var verdict, delivery := Judge(s.todo[0], s.fns, s.maxRetry, moment), FirstDelivery(s.todo[0], s.fns, moment);
      DecideKeepsSettled(s, verdict, delivery);
      DecideKeepsUndecided(s, verdict, delivery);
    case RemoveNext(ok) => RemovalExactly(s, ok);
    case UpdateNext(ok) => UpdateKeepsTidy(s, ok);
    case SetTransforms(_) =>
    case SetMaxRetry(_) =>
    case Restart => RestartExactly(s);
    case Others(store, keys) => OthersKeepTidy(s, store, keys);
  }

  // A step that is not reliable leaves an object with two fates at once.
  lemma UnreliableUnsettles(s: State, step: Step)
    requires Inv(s) && Orderly(s) && Tidy(s) && Legal(s, step) && !Reliable(s, step)
    ensures !Settled(Apply(s, step))
  {
    var s', id0 := Apply(s, step), s.removes[0].id;
    assert Decided(s.ledger, id0) && id0 in s'.store && id0 in s'.ledger.accepted;
    assert forall i :: 0 <= i < |s'.removes| ==> s'.removes[i] == s.removes[i + 1];
    assert !Among(s'.removes, id0);
  }

  function Ones(stored: bool, delivered: bool, expired: bool, invalidated: bool): nat {
    (if stored then 1 else 0) + (if delivered then 1 else 0)
    + (if expired then 1 else 0) + (if invalidated then 1 else 0)
  }

  // Exactly one of: stored (and not about to be removed), delivered, expired, invalidated; between
  // passes, that is simply the store and the three fates.
  ghost predicate ExactlyOneFate(s: State, id: string) {
    var l := s.ledger;
    && Ones(Held(s, id) && !Among(s.removes, id), id in l.delivered, id in l.expired, id in l.invalidated) == 1
    && (Idle(s) ==> Ones(Held(s, id), id in l.delivered, id in l.expired, id in l.invalidated) == 1)
  }

  ghost predicate Conserves(s: State) {
    forall id <- s.ledger.accepted :: ExactlyOneFate(s, id)
  }

  lemma SettledConserves(s: State)
    requires Inv(s)
    ensures Conserves(s) <==> Settled(s)
  {
    if Settled(s) {
      forall id | id in s.ledger.accepted ensures ExactlyOneFate(s, id) { SettledObject(s, id); }
    } else {
      var id :|
        && id in s.ledger.accepted
        && !(OneFate(s.ledger, id) && (Decided(s.ledger, id) && id in s.store ==> Among(s.removes, id)));
      assert id in s.store ==> Held(s, id);
      assert !ExactlyOneFate(s, id);
    }
  }

  lemma SettledObject(s: State, id: string)
    requires Inv(s) && Settled(s) && id in s.ledger.accepted
    ensures ExactlyOneFate(s, id)
  {
    assert id in s.store ==> Held(s, id);
    assert forall i :: 0 <= i < |s.removes| ==> Decided(s.ledger, s.removes[i].id);
    assert !Decided(s.ledger, id) ==> !Among(s.removes, id);
  }

  ghost predicate ConservedThroughout(s: State, steps: seq<Step>)
    requires LegalRun(s, steps)
    decreases |steps|
  {
    Conserves(s) && (steps != [] ==> ConservedThroughout(Apply(s, steps[0]), steps[1..]))
  }

  ghost predicate ReliableThroughout(s: State, steps: seq<Step>)
    requires LegalRun(s, steps)
    decreases |steps|
  {
    steps != [] ==> Reliable(s, steps[0]) && ReliableThroughout(Apply(s, steps[0]), steps[1..])
  }

  lemma {:induction false} ConservationFrom(s: State, steps: seq<Step>)
    requires Inv(s) && Orderly(s) && Tidy(s) && LegalRun(s, steps)
    ensures ConservedThroughout(s, steps) <==> ReliableThroughout(s, steps)
    decreases |steps|
  {
    SettledConserves(s);
    if steps != [] {
      StepKeepsInv(s, steps[0]);
      StepKeepsOrderly(s, steps[0]);
      TidyExactly(s, steps[0]);
      if Reliable(s, steps[0]) {
        ConservationFrom(Apply(s, steps[0]), steps[1..]);
      } else {
        UnreliableUnsettles(s, steps[0]);
        SettledConserves(Apply(s, steps[0]));
      }
    }
  }

  // Conservation: over any run from an initial state, every accepted object is at all times in exactly one
  // of stored, delivered, expired, invalidated, exactly when no removal fails and no restart forgets one.
  lemma Conservation(s: State, steps: seq<Step>)
    requires Initial(s) && LegalRun(s, steps)
    ensures ConservedThroughout(s, steps) <==> ReliableThroughout(s, steps)
  {
    InitialInv(s);
    ConservationFrom(s, steps);
  }

  // ---- what a message stores, and what its retry is ----

  // Of a message step: the failed run left its last call's payload, and nothing keeps it from being stored.
  ghost predicate StoresPayload(s: State, step: Step, run: Run, last: Outcome)
    requires step.Process?
  {
    && run.error.Some? && last.sets.Some? && last.sets.value != []
    && step.enabled && step.up && s.serviceKey != ""
    && ParseUuid(step.generated).Some? && ParseUuid(step.generated).value !in s.store
  }

  // The object is what the call left, for the event of the message, to be resumed at the call's position.
  ghost predicate StoredFrom(s: State, step: Step, c: Call, last: Outcome, o: StoredObject)
    requires step.Process?
  {
    && last.sets == Some(o.payload) && o.pipelinePosition == c.position && o.retryCount == 0
    && o.correlationID == step.ids.correlationID && o.eventID == step.ids.eventID
    && o.eventChecksum == step.ids.eventChecksum
    && o.appServiceKey == s.serviceKey && o.version == Hash(Names(s.fns)) && Some(o.id) == ParseUuid(step.generated)
  }

  // A message adds an object exactly when its run failed at a call that set a payload and nothing keeps that
  // from being stored; and then the object is what that call left.
  lemma AddedExactly(s: State, step: Step)
    requires step.Process?
    ensures var a := Attempt(s.fns, step.moment, step.ids, step.target, step.contentType, false);
            var run := RunFrom(a, Nil, 0);
            var n, added := |run.calls|, Added(s, step);
            && (n == 0 ==> added == None)
            && (n > 0 ==>
                  var c := run.calls[n - 1];
                  && c.position < |s.fns|
                  && (added.Some? <==> StoresPayload(s, step, run, Answer(a, c)))
                  && (added.Some? ==> StoredFrom(s, step, c, Answer(a, c), added.value)))
  {
    var a := Attempt(s.fns, step.moment, step.ids, step.target, step.contentType, false);
    var run := RunFrom(a, Nil, 0);
    RunIsTrace(a, Nil, 0);
    if run.handedOff.Some? {
      ValidateExactly(NewItem(s.serviceKey, step.ids, run.handedOff.value, Hash(Names(s.fns))), false, step.generated);
    }
  }

  // From end to end: the first call a retry makes of what a message has stored is of the very function that
  // failed, on the payload it left, for the same event, as long as the pipeline is the same.
  lemma RetryResumesMessage(s: State, step: Step, moment: nat)
    requires step.Process? && Added(s, step).Some?
    ensures var a := Attempt(s.fns, step.moment, step.ids, step.target, step.contentType, false);
            var failed, o := RunFrom(a, Nil, 0).calls, Added(s, step).value;
            var calls := Resumed(o, s.fns, moment).calls;
            && failed != [] && calls != []
            && calls[0].position == failed[|failed| - 1].position < |s.fns|
            && Answer(a, failed[|failed| - 1]).sets == Some(o.payload)
            && calls[0].input == Raw(o.payload) && calls[0].contentType == Some("")
            && Ids(o.correlationID, o.eventID, o.eventChecksum) == step.ids
            && Matches(o, s.fns)
  {
    var a := Attempt(s.fns, step.moment, step.ids, step.target, step.contentType, false);
    var o := Added(s, step).value;
    AddedExactly(s, step);
    RunIsTrace(a, Nil, 0);
    RunIsTrace(Attempt(s.fns, moment, step.ids, Raw(o.payload), "", true), Nil, o.pipelinePosition);
  }

  // ---- what a retry does to the ledger and the lists ----

  // The item retried is recorded under exactly one of: a version mismatch, which is no attempt; a success; a
  // failure that exhausts its count; or a failure that leaves it to be updated.
  lemma RetryRecords(s: State, moment: nat)
    requires s.todo != []
    ensures var s', item := Apply(s, RetryNext(moment)), s.todo[0];
            var id, l, l' := item.id, s.ledger, s'.ledger;
            var matches, fails := Matches(item, s.fns), Fails(item, s.fns, moment);
            && (id in l'.invalidated <==> id in l.invalidated || !matches)
            && (id in l'.delivered <==> id in l.delivered || (matches && !fails))
            && (id in l'.expired <==> id in l.expired || (matches && fails && Exhausted(item, s.maxRetry)))
            && Attempts(l', id) == Attempts(l, id) + (if matches then 1 else 0)
            && (forall other :: other != id ==>
                                  && (other in l'.invalidated <==> other in l.invalidated)
                                  && (other in l'.delivered <==> other in l.delivered)
                                  && (other in l'.expired <==> other in l.expired)
                                  && Attempts(l', other) == Attempts(l, other))
            && l'.accepted == l.accepted && s'.todo == s.todo[1..]
            && (if Stays(item, s.fns, s.maxRetry, moment) then
                  s'.removes == s.removes && s'.updates == s.updates + [item.(retryCount := item.retryCount + 1)]
                else
                  s'.updates == s.updates
                  && var tried := if matches && fails then 1 else 0;
                  s'.removes == s.removes + [item.(retryCount := item.retryCount + tried)])
  {
    JudgeExactly(s.todo[0], s.fns, s.maxRetry, moment);
  }

  // ---- an undisturbed pass is the retry loop's tick ----

  lemma {:induction false} ExecAppend(s: State, a: seq<Step>, b: seq<Step>)
    requires LegalRun(s, a) && LegalRun(Exec(s, a), b)
    ensures LegalRun(s, a + b) && Exec(s, a + b) == Exec(Exec(s, a), b)
    decreases |a|
  {
    if a == [] {
      assert a + b == b;
    } else {
      assert (a + b)[1..] == a[1..] + b;
      ExecAppend(Apply(s, a[0]), a[1..], b);
    }
  }

  lemma OneStep(s: State, step: Step)
    requires Legal(s, step)
    ensures LegalRun(s, [step]) && Exec(s, [step]) == Apply(s, step)
  {
    assert [step][1..] == [];
  }

  // The ledger after the first n items of the pass.
  function RecordAll(l: Ledger, p: Pass, n: nat): Ledger
    requires n <= |p.items|
  {
    if n == 0 then l
    else
      var item := p.items[n - 1];
      Record(RecordAll(l, p, n - 1), item.id, VerdictOf(p, n - 1), FirstDelivery(item, p.fns, p.clock(n - 1)))
  }

  ghost predicate ConstantMaximum(steps: seq<Step>) {
    forall i :: 0 <= i < |steps| ==> !steps[i].SetMaxRetry?
  }

  // The state in which n items of the pass have been retried.
  ghost predicate Retried(s: State, p: Pass, n: nat, e: State)
    requires n <= |p.items|
  {
    var lists := Sorted(p, n);
    e == s.(todo := p.items[n..], removes := lists.0, updates := lists.1, ledger := RecordAll(s.ledger, p, n))
  }

  lemma OneRetry(s: State, p: Pass, n: nat, e: State)
    requires s.fns == p.fns && s.maxRetry == p.maxRetry && n < |p.items| && Retried(s, p, n, e)
    ensures Legal(e, RetryNext(p.clock(n))) && Retried(s, p, n + 1, Apply(e, RetryNext(p.clock(n))))
  {
    assert e.todo[0] == p.items[n] && e.todo[1..] == p.items[n + 1..];
  }

  lemma RetryOneMore(s: State, p: Pass, n: nat, before: seq<Step>) returns (steps: seq<Step>)
    requires s.fns == p.fns && s.maxRetry == p.maxRetry && n < |p.items|
    requires LegalRun(s, before) && Retried(s, p, n, Exec(s, before))
    ensures steps == before + [RetryNext(p.clock(n))]
    ensures LegalRun(s, steps) && Retried(s, p, n + 1, Exec(s, steps))
  {
    var e, last := Exec(s, before), RetryNext(p.clock(n));
    OneRetry(s, p, n, e);
    OneStep(e, last);
    ExecAppend(s, before, [last]);
    steps := before + [last];
  }

  lemma {:induction false} RetryPhase(s: State, p: Pass, n: nat) returns (steps: seq<Step>)
    requires s.todo == p.items && s.removes == s.updates == [] && s.fns == p.fns && s.maxRetry == p.maxRetry
    requires n <= |p.items|
    ensures LegalRun(s, steps) && ConstantMaximum(steps) && Retried(s, p, n, Exec(s, steps))
  {
    if n == 0 {
      steps := [];
    } else {
      var before := RetryPhase(s, p, n - 1);
      steps := RetryOneMore(s, p, n - 1, before);
    }
  }

  lemma {:induction false} RemovePhase(s: State, ok: string -> bool) returns (steps: seq<Step>)
    requires s.todo == []
    ensures LegalRun(s, steps) && ConstantMaximum(steps)
    ensures Exec(s, steps) == s.(removes := [], store := RemoveEach(s.store, s.removes, ok))
    decreases |s.removes|
  {
    if s.removes == [] {
      steps := [];
    } else {
      var first := RemoveNext(ok(s.removes[0].id));
      var rest := RemovePhase(Apply(s, first), ok);
      steps := [first] + rest;
      assert steps[1..] == rest;
    }
  }

  lemma {:induction false} UpdatePhase(s: State, ok: string -> bool) returns (steps: seq<Step>)
    requires s.todo == [] && s.removes == []
    ensures LegalRun(s, steps) && ConstantMaximum(steps)
    ensures Exec(s, steps) == s.(updates := [], store := UpdateEach(s.store, s.updates, ok))
    decreases |s.updates|
  {
    if s.updates == [] {
      steps := [];
    } else {
      var first := UpdateNext(ok(s.updates[0].id));
      var rest := UpdatePhase(Apply(s, first), ok);
      steps := [first] + rest;
      assert steps[1..] == rest;
    }
  }

  // What GolangRuntime.ProcessMessage does to the store is one of these steps.
  lemma MessageIsAStep(s: State, moment: nat, ids: Ids, target: Value, contentType: string, enabled: bool,
                       generated: string, up: bool)
    requires Legal(s, Process(moment, ids, target, contentType, enabled, generated, up))
    ensures Apply(s, Process(moment, ids, target, contentType, enabled, generated, up)).store
         == match MessageRun(s.fns, moment, ids, target, contentType).handedOff
            case None => s.store
            case Some(h) =>
              AfterStore(s.store, NewItem(s.serviceKey, ids, h, Hash(Names(s.fns))), enabled, generated, up)
  {
  }

  // What GolangRuntime.RetryStoredData does is a run of these steps that nothing interrupts.
  lemma PassIsARun(s: State, p: Pass, removeOk: string -> bool, updateOk: string -> bool) returns (steps: seq<Step>)
    requires Idle(s) && IsRetrieval(s.store, s.serviceKey, p.items) && s.fns == p.fns && s.maxRetry == p.maxRetry
    ensures LegalRun(s, steps) && ConstantMaximum(steps)
    ensures Exec(s, steps) ==
            s.(store := AfterPass(s.store, p, removeOk, updateOk), ledger := RecordAll(s.ledger, p, |p.items|))
  {
    var first := [Retrieve(p.items)];
    var s0 := Apply(s, first[0]);
    OneStep(s, first[0]);
    var retries := RetryPhase(s0, p, |p.items|);
    var s1 := Exec(s0, retries);
    var removals := RemovePhase(s1, removeOk);
    var s2 := Exec(s1, removals);
    var updates := UpdatePhase(s2, updateOk);
    ExecAppend(s, first, retries);
    ExecAppend(s, first + retries, removals);
    ExecAppend(s, first + retries + removals, updates);
    steps := first + retries + removals + updates;
  }
}
