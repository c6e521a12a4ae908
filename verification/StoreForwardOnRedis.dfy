// The runs of StoreForwardRuns, carried out on a Redis keyspace.

module StoreForwardOnRedis {
  import opened Wrappers
  import opened Contracts
  import opened StoreForward
  import opened StoreForwardRuns
  import RedisModels
  import RedisStore

  // What a step's store call does to the keyspace.
  function OnRedis(s: State, step: Step, keys: RedisStore.Keyspace): RedisStore.Keyspace {
    match step
    case Process(_, _, _, _, _, _, _) =>
      if Added(s, step).Some? then RedisStore.StoreCommands(keys, Added(s, step).value) else keys
    case RemoveNext(ok) => if ok && s.removes != [] then RedisStore.RemoveCommands(keys, s.removes[0]) else keys
    case UpdateNext(ok) =>
      // HGET finds the service key of a present object; for an absent one Update gives up.
      if ok && s.updates != [] && s.updates[0].id in s.store then
        RedisStore.UpdateCommands(keys, s.store[s.updates[0].id].appServiceKey, s.updates[0])
      else keys
    case Others(_, keys') => keys'
    case _ => keys
  }

  ghost function ExecOnRedis(s: State, steps: seq<Step>, keys: RedisStore.Keyspace): RedisStore.Keyspace
    requires LegalRun(s, steps)
    decreases |steps|
  {
    if steps == [] then keys else ExecOnRedis(Apply(s, steps[0]), steps[1..], OnRedis(s, steps[0], keys))
  }

  lemma StepOnRedis(s: State, step: Step, keys: RedisStore.Keyspace)
    requires Inv(s) && Legal(s, step) && RedisStore.Represents(keys, s.store)
    ensures RedisStore.Represents(OnRedis(s, step, keys), Apply(s, step).store)
  {
    match step
    case Process(_, _, _, _, _, _, _) =>
      if Added(s, step).Some? {
        AddedIsValid(s, step);
        RedisStore.StoreAdds(keys, s.store, Added(s, step).value);
      }
    case RemoveNext(ok) =>
      var item := s.removes[0];
      ItemIsDisciplined(s, item);
      if ok { RedisStore.RemoveDeletes(keys, s.store, item); }
    case UpdateNext(ok) =>
      var item := s.updates[0];
      ItemIsDisciplined(s, item);
      if ok && item.id in s.store { RedisStore.UpdateReplaces(keys, s.store, item); }
    case _ =>
  }

  // Every removal and update the retry loop makes is of a well-formed object and, if that is present,
  // carries the service key it is stored under.
  lemma ItemIsDisciplined(s: State, item: StoredObject)
    requires Inv(s) && Traced(s.ledger, item)
    ensures WellFormed(item) && (item.id in s.store ==> s.store[item.id].appServiceKey == item.appServiceKey)
  {
    assert ValidOrigin(s.serviceKey, item.id, s.ledger.accepted[item.id]);
  }

  // On Redis every run keeps the keyspace representing the store, whichever writes fail and whatever
  // is interleaved; so after any run no set of ids has a dangling member, and retrieval serves
  // exactly what the next pass may be given.
  lemma {:induction false} RunsOnRedis(s: State, steps: seq<Step>, keys: RedisStore.Keyspace)
    requires Inv(s) && LegalRun(s, steps) && RedisStore.Represents(keys, s.store)
    ensures RedisStore.Represents(ExecOnRedis(s, steps, keys), Exec(s, steps).store)
    decreases |steps|
  {
    if steps != [] {
      StepOnRedis(s, steps[0], keys);
      StepKeepsInv(s, steps[0]);
      RunsOnRedis(Apply(s, steps[0]), steps[1..], OnRedis(s, steps[0], keys));
    }
  }

  lemma RetrievalOnRedis(s: State, keys: RedisStore.Keyspace, order: seq<string>)
    requires Inv(s) && Idle(s) && RedisStore.Represents(keys, s.store)
    requires var members := RedisStore.Smembers(keys, RedisStore.IdlKey(s.serviceKey));
             members.Success? && RedisStore.IsEnumeration(order, members.value)
    ensures var r := RedisStore.DecodeReplies(RedisModels.ZERO, RedisStore.Mget(keys, order));
            r.Success? && Legal(s, Retrieve(r.value))
  {
    RedisStore.RetrieveServes(keys, s.store, s.serviceKey, order);
    forall i | 0 <= i < |order| ensures order[i] in s.store { assert order[i] in order; }
    var items := RedisStore.DecodeReplies(RedisModels.ZERO, RedisStore.Mget(keys, order)).value;
    forall i | 0 <= i < |order|
      ensures SameCore(items[i], s.store[order[i]]) && s.store[order[i]].appServiceKey == s.serviceKey {
      assert order[i] in order;
    }
    forall id | id in s.store && s.store[id].appServiceKey == s.serviceKey
      ensures exists i :: 0 <= i < |items| && items[i].id == id {
      assert id in order;
      var i :| 0 <= i < |order| && order[i] == id;
      assert items[i].id == id;
    }
  }

  // ---- what retrieval leaks, the next update writes back ----

  // The optional strings an object lacks are lacking in the first n objects too.
  ghost predicate NothingLeaks(objects: seq<StoredObject>, o: StoredObject, n: nat)
    requires n <= |objects|
  {
    && (o.correlationID == "" ==> forall j :: 0 <= j < n ==> objects[j].correlationID == "")
    && (o.eventID == "" ==> forall j :: 0 <= j < n ==> objects[j].eventID == "")
    && (o.eventChecksum == "" ==> forall j :: 0 <= j < n ==> objects[j].eventChecksum == "")
  }

  // A pass without store errors over a Redis retrieval leaves an item that is to be retried again with each
  // optional string the last nonempty one of the objects retrieved up to it. So only its count has changed
  // exactly when no string it lacks is in an object retrieved before it.
  lemma LeaksPersist(m: Objects, serviceKey: string, order: seq<string>, p: Pass, i: nat)
    requires RedisStore.ValidObjects(m) && RedisStore.IsEnumeration(order, RedisStore.IdsOf(m, serviceKey))
    requires forall id <- order :: id in m
    requires p.items == RedisModels.DecodeAll(RedisModels.ZERO, RedisModels.Marshalled(RedisStore.ObjectsAt(m, order)))
    requires i < |p.items| && VerdictOf(p, i) == Again
    ensures var objects := RedisStore.ObjectsAt(m, order);
            var o, after := objects[i], Get(CleanPass(m, p), objects[i].id);
            && after == Some(Bumped(p.items[i]))
            && RedisModels.CarriesOver(p.items[i], RedisModels.ZERO, objects[..i + 1])
            && (after == Some(Bumped(o)) <==> NothingLeaks(objects, o, i))
  {
    var objects, yes := RedisStore.ObjectsAt(m, order), (id: string) => true;
    ServedObjects(m, serviceKey, order);
    ServedItems(objects, p.items);
    PassDecides(m, p, i, yes, yes);
    RedisModels.SharedTarget(RedisModels.ZERO, objects, i);
    RedisModels.RetrievedExactly(objects, i);
    assert Bumped(p.items[i]) == Bumped(objects[i]) <==> p.items[i] == objects[i];
  }

  lemma ServedObjects(m: Objects, serviceKey: string, order: seq<string>)
    requires RedisStore.ValidObjects(m) && RedisStore.IsEnumeration(order, RedisStore.IdsOf(m, serviceKey))
    requires forall id <- order :: id in m
    ensures forall o <- RedisStore.ObjectsAt(m, order) :: WellFormed(o)
    ensures forall j :: 0 <= j < |order| ==> RedisStore.ObjectsAt(m, order)[j].id == order[j]
  {
  }

  lemma ServedItems(objects: seq<StoredObject>, items: seq<StoredObject>)
    requires forall o <- objects :: WellFormed(o)
    requires items == RedisModels.DecodeAll(RedisModels.ZERO, RedisModels.Marshalled(objects))
    ensures forall j :: 0 <= j < |objects| ==> items[j].id == objects[j].id
  {
    forall j | 0 <= j < |objects| ensures items[j].id == objects[j].id {
      RedisModels.SharedTarget(RedisModels.ZERO, objects, j);
      assert objects[..j + 1][j] == objects[j];
    }
  }
}
