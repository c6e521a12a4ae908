// The two store clients side by side: for which calls they hold the same objects and answer alike.

module StoreAgreement {
  import opened Wrappers
  import opened Contracts
  import RedisStore
  import MongoStore

  type Objects = map<string, StoredObject>

  datatype Op = Store(o: StoredObject, generated: string) | Update(o: StoredObject) | Remove(o: StoredObject)

  function Validated(op: Op): Result<StoredObject> {
    match op
    case Store(o, generated) => ValidateContract(o, false, generated)
    case Update(o) => ValidateContract(o, true, "")
    case Remove(o) => ValidateContract(o, true, "")
  }

  predicate Present(m: Objects, op: Op) {
    Validated(op).Success? && Validated(op).value.id in m
  }

  // An update or removal of a present object carries the service key it is stored under.
  predicate Disciplined(m: Objects, op: Op) {
    !op.Store? && Present(m, op) ==>
      m[Validated(op).value.id].appServiceKey == Validated(op).value.appServiceKey
  }

  // The plain map the disciplined calls act on.
  function After(m: Objects, op: Op): Objects {
    var v := Validated(op);
    if v.Failure? then m
    else match op
         case Store(_, _) => if v.value.id in m then m else m[v.value.id := v.value]
         case Update(_) => if v.value.id in m then m[v.value.id := v.value] else m
         case Remove(_) => m - {v.value.id}
  }

  function Replay(m: Objects, ops: seq<Op>): Objects
    decreases |ops|
  {
    if ops == [] then m else Replay(After(m, ops[0]), ops[1..])
  }

  predicate AllDisciplined(m: Objects, ops: seq<Op>)
    decreases |ops|
  {
    ops != [] ==> Disciplined(m, ops[0]) && AllDisciplined(After(m, ops[0]), ops[1..])
  }

  // What one call leaves behind when both clients held the objects `was`: they agree on the objects
  // exactly when the call is disciplined; they give the same kind of answer exactly when, besides,
  // an update or removal names a present object (Mongo reports no missing object).
  ghost predicate Agree(was: Objects, op: Op, redis: RedisStore.Client, mongo: MongoStore.Client, redisOk: bool,
                        mongoOk: bool)
    reads redis, mongo
  {
    var v := Validated(op);
    && MongoStore.ValidCollection(mongo.docs)
    && (Disciplined(was, op) ==> redis.Valid() && redis.objects == MongoStore.ObjectsOf(mongo.docs) == After(was, op))
    && (!Disciplined(was, op) ==> !RedisStore.Represents(redis.keys, MongoStore.ObjectsOf(mongo.docs)))
    && (redisOk == mongoOk <==> (op.Store? || v.Failure? || Present(was, op)))
  }

  // What Mongo makes of the objects is what the plain map does, for disciplined calls.
  lemma MongoIsPlain(m: Objects, op: Op)
    requires !op.Store? && Validated(op).Success? && Disciplined(m, op)
    ensures var v := Validated(op).value;
            After(m, op) ==
            if op.Update? then MongoStore.Updated(m, v) else MongoStore.Removed(m, v.id, v.appServiceKey)
  {
    var v := Validated(op).value;
    assert v.id !in m ==> m - {v.id} == m;
  }

  method StoreBoth(redis: RedisStore.Client, mongo: MongoStore.Client, o: StoredObject, generated: string,
                   objectID: nat)
    returns (redisOk: bool, mongoOk: bool)
    requires redis.Valid() && MongoStore.ValidCollection(mongo.docs)
    requires redis.objects == MongoStore.ObjectsOf(mongo.docs)
    modifies redis, mongo
    ensures Agree(old(redis.objects), Store(o, generated), redis, mongo, redisOk, mongoOk)
  {
    var r := redis.Store(o, generated, true);
    var s := mongo.Store(o, generated, objectID, true, true);
    redisOk, mongoOk := r.Success?, s.Success?;
  }

  method UpdateBoth(redis: RedisStore.Client, mongo: MongoStore.Client, o: StoredObject)
    returns (redisOk: bool, mongoOk: bool)
    requires redis.Valid() && MongoStore.ValidCollection(mongo.docs)
    requires redis.objects == MongoStore.ObjectsOf(mongo.docs)
    modifies redis, mongo
    ensures Agree(old(redis.objects), Update(o), redis, mongo, redisOk, mongoOk)
  {
    ghost var was := redis.objects;
    if Validated(Update(o)).Success? && Disciplined(was, Update(o)) { MongoIsPlain(was, Update(o)); }
    var r := redis.Update(o, true);
    var s := mongo.Update(o, true);
    redisOk, mongoOk := r.Success?, s.Success?;
    ghost var m := MongoStore.ObjectsOf(mongo.docs);
    assert !Disciplined(was, Update(o)) ==> redis.objects != m;
    if RedisStore.Represents(redis.keys, m) {
      RedisStore.RepresentsOne(redis.keys, redis.objects, m);
    }
  }

  method RemoveBoth(redis: RedisStore.Client, mongo: MongoStore.Client, o: StoredObject)
    returns (redisOk: bool, mongoOk: bool)
    requires redis.Valid() && MongoStore.ValidCollection(mongo.docs)
    requires redis.objects == MongoStore.ObjectsOf(mongo.docs)
    modifies redis, mongo
    ensures Agree(old(redis.objects), Remove(o), redis, mongo, redisOk, mongoOk)
  {
    ghost var was := redis.objects;
    if Validated(Remove(o)).Success? && Disciplined(was, Remove(o)) { MongoIsPlain(was, Remove(o)); }
    var s := mongo.RemoveFromStore(o, true);
    var r := redis.RemoveFromStore(o, true);
    redisOk, mongoOk := r.Success?, s.Success?;
    assert !Disciplined(was, Remove(o)) ==> !RedisStore.Represents(redis.keys, MongoStore.ObjectsOf(mongo.docs));
  }

  // One call on both clients, each server answering.
  method CallBoth(redis: RedisStore.Client, mongo: MongoStore.Client, op: Op, objectID: nat)
    returns (redisOk: bool, mongoOk: bool)
    requires redis.Valid() && MongoStore.ValidCollection(mongo.docs)
    requires redis.objects == MongoStore.ObjectsOf(mongo.docs)
    modifies redis, mongo
    ensures Agree(old(redis.objects), op, redis, mongo, redisOk, mongoOk)
  {
    match op
    case Store(o, generated) => redisOk, mongoOk := StoreBoth(redis, mongo, o, generated, objectID);
    case Update(o) => redisOk, mongoOk := UpdateBoth(redis, mongo, o);
    case Remove(o) => redisOk, mongoOk := RemoveBoth(redis, mongo, o);
  }

  // Every disciplined sequence of calls leaves both clients with the same objects, those of the
  // plain map, and a retrieval then returns the same objects from both, each once, equal in all
  // but the three optional strings.
  method RunBoth(redis: RedisStore.Client, mongo: MongoStore.Client, ops: seq<Op>, appServiceKey: string)
    returns (fromRedis: Result<seq<StoredObject>>, fromMongo: Result<seq<StoredObject>>)
    requires redis.Valid() && MongoStore.ValidCollection(mongo.docs)
    requires redis.objects == MongoStore.ObjectsOf(mongo.docs)
    requires AllDisciplined(redis.objects, ops)
    modifies redis, mongo
    ensures redis.Valid() && MongoStore.ValidCollection(mongo.docs)
    ensures redis.objects == MongoStore.ObjectsOf(mongo.docs) == Replay(old(redis.objects), ops)
    ensures fromRedis.Success? == fromMongo.Success? == (appServiceKey != "")
    ensures fromRedis.Success? ==>
              && |fromRedis.value| == |RedisStore.IdsOf(redis.objects, appServiceKey)|
              && EachHasTwin(fromRedis.value, fromMongo.value)
              && EachHasTwin(fromMongo.value, fromRedis.value)
  {
    var i := 0;
    assert ops[0..] == ops;
    while i < |ops|
      invariant 0 <= i <= |ops|
      invariant redis.Valid() && MongoStore.ValidCollection(mongo.docs)
      invariant redis.objects == MongoStore.ObjectsOf(mongo.docs)
      invariant AllDisciplined(redis.objects, ops[i..])
      invariant Replay(redis.objects, ops[i..]) == Replay(old(redis.objects), ops)
    {
      assert ops[i..][1..] == ops[i + 1..];
      var r, s := CallBoth(redis, mongo, ops[i], i);
      i := i + 1;
    }
    ghost var order;
    fromRedis, order := redis.RetrieveFromStore(appServiceKey, true);
    fromMongo := mongo.RetrieveFromStore(appServiceKey, true);
    if appServiceKey != "" {
      forall i | 0 <= i < |order| ensures order[i] in redis.objects { assert order[i] in order; }
      Twins(redis.objects, mongo.docs, appServiceKey, order, fromRedis.value, fromMongo.value);
    }
  }

  ghost predicate EachHasTwin(a: seq<StoredObject>, b: seq<StoredObject>) {
    forall x <- a :: exists y <- b :: SameCore(x, y)
  }

  lemma Twins(m: Objects, docs: seq<MongoStore.Document>, appServiceKey: string, order: seq<string>,
              fromRedis: seq<StoredObject>, fromMongo: seq<StoredObject>)
    requires MongoStore.ValidCollection(docs) && m == MongoStore.ObjectsOf(docs)
    requires RedisStore.IsEnumeration(order, RedisStore.IdsOf(m, appServiceKey))
    requires |fromRedis| == |order|
    requires forall i :: 0 <= i < |order| ==> order[i] in m && SameCore(fromRedis[i], m[order[i]])
    requires fromMongo == MongoStore.FindAll(docs, appServiceKey)
    ensures |fromRedis| == |RedisStore.IdsOf(m, appServiceKey)|
    ensures EachHasTwin(fromRedis, fromMongo) && EachHasTwin(fromMongo, fromRedis)
  {
    MongoStore.FindServes(docs, appServiceKey);
    EnumerationLength(order, RedisStore.IdsOf(m, appServiceKey));
    forall x | x in fromRedis ensures exists y <- fromMongo :: SameCore(x, y) {
      var i :| 0 <= i < |fromRedis| && fromRedis[i] == x;
      assert order[i] in order;
      MongoStore.ObjectsAreWellFormed(docs, order[i]);
      assert m[order[i]] in fromMongo;
    }
    forall x | x in fromMongo ensures exists y <- fromRedis :: SameCore(x, y) {
      assert x.id in order;
      var i :| 0 <= i < |order| && order[i] == x.id;
      assert fromRedis[i] in fromRedis && SameCore(x, fromRedis[i]);
    }
  }

  lemma {:induction false} EnumerationLength(order: seq<string>, ids: set<string>)
    requires RedisStore.IsEnumeration(order, ids)
    ensures |order| == |ids|
  {
    if order == [] {
      assert ids == {};
    } else {
      assert order[0] in ids;
      forall id ensures id in order[1..] <==> id in ids - {order[0]} {
        if id in order && id != order[0] {
          var i :| 0 <= i < |order| && order[i] == id;
          assert order[1..][i - 1] == id;
        }
      }
      EnumerationLength(order[1..], ids - {order[0]});
    }
  }
}
