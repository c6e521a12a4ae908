// internal/store/db/redis/store.go: three key families in one keyspace, and the plain map they implement.

module RedisStore {
  import opened Wrappers
  import opened Contracts
  import opened RedisModels

  // ---- the Redis commands the client sends ----

  datatype Entry =
    | Json(document: Document)
    | Members(ids: set<string>)
    | Hash(fields: map<string, string>)

  type Keyspace = map<string, Entry>

  function Set(ks: Keyspace, key: string, d: Document): Keyspace {
    ks[key := Json(d)]
  }

  // SADD, SREM and HSET on a key of another type are errors that change nothing.
  function Sadd(ks: Keyspace, key: string, id: string): Keyspace {
    if key !in ks then ks[key := Members({id})]
    else if ks[key].Members? then ks[key := Members(ks[key].ids + {id})]
    else ks
  }

  // A set that loses its last member is removed from the keyspace.
  function Srem(ks: Keyspace, key: string, id: string): Keyspace {
    if key !in ks || !ks[key].Members? then ks
    else if ks[key].ids - {id} == {} then ks - {key}
    else ks[key := Members(ks[key].ids - {id})]
  }

  function Hset(ks: Keyspace, key: string, field: string, value: string): Keyspace {
    if key !in ks then ks[key := Hash(map[field := value])]
    else if ks[key].Hash? then ks[key := Hash(ks[key].fields[field := value])]
    else ks
  }

  function Unlink(ks: Keyspace, key: string): Keyspace {
    ks - {key}
  }

  // ---- the key families ----

  const IDL := "store:idl:"
  const ASK := "store:ask:"

  function IdlKey(appServiceKey: string): string { IDL + appServiceKey }

  function AskKey(id: string): string { ASK + id }

  datatype Family = Plain | IdlOf(appServiceKey: string) | AskOf(id: string)

  // The one family a key can belong to.
  function FamilyOf(key: string): Family {
    if |key| >= 10 && key[..10] == IDL then IdlOf(key[10..])
    else if |key| >= 10 && key[..10] == ASK then AskOf(key[10..])
    else Plain
  }

  // Keys of the single keyspace never collide: the family and its argument can be read back from
  // the key, and a canonical UUID, which begins with a digit or a-f, is in neither prefixed family.
  lemma KeysNeverCollide(key: string, id: string, a: string)
    ensures FamilyOf(key) == IdlOf(a) <==> key == IdlKey(a)
    ensures FamilyOf(key) == AskOf(id) <==> key == AskKey(id)
    ensures IsCanonical(key) ==> FamilyOf(key) == Plain
    ensures IdlKey(a) == "store:idl:" + a && AskKey(id) == "store:ask:" + id
  {
    assert IdlKey(a)[..10] == IDL && IdlKey(a)[10..] == a;
    assert AskKey(id)[..10] == ASK && AskKey(id)[10..] == id;
    assert IDL[6] == 'i' && ASK[6] == 'a';
    if |key| >= 10 {
      assert key == key[..10] + key[10..];
      assert key[..10][0] == key[0];
    }
    if IsCanonical(key) {
      assert IsLowerHex(key[0]) && IDL[0] == ASK[0] == 's';
    }
  }

  // ---- the abstraction ----

  type Objects = map<string, StoredObject>

  ghost predicate ValidObjects(m: Objects) {
    forall id <- m :: m[id].id == id && WellFormed(m[id])
  }

  function IdsOf(m: Objects, appServiceKey: string): set<string> {
    set id | id in m && m[id].appServiceKey == appServiceKey
  }

  function Lookup(ks: Keyspace, key: string): Option<Entry> {
    if key in ks then Some(ks[key]) else None
  }

  // Redis keeps no empty set.
  function AsMembers(ids: set<string>): Option<Entry> {
    if ids == {} then None else Some(Members(ids))
  }

  // What the keyspace must hold at `key` when the objects are `m`.
  function Expected(m: Objects, key: string): Option<Entry> {
    match FamilyOf(key)
    case Plain => if key in m then Some(Json(MarshalJSON(m[key]))) else None
    case AskOf(id) => if id in m then Some(Hash(map["ASK" := m[id].appServiceKey])) else None
    case IdlOf(a) => AsMembers(IdsOf(m, a))
  }

  // The keys this client uses; other programs may keep what they like under all others.
  predicate IsOwn(key: string) {
    FamilyOf(key) != Plain || IsCanonical(key)
  }

  // Under its own keys `ks` holds the three families of exactly the objects of `m`.
  ghost predicate Represents(ks: Keyspace, m: Objects) {
    ValidObjects(m) && forall key: string :: IsOwn(key) ==> Lookup(ks, key) == Expected(m, key)
  }

  // Other programs' keys are as they were.
  ghost predicate Framed(ks: Keyspace, ks': Keyspace) {
    forall key: string :: !IsOwn(key) ==> Lookup(ks', key) == Lookup(ks, key)
  }

  // What a transaction must have done to one key.
  predicate Becomes(ks: Keyspace, ks': Keyspace, m': Objects, key: string) {
    Lookup(ks', key) == if IsOwn(key) then Expected(m', key) else Lookup(ks, key)
  }

  // The keyspace determines the objects.
  lemma RepresentsOne(ks: Keyspace, m: Objects, m': Objects)
    requires Represents(ks, m) && Represents(ks, m')
    ensures m == m'
  {
    forall id | id in m || id in m' ensures id in m && id in m' && m[id] == m'[id] {
      KeysNeverCollide(id, id, id);
      assert Lookup(ks, id) == Expected(m, id) == Expected(m', id);
      RoundTrip(ZERO, m[id]);
      RoundTrip(ZERO, m'[id]);
    }
  }

  // ---- the four transactions ----

  function StoreCommands(ks: Keyspace, o: StoredObject): Keyspace {
    Hset(Sadd(Set(ks, o.id, MarshalJSON(o)), IdlKey(o.appServiceKey), o.id), AskKey(o.id), "ASK", o.appServiceKey)
  }

  function UpdateCommands(ks: Keyspace, current: string, o: StoredObject): Keyspace {
    var moved :=
      if o.appServiceKey != current then
        Hset(Sadd(Srem(ks, IdlKey(current), o.id), IdlKey(o.appServiceKey), o.id), AskKey(o.id), "ASK", o.appServiceKey)
      else ks;
    Set(moved, o.id, MarshalJSON(o))
  }

  function RemoveCommands(ks: Keyspace, o: StoredObject): Keyspace {
    Unlink(Srem(Unlink(ks, o.id), IdlKey(o.appServiceKey), o.id), AskKey(o.id))
  }

  lemma AllBecome(ks: Keyspace, ks': Keyspace, m': Objects)
    requires ValidObjects(m') && forall key: string :: Becomes(ks, ks', m', key)
    ensures Represents(ks', m') && Framed(ks, ks')
  {
    forall key: string ensures IsOwn(key) ==> Lookup(ks', key) == Expected(m', key)
      ensures !IsOwn(key) ==> Lookup(ks', key) == Lookup(ks, key)
    {
      assert Becomes(ks, ks', m', key);
    }
  }

  // Lookups that a representation settles.
  lemma OwnLookup(ks: Keyspace, m: Objects, key: string)
    requires Represents(ks, m)
    ensures IsOwn(key) ==> Lookup(ks, key) == Expected(m, key)
  {
  }

  lemma SaddLookup(ks: Keyspace, key: string, ids: set<string>, id: string, k: string)
    requires Lookup(ks, key) == AsMembers(ids)
    ensures Lookup(Sadd(ks, key, id), k) == if k == key then AsMembers(ids + {id}) else Lookup(ks, k)
  {
    if ids == {} { assert ids + {id} == {id}; }
  }

  lemma SremLookup(ks: Keyspace, key: string, ids: set<string>, id: string, k: string)
    requires Lookup(ks, key) == AsMembers(ids)
    ensures Lookup(Srem(ks, key, id), k) == if k == key then AsMembers(ids - {id}) else Lookup(ks, k)
  {
    if ids == {} { assert ids - {id} == {}; }
  }

  lemma HsetLookup(ks: Keyspace, key: string, was: Option<string>, value: string, k: string)
    requires Lookup(ks, key) == match was case None => None case Some(v) => Some(Hash(map["ASK" := v]))
    ensures Lookup(Hset(ks, key, "ASK", value), k) ==
            if k == key then Some(Hash(map["ASK" := value])) else Lookup(ks, k)
  {
    if was.Some? { assert map["ASK" := was.value]["ASK" := value] == map["ASK" := value]; }
  }

  // How Expected changes when `o` is put under its id, and when that id is dropped.
  lemma AfterPut(m: Objects, o: StoredObject, key: string)
    ensures match FamilyOf(key)
            case Plain =>
              Expected(m[o.id := o], key) == if key == o.id then Some(Json(MarshalJSON(o))) else Expected(m, key)
            case AskOf(id) =>
              Expected(m[o.id := o], key) ==
              if id == o.id then Some(Hash(map["ASK" := o.appServiceKey])) else Expected(m, key)
            case IdlOf(a) =>
              IdsOf(m[o.id := o], a) == if a == o.appServiceKey then IdsOf(m, a) + {o.id} else IdsOf(m, a) - {o.id}
  {
  }

  lemma AfterDrop(m: Objects, id: string, key: string)
    ensures match FamilyOf(key)
            case Plain => Expected(m - {id}, key) == if key == id then None else Expected(m, key)
            case AskOf(id') => Expected(m - {id}, key) == if id' == id then None else Expected(m, key)
            case IdlOf(a) => IdsOf(m - {id}, a) == IdsOf(m, a) - {id}
  {
  }

  // An id is a member of the one set of its object's service key.
  lemma MemberOfOne(m: Objects, id: string, a: string)
    ensures id in m && m[id].appServiceKey == a ==> IdsOf(m, a) + {id} == IdsOf(m, a)
    ensures !(id in m && m[id].appServiceKey == a) ==> IdsOf(m, a) - {id} == IdsOf(m, a)
  {
  }

  lemma StoreAdds(ks: Keyspace, m: Objects, o: StoredObject)
    requires Represents(ks, m) && WellFormed(o) && o.id !in m
    ensures Represents(StoreCommands(ks, o), m[o.id := o]) && Framed(ks, StoreCommands(ks, o))
  {
    var m', idl, ask := m[o.id := o], IdlKey(o.appServiceKey), AskKey(o.id);
    var ks', ks1 := StoreCommands(ks, o), Set(ks, o.id, MarshalJSON(o));
    var ks2 := Sadd(ks1, idl, o.id);
    KeysNeverCollide(o.id, o.id, o.appServiceKey);
    KeysNeverCollide(idl, o.id, o.appServiceKey);
    KeysNeverCollide(ask, o.id, o.appServiceKey);
    assert Lookup(ks1, ask) == Lookup(ks, ask) == Expected(m, ask) == None;
    assert Lookup(ks1, idl) == Lookup(ks, idl) == Expected(m, idl);
    SaddLookup(ks1, idl, IdsOf(m, o.appServiceKey), o.id, ask);
    forall key: string ensures Becomes(ks, ks', m', key) {
      OwnLookup(ks, m, key);
      KeysNeverCollide(key, o.id, o.appServiceKey);
      SaddLookup(ks1, idl, IdsOf(m, o.appServiceKey), o.id, key);
      HsetLookup(ks2, ask, None, o.appServiceKey, key);
      AfterPut(m, o, key);
      if FamilyOf(key).IdlOf? { MemberOfOne(m, o.id, FamilyOf(key).appServiceKey); }
    }
    AllBecome(ks, ks', m');
  }

  lemma UpdateReplaces(ks: Keyspace, m: Objects, o: StoredObject)
    requires Represents(ks, m) && WellFormed(o) && o.id in m
    ensures Represents(UpdateCommands(ks, m[o.id].appServiceKey, o), m[o.id := o])
    ensures Framed(ks, UpdateCommands(ks, m[o.id].appServiceKey, o))
  {
    var current := m[o.id].appServiceKey;
    var ks', m' := UpdateCommands(ks, current, o), m[o.id := o];
    KeysNeverCollide(o.id, o.id, o.appServiceKey);
    if current == o.appServiceKey {
      forall key: string ensures Becomes(ks, ks', m', key) {
        OwnLookup(ks, m, key);
        AfterPut(m, o, key);
        if FamilyOf(key).IdlOf? { MemberOfOne(m, o.id, FamilyOf(key).appServiceKey); }
      }
      AllBecome(ks, ks', m');
    } else {
      UpdateMoves(ks, m, o);
    }
  }

  lemma UpdateMoves(ks: Keyspace, m: Objects, o: StoredObject)
    requires Represents(ks, m) && WellFormed(o) && o.id in m && m[o.id].appServiceKey != o.appServiceKey
    ensures Represents(UpdateCommands(ks, m[o.id].appServiceKey, o), m[o.id := o])
    ensures Framed(ks, UpdateCommands(ks, m[o.id].appServiceKey, o))
  {
    var current := m[o.id].appServiceKey;
    var idl, was, ask := IdlKey(o.appServiceKey), IdlKey(current), AskKey(o.id);
    var ks', m' := UpdateCommands(ks, current, o), m[o.id := o];
    var ks1 := Srem(ks, was, o.id);
    var ks2 := Sadd(ks1, idl, o.id);
    KeysNeverCollide(o.id, o.id, current);
    KeysNeverCollide(idl, o.id, o.appServiceKey);
    KeysNeverCollide(was, o.id, current);
    KeysNeverCollide(ask, o.id, current);
    assert Lookup(ks, ask) == Expected(m, ask);
    assert Lookup(ks, idl) == Expected(m, idl);
    assert Lookup(ks, was) == Expected(m, was);
    SremLookup(ks, was, IdsOf(m, current), o.id, ask);
    SremLookup(ks, was, IdsOf(m, current), o.id, idl);
    SaddLookup(ks1, idl, IdsOf(m, o.appServiceKey), o.id, ask);
    forall key: string ensures Becomes(ks, ks', m', key) {
      OwnLookup(ks, m, key);
      KeysNeverCollide(key, o.id, o.appServiceKey);
      KeysNeverCollide(key, o.id, current);
      SremLookup(ks, was, IdsOf(m, current), o.id, key);
      SaddLookup(ks1, idl, IdsOf(m, o.appServiceKey), o.id, key);
      HsetLookup(ks2, ask, Some(current), o.appServiceKey, key);
      AfterPut(m, o, key);
      if FamilyOf(key).IdlOf? { MemberOfOne(m, o.id, FamilyOf(key).appServiceKey); }
    }
    AllBecome(ks, ks', m');
  }

  lemma RemoveDeletes(ks: Keyspace, m: Objects, o: StoredObject)
    requires Represents(ks, m) && WellFormed(o)
    requires o.id in m ==> m[o.id].appServiceKey == o.appServiceKey
    ensures Represents(RemoveCommands(ks, o), m - {o.id}) && Framed(ks, RemoveCommands(ks, o))
  {
    var m', idl, ask := m - {o.id}, IdlKey(o.appServiceKey), AskKey(o.id);
    var ks', ks1 := RemoveCommands(ks, o), Unlink(ks, o.id);
    KeysNeverCollide(o.id, o.id, o.appServiceKey);
    KeysNeverCollide(idl, o.id, o.appServiceKey);
    assert Lookup(ks1, idl) == Lookup(ks, idl) == Expected(m, idl);
    forall key: string ensures Becomes(ks, ks', m', key) {
      OwnLookup(ks, m, key);
      KeysNeverCollide(key, o.id, o.appServiceKey);
      SremLookup(ks1, idl, IdsOf(m, o.appServiceKey), o.id, key);
      AfterDrop(m, o.id, key);
      if FamilyOf(key).IdlOf? { MemberOfOne(m, o.id, FamilyOf(key).appServiceKey); }
    }
    AllBecome(ks, ks', m');
  }

  // A removal under another service key leaves the id in the set it is stored under, with no object
  // behind it: no map of objects is represented any more.
  lemma RemoveDangles(ks: Keyspace, m: Objects, o: StoredObject, m': Objects)
    requires Represents(ks, m) && WellFormed(o)
    requires o.id in m && m[o.id].appServiceKey != o.appServiceKey
    ensures !Represents(RemoveCommands(ks, o), m')
  {
    var stored := m[o.id].appServiceKey;
    var ks' := RemoveCommands(ks, o);
    KeysNeverCollide(o.id, o.id, stored);
    KeysNeverCollide(IdlKey(stored), o.id, stored);
    KeysNeverCollide(IdlKey(stored), o.id, o.appServiceKey);
    assert o.id in IdsOf(m, stored);
    assert Lookup(ks, IdlKey(stored)) == Expected(m, IdlKey(stored)) == Some(Members(IdsOf(m, stored)));
    assert Lookup(ks', IdlKey(stored)) == Some(Members(IdsOf(m, stored)));
    assert Lookup(ks', o.id) == None;
    assert Expected(m', IdlKey(stored)) == Lookup(ks', IdlKey(stored)) ==> o.id in IdsOf(m', stored);
    assert o.id in IdsOf(m', stored) ==> Expected(m', o.id).Some?;
  }

  // Exactly when a removal leaves a keyspace that still represents some objects.
  lemma RemoveExactly(ks: Keyspace, m: Objects, o: StoredObject)
    requires Represents(ks, m) && WellFormed(o)
    ensures (exists m' :: Represents(RemoveCommands(ks, o), m')) <==>
            (o.id in m ==> m[o.id].appServiceKey == o.appServiceKey)
    ensures (o.id in m ==> m[o.id].appServiceKey == o.appServiceKey) ==> Represents(RemoveCommands(ks, o), m - {o.id})
  {
    if o.id in m && m[o.id].appServiceKey != o.appServiceKey {
      forall m' ensures !Represents(RemoveCommands(ks, o), m') { RemoveDangles(ks, m, o, m'); }
    } else {
      RemoveDeletes(ks, m, o);
    }
  }

  // The two halves of that, for the client.
  lemma RemoveServes(ks: Keyspace, m: Objects, o: StoredObject)
    requires Represents(ks, m) && WellFormed(o)
    ensures Framed(ks, RemoveCommands(ks, o))
    ensures if o.id in m && m[o.id].appServiceKey != o.appServiceKey then
              forall m' :: !Represents(RemoveCommands(ks, o), m')
            else Represents(RemoveCommands(ks, o), m - {o.id})
  {
    KeysNeverCollide(o.id, o.id, o.appServiceKey);
    KeysNeverCollide(IdlKey(o.appServiceKey), o.id, o.appServiceKey);
    KeysNeverCollide(AskKey(o.id), o.id, o.appServiceKey);
    if o.id in m && m[o.id].appServiceKey != o.appServiceKey {
      forall m' ensures !Represents(RemoveCommands(ks, o), m') { RemoveDangles(ks, m, o, m'); }
    } else {
      RemoveDeletes(ks, m, o);
    }
  }

  // ---- retrieval ----

  function Smembers(ks: Keyspace, key: string): Result<set<string>> {
    if key !in ks then Success({})
    else if ks[key].Members? then Success(ks[key].ids)
    else Failure("WRONGTYPE")
  }

  // MGET answers nil for a key that is missing or holds no string.
  function Mget(ks: Keyspace, ids: seq<string>): (replies: seq<Option<Document>>)
    ensures |replies| == |ids|
  {
    seq(|ids|, i requires 0 <= i < |ids| =>
      if ids[i] in ks && ks[ids[i]].Json? then Some(ks[ids[i]].document) else None)
  }

  function Prepend(first: seq<StoredObject>, r: Result<seq<StoredObject>>): Result<seq<StoredObject>> {
    match r case Success(rest) => Success(first + rest) case Failure(e) => Failure(e)
  }

  // The decode loop: a nil reply is not JSON and fails the whole retrieval.
  function DecodeReplies(target: StoredObject, replies: seq<Option<Document>>): Result<seq<StoredObject>>
    decreases |replies|
  {
    if replies == [] then Success([])
    else if replies[0].None? then Failure("unexpected end of JSON input")
    else
      var next := DecodeOver(target, replies[0].value);
      Prepend([next], DecodeReplies(next, replies[1..]))
  }

  // `order` lists the elements of `ids`, each once.
  ghost predicate IsEnumeration(order: seq<string>, ids: set<string>) {
    && (forall id :: id in order <==> id in ids)
    && (forall i, j :: 0 <= i < j < |order| ==> order[i] != order[j])
  }

  function ObjectsAt(m: Objects, order: seq<string>): (objects: seq<StoredObject>)
    requires forall id <- order :: id in m
    ensures |objects| == |order|
  {
    seq(|order|, i requires 0 <= i < |order| => m[order[i]])
  }

  lemma {:induction false} DecodeSucceeds(target: StoredObject, replies: seq<Option<Document>>,
                                          objects: seq<StoredObject>)
    requires |replies| == |objects|
    requires forall i :: 0 <= i < |objects| ==> replies[i] == Some(MarshalJSON(objects[i]))
    ensures DecodeReplies(target, replies) == Success(DecodeAll(target, Marshalled(objects)))
    decreases |objects|
  {
    if objects != [] {
      assert Marshalled(objects)[1..] == Marshalled(objects[1..]);
      DecodeSucceeds(DecodeOver(target, MarshalJSON(objects[0])), replies[1..], objects[1..]);
    }
  }

  // A represented keyspace has no dangling id: retrieval succeeds whatever order the members come
  // in, and returns each object of the service once, with its core fields exact.
  lemma RetrieveServes(ks: Keyspace, m: Objects, appServiceKey: string, order: seq<string>)
    requires Represents(ks, m)
    requires Smembers(ks, IdlKey(appServiceKey)).Success?
    requires IsEnumeration(order, Smembers(ks, IdlKey(appServiceKey)).value)
    ensures IsEnumeration(order, IdsOf(m, appServiceKey))
    ensures var r := DecodeReplies(ZERO, Mget(ks, order));
            && r == Success(DecodeAll(ZERO, Marshalled(ObjectsAt(m, order))))
            && forall i :: 0 <= i < |order| ==> SameCore(r.value[i], m[order[i]])
  {
    MembersAreIds(ks, m, appServiceKey);
    var objects := ObjectsAt(m, order);
    forall i | 0 <= i < |order| ensures Mget(ks, order)[i] == Some(MarshalJSON(objects[i])) && WellFormed(objects[i]) {
      assert order[i] in order;
      KeysNeverCollide(order[i], "", "");
      assert Lookup(ks, order[i]) == Expected(m, order[i]);
    }
    DecodeSucceeds(ZERO, Mget(ks, order), objects);
    forall i | 0 <= i < |order| ensures SameCore(DecodeAll(ZERO, Marshalled(objects))[i], objects[i]) {
      SharedTarget(ZERO, objects, i);
      assert objects[..i + 1][i] == objects[i];
    }
  }

  lemma MembersAreIds(ks: Keyspace, m: Objects, appServiceKey: string)
    requires Represents(ks, m)
    ensures Smembers(ks, IdlKey(appServiceKey)) == Success(IdsOf(m, appServiceKey))
  {
    KeysNeverCollide(IdlKey(appServiceKey), "", appServiceKey);
    assert Lookup(ks, IdlKey(appServiceKey)) == Expected(m, IdlKey(appServiceKey));
  }

  lemma {:induction false} NilReplyFails(target: StoredObject, replies: seq<Option<Document>>, i: nat)
    requires i < |replies| && replies[i].None?
    ensures DecodeReplies(target, replies).Failure?
    decreases i
  {
    if i > 0 && replies[0].Some? {
      NilReplyFails(DecodeOver(target, replies[0].value), replies[1..], i - 1);
    }
  }

  // After a removal under the wrong service key, the service the object belonged to can retrieve
  // nothing at all, in any order.
  lemma DanglingIdBlocksRetrieval(ks: Keyspace, m: Objects, o: StoredObject, order: seq<string>)
    requires Represents(ks, m) && WellFormed(o)
    requires o.id in m && m[o.id].appServiceKey != o.appServiceKey
    requires var stored := Smembers(RemoveCommands(ks, o), IdlKey(m[o.id].appServiceKey));
             stored.Success? && IsEnumeration(order, stored.value)
    ensures o.id in order
    ensures DecodeReplies(ZERO, Mget(RemoveCommands(ks, o), order)).Failure?
  {
    var stored, ks' := m[o.id].appServiceKey, RemoveCommands(ks, o);
    KeysNeverCollide(o.id, o.id, stored);
    KeysNeverCollide(IdlKey(stored), o.id, stored);
    KeysNeverCollide(IdlKey(stored), o.id, o.appServiceKey);
    assert Lookup(ks, IdlKey(stored)) == Expected(m, IdlKey(stored));
    assert o.id in IdsOf(m, stored);
    assert ks'[IdlKey(stored)] == Members(IdsOf(m, stored));
    assert o.id in order;
    var i :| 0 <= i < |order| && order[i] == o.id;
    NilReplyFails(ZERO, Mget(ks', order), i);
  }

  // ---- the client ----

  // The order in which a Redis set is listed is not specified.
  method ListMembers(ids: set<string>) returns (order: seq<string>)
    ensures IsEnumeration(order, ids)
  {
    order := [];
    var rest := ids;
    while rest != {}
      invariant forall id :: id in ids <==> id in rest || id in order
      invariant forall id <- order :: id !in rest
      invariant forall i, j :: 0 <= i < j < |order| ==> order[i] != order[j]
      decreases rest
    {
      var id :| id in rest;
      order, rest := order + [id], rest - {id};
    }
  }

  lemma PrependTwice(first: seq<StoredObject>, second: seq<StoredObject>, r: Result<seq<StoredObject>>)
    ensures Prepend(first + second, r) == Prepend(first, Prepend(second, r))
    ensures Prepend([], r) == r
  {
    if r.Success? {
      assert first + second + r.value == first + (second + r.value);
      assert [] + r.value == r.value;
    }
  }

  // The loop that ends a retrieval: every reply is decoded over one model.
  method DecodeEach(values: seq<Option<Document>>) returns (r: Result<seq<StoredObject>>)
    ensures r == DecodeReplies(ZERO, values)
  {
    var model := new Model();
    var objects: seq<StoredObject> := [];
    var i := 0;
    PrependTwice([], [], DecodeReplies(ZERO, values));
    assert values[0..] == values;
    while i < |values|
      invariant 0 <= i <= |values|
      invariant DecodeReplies(ZERO, values) == Prepend(objects, DecodeReplies(model.ToContract(), values[i..]))
    {
      if values[i].None? { return Failure("unexpected end of JSON input"); }
      model.UnmarshalJSON(values[i].value);
      PrependTwice(objects, [model.ToContract()], DecodeReplies(model.ToContract(), values[i..][1..]));
      objects := objects + [model.ToContract()];
      i := i + 1;
    }
    assert objects + [] == objects;
    return Success(objects);
  }

  // `up` says whether the server answers during the call; MULTI/EXEC is one atomic step.
  class Client {
    var keys: Keyspace
    ghost var objects: Objects

    ghost predicate Valid()
      reads this
    {
      Represents(keys, objects)
    }

    // A server on which this client has stored nothing yet.
    constructor (keys: Keyspace)
      requires forall key: string :: IsOwn(key) ==> key !in keys
      ensures Valid() && objects == map[] && this.keys == keys
    {
      this.keys, objects := keys, map[];
      new;
      assert forall a :: IdsOf(map[], a) == {};
    }

    method Store(o: StoredObject, generated: string, up: bool) returns (r: Result<string>)
      requires Valid()
      modifies this
      ensures Framed(old(keys), keys)
      ensures Valid()
      ensures var v := ValidateContract(o, false, generated);
              if up && v.Success? && v.value.id !in old(objects) then
                r == Success(v.value.id) && objects == old(objects)[v.value.id := v.value]
              else r.Failure? && objects == old(objects) && keys == old(keys)
    {
      var v := ValidateContract(o, false, generated);
      ValidateExactly(o, false, generated);
      if v.Failure? { return Failure(v.error); }
      if !up { return Failure("dial"); }
      KeysNeverCollide(v.value.id, "", "");
      assert Lookup(keys, v.value.id) == Expected(objects, v.value.id);
      if v.value.id in keys { return Failure("object exists in database"); }
      StoreAdds(keys, objects, v.value);
      keys := Hset(Sadd(Set(keys, v.value.id, MarshalJSON(v.value)), IdlKey(v.value.appServiceKey), v.value.id),
                   AskKey(v.value.id), "ASK", v.value.appServiceKey);
      objects := objects[v.value.id := v.value];
      return Success(v.value.id);
    }

    // Every value is decoded over one model, as MGET lists it.
    method RetrieveFromStore(appServiceKey: string, up: bool)
      returns (r: Result<seq<StoredObject>>, ghost order: seq<string>)
      requires Valid()
      ensures appServiceKey == "" || !up ==> r.Failure?
      ensures appServiceKey != "" && up ==>
                && IsEnumeration(order, IdsOf(objects, appServiceKey))
                && r == Success(DecodeAll(ZERO, Marshalled(ObjectsAt(objects, order))))
                && forall i :: 0 <= i < |order| ==> SameCore(r.value[i], objects[order[i]])
    {
      order := [];
      if appServiceKey == "" { return Failure("no AppServiceKey provided"), []; }
      if !up { return Failure("dial"), []; }
      var members := Smembers(keys, IdlKey(appServiceKey));
      MembersAreIds(keys, objects, appServiceKey);
      var ids := ListMembers(members.value);
      order := ids;
      RetrieveServes(keys, objects, appServiceKey, ids);
      r := DecodeEach(Mget(keys, ids));
    }

    method Update(o: StoredObject, up: bool) returns (r: Result<()>)
      requires Valid()
      modifies this
      ensures Framed(old(keys), keys)
      ensures Valid()
      ensures var v := ValidateContract(o, true, "");
              if up && v.Success? && v.value.id in old(objects) then
                r.Success? && objects == old(objects)[v.value.id := v.value]
              else r.Failure? && objects == old(objects) && keys == old(keys)
    {
      var v := ValidateContract(o, true, "");
      ValidateExactly(o, true, "");
      if v.Failure? { return Failure(v.error); }
      if !up { return Failure("dial"); }
      var u := v.value;
      KeysNeverCollide(AskKey(u.id), u.id, "");
      assert Lookup(keys, AskKey(u.id)) == Expected(objects, AskKey(u.id));
      if AskKey(u.id) !in keys { return Failure("redigo: nil returned"); }
      var current := keys[AskKey(u.id)].fields["ASK"];
      UpdateReplaces(keys, objects, u);
      if u.appServiceKey != current {
        keys := Sadd(Srem(keys, IdlKey(current), u.id), IdlKey(u.appServiceKey), u.id);
        keys := Hset(keys, AskKey(u.id), "ASK", u.appServiceKey);
      }
      var update := new Model();
      update.FromContract(u);
      keys := Set(keys, u.id, MarshalJSON(update.ToContract()));
      objects := objects[u.id := u];
      return Success(());
    }

    // A removal that names another service key than the stored one leaves a keyspace that represents
    // no objects.
    method RemoveFromStore(o: StoredObject, up: bool) returns (r: Result<()>)
      requires Valid()
      modifies this
      ensures Framed(old(keys), keys)
      ensures var v := ValidateContract(o, true, "");
              if !up || v.Failure? then
                r.Failure? && objects == old(objects) && keys == old(keys)
              else if v.value.id in old(objects) && old(objects)[v.value.id].appServiceKey != v.value.appServiceKey then
                r.Success? && forall m :: !Represents(keys, m)
              else
                && Valid()
                && r.Success? == (v.value.id in old(objects))
                && objects == old(objects) - {v.value.id}
    {
      var v := ValidateContract(o, true, "");
      ValidateExactly(o, true, "");
      if v.Failure? { return Failure(v.error); }
      if !up { return Failure("dial"); }
      var u := v.value;
      KeysNeverCollide(u.id, "", "");
      OwnLookup(keys, objects, u.id);
      RemoveServes(keys, objects, u);
      var existed := u.id in keys;
      keys := Unlink(Srem(Unlink(keys, u.id), IdlKey(u.appServiceKey), u.id), AskKey(u.id));
      objects := objects - {u.id};
      if !existed { return Failure("could not remove object from store"); }
      return Success(());
    }
  }
}
