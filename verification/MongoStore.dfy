// internal/store/db/mongo/store.go: the same four operations over one document collection.

module MongoStore {
  import opened Wrappers
  import opened Contracts

  // A document: the object's fields under the driver's own object id.
  datatype Document = Document(objectID: nat, stored: StoredObject)

  type Objects = map<string, StoredObject>

  function IdsOf(docs: seq<Document>): set<string> {
    if docs == [] then {} else {docs[0].stored.id} + IdsOf(docs[1..])
  }

  // Every document is well formed, and no two share a uuid.
  predicate ValidCollection(docs: seq<Document>) {
    docs != [] ==>
      && WellFormed(docs[0].stored)
      && docs[0].stored.id !in IdsOf(docs[1..])
      && ValidCollection(docs[1..])
  }

  // The objects by uuid; of documents that share one, the first.
  function ObjectsOf(docs: seq<Document>): (m: Objects)
    ensures m.Keys == IdsOf(docs)
  {
    if docs == [] then map[] else ObjectsOf(docs[1..])[docs[0].stored.id := docs[0].stored]
  }

  predicate Matches(d: Document, id: string, appServiceKey: string) {
    d.stored.id == id && d.stored.appServiceKey == appServiceKey
  }

  // UpdateOne with $set of every field but the driver's object id: the first match only.
  function UpdateFirst(docs: seq<Document>, o: StoredObject): seq<Document> {
    if docs == [] then []
    else if Matches(docs[0], o.id, o.appServiceKey) then [docs[0].(stored := o)] + docs[1..]
    else [docs[0]] + UpdateFirst(docs[1..], o)
  }

  // DeleteOne: the first match only.
  function DeleteFirst(docs: seq<Document>, id: string, appServiceKey: string): seq<Document> {
    if docs == [] then []
    else if Matches(docs[0], id, appServiceKey) then docs[1..]
    else [docs[0]] + DeleteFirst(docs[1..], id, appServiceKey)
  }

  // Find: the objects of every document of the service, in collection order.
  function FindAll(docs: seq<Document>, appServiceKey: string): seq<StoredObject> {
    if docs == [] then []
    else if docs[0].stored.appServiceKey == appServiceKey then [docs[0].stored] + FindAll(docs[1..], appServiceKey)
    else FindAll(docs[1..], appServiceKey)
  }

  lemma {:induction false} ObjectsAreWellFormed(docs: seq<Document>, id: string)
    requires ValidCollection(docs) && id in ObjectsOf(docs)
    ensures ObjectsOf(docs)[id].id == id && WellFormed(ObjectsOf(docs)[id])
  {
    if docs[0].stored.id != id { ObjectsAreWellFormed(docs[1..], id); }
  }

  lemma {:induction false} InsertAdds(docs: seq<Document>, d: Document)
    requires ValidCollection(docs) && WellFormed(d.stored) && d.stored.id !in IdsOf(docs)
    ensures ValidCollection(docs + [d]) && IdsOf(docs + [d]) == IdsOf(docs) + {d.stored.id}
    ensures ObjectsOf(docs + [d]) == ObjectsOf(docs)[d.stored.id := d.stored]
  {
    if docs == [] {
      assert docs + [d] == [d];
    } else {
      InsertAdds(docs[1..], d);
      assert (docs + [d])[1..] == docs[1..] + [d];
    }
  }

  // Inserting a second document under a uuid: the first one keeps answering for it.
  lemma {:induction false} InsertShadowed(docs: seq<Document>, d: Document)
    requires d.stored.id in IdsOf(docs)
    ensures !ValidCollection(docs + [d]) && ObjectsOf(docs + [d]) == ObjectsOf(docs) && IdsOf(docs + [d]) == IdsOf(docs)
  {
    assert (docs + [d])[1..] == docs[1..] + [d];
    if d.stored.id in IdsOf(docs[1..]) {
      InsertShadowed(docs[1..], d);
    } else {
      LastIdIn(docs[1..], d);
    }
  }

  lemma {:induction false} LastIdIn(docs: seq<Document>, d: Document)
    requires d.stored.id !in IdsOf(docs)
    ensures IdsOf(docs + [d]) == IdsOf(docs) + {d.stored.id}
    ensures ObjectsOf(docs + [d]) == ObjectsOf(docs)[d.stored.id := d.stored]
  {
    if docs == [] {
      assert docs + [d] == [d];
    } else {
      LastIdIn(docs[1..], d);
      assert (docs + [d])[1..] == docs[1..] + [d];
    }
  }

  function Updated(m: Objects, o: StoredObject): Objects {
    if o.id in m && m[o.id].appServiceKey == o.appServiceKey then m[o.id := o] else m
  }

  function Removed(m: Objects, id: string, appServiceKey: string): Objects {
    if id in m && m[id].appServiceKey == appServiceKey then m - {id} else m
  }

  // An update with the stored service key replaces the object; any other changes nothing.
  lemma {:induction false} UpdateActs(docs: seq<Document>, o: StoredObject)
    requires ValidCollection(docs) && WellFormed(o)
    ensures ValidCollection(UpdateFirst(docs, o)) && IdsOf(UpdateFirst(docs, o)) == IdsOf(docs)
    ensures ObjectsOf(UpdateFirst(docs, o)) ==
            Updated(ObjectsOf(docs), o)
  {
    if docs != [] {
      UpdateActs(docs[1..], o);
      if !Matches(docs[0], o.id, o.appServiceKey) {
        assert UpdateFirst(docs, o)[1..] == UpdateFirst(docs[1..], o);
      }
    }
  }

  lemma {:induction false} DeleteKeepsValid(docs: seq<Document>, id: string, appServiceKey: string)
    requires ValidCollection(docs)
    ensures IdsOf(DeleteFirst(docs, id, appServiceKey)) <= IdsOf(docs)
    ensures ValidCollection(DeleteFirst(docs, id, appServiceKey))
  {
    if docs != [] && !Matches(docs[0], id, appServiceKey) { DeleteKeepsValid(docs[1..], id, appServiceKey); }
  }

  // A removal with the stored service key removes the object; any other changes nothing.
  lemma {:induction false} DeleteActs(docs: seq<Document>, id: string, appServiceKey: string)
    requires ValidCollection(docs)
    ensures ObjectsOf(DeleteFirst(docs, id, appServiceKey)) == Removed(ObjectsOf(docs), id, appServiceKey)
  {
    if docs != [] { DeleteActs(docs[1..], id, appServiceKey); }
  }

  // The object is the service's, and answers for its uuid.
  predicate Serves(m: Objects, appServiceKey: string, o: StoredObject) {
    o.id in m && m[o.id] == o && o.appServiceKey == appServiceKey
  }

  lemma {:induction false} FindIsExact(docs: seq<Document>, appServiceKey: string, o: StoredObject)
    requires ValidCollection(docs)
    ensures o in FindAll(docs, appServiceKey) <==> Serves(ObjectsOf(docs), appServiceKey, o)
  {
    if docs != [] {
      FindIsExact(docs[1..], appServiceKey, o);
      var first := docs[0].stored;
      assert o.id in ObjectsOf(docs[1..]) ==> o.id != first.id;
    }
  }

  lemma {:induction false} FindIsDistinct(docs: seq<Document>, appServiceKey: string)
    requires ValidCollection(docs)
    ensures var found := FindAll(docs, appServiceKey);
            forall i, j :: 0 <= i < j < |found| ==> found[i].id != found[j].id
  {
    if docs != [] {
      var rest := FindAll(docs[1..], appServiceKey);
      FindIsDistinct(docs[1..], appServiceKey);
      forall i | 0 <= i < |rest| ensures rest[i].id != docs[0].stored.id {
        FindIsExact(docs[1..], appServiceKey, rest[i]);
      }
    }
  }

  // On any collection, documents are found in collection order: first those of a front part, then the others;
  // and one document is found exactly when it is the service's.
  lemma {:induction false} FindsInOrder(front: seq<Document>, back: seq<Document>, d: Document, appServiceKey: string)
    ensures FindAll(front + back, appServiceKey) == FindAll(front, appServiceKey) + FindAll(back, appServiceKey)
    ensures FindAll([d], appServiceKey) == if d.stored.appServiceKey == appServiceKey then [d.stored] else []
    decreases |front|
  {
    if front == [] {
      assert front + back == back;
    } else {
      assert (front + back)[1..] == front[1..] + back;
      FindsInOrder(front[1..], back, d, appServiceKey);
    }
  }

  // ---- collections with two documents under one uuid ----

  // The first document with this uuid and service key.
  ghost predicate FirstMatch(docs: seq<Document>, i: nat, id: string, appServiceKey: string) {
    && i < |docs| && Matches(docs[i], id, appServiceKey)
    && forall j :: 0 <= j < i ==> !Matches(docs[j], id, appServiceKey)
  }

  ghost predicate NoMatch(docs: seq<Document>, id: string, appServiceKey: string) {
    forall j :: 0 <= j < |docs| ==> !Matches(docs[j], id, appServiceKey)
  }

  ghost predicate FirstReplaced(docs: seq<Document>, docs': seq<Document>, o: StoredObject) {
    && (forall i: nat :: FirstMatch(docs, i, o.id, o.appServiceKey) ==> docs' == docs[i := docs[i].(stored := o)])
    && (NoMatch(docs, o.id, o.appServiceKey) ==> docs' == docs)
  }

  ghost predicate FirstDropped(docs: seq<Document>, docs': seq<Document>, id: string, appServiceKey: string) {
    && (forall i: nat :: FirstMatch(docs, i, id, appServiceKey) ==> docs' == docs[..i] + docs[i + 1..])
    && (NoMatch(docs, id, appServiceKey) ==> docs' == docs)
  }

  lemma {:induction false} UpdatesAt(docs: seq<Document>, o: StoredObject, i: nat)
    requires FirstMatch(docs, i, o.id, o.appServiceKey)
    ensures UpdateFirst(docs, o) == docs[i := docs[i].(stored := o)]
    decreases i
  {
    if i > 0 {
      var rest := docs[1..];
      assert FirstMatch(rest, i - 1, o.id, o.appServiceKey);
      UpdatesAt(rest, o, i - 1);
      assert docs == [docs[0]] + rest;
    }
  }

  lemma {:induction false} UpdatesNothing(docs: seq<Document>, o: StoredObject)
    requires NoMatch(docs, o.id, o.appServiceKey)
    ensures UpdateFirst(docs, o) == docs
  {
    if docs != [] { UpdatesNothing(docs[1..], o); }
  }

  // Whatever the collection, an update replaces the first match and nothing else.
  lemma UpdatesFirst(docs: seq<Document>, o: StoredObject)
    ensures FirstReplaced(docs, UpdateFirst(docs, o), o)
  {
    forall i: nat | FirstMatch(docs, i, o.id, o.appServiceKey)
      ensures UpdateFirst(docs, o) == docs[i := docs[i].(stored := o)]
    {
      UpdatesAt(docs, o, i);
    }
    if NoMatch(docs, o.id, o.appServiceKey) { UpdatesNothing(docs, o); }
  }

  lemma {:induction false} DropsAt(docs: seq<Document>, id: string, appServiceKey: string, i: nat)
    requires FirstMatch(docs, i, id, appServiceKey)
    ensures DeleteFirst(docs, id, appServiceKey) == docs[..i] + docs[i + 1..]
    decreases i
  {
    if i > 0 {
      var rest := docs[1..];
      assert FirstMatch(rest, i - 1, id, appServiceKey);
      DropsAt(rest, id, appServiceKey, i - 1);
      assert docs[..i] == [docs[0]] + rest[..i - 1] && docs[i + 1..] == rest[i..];
    }
  }

  lemma {:induction false} DropsNothing(docs: seq<Document>, id: string, appServiceKey: string)
    requires NoMatch(docs, id, appServiceKey)
    ensures DeleteFirst(docs, id, appServiceKey) == docs
  {
    if docs != [] { DropsNothing(docs[1..], id, appServiceKey); }
  }

  // A removal drops the first match and nothing else.
  lemma DropsFirst(docs: seq<Document>, id: string, appServiceKey: string)
    ensures FirstDropped(docs, DeleteFirst(docs, id, appServiceKey), id, appServiceKey)
  {
    forall i: nat | FirstMatch(docs, i, id, appServiceKey)
      ensures DeleteFirst(docs, id, appServiceKey) == docs[..i] + docs[i + 1..]
    {
      DropsAt(docs, id, appServiceKey, i);
    }
    if NoMatch(docs, id, appServiceKey) { DropsNothing(docs, id, appServiceKey); }
  }

  // Of two documents under one uuid and service key a removal uncovers the second, which answers from then on.
  lemma {:induction false} RemovalUncovers(docs: seq<Document>, d: Document)
    requires ValidCollection(docs) && d.stored.id in IdsOf(docs)
    requires ObjectsOf(docs)[d.stored.id].appServiceKey == d.stored.appServiceKey
    ensures ObjectsOf(DeleteFirst(docs + [d], d.stored.id, d.stored.appServiceKey)) ==
            ObjectsOf(docs)[d.stored.id := d.stored]
  {
    assert (docs + [d])[1..] == docs[1..] + [d];
    if Matches(docs[0], d.stored.id, d.stored.appServiceKey) {
      LastIdIn(docs[1..], d);
    } else {
      RemovalUncovers(docs[1..], d);
    }
  }

  lemma {:induction false} PrefixValid(docs: seq<Document>, d: Document)
    requires ValidCollection(docs + [d])
    ensures ValidCollection(docs) && d.stored.id !in IdsOf(docs)
  {
    if d.stored.id in IdsOf(docs) { InsertShadowed(docs, d); }
    if docs != [] {
      assert (docs + [d])[1..] == docs[1..] + [d];
      PrefixValid(docs[1..], d);
      LastIdIn(docs[1..], d);
    }
  }

  // Find returns each object of the service once, every field exact.
  lemma FindServes(docs: seq<Document>, appServiceKey: string)
    requires ValidCollection(docs)
    ensures var found := FindAll(docs, appServiceKey);
            && (forall o :: o in found <==> Serves(ObjectsOf(docs), appServiceKey, o))
            && (forall i, j :: 0 <= i < j < |found| ==> found[i].id != found[j].id)
  {
    FindIsDistinct(docs, appServiceKey);
    forall o ensures o in FindAll(docs, appServiceKey) <==> Serves(ObjectsOf(docs), appServiceKey, o) {
      FindIsExact(docs, appServiceKey, o);
    }
  }

  lemma Inserts(docs: seq<Document>, d: Document)
    requires WellFormed(d.stored)
    ensures ValidCollection(docs + [d]) <==> ValidCollection(docs) && d.stored.id !in IdsOf(docs)
    ensures ObjectsOf(docs + [d]) ==
            if d.stored.id in IdsOf(docs) then ObjectsOf(docs) else ObjectsOf(docs)[d.stored.id := d.stored]
  {
    if d.stored.id in IdsOf(docs) { InsertShadowed(docs, d); } else { LastIdIn(docs, d); }
    if ValidCollection(docs + [d]) { PrefixValid(docs, d); }
    if ValidCollection(docs) && d.stored.id !in IdsOf(docs) { InsertAdds(docs, d); }
  }

  // ---- the client ----

  class Client {
    var docs: seq<Document>

    constructor ()
      ensures docs == []
    {
      docs := [];
    }

    // A lookup that fails (`lookupOk` false) is taken for "no such object", and the insert goes
    // ahead: the collection stays valid exactly when the uuid was absent.
    method Store(o: StoredObject, generated: string, objectID: nat, lookupOk: bool, insertOk: bool)
      returns (r: Result<string>)
      modifies this
      ensures var v := ValidateContract(o, false, generated);
              if v.Failure? || !insertOk || (lookupOk && v.value.id in IdsOf(old(docs))) then
                r.Failure? && docs == old(docs)
              else
                && r == Success(v.value.id)
                && docs == old(docs) + [Document(objectID, v.value)]
                && (ValidCollection(docs) <==> ValidCollection(old(docs)) && v.value.id !in IdsOf(old(docs)))
                && var was := ObjectsOf(old(docs));
                ObjectsOf(docs) == if v.value.id in was then was else was[v.value.id := v.value]
    {
      var v := ValidateContract(o, false, generated);
      ValidateExactly(o, false, generated);
      if v.Failure? { return Failure(v.error); }
      var found := lookupOk && v.value.id in IdsOf(docs);
      if found { return Failure("object exists in database"); }
      if !insertOk { return Failure("insert"); }
      var doc := Document(objectID, v.value);
      Inserts(docs, doc);
      docs := docs + [doc];
      return Success(v.value.id);
    }

    method RetrieveFromStore(appServiceKey: string, up: bool) returns (r: Result<seq<StoredObject>>)
      ensures if appServiceKey == "" || !up then r.Failure? else r == Success(FindAll(docs, appServiceKey))
    {
      if appServiceKey == "" { return Failure("no AppServiceKey provided"); }
      if !up { return Failure("find"); }
      var objects: seq<StoredObject> := [];
      var i := 0;
      while i < |docs|
        invariant 0 <= i <= |docs|
        invariant FindAll(docs, appServiceKey) == objects + FindAll(docs[i..], appServiceKey)
      {
        if docs[i].stored.appServiceKey == appServiceKey {
          objects := objects + [docs[i].stored];
        }
        assert docs[i..][1..] == docs[i + 1..];
        i := i + 1;
      }
      assert objects + [] == objects;
      return Success(objects);
    }

    // On any collection the first match is replaced; if the collection is valid it stays so, and the object is
    // replaced exactly when it is stored under this service key.
    method Update(o: StoredObject, up: bool) returns (r: Result<()>)
      modifies this
      ensures var v := ValidateContract(o, true, "");
              && r.Success? == (v.Success? && up)
              && (if r.Success? then FirstReplaced(old(docs), docs, v.value) else docs == old(docs))
      ensures ValidCollection(old(docs)) ==>
                var v, was := ValidateContract(o, true, ""), ObjectsOf(old(docs));
                && ValidCollection(docs)
                && ObjectsOf(docs) == if r.Success? then Updated(was, v.value) else was
    {
      var v := ValidateContract(o, true, "");
      ValidateExactly(o, true, "");
      if v.Failure? { return Failure(v.error); }
      if !up { return Failure("update"); }
      UpdatesFirst(docs, v.value);
      if ValidCollection(docs) { UpdateActs(docs, v.value); }
      docs := UpdateFirst(docs, v.value);
      return Success(());
    }

    // On any collection the first match is dropped; if the collection is valid it stays so, and the object is
    // removed exactly when it is stored under this service key.
    method RemoveFromStore(o: StoredObject, up: bool) returns (r: Result<()>)
      modifies this
      ensures var v := ValidateContract(o, true, "");
              && r.Success? == (v.Success? && up)
              && if r.Success? then FirstDropped(old(docs), docs, v.value.id, v.value.appServiceKey)
                 else docs == old(docs)
      ensures ValidCollection(old(docs)) ==>
                var v, was := ValidateContract(o, true, ""), ObjectsOf(old(docs));
                && ValidCollection(docs)
                && ObjectsOf(docs) == if r.Success? then Removed(was, v.value.id, v.value.appServiceKey) else was
    {
      var v := ValidateContract(o, true, "");
      ValidateExactly(o, true, "");
      if v.Failure? { return Failure(v.error); }
      if !up { return Failure("delete"); }
      DropsFirst(docs, v.value.id, v.value.appServiceKey);
      if ValidCollection(docs) {
        DeleteKeepsValid(docs, v.value.id, v.value.appServiceKey);
        DeleteActs(docs, v.value.id, v.value.appServiceKey);
      }
      docs := DeleteFirst(docs, v.value.id, v.value.appServiceKey);
      return Success(());
    }
  }
}
