// internal/store/db/redis/models/storedobject.go: the JSON shape of a stored object.

module RedisModels {
  import opened Wrappers
  import opened Contracts

  // A JSON object as json.Marshal prints it and json.Unmarshal reads it: an absent member is None.
  datatype Document = Document(
    id: Option<string>,
    appServiceKey: Option<string>,
    payload: Option<Bytes>,
    retryCount: Option<int>,
    pipelinePosition: Option<int>,
    version: Option<string>,
    correlationID: Option<string>,
    eventID: Option<string>,
    eventChecksum: Option<string>)

  function OmitEmpty<T(==)>(value: T, zero: T): Option<T> {
    if value == zero then None else Some(value)
  }

  function MarshalJSON(o: StoredObject): Document {
    Document(
      OmitEmpty(o.id, ""), OmitEmpty(o.appServiceKey, ""), OmitEmpty(o.payload, []),
      OmitEmpty(o.retryCount, 0), OmitEmpty(o.pipelinePosition, 0), OmitEmpty(o.version, ""),
      OmitEmpty(o.correlationID, ""), OmitEmpty(o.eventID, ""), OmitEmpty(o.eventChecksum, ""))
  }

  function OrElse<T>(o: Option<T>, otherwise: T): T {
    match o case Some(v) => v case None => otherwise
  }

  // What decoding `d` over a target that already holds `o` leaves in it: an absent string keeps the
  // target's, an absent payload or number becomes the zero value.
  function DecodeOver(o: StoredObject, d: Document): StoredObject {
    StoredObject(
      OrElse(d.id, o.id), OrElse(d.appServiceKey, o.appServiceKey), OrElse(d.payload, []),
      OrElse(d.retryCount, 0), OrElse(d.pipelinePosition, 0), OrElse(d.version, o.version),
      OrElse(d.correlationID, o.correlationID), OrElse(d.eventID, o.eventID), OrElse(d.eventChecksum, o.eventChecksum))
  }

  const ZERO := StoredObject("", "", [], 0, 0, "", "", "", "")

  // The Go struct, whose methods fill the receiver field by field.
  class Model {
    var ID: string
    var AppServiceKey: string
    var Payload: Bytes
    var RetryCount: int
    var PipelinePosition: int
    var Version: string
    var CorrelationID: string
    var EventID: string
    var EventChecksum: string

    constructor ()
      ensures ToContract() == ZERO
    {
      ID, AppServiceKey, Payload, RetryCount, PipelinePosition := "", "", [], 0, 0;
      Version, CorrelationID, EventID, EventChecksum := "", "", "", "";
    }

    function ToContract(): StoredObject
      reads this
    {
      StoredObject(ID, AppServiceKey, Payload, RetryCount, PipelinePosition, Version, CorrelationID, EventID,
                   EventChecksum)
    }

    method FromContract(c: StoredObject)
      modifies this
      ensures ToContract() == c
      ensures ID == c.id && AppServiceKey == c.appServiceKey && Payload == c.payload && RetryCount == c.retryCount
      ensures PipelinePosition == c.pipelinePosition && Version == c.version
      ensures CorrelationID == c.correlationID && EventID == c.eventID && EventChecksum == c.eventChecksum
    {
      ID := c.id;
      AppServiceKey := c.appServiceKey;
      Payload := c.payload;
      RetryCount := c.retryCount;
      PipelinePosition := c.pipelinePosition;
      Version := c.version;
      CorrelationID := c.correlationID;
      EventID := c.eventID;
      EventChecksum := c.eventChecksum;
    }

    method UnmarshalJSON(alias: Document)
      modifies this
      ensures ToContract() == DecodeOver(old(ToContract()), alias)
    {
      if alias.id.Some? { ID := alias.id.value; }
      if alias.appServiceKey.Some? { AppServiceKey := alias.appServiceKey.value; }
      if alias.version.Some? { Version := alias.version.value; }
      if alias.correlationID.Some? { CorrelationID := alias.correlationID.value; }
      if alias.eventID.Some? { EventID := alias.eventID.value; }
      if alias.eventChecksum.Some? { EventChecksum := alias.eventChecksum.value; }
      Payload := OrElse(alias.payload, []);
      RetryCount := OrElse(alias.retryCount, 0);
      PipelinePosition := OrElse(alias.pipelinePosition, 0);
    }
  }

  // Decoding what was encoded restores the object over target `t` exactly when no string the object
  // leaves empty is already set in the target; over a fresh target that is every object.
  lemma RoundTrip(t: StoredObject, o: StoredObject)
    ensures DecodeOver(t, MarshalJSON(o)) == o <==>
            && (o.id == "" ==> t.id == "")
            && (o.appServiceKey == "" ==> t.appServiceKey == "")
            && (o.version == "" ==> t.version == "")
            && (o.correlationID == "" ==> t.correlationID == "")
            && (o.eventID == "" ==> t.eventID == "")
            && (o.eventChecksum == "" ==> t.eventChecksum == "")
    ensures DecodeOver(ZERO, MarshalJSON(o)) == o
    ensures WellFormed(o) ==> SameCore(DecodeOver(t, MarshalJSON(o)), o)
  {
  }

  ghost predicate MemberIs<T>(member: Option<T>, value: T, zero: T) {
    if value == zero then member == None else member == Some(value)
  }

  // Each member of the document is its field, left out when that has the zero value.
  lemma MembersExactly(o: StoredObject)
    ensures var d := MarshalJSON(o);
            && MemberIs(d.id, o.id, "") && MemberIs(d.appServiceKey, o.appServiceKey, "")
            && MemberIs(d.payload, o.payload, []) && MemberIs(d.retryCount, o.retryCount, 0)
            && MemberIs(d.pipelinePosition, o.pipelinePosition, 0) && MemberIs(d.version, o.version, "")
            && MemberIs(d.correlationID, o.correlationID, "") && MemberIs(d.eventID, o.eventID, "")
            && MemberIs(d.eventChecksum, o.eventChecksum, "")
  {
  }

  // ---- the retrieval loop, which decodes every value over the same target ----

  // The contracts collected by decoding `docs` one after another over `target`.
  function DecodeAll(target: StoredObject, docs: seq<Document>): (objects: seq<StoredObject>)
    ensures |objects| == |docs|
    decreases |docs|
  {
    if docs == [] then []
    else
      var next := DecodeOver(target, docs[0]);
      [next] + DecodeAll(next, docs[1..])
  }

  // The last nonempty string of `values`, or `otherwise` when there is none.
  function LastNonempty(values: seq<string>, otherwise: string): string {
    if values == [] then otherwise
    else if values[|values| - 1] != "" then values[|values| - 1]
    else LastNonempty(values[..|values| - 1], otherwise)
  }

  function Marshalled(objects: seq<StoredObject>): (docs: seq<Document>)
    ensures |docs| == |objects|
  {
    seq(|objects|, i requires 0 <= i < |objects| => MarshalJSON(objects[i]))
  }

  function CorrelationIDs(objects: seq<StoredObject>): (r: seq<string>) ensures |r| == |objects| {
    seq(|objects|, i requires 0 <= i < |objects| => objects[i].correlationID)
  }

  function EventIDs(objects: seq<StoredObject>): (r: seq<string>) ensures |r| == |objects| {
    seq(|objects|, i requires 0 <= i < |objects| => objects[i].eventID)
  }

  function EventChecksums(objects: seq<StoredObject>): (r: seq<string>) ensures |r| == |objects| {
    seq(|objects|, i requires 0 <= i < |objects| => objects[i].eventChecksum)
  }

  lemma {:induction false} LastNonemptyPrepend(first: seq<string>, rest: seq<string>, otherwise: string)
    ensures LastNonempty(first + rest, otherwise) == LastNonempty(rest, LastNonempty(first, otherwise))
  {
    var all := first + rest;
    if rest == [] {
      assert all == first;
    } else {
      assert all[..|all| - 1] == first + rest[..|rest| - 1];
      LastNonemptyPrepend(first, rest[..|rest| - 1], otherwise);
    }
  }

  // Item i of a retrieval: six fields are the stored object's own; each optional string is the last
  // nonempty one among items 0..i (or what the target held before the loop).
  ghost predicate CarriesOver(item: StoredObject, target: StoredObject, objects: seq<StoredObject>) {
    && objects != [] && SameCore(item, objects[|objects| - 1])
    && item.correlationID == LastNonempty(CorrelationIDs(objects), target.correlationID)
    && item.eventID == LastNonempty(EventIDs(objects), target.eventID)
    && item.eventChecksum == LastNonempty(EventChecksums(objects), target.eventChecksum)
  }

  lemma CarriesOne(target: StoredObject, o: StoredObject)
    requires WellFormed(o)
    ensures CarriesOver(DecodeOver(target, MarshalJSON(o)), target, [o])
  {
    RoundTrip(target, o);
    assert CorrelationIDs([o])[..0] == [] && EventIDs([o])[..0] == [] && EventChecksums([o])[..0] == [];
  }

  lemma CarriesMore(item: StoredObject, target: StoredObject, o: StoredObject, rest: seq<StoredObject>)
    requires WellFormed(o) && CarriesOver(item, DecodeOver(target, MarshalJSON(o)), rest)
    ensures CarriesOver(item, target, [o] + rest)
  {
    CarriesOne(target, o);
    assert CorrelationIDs([o] + rest) == CorrelationIDs([o]) + CorrelationIDs(rest);
    assert EventIDs([o] + rest) == EventIDs([o]) + EventIDs(rest);
    assert EventChecksums([o] + rest) == EventChecksums([o]) + EventChecksums(rest);
    LastNonemptyPrepend(CorrelationIDs([o]), CorrelationIDs(rest), target.correlationID);
    LastNonemptyPrepend(EventIDs([o]), EventIDs(rest), target.eventID);
    LastNonemptyPrepend(EventChecksums([o]), EventChecksums(rest), target.eventChecksum);
  }

  lemma {:induction false} SharedTarget(target: StoredObject, objects: seq<StoredObject>, i: nat)
    requires forall o <- objects :: WellFormed(o)
    requires i < |objects|
    ensures CarriesOver(DecodeAll(target, Marshalled(objects))[i], target, objects[..i + 1])
    decreases i
  {
    var rest := objects[1..];
    assert Marshalled(objects)[1..] == Marshalled(rest);
    if i == 0 {
      CarriesOne(target, objects[0]);
      assert objects[..1] == [objects[0]];
    } else {
      SharedTarget(DecodeOver(target, MarshalJSON(objects[0])), rest, i - 1);
      CarriesMore(DecodeAll(target, Marshalled(objects))[i], target, objects[0], rest[..i]);
      assert objects[..i + 1] == [objects[0]] + rest[..i];
    }
  }

  lemma {:induction false} LastNonemptyIsEmpty(values: seq<string>)
    ensures LastNonempty(values, "") == "" <==> forall v <- values :: v == ""
  {
    if values != [] {
      var front := values[..|values| - 1];
      LastNonemptyIsEmpty(front);
      assert values == front + [values[|values| - 1]] && values[|values| - 1] in values;
      assert forall v <- front :: v in values;
    }
  }

  // Item i comes back exactly as stored if and only if each optional string it leaves empty is
  // empty in every item decoded before it.
  lemma RetrievedExactly(objects: seq<StoredObject>, i: nat)
    requires forall o <- objects :: WellFormed(o)
    requires i < |objects|
    ensures DecodeAll(ZERO, Marshalled(objects))[i] == objects[i] <==>
            && (objects[i].correlationID == "" ==> forall j :: 0 <= j < i ==> objects[j].correlationID == "")
            && (objects[i].eventID == "" ==> forall j :: 0 <= j < i ==> objects[j].eventID == "")
            && (objects[i].eventChecksum == "" ==> forall j :: 0 <= j < i ==> objects[j].eventChecksum == "")
  {
    SharedTarget(ZERO, objects, i);
    assert CorrelationIDs(objects[..i + 1]) == CorrelationIDs(objects)[..i + 1];
    assert EventIDs(objects[..i + 1]) == EventIDs(objects)[..i + 1];
    assert EventChecksums(objects[..i + 1]) == EventChecksums(objects)[..i + 1];
    var ids, events, sums := CorrelationIDs(objects), EventIDs(objects), EventChecksums(objects);
    EmptyBefore(ids, i);
    EmptyBefore(events, i);
    EmptyBefore(sums, i);
    assert forall j :: 0 <= j <= i ==> ids[j] == objects[j].correlationID;
    assert forall j :: 0 <= j <= i ==> events[j] == objects[j].eventID && sums[j] == objects[j].eventChecksum;
  }

  lemma EmptyBefore(values: seq<string>, i: nat)
    requires i < |values|
    ensures LastNonempty(values[..i + 1], "") == values[i] <==>
            (values[i] == "" ==> forall j :: 0 <= j < i ==> values[j] == "")
  {
    var shown := values[..i + 1];
    LastNonemptyIsEmpty(shown);
    if values[i] == "" {
      assert forall j :: 0 <= j <= i ==> shown[j] == values[j];
      if forall j :: 0 <= j < i ==> values[j] == "" {
        assert forall v <- shown :: v == "";
      } else {
        var j :| 0 <= j < i && values[j] != "";
        assert shown[j] in shown;
      }
    }
  }
}
