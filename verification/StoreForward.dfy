// internal/runtime/storeforward.go and the store-and-forward side of internal/runtime/runtime.go:
// storing a failed payload, and one pass of the retry loop over what is stored.

module StoreForward {
  import opened Wrappers
  import opened Contracts
  import opened Pipeline
  import opened PipelineHash
  import RedisStore

  type Objects = map<string, StoredObject>

  // ---- storing ----

  // storeForLaterRetry: one new object, stamped with the pipeline's hash. It is dropped (with a log
  // line) when store and forward is disabled, when the contract is invalid or the id taken, and when
  // the store fails.
  function NewItem(serviceKey: string, ids: Ids, handedOff: (Bytes, nat), pipelineHash: string): StoredObject {
    NewStoredObject(serviceKey, handedOff.0, handedOff.1, pipelineHash)
    .(correlationID := ids.correlationID, eventID := ids.eventID, eventChecksum := ids.eventChecksum)
  }

  function AfterStore(store: Objects, item: StoredObject, enabled: bool, generated: string, up: bool): Objects {
    var v := ValidateContract(item, false, generated);
    if enabled && up && v.Success? && v.value.id !in store then store[v.value.id := v.value] else store
  }

  // What storing must have done: one new object under the generated id, with nothing retried yet, the payload
  // and the position it is to resume at, the event's identifiers and the stamp; and nothing when store and
  // forward is disabled, a required part is missing, the id is none or taken, or the store fails.
  ghost predicate StoredAs(was: Objects, now: Objects, serviceKey: string, ids: Ids, payload: Bytes, position: nat,
                           stamp: string, enabled: bool, generated: string, up: bool)
  {
    var parsed := ParseUuid(generated);
    if enabled && up && serviceKey != "" && payload != [] && stamp != "" && parsed.Some? && parsed.value !in was then
      now == was[parsed.value := StoredObject(
        id := parsed.value, appServiceKey := serviceKey, payload := payload, retryCount := 0,
        pipelinePosition := position, version := stamp, correlationID := ids.correlationID,
        eventID := ids.eventID, eventChecksum := ids.eventChecksum)]
    else now == was
  }

  lemma StoresExactly(store: Objects, serviceKey: string, ids: Ids, payload: Bytes, position: nat, stamp: string,
                      enabled: bool, generated: string, up: bool)
    ensures var item := NewItem(serviceKey, ids, (payload, position), stamp);
            StoredAs(store, AfterStore(store, item, enabled, generated, up), serviceKey, ids, payload, position, stamp,
                     enabled, generated, up)
  {
    ValidateExactly(NewItem(serviceKey, ids, (payload, position), stamp), false, generated);
  }

  // ---- judging one retrieved item ----

  datatype Verdict = Delivered | Again | Expired | Invalidated

  function ItemIds(item: StoredObject): Ids {
    Ids(item.correlationID, item.eventID, item.eventChecksum)
  }

  function ItemRun(item: StoredObject, fns: seq<AppFunction>, moment: nat): Run {
    RetryRun(fns, moment, ItemIds(item), item.payload, item.pipelinePosition)
  }

  function Judge(item: StoredObject, fns: seq<AppFunction>, maxRetry: int, moment: nat): Verdict {
    if item.version != Hash(Names(fns)) then Invalidated
    else if ItemRun(item, fns, moment).error == None then Delivered
    else if maxRetry == 0 || item.retryCount + 1 < maxRetry then Again
    else Expired
  }

  function Bumped(item: StoredObject): StoredObject {
    item.(retryCount := item.retryCount + 1)
  }

  // How the item reads when it is put on one of the two lists.
  function Listed(item: StoredObject, verdict: Verdict): StoredObject {
    if verdict == Again || verdict == Expired then Bumped(item) else item
  }

  // ---- one pass ----

  // The items retrieved, the pipeline and maximum they are judged by; item i is retried at clock(i).
  datatype Pass = Pass(items: seq<StoredObject>, fns: seq<AppFunction>, maxRetry: int, clock: nat -> nat)

  function VerdictOf(p: Pass, i: nat): Verdict
    requires i < |p.items|
  {
    Judge(p.items[i], p.fns, p.maxRetry, p.clock(i))
  }

  // The items to remove and to update among the first n.
  function Sorted(p: Pass, n: nat): (seq<StoredObject>, seq<StoredObject>)
    requires n <= |p.items|
  {
    if n == 0 then ([], [])
    else
      var (removes, updates) := Sorted(p, n - 1);
      var verdict := VerdictOf(p, n - 1);
      var item := Listed(p.items[n - 1], verdict);
      if verdict == Again then (removes, updates + [item]) else (removes + [item], updates)
  }

  function RemoveEach(store: Objects, removes: seq<StoredObject>, ok: string -> bool): Objects
    decreases |removes|
  {
    if removes == [] then store
    else RemoveEach(if ok(removes[0].id) then store - {removes[0].id} else store, removes[1..], ok)
  }

  function Replace(store: Objects, item: StoredObject): Objects {
    if item.id in store then store[item.id := item] else store
  }

  function UpdateEach(store: Objects, updates: seq<StoredObject>, ok: string -> bool): Objects
    decreases |updates|
  {
    if updates == [] then store
    else UpdateEach(if ok(updates[0].id) then Replace(store, updates[0]) else store, updates[1..], ok)
  }

  // `removeOk` and `updateOk` say for which objects the store's write succeeds.
  function AfterPass(store: Objects, p: Pass, removeOk: string -> bool, updateOk: string -> bool): Objects {
    var (removes, updates) := Sorted(p, |p.items|);
    UpdateEach(RemoveEach(store, removes, removeOk), updates, updateOk)
  }

  ghost predicate DistinctIds(items: seq<StoredObject>) {
    forall i, j :: 0 <= i < j < |items| ==> items[i].id != items[j].id
  }

  // What either store client returns for the service: each of its objects once, in any order, exact
  // in all but the three optional strings.
  ghost predicate IsRetrieval(store: Objects, serviceKey: string, items: seq<StoredObject>) {
    && DistinctIds(items)
    && (forall i :: 0 <= i < |items| ==>
                      && items[i].id in store && store[items[i].id].appServiceKey == serviceKey
                      && SameCore(items[i], store[items[i].id]))
    && (forall id :: id in store && store[id].appServiceKey == serviceKey ==>
                       exists i :: 0 <= i < |items| && items[i].id == id)
  }

  // What the pass makes of one object of the store.
  function Fate(o: Option<StoredObject>, item: StoredObject, verdict: Verdict, removeOk: bool, updateOk: bool)
    : Option<StoredObject>
  {
    if verdict == Again then (if updateOk then Some(Bumped(item)) else o)
    else if removeOk then None else o
  }

  function Get(store: Objects, id: string): Option<StoredObject> {
    if id in store then Some(store[id]) else None
  }

  // The indices of the first n items that are to be updated, or removed, in increasing order.
  function Indices(p: Pass, n: nat, again: bool): (r: seq<nat>)
    requires n <= |p.items|
    ensures forall k :: 0 <= k < |r| ==> r[k] < n
  {
    if n == 0 then []
    else if (VerdictOf(p, n - 1) == Again) == again then Indices(p, n - 1, again) + [n - 1]
    else Indices(p, n - 1, again)
  }

  ghost predicate IncreasingWith(r: seq<nat>, p: Pass, again: bool) {
    && (forall k :: 0 <= k < |r| ==> r[k] < |p.items| && (VerdictOf(p, r[k]) == Again) == again)
    && (forall j, k :: 0 <= j < k < |r| ==> r[j] < r[k])
  }

  lemma IncreaseAppend(r: seq<nat>, i: nat, p: Pass, again: bool)
    requires IncreasingWith(r, p, again) && (forall k :: 0 <= k < |r| ==> r[k] < i)
    requires i < |p.items| && (VerdictOf(p, i) == Again) == again
    ensures IncreasingWith(r + [i], p, again)
  {
  }

  lemma {:induction false} IndicesIncrease(p: Pass, n: nat, again: bool)
    requires n <= |p.items|
    ensures IncreasingWith(Indices(p, n, again), p, again)
  {
    if n > 0 {
      IndicesIncrease(p, n - 1, again);
      var shorter := Indices(p, n - 1, again);
      if (VerdictOf(p, n - 1) == Again) == again {
        IncreaseAppend(shorter, n - 1, p, again);
        assert Indices(p, n, again) == shorter + [n - 1];
      }
    }
  }

  lemma {:induction false} IndicesComplete(p: Pass, n: nat, i: nat) returns (k: nat)
    requires i < n <= |p.items|
    ensures var r := Indices(p, n, VerdictOf(p, i) == Again); k < |r| && r[k] == i
  {
    var again := VerdictOf(p, i) == Again;
    if i == n - 1 {
      k := |Indices(p, n - 1, again)|;
    } else {
      k := IndicesComplete(p, n - 1, i);
      assert Indices(p, n - 1, again) <= Indices(p, n, again);
    }
  }

  function ListedItem(p: Pass, i: nat): StoredObject
    requires i < |p.items|
  {
    Listed(p.items[i], VerdictOf(p, i))
  }

  function ListedAt(p: Pass, indices: seq<nat>): (r: seq<StoredObject>)
    requires forall k :: 0 <= k < |indices| ==> indices[k] < |p.items|
    ensures |r| == |indices|
    ensures forall k :: 0 <= k < |r| ==> r[k] == ListedItem(p, indices[k])
  {
    seq(|indices|, k requires 0 <= k < |indices| => ListedItem(p, indices[k]))
  }

  // Removals and updates are the retrieved items, each once and in order: item i is on the updates
  // exactly when its verdict is Again, and otherwise on the removals.
  lemma {:induction false} SortedPartitions(p: Pass, n: nat)
    requires n <= |p.items|
    ensures Sorted(p, n) == (ListedAt(p, Indices(p, n, false)), ListedAt(p, Indices(p, n, true)))
    ensures |Indices(p, n, false)| + |Indices(p, n, true)| == n
  {
    if n > 0 {
      SortedPartitions(p, n - 1);
      var again := VerdictOf(p, n - 1) == Again;
      ListOneMore(p, Indices(p, n - 1, again), n - 1);
    }
  }

  lemma ListOneMore(p: Pass, indices: seq<nat>, i: nat)
    requires i < |p.items| && forall k :: 0 <= k < |indices| ==> indices[k] < |p.items|
    ensures ListedAt(p, indices + [i]) == ListedAt(p, indices) + [ListedItem(p, i)]
  {
  }

  lemma {:induction false} RemoveEachActs(store: Objects, removes: seq<StoredObject>, ok: string -> bool, id: string)
    ensures Get(RemoveEach(store, removes, ok), id) ==
            if (exists r <- removes :: r.id == id) && ok(id) then None else Get(store, id)
    decreases |removes|
  {
    if removes != [] {
      RemoveEachActs(if ok(removes[0].id) then store - {removes[0].id} else store, removes[1..], ok, id);
      assert forall r :: r in removes <==> r == removes[0] || r in removes[1..];
    }
  }

  lemma {:induction false} UpdateEachActs(store: Objects, updates: seq<StoredObject>, ok: string -> bool, id: string)
    requires DistinctIds(updates)
    ensures (forall u <- updates :: u.id != id) ==> Get(UpdateEach(store, updates, ok), id) == Get(store, id)
    ensures var after := Get(UpdateEach(store, updates, ok), id);
            forall u <- updates :: u.id == id ==> after == if id in store && ok(id) then Some(u) else Get(store, id)
    decreases |updates|
  {
    if updates != [] {
      var next := if ok(updates[0].id) then Replace(store, updates[0]) else store;
      UpdateEachActs(next, updates[1..], ok, id);
      assert forall u :: u in updates <==> u == updates[0] || u in updates[1..];
      if updates[0].id == id {
        forall u | u in updates[1..] ensures u.id != id {
          var i :| 0 <= i < |updates| - 1 && updates[1..][i] == u;
          assert updates[i + 1] == u;
        }
      }
    }
  }

  lemma RemovalDecides(store: Objects, removes: seq<StoredObject>, updates: seq<StoredObject>, k: nat,
                       removeOk: string -> bool, updateOk: string -> bool)
    requires DistinctIds(updates) && k < |removes| && forall j :: 0 <= j < |updates| ==> updates[j].id != removes[k].id
    ensures var id := removes[k].id;
            Get(UpdateEach(RemoveEach(store, removes, removeOk), updates, updateOk), id) ==
            if removeOk(id) then None else Get(store, id)
  {
    RemoveEachActs(store, removes, removeOk, removes[k].id);
    UpdateEachActs(RemoveEach(store, removes, removeOk), updates, updateOk, removes[k].id);
  }

  lemma UpdateDecides(store: Objects, removes: seq<StoredObject>, updates: seq<StoredObject>, k: nat,
                      removeOk: string -> bool, updateOk: string -> bool)
    requires DistinctIds(updates) && k < |updates| && updates[k].id in store
    requires forall j :: 0 <= j < |removes| ==> removes[j].id != updates[k].id
    ensures var id := updates[k].id;
            Get(UpdateEach(RemoveEach(store, removes, removeOk), updates, updateOk), id) ==
            if updateOk(id) then Some(updates[k]) else Get(store, id)
  {
    RemoveEachActs(store, removes, removeOk, updates[k].id);
    UpdateEachActs(RemoveEach(store, removes, removeOk), updates, updateOk, updates[k].id);
    assert updates[k] in updates;
  }

  lemma ListsAreDistinct(p: Pass)
    requires DistinctIds(p.items)
    ensures var removes, updates := ListedAt(p, Indices(p, |p.items|, false)), ListedAt(p, Indices(p, |p.items|, true));
            && DistinctIds(updates)
            && forall j, k :: 0 <= j < |removes| && 0 <= k < |updates| ==> removes[j].id != updates[k].id
  {
    IndicesIncrease(p, |p.items|, false);
    IndicesIncrease(p, |p.items|, true);
    var removed, updated := Indices(p, |p.items|, false), Indices(p, |p.items|, true);
    assert forall i: nat :: i < |p.items| ==> ListedItem(p, i).id == p.items[i].id;
    forall j, k | 0 <= j < |removed| && 0 <= k < |updated| ensures removed[j] != updated[k] {
      assert VerdictOf(p, removed[j]) != Again && VerdictOf(p, updated[k]) == Again;
    }
  }

  // What the pass makes of the i-th item it retrieved.
  lemma PassDecides(store: Objects, p: Pass, i: nat, removeOk: string -> bool, updateOk: string -> bool)
    requires DistinctIds(p.items) && i < |p.items| && p.items[i].id in store
    ensures var id := p.items[i].id;
            Get(AfterPass(store, p, removeOk, updateOk), id)
            == Fate(Get(store, id), p.items[i], VerdictOf(p, i), removeOk(id), updateOk(id))
  {
    SortedPartitions(p, |p.items|);
    ListsAreDistinct(p);
    var again := VerdictOf(p, i) == Again;
    var removes, updates := ListedAt(p, Indices(p, |p.items|, false)), ListedAt(p, Indices(p, |p.items|, true));
    var k := IndicesComplete(p, |p.items|, i);
    if again {
      UpdateDecides(store, removes, updates, k, removeOk, updateOk);
    } else {
      RemovalDecides(store, removes, updates, k, removeOk, updateOk);
    }
  }

  lemma PassSpares(store: Objects, p: Pass, id: string, removeOk: string -> bool, updateOk: string -> bool)
    requires DistinctIds(p.items) && forall i :: 0 <= i < |p.items| ==> p.items[i].id != id
    ensures Get(AfterPass(store, p, removeOk, updateOk), id) == Get(store, id)
  {
    SortedPartitions(p, |p.items|);
    ListsAreDistinct(p);
    var removes, updates := ListedAt(p, Indices(p, |p.items|, false)), ListedAt(p, Indices(p, |p.items|, true));
    assert forall i: nat :: i < |p.items| ==> ListedItem(p, i).id == p.items[i].id;
    RemoveEachActs(store, removes, removeOk, id);
    UpdateEachActs(RemoveEach(store, removes, removeOk), updates, updateOk, id);
  }

  // ---- the same, read off the items ----

  // The pipeline resumed at the item's position on its payload, for the event the item names.
  function Resumed(item: StoredObject, fns: seq<AppFunction>, moment: nat): Run {
    var ids := Ids(item.correlationID, item.eventID, item.eventChecksum);
    var a := Attempt(fns, moment, ids, Raw(item.payload), "", true);
    RunFrom(a, Nil, if item.pipelinePosition < 0 then 0 else item.pipelinePosition)
  }

  predicate Matches(item: StoredObject, fns: seq<AppFunction>) { item.version == Hash(Names(fns)) }

  predicate Fails(item: StoredObject, fns: seq<AppFunction>, moment: nat) {
    Resumed(item, fns, moment).error.Some?
  }

  predicate Exhausted(item: StoredObject, maxRetry: int) {
    maxRetry != 0 && item.retryCount + 1 >= maxRetry
  }

  // The item is to be retried again: its version matches, its retry failed, and its count is not exhausted.
  predicate Stays(item: StoredObject, fns: seq<AppFunction>, maxRetry: int, moment: nat) {
    Matches(item, fns) && Fails(item, fns, moment) && !Exhausted(item, maxRetry)
  }

  lemma JudgeExactly(item: StoredObject, fns: seq<AppFunction>, maxRetry: int, moment: nat)
    ensures var v := Judge(item, fns, maxRetry, moment);
            && (v == Invalidated <==> !Matches(item, fns))
            && (v == Delivered <==> Matches(item, fns) && !Fails(item, fns, moment))
            && (v == Expired <==> Matches(item, fns) && Fails(item, fns, moment) && Exhausted(item, maxRetry))
            && (v == Again <==> Stays(item, fns, maxRetry, moment))
  {
  }

  predicate StaysAt(p: Pass, i: nat)
    requires i < |p.items|
  {
    Stays(p.items[i], p.fns, p.maxRetry, p.clock(i))
  }

  ghost predicate Increasing(r: seq<nat>, n: nat) {
    (forall k :: 0 <= k < |r| ==> r[k] < n) && (forall j, k :: 0 <= j < k < |r| ==> r[j] < r[k])
  }

  // `removes` and `updates` are what became of the items at these positions: in order, to be updated are
  // exactly those that stay, with one more retry and nothing else changed, and to be removed all others, with
  // one more retry if theirs failed.
  ghost predicate SplitsInto(p: Pass, removes: seq<StoredObject>, updates: seq<StoredObject>, rm: seq<nat>,
                             up: seq<nat>)
  {
    && Increasing(rm, |p.items|) && Increasing(up, |p.items|) && |removes| == |rm| && |updates| == |up|
    && (forall i: nat :: i < |p.items| ==> if StaysAt(p, i) then i in up && i !in rm else i in rm && i !in up)
    && (forall k :: 0 <= k < |up| ==> updates[k] == p.items[up[k]].(retryCount := p.items[up[k]].retryCount + 1))
    && (forall k :: 0 <= k < |rm| ==> RemovedAs(p, rm[k], removes[k]))
  }

  predicate RemovedAs(p: Pass, i: nat, removed: StoredObject)
    requires i < |p.items|
  {
    var item := p.items[i];
    var tried := if Matches(item, p.fns) && Fails(item, p.fns, p.clock(i)) then 1 else 0;
    removed == item.(retryCount := item.retryCount + tried)
  }

  ghost predicate IsSplit(p: Pass, removes: seq<StoredObject>, updates: seq<StoredObject>) {
    exists rm, up :: SplitsInto(p, removes, updates, rm, up)
  }

  lemma PassSplits(p: Pass)
    ensures IsSplit(p, Sorted(p, |p.items|).0, Sorted(p, |p.items|).1)
  {
    var n := |p.items|;
    var rm, up := Indices(p, n, false), Indices(p, n, true);
    SortedPartitions(p, n);
    IndicesIncrease(p, n, false);
    IndicesIncrease(p, n, true);
    forall i: nat | i < n ensures if StaysAt(p, i) then i in up && i !in rm else i in rm && i !in up {
      JudgeExactly(p.items[i], p.fns, p.maxRetry, p.clock(i));
      var k := IndicesComplete(p, n, i);
      assert i in (if StaysAt(p, i) then up else rm);
    }
    forall k | 0 <= k < |up|
      ensures ListedItem(p, up[k]) == p.items[up[k]].(retryCount := p.items[up[k]].retryCount + 1)
    {
      assert VerdictOf(p, up[k]) == Again;
    }
    forall k | 0 <= k < |rm| ensures RemovedAs(p, rm[k], ListedItem(p, rm[k])) {
      JudgeExactly(p.items[rm[k]], p.fns, p.maxRetry, p.clock(rm[k]));
      assert VerdictOf(p, rm[k]) != Again;
    }
    assert SplitsInto(p, Sorted(p, n).0, Sorted(p, n).1, rm, up);
  }

  // What the pass did to the i-th item it retrieved: it is updated if it stays, and else removed, unless that
  // write failed.
  ghost predicate MeetsFate(was: Objects, now: Objects, p: Pass, removeOk: string -> bool, updateOk: string -> bool,
                            i: nat)
    requires i < |p.items|
  {
    var item, id := p.items[i], p.items[i].id;
    if StaysAt(p, i) then
      Get(now, id) == if updateOk(id) then Some(item.(retryCount := item.retryCount + 1)) else Get(was, id)
    else
      Get(now, id) == if removeOk(id) then None else Get(was, id)
  }

  // The whole effect of a pass on the store.
  ghost predicate PassDid(was: Objects, now: Objects, p: Pass, removeOk: string -> bool, updateOk: string -> bool) {
    && (forall i :: 0 <= i < |p.items| ==> MeetsFate(was, now, p, removeOk, updateOk, i))
    && (forall id :: (forall i :: 0 <= i < |p.items| ==> p.items[i].id != id) ==> Get(now, id) == Get(was, id))
    && now.Keys <= was.Keys
  }

  // The exact effect of a pass, whichever writes fail: every retrieved item meets its fate, and every other
  // object, of this service or another, is untouched; so no id appears.
  lemma PassEffect(store: Objects, p: Pass, removeOk: string -> bool, updateOk: string -> bool)
    requires DistinctIds(p.items) && forall i :: 0 <= i < |p.items| ==> p.items[i].id in store
    ensures PassDid(store, AfterPass(store, p, removeOk, updateOk), p, removeOk, updateOk)
  {
    var after := AfterPass(store, p, removeOk, updateOk);
    forall i | 0 <= i < |p.items| ensures MeetsFate(store, after, p, removeOk, updateOk, i) {
      JudgeExactly(p.items[i], p.fns, p.maxRetry, p.clock(i));
      PassDecides(store, p, i, removeOk, updateOk);
    }
    forall id | forall i :: 0 <= i < |p.items| ==> p.items[i].id != id ensures Get(after, id) == Get(store, id) {
      PassSpares(store, p, id, removeOk, updateOk);
    }
    forall id | id in after ensures id in store {
      assert (forall i :: 0 <= i < |p.items| ==> p.items[i].id != id) ==> Get(after, id) == Get(store, id);
    }
  }

  // Without store errors, the service's objects are afterwards exactly the retrieved items that stay, each with
  // one more retry.
  ghost predicate OnlyStaysRemain(now: Objects, serviceKey: string, p: Pass) {
    && (forall id :: id in now && now[id].appServiceKey == serviceKey ==>
                       exists i :: 0 <= i < |p.items| && p.items[i].id == id && StaysAt(p, i))
    && (forall i :: 0 <= i < |p.items| && StaysAt(p, i) ==>
                      Get(now, p.items[i].id) == Some(p.items[i].(retryCount := p.items[i].retryCount + 1)))
  }

  lemma CleanPassExactly(was: Objects, now: Objects, serviceKey: string, p: Pass)
    requires IsRetrieval(was, serviceKey, p.items)
    requires PassDid(was, now, p, (id: string) => true, (id: string) => true)
    ensures OnlyStaysRemain(now, serviceKey, p)
  {
    var yes := (id: string) => true;
    forall i | 0 <= i < |p.items| && StaysAt(p, i)
      ensures Get(now, p.items[i].id) == Some(p.items[i].(retryCount := p.items[i].retryCount + 1))
    {
      assert MeetsFate(was, now, p, yes, yes, i);
    }
    forall id | id in now && now[id].appServiceKey == serviceKey
      ensures exists i :: 0 <= i < |p.items| && p.items[i].id == id && StaysAt(p, i)
    {
      assert (forall i :: 0 <= i < |p.items| ==> p.items[i].id != id) ==> Get(now, id) == Get(was, id);
      if i :| 0 <= i < |p.items| && p.items[i].id == id {
        assert MeetsFate(was, now, p, yes, yes, i);
      }
    }
  }

  // ---- bounded retries ----

  // A negative maximum acts as 1, and 0 lets no item expire.
  lemma MaxRetryCorners(item: StoredObject, fns: seq<AppFunction>, maxRetry: int, moment: nat)
    requires item.retryCount >= 0
    ensures maxRetry < 0 ==> Judge(item, fns, maxRetry, moment) == Judge(item, fns, 1, moment)
    ensures maxRetry <= 1 && maxRetry != 0 ==> Judge(item, fns, maxRetry, moment) != Again
    ensures Judge(item, fns, 0, moment) != Expired
  {
  }

  // A pass without store errors.
  function CleanPass(store: Objects, p: Pass): Objects {
    AfterPass(store, p, (id: string) => true, (id: string) => true)
  }

  function CleanPasses(store: Objects, ps: seq<Pass>): Objects
    decreases |ps|
  {
    if ps == [] then store else CleanPasses(CleanPass(store, ps[0]), ps[1..])
  }

  // Each pass retrieves what the store then holds, and they all go by the same maximum.
  ghost predicate EachRetrieves(store: Objects, serviceKey: string, ps: seq<Pass>, maxRetry: int)
    decreases |ps|
  {
    ps != [] ==>
      && ps[0].maxRetry == maxRetry
      && IsRetrieval(store, serviceKey, ps[0].items)
      && EachRetrieves(CleanPass(store, ps[0]), serviceKey, ps[1..], maxRetry)
  }

  ghost predicate CountsBetween(store: Objects, serviceKey: string, low: int, high: int) {
    forall id :: id in store && store[id].appServiceKey == serviceKey ==> low <= store[id].retryCount < high
  }

  lemma FateWithinCounts(o: StoredObject, item: StoredObject, fns: seq<AppFunction>, maxRetry: int, moment: nat)
    requires SameCore(item, o) && maxRetry > 0
    ensures var fate := Fate(Some(o), item, Judge(item, fns, maxRetry, moment), true, true);
            fate.Some? ==>
              fate.value.retryCount == o.retryCount + 1 < maxRetry && fate.value.appServiceKey == o.appServiceKey
  {
  }

  // Of the service's objects, a clean pass leaves those it retrieved and will retry again.
  lemma PassLiftsItem(store: Objects, serviceKey: string, p: Pass, id: string)
    requires IsRetrieval(store, serviceKey, p.items) && p.maxRetry > 0
    requires id in CleanPass(store, p)
    ensures var o := CleanPass(store, p)[id];
            o.appServiceKey == serviceKey ==>
              && id in store && store[id].appServiceKey == serviceKey
              && o.retryCount == store[id].retryCount + 1 < p.maxRetry
  {
    var after, yes := CleanPass(store, p), (id: string) => true;
    PassEffect(store, p, yes, yes);
    if i :| 0 <= i < |p.items| && p.items[i].id == id {
      FateWithinCounts(store[id], p.items[i], p.fns, p.maxRetry, p.clock(i));
      assert MeetsFate(store, after, p, yes, yes, i);
      JudgeExactly(p.items[i], p.fns, p.maxRetry, p.clock(i));
    } else {
      assert Get(after, id) == Get(store, id);
    }
  }

  // A pass lifts the least retry count of the service's objects by one and keeps it below the maximum.
  lemma PassLifts(store: Objects, serviceKey: string, p: Pass, low: int)
    requires IsRetrieval(store, serviceKey, p.items) && p.maxRetry > 0
    requires CountsBetween(store, serviceKey, low, p.maxRetry)
    ensures CountsBetween(CleanPass(store, p), serviceKey, low + 1, p.maxRetry)
  {
    forall id | id in CleanPass(store, p) ensures
        var o := CleanPass(store, p)[id];
        o.appServiceKey == serviceKey ==> low + 1 <= o.retryCount < p.maxRetry
    {
      PassLiftsItem(store, serviceKey, p, id);
    }
  }

  // With a constant maximum m > 0, m passes without new objects and without store errors leave
  // nothing of the service in the store, however its pipeline behaves or changes meanwhile.
  lemma {:induction false} PassesDrain(store: Objects, serviceKey: string, ps: seq<Pass>, maxRetry: int, low: int)
    requires maxRetry > 0 && EachRetrieves(store, serviceKey, ps, maxRetry)
    requires CountsBetween(store, serviceKey, low, maxRetry)
    ensures CountsBetween(CleanPasses(store, ps), serviceKey, low + |ps|, maxRetry)
    ensures low == 0 && |ps| >= maxRetry ==>
              forall id <- CleanPasses(store, ps) :: CleanPasses(store, ps)[id].appServiceKey != serviceKey
    decreases |ps|
  {
    if ps != [] {
      PassLifts(store, serviceKey, ps[0], low);
      PassesDrain(CleanPass(store, ps[0]), serviceKey, ps[1..], maxRetry, low + 1);
    }
  }

  // ---- the version stamp of a stale pipeline ----

  // A message runs on a copy of the pipeline but is stamped with the hash of the current one. The
  // stamp names the pipeline that ran exactly when SetTransforms put no other names in place since.
  lemma StampNamesWhatRan(copied: seq<AppFunction>, current: seq<AppFunction>, serviceKey: string, ids: Ids,
                          handedOff: (Bytes, nat))
    requires SpaceFree(Names(copied)) && SpaceFree(Names(current))
    ensures NewItem(serviceKey, ids, handedOff, Hash(Names(current))).version == Hash(Names(copied)) <==>
            Names(copied) == Names(current)
  {
    HashIsInjective(Names(copied), Names(current));
  }

  ghost predicate StampedAt(item: StoredObject, names: seq<string>, k: nat) {
    item.version == Hash(names) && item.pipelinePosition == k
  }

  // The item is removed as delivered without any function having been called on it.
  ghost predicate DeliveredUncalled(item: StoredObject, fns: seq<AppFunction>, maxRetry: int, moment: nat) {
    Judge(item, fns, maxRetry, moment) == Delivered && ItemRun(item, fns, moment).calls == []
  }

  ghost predicate NeverUncalled(names: seq<string>, k: nat) {
    forall item, fns, maxRetry, moment: nat ::
      StampedAt(item, names, k) && SpaceFree(Names(fns)) ==> !DeliveredUncalled(item, fns, maxRetry, moment)
  }

  // Whatever pipeline ran, an item stamped with the current one is never removed as delivered uncalled, by
  // any pipeline at any time, exactly when its position lies inside the current pipeline.
  lemma NeverUncalledExactly(current: seq<AppFunction>, k: nat)
    requires SpaceFree(Names(current))
    ensures NeverUncalled(Names(current), k) <==> k < |current|
  {
    if k < |current| {
      forall item, fns, maxRetry, moment: nat | StampedAt(item, Names(current), k) && SpaceFree(Names(fns))
        ensures !DeliveredUncalled(item, fns, maxRetry, moment)
      {
        HashIsInjective(Names(current), Names(fns));
        RetryCallsItsFunction(fns, moment, ItemIds(item), item.payload, k);
      }
    } else {
      var item := NewStoredObject("", [], k, Hash(Names(current)));
      RetryCallsItsFunction(current, 0, ItemIds(item), item.payload, k);
      assert StampedAt(item, Names(current), k) && DeliveredUncalled(item, current, 0, 0);
    }
  }

  // The retry first calls a function of this name, on the payload.
  ghost predicate FirstCalls(item: StoredObject, fns: seq<AppFunction>, moment: nat, name: string) {
    var calls := ItemRun(item, fns, moment).calls;
    && calls != [] && calls[0].input == Raw(item.payload)
    && calls[0].position < |fns| && fns[calls[0].position].name == name
  }

  ghost predicate AlwaysFirstCalls(names: seq<string>, k: nat, name: string) {
    forall item, fns, moment: nat ::
      StampedAt(item, names, k) && SpaceFree(Names(fns)) && item.version == Hash(Names(fns)) ==>
        FirstCalls(item, fns, moment, name)
  }

  // The function that failed, at position k of the copy, is the one every retry starts with exactly when
  // the current pipeline has its name at that position.
  lemma RetriesWhatFailed(copied: seq<AppFunction>, current: seq<AppFunction>, k: nat)
    requires SpaceFree(Names(copied)) && SpaceFree(Names(current)) && k < |copied|
    ensures AlwaysFirstCalls(Names(current), k, copied[k].name)
       <==> k < |current| && Names(current)[k] == Names(copied)[k]
  {
    if k < |current| && Names(current)[k] == Names(copied)[k] {
      forall item, fns: seq<AppFunction>, moment: nat |
        StampedAt(item, Names(current), k) && SpaceFree(Names(fns)) && item.version == Hash(Names(fns))
        ensures FirstCalls(item, fns, moment, copied[k].name)
      {
        HashIsInjective(Names(current), Names(fns));
        RetryCallsItsFunction(fns, moment, ItemIds(item), item.payload, k);
        assert fns[k].name == Names(fns)[k];
      }
    } else {
      var item := NewStoredObject("", [], k, Hash(Names(current)));
      RetryCallsItsFunction(current, 0, ItemIds(item), item.payload, k);
      assert StampedAt(item, Names(current), k) && !FirstCalls(item, current, 0, copied[k].name);
    }
  }

  // A message can end there: here the pipeline shrinks while its second function is failing.
  lemma StaleStampLosesPayload()
    ensures exists copied, current, payload: Bytes, k: nat ::
              && MessageRun(copied, 0, Ids("", "", ""), Nil, "").handedOff == Some((payload, k))
              && SpaceFree(Names(copied)) && SpaceFree(Names(current)) && k >= |current|
              && !NeverUncalled(Names(current), k)
  {
    var pass := AppFunction("pass", (m, ids, v, c) => Outcome(true, Raw([1]), None));
    var post := AppFunction("post", (m, ids, v, c) => Outcome(false, Error("down", None), Some([1])));
    var a := Message([pass, post], 0, Ids("", "", ""), Nil, "");
    RunStep(a, Nil, 0);
    RunStep(a, Raw([1]), 1);
    assert MessageRun([pass, post], 0, Ids("", "", ""), Nil, "").handedOff == Some(([1], 1));
    assert Names([pass, post]) == ["pass", "post"] && Names([pass]) == ["pass"];
    NeverUncalledExactly([pass], 1);
  }

  // ---- the runtime ----

  class Context {
    const ids: Ids
    const storeForwardEnabled: bool
    var RetryData: Option<Bytes>

    constructor (ids: Ids, storeForwardEnabled: bool)
      ensures this.ids == ids && this.storeForwardEnabled == storeForwardEnabled && RetryData == None
    {
      this.ids, this.storeForwardEnabled := ids, storeForwardEnabled;
      RetryData := None;
    }
  }

  ghost predicate SameEnd(run: Run, rest: Run) {
    run.error == rest.error && run.handedOff == rest.handedOff
  }

  // The store client is represented by the objects it holds (see RedisStore and MongoStore).
  class GolangRuntime {
    const ServiceKey: string
    var transforms: seq<AppFunction>
    var pipelineHash: string
    var store: Objects

    ghost predicate Valid()
      reads this
    {
      pipelineHash == Hash(Names(transforms))
    }

    // The struct as MakeItRun creates it; its stamp is empty until SetTransforms.
    constructor (serviceKey: string)
      ensures ServiceKey == serviceKey && transforms == [] && pipelineHash == "" && store == map[]
    {
      ServiceKey, transforms, pipelineHash, store := serviceKey, [], "", map[];
    }

    method Initialize(store: Objects)
      modifies this`store
      ensures this.store == store
    {
      this.store := store;
    }

    method SetTransforms(transforms: seq<AppFunction>)
      modifies this`transforms, this`pipelineHash
      ensures Valid() && this.transforms == transforms
    {
      this.transforms := transforms;
      pipelineHash := CalculatePipelineHash(Names(transforms));
    }

    method StoreForLaterRetry(payload: Bytes, ctx: Context, pipelinePosition: nat, generated: string, up: bool)
      modifies this`store
      ensures store == AfterStore(old(store), NewItem(ServiceKey, ctx.ids, (payload, pipelinePosition), pipelineHash),
                                  ctx.storeForwardEnabled, generated, up)
      ensures StoredAs(old(store), store, ServiceKey, ctx.ids, payload, pipelinePosition, pipelineHash,
                       ctx.storeForwardEnabled, generated, up)
    {
      StoresExactly(store, ServiceKey, ctx.ids, payload, pipelinePosition, pipelineHash, ctx.storeForwardEnabled,
                    generated, up);
      var item := NewStoredObject(ServiceKey, payload, pipelinePosition, pipelineHash);
      item := item.(correlationID := ctx.ids.correlationID);
      item := item.(eventID := ctx.ids.eventID);
      item := item.(eventChecksum := ctx.ids.eventChecksum);
      if !ctx.storeForwardEnabled { return; }
      var v := ValidateContract(item, false, generated);
      if v.Success? && up && v.value.id !in store {
        store := store[v.value.id := v.value];
      }
    }

    // The loop over the functions; a negative start position skips nothing.
    method ExecutePipeline(target: Value, contentType: string, ctx: Context, fns: seq<AppFunction>, startPosition: int,
                           isRetry: bool, moment: nat, generated: string, up: bool)
      returns (error: Option<string>)
      modifies this`store, ctx
      ensures var start: nat := if startPosition < 0 then 0 else startPosition;
              var run := RunFrom(Attempt(fns, moment, ctx.ids, target, contentType, isRetry), Nil, start);
              && error == run.error
              && store == match run.handedOff
                          case None => old(store)
                          case Some(h) =>
                            var item := NewItem(ServiceKey, ctx.ids, h, pipelineHash);
                            AfterStore(old(store), item, ctx.storeForwardEnabled, generated, up)
      ensures var start: nat := if startPosition < 0 then 0 else startPosition;
              var a := Attempt(fns, moment, ctx.ids, target, contentType, isRetry);
              ctx.RetryData == LeftIn(a, Nil, old(ctx.RetryData), start)
    {
      ghost var start: nat := if startPosition < 0 then 0 else startPosition;
      ghost var a := Attempt(fns, moment, ctx.ids, target, contentType, isRetry);
      var result := Nil;
      var functionIndex := 0;
      Forgets(a, Nil, ctx.RetryData, start);
      while functionIndex < |fns|
        invariant functionIndex <= |fns|
        invariant functionIndex <= start ==> result == Nil
        invariant store == old(store)
        invariant var next := if functionIndex < start then start else functionIndex;
                  && SameEnd(RunFrom(a, Nil, start), RunWith(a, true, result, ctx.RetryData, next))
                  && LeftIn(a, Nil, old(ctx.RetryData), start) == LeftIn(a, result, ctx.RetryData, next)
      {
        if functionIndex < startPosition {
          functionIndex := functionIndex + 1;
          continue;
        }
        ctx.RetryData := None;
        var out;
        if result == Nil {
          out := fns[functionIndex].act(moment + functionIndex, ctx.ids, target, Some(contentType));
        } else {
          out := fns[functionIndex].act(moment + functionIndex, ctx.ids, result, None);
        }
        if out.sets.Some? { ctx.RetryData := out.sets; }
        result := out.result;
        if !out.continuing {
          if result.Error? {
            if ctx.RetryData.Some? && !isRetry {
              StoreForLaterRetry(ctx.RetryData.value, ctx, functionIndex, generated, up);
            }
            return Some(result.message);
          }
          return None;
        }
        functionIndex := functionIndex + 1;
      }
      return None;
    }

    // The copy taken under the lock is what the message runs on.
    method ProcessMessage(target: Value, contentType: string, ctx: Context, moment: nat, generated: string, up: bool)
      returns (error: Option<string>)
      modifies this`store, ctx
      ensures var run := MessageRun(transforms, moment, ctx.ids, target, contentType);
              && error == run.error
              && store == match run.handedOff
                          case None => old(store)
                          case Some(h) =>
                            var item := NewItem(ServiceKey, ctx.ids, h, pipelineHash);
                            AfterStore(old(store), item, ctx.storeForwardEnabled, generated, up)
    {
      var copied := transforms;
      error := ExecutePipeline(target, contentType, ctx, copied, 0, false, moment, generated, up);
    }

    // True when the pipeline, resumed at the item's position, returned no error; a retry stores nothing.
    method RetryExportFunction(item: StoredObject, moment: nat) returns (success: bool)
      modifies this`store
      ensures success == (ItemRun(item, transforms, moment).error == None)
      ensures success == !Fails(item, transforms, moment)
      ensures store == old(store)
    {
      var ctx := new Context(ItemIds(item), true);
      HandOffProvenance(transforms, moment, ItemIds(item), Nil, "");
      var error := ExecutePipeline(Raw(item.payload), "", ctx, transforms, item.pipelinePosition, true, moment, "",
                                   true);
      success := error == None;
    }

    method ProcessRetryItems(items: seq<StoredObject>, maxRetryCount: int, clock: nat -> nat)
      returns (itemsToRemove: seq<StoredObject>, itemsToUpdate: seq<StoredObject>)
      modifies this`store
      ensures (itemsToRemove, itemsToUpdate) == Sorted(Pass(items, transforms, maxRetryCount, clock), |items|)
      ensures IsSplit(Pass(items, transforms, maxRetryCount, clock), itemsToRemove, itemsToUpdate)
      ensures store == old(store)
    {
      itemsToRemove, itemsToUpdate := [], [];
      var i := 0;
      while i < |items|
        invariant 0 <= i <= |items|
        invariant (itemsToRemove, itemsToUpdate) == Sorted(Pass(items, transforms, maxRetryCount, clock), i)
        invariant store == old(store)
      {
        var item := items[i];
        var hash := CalculatePipelineHash(Names(transforms));
        i := i + 1;
        if item.version == hash {
          var success := RetryExportFunction(item, clock(i - 1));
          if !success {
            item := item.(retryCount := item.retryCount + 1);
            if maxRetryCount == 0 || item.retryCount < maxRetryCount {
              itemsToUpdate := itemsToUpdate + [item];
              continue;
            }
          }
        }
        itemsToRemove := itemsToRemove + [item];
      }
      PassSplits(Pass(items, transforms, maxRetryCount, clock));
    }

    // Callers may rely on IsRetrieval alone: order and optional strings are the store's business.
    method RetrieveFromStore() returns (items: seq<StoredObject>)
      requires forall id <- store :: store[id].id == id
      ensures IsRetrieval(store, ServiceKey, items)
    {
      var order := RedisStore.ListMembers(RedisStore.IdsOf(store, ServiceKey));
      forall k | 0 <= k < |order|
        ensures order[k] in store && store[order[k]].appServiceKey == ServiceKey { assert order[k] in order; }
      items := RedisStore.ObjectsAt(store, order);
      forall id | id in store && store[id].appServiceKey == ServiceKey
        ensures exists i :: 0 <= i < |items| && items[i].id == id {
        assert id in order;
        var k :| 0 <= k < |order| && order[k] == id;
        assert items[k].id == id;
      }
    }

    // One tick of the retry loop. `retrieveOk`, `removeOk` and `updateOk` say which store calls
    // succeed; a failed one is logged and nothing else.
    method RetryStoredData(maxRetryCount: int, clock: nat -> nat, retrieveOk: bool, removeOk: string -> bool,
                           updateOk: string -> bool)
      returns (ghost items: seq<StoredObject>)
      requires forall id <- store :: store[id].id == id
      modifies this`store
      ensures retrieveOk ==> IsRetrieval(old(store), ServiceKey, items)
      ensures var p := Pass(items, transforms, maxRetryCount, clock);
              store == if retrieveOk then AfterPass(old(store), p, removeOk, updateOk) else old(store)
      ensures retrieveOk ==>
                PassDid(old(store), store, Pass(items, transforms, maxRetryCount, clock), removeOk, updateOk)
    {
      items := [];
      if !retrieveOk { return; }
      var retrieved := RetrieveFromStore();
      items := retrieved;
      if |retrieved| > 0 {
        var itemsToRemove, itemsToUpdate := ProcessRetryItems(retrieved, maxRetryCount, clock);
        ghost var middle := RemoveEach(store, itemsToRemove, removeOk);
        ghost var final := UpdateEach(middle, itemsToUpdate, updateOk);
        var i := 0;
        while i < |itemsToRemove|
          invariant 0 <= i <= |itemsToRemove|
          invariant RemoveEach(store, itemsToRemove[i..], removeOk) == middle
        {
          assert itemsToRemove[i..][1..] == itemsToRemove[i + 1..];
          if removeOk(itemsToRemove[i].id) { store := store - {itemsToRemove[i].id}; }
          i := i + 1;
        }
        i := 0;
        while i < |itemsToUpdate|
          invariant 0 <= i <= |itemsToUpdate|
          invariant UpdateEach(store, itemsToUpdate[i..], updateOk) == final
        {
          assert itemsToUpdate[i..][1..] == itemsToUpdate[i + 1..];
          if updateOk(itemsToUpdate[i].id) { store := Replace(store, itemsToUpdate[i]); }
          i := i + 1;
        }
      }
      PassEffect(old(store), Pass(items, transforms, maxRetryCount, clock), removeOk, updateOk);
    }
  }
}
