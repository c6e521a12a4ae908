// appsdk/sdk.go: making the parameter names of a configured function lower case, in the map that is being
// iterated over.

module Parameters {
  import opened Wrappers

  type KeyValues = map<string, string>

  type Lower = string -> string

  // strings.ToLower, of which only this matters.
  ghost predicate Idempotent(lower: Lower) { forall s :: lower(lower(s)) == lower(s) }

  // ---- one loop over one map ----

  function Visit(lower: Lower, m: KeyValues, key: string): KeyValues
  {
    if key in m then m[lower(key) := m[key]] else m
  }

  function VisitAll(lower: Lower, m: KeyValues, visits: seq<string>): KeyValues
    decreases |visits|
  {
    if visits == [] then m
    else Visit(lower, VisitAll(lower, m, visits[..|visits| - 1]), visits[|visits| - 1])
  }

  // What a range loop over a map may visit: nothing twice, all keys there at the start, and of the keys added
  // on the way any selection, each after it was added.
  ghost predicate Legal(lower: Lower, m: KeyValues, visits: seq<string>) {
    && NoneTwice(visits)
    && (forall k :: k in m ==> k in visits)
    && ThereWhenVisited(lower, m, visits)
  }

  ghost predicate NoneTwice(visits: seq<string>) {
    forall i, j :: 0 <= i < j < |visits| ==> visits[i] != visits[j]
  }

  ghost predicate ThereWhenVisited(lower: Lower, m: KeyValues, visits: seq<string>) {
    forall i :: 0 <= i < |visits| ==> visits[i] in m || Added(lower, visits[..i], visits[i])
  }

  ghost predicate Added(lower: Lower, visits: seq<string>, key: string) {
    exists j :: 0 <= j < |visits| && lower(visits[j]) == key
  }

  // Between two visits: `todo` are the original keys not visited yet, `optional` the added ones.
  ghost predicate Midway(lower: Lower, parameters: KeyValues, m: KeyValues, visits: seq<string>, todo: set<string>,
                         optional: set<string>)
  {
    && VisitsSoFar(parameters, visits, todo)
    && ThereWhenVisited(lower, parameters, visits)
    && Offered(lower, parameters, m, visits, optional)
    && Contained(parameters, m, visits)
    && m == VisitAll(lower, parameters, visits)
  }

  ghost predicate Offered(lower: Lower, parameters: KeyValues, m: KeyValues, visits: seq<string>,
                          optional: set<string>)
  {
    forall k :: k in optional ==> k in m && k !in parameters && k !in visits && Added(lower, visits, k)
  }

  ghost predicate Contained(parameters: KeyValues, m: KeyValues, visits: seq<string>) {
    forall k :: k in visits || k in parameters ==> k in m
  }

  ghost predicate VisitsSoFar(parameters: KeyValues, visits: seq<string>, todo: set<string>) {
    && NoneTwice(visits)
    && (forall k :: k in todo ==> k in parameters && k !in visits)
    && (forall k :: k in parameters && k !in todo ==> k in visits)
  }

  // The loop, with any choice of order and of added keys to visit.
  method LowerKeys(lower: Lower, parameters: KeyValues) returns (m: KeyValues, ghost visits: seq<string>)
    requires Idempotent(lower)
    ensures Legal(lower, parameters, visits) && m == VisitAll(lower, parameters, visits)
    ensures Agreeing(lower, parameters) ==> m == Lowered(lower, parameters)
  {
    m, visits := parameters, [];
    var todo := parameters.Keys;
    var optional: set<string> := {};
    while todo != {}
      invariant Midway(lower, parameters, m, visits, todo, optional)
      decreases |todo|, |optional|
    {
      var key :| key in todo || key in optional;
      var optional' := (if lower(key) in m then optional else optional + {lower(key)}) - {key};
      OneVisit(lower, parameters, m, visits, todo, optional, key, optional');
      if key !in todo { LessLeft(lower, parameters, m, visits, todo, optional, key); }
      m, visits := m[lower(key) := m[key]], visits + [key];
      todo, optional := todo - {key}, optional';
    }
    if Agreeing(lower, parameters) { OrderIrrelevant(lower, parameters, visits); }
  }

  // An added key adds none.
  lemma LessLeft(lower: Lower, parameters: KeyValues, m: KeyValues, visits: seq<string>, todo: set<string>,
                 optional: set<string>, key: string)
    requires Idempotent(lower) && Midway(lower, parameters, m, visits, todo, optional)
    requires key in optional && key !in todo
    ensures lower(key) in m && todo - {key} == todo
  {
    assert Added(lower, visits, key);
    var j :| 0 <= j < |visits| && lower(visits[j]) == key;
    assert lower(key) == lower(lower(visits[j]));
  }

  lemma OneVisit(lower: Lower, parameters: KeyValues, m: KeyValues, visits: seq<string>, todo: set<string>,
                 optional: set<string>, key: string, optional': set<string>)
    requires Midway(lower, parameters, m, visits, todo, optional)
    requires key in todo || key in optional
    requires optional' == (if lower(key) in m then optional else optional + {lower(key)}) - {key}
    ensures key in m && Midway(lower, parameters, m[lower(key) := m[key]], visits + [key], todo - {key}, optional')
  {
    assert key in m && key !in visits;
    StillThere(lower, parameters, visits, key);
    VisitCounts(parameters, visits, todo, key);
    StillOffered(lower, parameters, m, visits, optional, key, optional');
    assert (visits + [key])[..|visits|] == visits;
  }

  lemma StillOffered(lower: Lower, parameters: KeyValues, m: KeyValues, visits: seq<string>, optional: set<string>,
                     key: string, optional': set<string>)
    requires Offered(lower, parameters, m, visits, optional) && Contained(parameters, m, visits) && key in m
    requires optional' == (if lower(key) in m then optional else optional + {lower(key)}) - {key}
    ensures Offered(lower, parameters, m[lower(key) := m[key]], visits + [key], optional')
    ensures Contained(parameters, m[lower(key) := m[key]], visits + [key])
  {
    StillAdded(lower, visits, key);
  }

  lemma VisitCounts(parameters: KeyValues, visits: seq<string>, todo: set<string>, key: string)
    requires VisitsSoFar(parameters, visits, todo) && key !in visits
    ensures VisitsSoFar(parameters, visits + [key], todo - {key})
  {
  }

  lemma StillThere(lower: Lower, m: KeyValues, visits: seq<string>, key: string)
    requires ThereWhenVisited(lower, m, visits) && (key in m || Added(lower, visits, key))
    ensures ThereWhenVisited(lower, m, visits + [key])
  {
    var longer := visits + [key];
    forall i | 0 <= i < |longer| ensures longer[i] in m || Added(lower, longer[..i], longer[i]) {
      assert longer[..i] == visits[..i];
    }
  }

  lemma StillAdded(lower: Lower, visits: seq<string>, key: string)
    ensures Added(lower, visits + [key], lower(key))
    ensures forall k :: Added(lower, visits, k) ==> Added(lower, visits + [key], k)
  {
    var longer := visits + [key];
    assert longer[|visits|] == key;
    forall k | Added(lower, visits, k) ensures Added(lower, longer, k) {
      var j :| 0 <= j < |visits| && lower(visits[j]) == k;
      assert longer[j] == visits[j];
    }
  }

  // ---- what the loop leaves behind ----

  // The last visited key that is not lower case and becomes this name.
  function LastOf(lower: Lower, visits: seq<string>, name: string): Option<string>
    decreases |visits|
  {
    if visits == [] then None
    else
      var last := visits[|visits| - 1];
      if last != name && lower(last) == name then Some(last) else LastOf(lower, visits[..|visits| - 1], name)
  }

  ghost predicate SameAt(m: KeyValues, m': KeyValues, k: string) {
    (k in m' <==> k in m) && (k in m ==> m'[k] == m[k])
  }

  ghost predicate AsVisited(lower: Lower, m: KeyValues, visits: seq<string>, m': KeyValues) {
    && (forall k :: lower(k) != k ==> SameAt(m, m', k))
    && (forall k :: lower(k) == k ==> NameAsVisited(lower, m, visits, m', k))
  }

  ghost predicate NameAsVisited(lower: Lower, m: KeyValues, visits: seq<string>, m': KeyValues, name: string) {
    match LastOf(lower, visits, name)
    case Some(v) => v in m && name in m' && m'[name] == m[v]
    case None => SameAt(m, m', name)
  }

  // Each lower-case name ends up with the value of the key visited last among those it stands for.
  lemma {:induction false} VisitedMap(lower: Lower, m: KeyValues, visits: seq<string>)
    requires Idempotent(lower) && ThereWhenVisited(lower, m, visits)
    ensures AsVisited(lower, m, visits, VisitAll(lower, m, visits))
    decreases |visits|
  {
    if visits != [] {
      var before, key := visits[..|visits| - 1], visits[|visits| - 1];
      forall i | 0 <= i < |before| ensures before[i] in m || Added(lower, before[..i], before[i]) {
        assert before[..i] == visits[..i];
      }
      VisitedMap(lower, m, before);
      assert lower(key) != key ==> !Added(lower, before, key);
      LastVisit(lower, m, before, key, VisitAll(lower, m, before));
    }
  }

  lemma LastVisit(lower: Lower, m: KeyValues, before: seq<string>, key: string, m': KeyValues)
    requires Idempotent(lower) && AsVisited(lower, m, before, m')
    requires lower(key) != key ==> key in m
    ensures AsVisited(lower, m, before + [key], Visit(lower, m', key))
  {
    var visits, m'' := before + [key], Visit(lower, m', key);
    assert visits[..|visits| - 1] == before;
    forall k | lower(k) != k ensures SameAt(m, m'', k) {
      assert SameAt(m, m', k);
    }
    forall k | lower(k) == k ensures NameAsVisited(lower, m, visits, m'', k) {
      assert NameAsVisited(lower, m, before, m', k);
      if lower(key) != key { assert SameAt(m, m', key); }
    }
  }

  // No two keys of different values compete for a lower-case name; that name itself may be a key.
  ghost predicate Agreeing(lower: Lower, m: KeyValues) {
    forall a, b :: Renamed(lower, m, a) && Renamed(lower, m, b) && lower(a) == lower(b) ==> m[a] == m[b]
  }

  ghost predicate Renamed(lower: Lower, m: KeyValues, a: string) { a in m && lower(a) != a }

  // The keys kept as they are, and each lower-case name with the value of a key it stands for.
  ghost function Lowered(lower: Lower, m: KeyValues): KeyValues {
    map k | k in m.Keys + (set a | a in m :: lower(a)) :: NamedValue(lower, m, k)
  }

  ghost function NamedValue(lower: Lower, m: KeyValues, k: string): string
    requires k in m || exists a :: Renamed(lower, m, a) && lower(a) == k
  {
    if exists a :: Renamed(lower, m, a) && lower(a) == k then
      var a :| Renamed(lower, m, a) && lower(a) == k;
      m[a]
    else m[k]
  }

  lemma LoweredAt(lower: Lower, m: KeyValues, k: string)
    requires Idempotent(lower) && Agreeing(lower, m)
    ensures lower(k) != k ==> SameAt(m, Lowered(lower, m), k)
    ensures forall a :: Renamed(lower, m, a) && lower(a) == k ==> k in Lowered(lower, m) && Lowered(lower, m)[k] == m[a]
    ensures (forall a :: Renamed(lower, m, a) ==> lower(a) != k) ==> SameAt(m, Lowered(lower, m), k)
  {
  }

  // No key visited after it stands for the name.
  ghost predicate StandsLast(lower: Lower, visits: seq<string>, name: string, v: string) {
    exists i :: 0 <= i < |visits| && visits[i] == v && StandsForNone(lower, visits[i + 1..], name)
  }

  ghost predicate StandsForNone(lower: Lower, visits: seq<string>, name: string) {
    forall j :: 0 <= j < |visits| ==> visits[j] == name || lower(visits[j]) != name
  }

  lemma {:induction false} LastOfVisited(lower: Lower, visits: seq<string>, name: string)
    ensures match LastOf(lower, visits, name)
            case Some(v) => v in visits && v != name && lower(v) == name && StandsLast(lower, visits, name, v)
            case None => forall v :: v in visits && v != name ==> lower(v) != name
    decreases |visits|
  {
    if visits != [] {
      var front, last := visits[..|visits| - 1], visits[|visits| - 1];
      assert visits == front + [last];
      LastOfVisited(lower, front, name);
      if last != name && lower(last) == name {
        assert visits[|front|] == last && StandsForNone(lower, visits[|front| + 1..], name);
      } else if LastOf(lower, front, name).Some? {
        var v := LastOf(lower, front, name).value;
        var i :| 0 <= i < |front| && front[i] == v && StandsForNone(lower, front[i + 1..], name);
        assert visits[i + 1..] == front[i + 1..] + [last];
        assert visits[i] == v && StandsForNone(lower, visits[i + 1..], name);
      }
    }
  }

  // If the keys agree, every legal iteration ends in the same map.
  lemma OrderIrrelevant(lower: Lower, m: KeyValues, visits: seq<string>)
    requires Idempotent(lower) && Agreeing(lower, m) && Legal(lower, m, visits)
    ensures VisitAll(lower, m, visits) == Lowered(lower, m)
  {
    var m', l := VisitAll(lower, m, visits), Lowered(lower, m);
    VisitedMap(lower, m, visits);
    forall k ensures SameAt(l, m', k) {
      LoweredAt(lower, m, k);
      if lower(k) == k {
        assert NameAsVisited(lower, m, visits, m', k);
        LastOfVisited(lower, visits, k);
      } else {
        assert SameAt(m, m', k);
      }
    }
    SameMaps(l, m');
  }

  // All keys once, this one last.
  lemma {:induction false} VisitLast(keys: set<string>, last: string) returns (visits: seq<string>)
    requires last !in keys
    ensures NoneTwice(visits) && |visits| > 0 && visits[|visits| - 1] == last
    ensures forall k :: k in visits <==> k in keys || k == last
    decreases |keys|
  {
    if keys == {} { return [last]; }
    var k :| k in keys;
    var rest := VisitLast(keys - {k}, last);
    visits := [k] + rest;
  }

  lemma LastDecides(lower: Lower, m: KeyValues, a: string) returns (visits: seq<string>)
    requires Idempotent(lower) && Renamed(lower, m, a)
    ensures Legal(lower, m, visits)
    ensures lower(a) in VisitAll(lower, m, visits) && VisitAll(lower, m, visits)[lower(a)] == m[a]
  {
    visits := VisitLast(m.Keys - {a}, a);
    forall i | 0 <= i < |visits| ensures visits[i] in m { assert visits[i] in visits; }
    VisitedMap(lower, m, visits);
    assert LastOf(lower, visits, lower(a)) == Some(a);
    assert NameAsVisited(lower, m, visits, VisitAll(lower, m, visits), lower(a));
  }

  ghost predicate OrderIndependent(lower: Lower, m: KeyValues) {
    forall v, v' :: Legal(lower, m, v) && Legal(lower, m, v') ==> VisitAll(lower, m, v) == VisitAll(lower, m, v')
  }

  // The iteration order cannot be told from the result exactly when the keys agree.
  lemma OrderIndependentExactly(lower: Lower, m: KeyValues)
    requires Idempotent(lower)
    ensures OrderIndependent(lower, m) <==> Agreeing(lower, m)
  {
    if Agreeing(lower, m) {
      forall v, v' | Legal(lower, m, v) && Legal(lower, m, v')
        ensures VisitAll(lower, m, v) == VisitAll(lower, m, v')
      {
        OrderIrrelevant(lower, m, v);
        OrderIrrelevant(lower, m, v');
      }
    } else {
      var a, b :| Renamed(lower, m, a) && Renamed(lower, m, b) && lower(a) == lower(b) && m[a] != m[b];
      var v := LastDecides(lower, m, a);
      var v' := LastDecides(lower, m, b);
      assert VisitAll(lower, m, v) != VisitAll(lower, m, v');
    }
  }

  // Doing it again changes nothing.
  lemma LoweredTwice(lower: Lower, m: KeyValues)
    requires Idempotent(lower) && Agreeing(lower, m)
    ensures Agreeing(lower, Lowered(lower, m)) && Lowered(lower, Lowered(lower, m)) == Lowered(lower, m)
  {
    var l := Lowered(lower, m);
    forall a | lower(a) != a ensures SameAt(m, l, a) { LoweredAt(lower, m, a); }
    assert forall a :: Renamed(lower, l, a) <==> Renamed(lower, m, a) by {
      forall a ensures Renamed(lower, l, a) <==> Renamed(lower, m, a) {
        if lower(a) != a { assert SameAt(m, l, a); }
      }
    }
    assert Agreeing(lower, l) by {
      forall a, b | Renamed(lower, l, a) && Renamed(lower, l, b) && lower(a) == lower(b) ensures l[a] == l[b] {
        assert SameAt(m, l, a) && SameAt(m, l, b);
      }
    }
    forall k ensures SameAt(l, Lowered(lower, l), k) {
      LoweredAt(lower, m, k);
      LoweredAt(lower, l, k);
      if a :| Renamed(lower, m, a) && lower(a) == k { assert SameAt(m, l, a); }
    }
    SameMaps(l, Lowered(lower, l));
  }

  lemma SameMaps(m: KeyValues, m': KeyValues)
    requires forall k :: SameAt(m, m', k)
    ensures m' == m
  {
    assert forall k :: k in m' <==> k in m by {
      forall k ensures k in m' <==> k in m { assert SameAt(m, m', k); }
    }
    forall k | k in m ensures m'[k] == m[k] { assert SameAt(m, m', k); }
  }
}
