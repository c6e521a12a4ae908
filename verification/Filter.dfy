// pkg/transforms/filter.go: filtering an event by device name and its readings by value descriptor.

module Filter {
  datatype Reading = Reading(name: string, value: string, id: string)

  datatype Event = Event(id: string, pushed: int, device: string, created: int, modified: int, origin: int,
                         readings: seq<Reading>)

  // The first parameter of a transform: nothing, an event, or something else.
  datatype Param = Missing | Given(event: Event) | Other

  // What a filter returns: continue with an event, stop with an event or nil, or stop with an error.
  datatype Answer = Continue(event: Event) | StopWith(event: Event) | StopNil | Error(message: string)

  const ZERO_EVENT := Event("", 0, "", 0, 0, 0, [])

  method FilterByDeviceName(filterValues: seq<string>, param: Param) returns (r: Answer)
    ensures match param
            case Missing => r == Error("no Event Received")
            case Other => r == Error("type received is not an Event")
            case Given(event) =>
              r == if filterValues == [] || event.device in filterValues then Continue(event) else StopNil
  {
    if param == Missing { return Error("no Event Received"); }
    if param == Other { return Error("type received is not an Event"); }
    var event := param.event;
    if |filterValues| == 0 { return Continue(event); }
    for i := 0 to |filterValues|
      invariant event.device !in filterValues[..i]
    {
      if event.device == filterValues[i] { return Continue(event); }
    }
    assert filterValues[..|filterValues|] == filterValues;
    return StopNil;
  }

  // The readings named `name`, in order.
  function Named(readings: seq<Reading>, name: string): seq<Reading> {
    if readings == [] then []
    else (if readings[0].name == name then [readings[0]] else []) + Named(readings[1..], name)
  }

  // One filter value after another.
  function Filtered(readings: seq<Reading>, names: seq<string>): seq<Reading> {
    if names == [] then [] else Named(readings, names[0]) + Filtered(readings, names[1..])
  }

  // The event that is passed on: the filtered readings under the old event's fields but its ID.
  function Refit(event: Event, readings: seq<Reading>): Event {
    Event("", event.pushed, event.device, event.created, event.modified, event.origin, readings)
  }

  function FilterEvent(names: seq<string>, event: Event): Answer {
    if names == [] then Continue(event)
    else if Filtered(event.readings, names) != [] then Continue(Refit(event, Filtered(event.readings, names)))
    else StopWith(ZERO_EVENT)
  }

  lemma {:induction false} NamedAppend(readings: seq<Reading>, more: seq<Reading>, name: string)
    ensures Named(readings + more, name) == Named(readings, name) + Named(more, name)
  {
    if readings == [] {
      assert readings + more == more;
    } else {
      assert (readings + more)[1..] == readings[1..] + more;
      NamedAppend(readings[1..], more, name);
      var first := if readings[0].name == name then [readings[0]] else [];
      assert first + (Named(readings[1..], name) + Named(more, name)) ==
             first + Named(readings[1..], name) + Named(more, name);
    }
  }

  lemma {:induction false} FilteredAppend(readings: seq<Reading>, names: seq<string>, more: seq<string>)
    ensures Filtered(readings, names + more) == Filtered(readings, names) + Filtered(readings, more)
  {
    if names == [] {
      assert names + more == more;
    } else {
      assert (names + more)[1..] == names[1..] + more;
      FilteredAppend(readings, names[1..], more);
    }
  }

  // ---- multiplicity ----

  function Count(names: seq<string>, name: string): nat {
    if names == [] then 0 else (if names[0] == name then 1 else 0) + Count(names[1..], name)
  }

  lemma {:induction false} NamedCount(readings: seq<Reading>, name: string, r: Reading)
    ensures multiset(Named(readings, name))[r] == if r.name == name then multiset(readings)[r] else 0
  {
    if readings != [] {
      NamedCount(readings[1..], name, r);
      assert readings == [readings[0]] + readings[1..];
    }
  }

  // m once more for every filter value that is `name`.
  function Sum(m: nat, names: seq<string>, name: string): nat {
    if names == [] then 0 else (if names[0] == name then m else 0) + Sum(m, names[1..], name)
  }

  lemma {:induction false} SumIsProduct(m: nat, names: seq<string>, name: string)
    ensures Sum(m, names, name) == m * Count(names, name)
  {
    if names != [] {
      SumIsProduct(m, names[1..], name);
      var rest := Count(names[1..], name);
      assert m * (1 + rest) == m + m * rest;
    }
  }

  lemma {:induction false} FilteredCount(readings: seq<Reading>, names: seq<string>, r: Reading)
    ensures multiset(Filtered(readings, names))[r] == Sum(multiset(readings)[r], names, r.name)
  {
    if names != [] {
      NamedCount(readings, names[0], r);
      FilteredCount(readings, names[1..], r);
    }
  }

  // Each reading comes out (its count in the event) x (its name's count in the filter list) times.
  lemma Multiplicity(readings: seq<Reading>, names: seq<string>, r: Reading)
    ensures multiset(Filtered(readings, names))[r] == multiset(readings)[r] * Count(names, r.name)
  {
    FilteredCount(readings, names, r);
    SumIsProduct(multiset(readings)[r], names, r.name);
  }

  // ---- order ----

  // A pair (filter position, input position) of an output reading.
  datatype Origin = Origin(filter: nat, input: nat)

  predicate Before(a: Origin, b: Origin) {
    a.filter < b.filter || (a.filter == b.filter && a.input < b.input)
  }

  predicate Hits(readings: seq<Reading>, names: seq<string>, o: Origin) {
    o.filter < |names| && o.input < |readings| && readings[o.input].name == names[o.filter]
  }

  // `origins` are all the hits, by filter position then input position, and `output` is what is there.
  ghost predicate Traces(readings: seq<Reading>, names: seq<string>, output: seq<Reading>, origins: seq<Origin>) {
    && |origins| == |output|
    && (forall k :: 0 <= k < |origins| ==> Hits(readings, names, origins[k]) && output[k] == readings[origins[k].input])
    && (forall j, k :: 0 <= j < k < |origins| ==> Before(origins[j], origins[k]))
    && (forall o :: Hits(readings, names, o) ==> o in origins)
  }

  // The positions among the first n at which `name` is read.
  function Positions(readings: seq<Reading>, name: string, n: nat): (r: seq<nat>)
    requires n <= |readings|
    ensures forall k :: 0 <= k < |r| ==> r[k] < n
  {
    if n == 0 then []
    else Positions(readings, name, n - 1) + if readings[n - 1].name == name then [n - 1] else []
  }

  ghost predicate Located(readings: seq<Reading>, name: string, positions: seq<nat>, named: seq<Reading>) {
    && |positions| == |named|
    && (forall k :: 0 <= k < |positions| ==> positions[k] < |readings|)
    && (forall k :: 0 <= k < |positions| ==> readings[positions[k]].name == name && named[k] == readings[positions[k]])
    && (forall j, k :: 0 <= j < k < |positions| ==> positions[j] < positions[k])
  }

  lemma {:induction false} PositionsLocate(readings: seq<Reading>, name: string, n: nat)
    requires n <= |readings|
    ensures Located(readings, name, Positions(readings, name, n), Named(readings[..n], name))
  {
    if n > 0 {
      PositionsLocate(readings, name, n - 1);
      var last := readings[n - 1];
      NamedAppend(readings[..n - 1], [last], name);
      assert readings[..n] == readings[..n - 1] + [last];
      assert Named([last], name) == if last.name == name then [last] else [];
    }
  }

  lemma {:induction false} PositionsComplete(readings: seq<Reading>, name: string, n: nat, i: nat) returns (k: nat)
    requires i < n <= |readings| && readings[i].name == name
    ensures k < |Positions(readings, name, n)| && Positions(readings, name, n)[k] == i
  {
    if i == n - 1 {
      k := |Positions(readings, name, n - 1)|;
    } else {
      k := PositionsComplete(readings, name, n - 1, i);
      assert Positions(readings, name, n - 1) <= Positions(readings, name, n);
    }
  }

  function Tagged(filter: nat, positions: seq<nat>): (r: seq<Origin>)
    ensures |r| == |positions|
    ensures forall k :: 0 <= k < |r| ==> r[k] == Origin(filter, positions[k])
  {
    seq(|positions|, k requires 0 <= k < |positions| => Origin(filter, positions[k]))
  }

  // The output has an origin map, and so is ordered by filter position, then input position.
  lemma {:induction false} Ordered(readings: seq<Reading>, names: seq<string>, n: nat) returns (origins: seq<Origin>)
    requires n <= |names|
    ensures Traces(readings, names[..n], Filtered(readings, names[..n]), origins)
  {
    if n == 0 {
      origins := [];
    } else {
      var before := Ordered(readings, names, n - 1);
      var name := names[n - 1];
      var positions := Positions(readings, name, |readings|);
      PositionsLocate(readings, name, |readings|);
      assert readings[..|readings|] == readings;
      origins := before + Tagged(n - 1, positions);
      assert names[..n] == names[..n - 1] + [name];
      FilteredAppend(readings, names[..n - 1], [name]);
      assert Filtered(readings, [name]) == Named(readings, name) + Filtered(readings, []);
      ExtendTraces(readings, names[..n - 1], name, Filtered(readings, names[..n - 1]), before, positions);
    }
  }

  lemma ExtendHits(readings: seq<Reading>, names: seq<string>, name: string, output: seq<Reading>,
                   before: seq<Origin>, positions: seq<nat>, k: nat)
    requires Traces(readings, names, output, before) && Located(readings, name, positions, Named(readings, name))
    requires k < |before| + |positions|
    ensures var origins := before + Tagged(|names|, positions);
            && Hits(readings, names + [name], origins[k])
            && (output + Named(readings, name))[k] == readings[origins[k].input]
            && (origins[k].filter == |names| <==> k >= |before|)
  {
    var last := Tagged(|names|, positions);
    var origins := before + last;
    if k < |before| {
      assert Hits(readings, names, before[k]) && origins[k] == before[k];
      assert (names + [name])[before[k].filter] == names[before[k].filter];
    } else {
      assert origins[k] == last[k - |before|];
      assert (output + Named(readings, name))[k] == Named(readings, name)[k - |before|];
    }
  }

  lemma ExtendOrder(readings: seq<Reading>, names: seq<string>, name: string, output: seq<Reading>,
                    before: seq<Origin>, positions: seq<nat>, j: nat, k: nat)
    requires Traces(readings, names, output, before) && Located(readings, name, positions, Named(readings, name))
    requires j < k < |before| + |positions|
    ensures var origins := before + Tagged(|names|, positions); Before(origins[j], origins[k])
  {
    if j < |before| <= k {
      assert Hits(readings, names, before[j]);
    }
  }

  lemma ExtendTraces(readings: seq<Reading>, names: seq<string>, name: string, output: seq<Reading>,
                     before: seq<Origin>, positions: seq<nat>)
    requires Traces(readings, names, output, before)
    requires positions == Positions(readings, name, |readings|)
    requires Located(readings, name, positions, Named(readings, name))
    ensures Traces(readings, names + [name], output + Named(readings, name), before + Tagged(|names|, positions))
  {
    var last := Tagged(|names|, positions);
    var origins := before + last;
    forall o | Hits(readings, names + [name], o) ensures o in origins {
      if o.filter < |names| {
        assert Hits(readings, names, o);
      } else {
        var k := PositionsComplete(readings, name, |readings|, o.input);
        assert origins[|before| + k] == last[k] == o;
      }
    }
    forall k | 0 <= k < |origins|
      ensures Hits(readings, names + [name], origins[k])
      ensures (output + Named(readings, name))[k] == readings[origins[k].input] {
      ExtendHits(readings, names, name, output, before, positions, k);
    }
    forall j, k | 0 <= j < k < |origins| ensures Before(origins[j], origins[k]) {
      ExtendOrder(readings, names, name, output, before, positions, j, k);
    }
  }

  // ---- filtering twice ----

  lemma {:induction false} NamedOfNamed(readings: seq<Reading>, name: string, name': string)
    ensures Named(Named(readings, name), name') == if name == name' then Named(readings, name) else []
  {
    if readings != [] {
      NamedOfNamed(readings[1..], name, name');
      var first := if readings[0].name == name then [readings[0]] else [];
      NamedAppend(first, Named(readings[1..], name), name');
      assert first != [] ==> Named(first, name') == (if name == name' then first else []) + Named([], name');
    }
  }

  function Repeat(s: seq<Reading>, n: nat): seq<Reading> {
    if n == 0 then [] else s + Repeat(s, n - 1)
  }

  lemma {:induction false} NamedOfFiltered(readings: seq<Reading>, names: seq<string>, name: string)
    ensures Named(Filtered(readings, names), name) == Repeat(Named(readings, name), Count(names, name))
  {
    if names != [] {
      NamedOfFiltered(readings, names[1..], name);
      NamedAppend(Named(readings, names[0]), Filtered(readings, names[1..]), name);
      NamedOfNamed(readings, names[0], name);
    }
  }

  // No filter value that a reading bears is listed twice.
  ghost predicate NoHitTwice(readings: seq<Reading>, names: seq<string>) {
    forall r <- readings :: Count(names, r.name) <= 1
  }

  lemma {:induction false} NamedHits(readings: seq<Reading>, name: string)
    ensures Named(readings, name) != [] ==> exists r <- readings :: r.name == name
  {
    if readings != [] {
      NamedHits(readings[1..], name);
      assert readings[0] in readings && forall r <- readings[1..] :: r in readings;
    }
  }

  lemma {:induction false} SecondPass(readings: seq<Reading>, names: seq<string>, all: seq<string>, done: seq<string>)
    requires all == done + names && NoHitTwice(readings, all)
    ensures Filtered(Filtered(readings, all), names) == Filtered(readings, names)
    decreases |names|
  {
    if names != [] {
      var name := names[0];
      assert all == (done + [name]) + names[1..];
      SecondPass(readings, names[1..], all, done + [name]);
      NamedOfFiltered(readings, all, name);
      NamedHits(readings, name);
      CountIn(all, name, |done|);
      var once := Named(readings, name);
      if once == [] { RepeatNothing(Count(all, name)); }
      assert Repeat(once, 1) == once + Repeat(once, 0) == once;
    }
  }

  lemma {:induction false} RepeatNothing(n: nat)
    ensures Repeat([], n) == []
  {
    if n > 0 { RepeatNothing(n - 1); }
  }

  lemma {:induction false} CountIn(names: seq<string>, name: string, i: nat)
    requires i < |names| && names[i] == name
    ensures Count(names, name) >= 1
  {
    if i > 0 { CountIn(names[1..], name, i - 1); }
  }

  lemma ProductGrows(m: nat, c: nat)
    requires m > 0 && c > 1
    ensures m * c * c > m * c
  {
    var p := m * c;
    assert p >= m * 2 by { assert m * c == m * 2 + m * (c - 2); }
    assert p * c == p * 2 + p * (c - 2);
  }

  // A second application leaves the readings as the first one left them exactly when no filter value
  // that some reading bears is listed twice; in particular when the filter values are distinct.
  lemma Idempotent(readings: seq<Reading>, names: seq<string>)
    ensures Filtered(Filtered(readings, names), names) == Filtered(readings, names) <==> NoHitTwice(readings, names)
  {
    if NoHitTwice(readings, names) {
      SecondPass(readings, names, names, []);
    } else {
      var r :| r in readings && Count(names, r.name) > 1;
      Multiplicity(readings, names, r);
      Multiplicity(Filtered(readings, names), names, r);
      ProductGrows(multiset(readings)[r], Count(names, r.name));
    }
  }

  lemma {:induction false} DistinctCounts(names: seq<string>, name: string)
    requires forall i, j :: 0 <= i < j < |names| ==> names[i] != names[j]
    ensures Count(names, name) == if name in names then 1 else 0
  {
    if names != [] {
      assert names == [names[0]] + names[1..];
      DistinctCounts(names[1..], name);
    }
  }

  // On whole events: with distinct filter values, filtering what was passed on passes it on unchanged.
  lemma FilterTwice(names: seq<string>, event: Event)
    requires forall i, j :: 0 <= i < j < |names| ==> names[i] != names[j]
    requires FilterEvent(names, event).Continue?
    ensures FilterEvent(names, FilterEvent(names, event).event) == FilterEvent(names, event)
  {
    forall r | r in event.readings ensures Count(names, r.name) <= 1 { DistinctCounts(names, r.name); }
    Idempotent(event.readings, names);
  }

  // ---- the answer to an event ----

  ghost predicate SomeReadingListed(names: seq<string>, event: Event) {
    exists reading <- event.readings :: reading.name in names
  }

  ghost predicate OccursAsListed(readings: seq<Reading>, names: seq<string>, output: seq<Reading>, r: Reading) {
    multiset(output)[r] == multiset(readings)[r] * Count(names, r.name)
  }

  // The old event under no id, with each reading as often as it is there times as its name is listed, by place
  // in the list and then in the event.
  ghost predicate IsFiltered(names: seq<string>, event: Event, passed: Event) {
    && passed.id == "" && passed.pushed == event.pushed && passed.device == event.device
    && passed.created == event.created && passed.modified == event.modified && passed.origin == event.origin
    && (forall r :: OccursAsListed(event.readings, names, passed.readings, r))
    && exists origins :: Traces(event.readings, names, passed.readings, origins)
  }

  // With an empty list every event goes on as it is. Otherwise it goes on, filtered, exactly when some reading
  // is listed, and stops with the zero event when none is.
  ghost predicate AnswersEvent(names: seq<string>, event: Event, r: Answer) {
    if names == [] then r == Continue(event)
    else if SomeReadingListed(names, event) then r.Continue? && IsFiltered(names, event, r.event)
    else r == StopWith(Event("", 0, "", 0, 0, 0, []))
  }

  lemma {:induction false} ListedIsCounted(names: seq<string>, name: string)
    ensures name in names <==> Count(names, name) > 0
  {
    if names != [] { ListedIsCounted(names[1..], name); }
  }

  lemma ListedComesOut(m: nat, c: nat)
    requires m > 0 && c > 0
    ensures m * c > 0
  {
  }

  lemma ListedIsFound(readings: seq<Reading>, names: seq<string>, r: Reading)
    ensures r in Filtered(readings, names) <==> r in readings && r.name in names
  {
    ListedIsCounted(names, r.name);
    Multiplicity(readings, names, r);
    if r in readings && r.name in names { ListedComesOut(multiset(readings)[r], Count(names, r.name)); }
  }

  lemma FilteredIsFiltered(names: seq<string>, event: Event)
    ensures IsFiltered(names, event, Refit(event, Filtered(event.readings, names)))
  {
    var readings := Filtered(event.readings, names);
    forall r ensures OccursAsListed(event.readings, names, readings, r) { Multiplicity(event.readings, names, r); }
    var origins := Ordered(event.readings, names, |names|);
    assert names[..|names|] == names;
  }

  lemma AnswerExactly(names: seq<string>, event: Event)
    ensures AnswersEvent(names, event, FilterEvent(names, event))
  {
    FilteredIsFiltered(names, event);
    var readings := Filtered(event.readings, names);
    if reading :| reading in event.readings && reading.name in names {
      ListedIsFound(event.readings, names, reading);
    } else if readings != [] {
      ListedIsFound(event.readings, names, readings[0]);
    }
  }

  lemma NamedOneMore(readings: seq<Reading>, j: nat, name: string)
    requires j < |readings|
    ensures Named(readings[..j + 1], name) ==
            Named(readings[..j], name) + if readings[j].name == name then [readings[j]] else []
  {
    NamedAppend(readings[..j], [readings[j]], name);
    assert readings[..j + 1] == readings[..j] + [readings[j]];
    assert Named([readings[j]], name) == if readings[j].name == name then [readings[j]] else [];
  }

  lemma FilteredOneMore(readings: seq<Reading>, names: seq<string>, i: nat)
    requires i < |names|
    ensures Filtered(readings, names[..i + 1]) == Filtered(readings, names[..i]) + Named(readings, names[i])
  {
    FilteredAppend(readings, names[..i], [names[i]]);
    assert names[..i + 1] == names[..i] + [names[i]];
    assert Filtered(readings, [names[i]]) == Named(readings, names[i]) + Filtered(readings, []);
  }

  method FilterByValueDescriptor(filterValues: seq<string>, param: Param) returns (r: Answer)
    ensures match param
            case Missing => r == Error("no Event Received")
            case Other => r == Error("type received is not an Event")
            case Given(event) => r == FilterEvent(filterValues, event) && AnswersEvent(filterValues, event, r)
  {
    if param == Missing { return Error("no Event Received"); }
    if param == Other { return Error("type received is not an Event"); }
    var existingEvent := param.event;
    if |filterValues| == 0 { return Continue(existingEvent); }
    var readings: seq<Reading> := [];
    var i := 0;
    while i < |filterValues|
      invariant 0 <= i <= |filterValues|
      invariant readings == Filtered(existingEvent.readings, filterValues[..i])
    {
      var filterID := filterValues[i];
      var j := 0;
      while j < |existingEvent.readings|
        invariant 0 <= j <= |existingEvent.readings|
        invariant readings ==
                  Filtered(existingEvent.readings, filterValues[..i]) + Named(existingEvent.readings[..j], filterID)
      {
        var reading := existingEvent.readings[j];
        NamedOneMore(existingEvent.readings, j, filterID);
        if reading.name == filterID { readings := readings + [reading]; }
        j := j + 1;
      }
      assert existingEvent.readings[..j] == existingEvent.readings;
      FilteredOneMore(existingEvent.readings, filterValues, i);
      i := i + 1;
    }
    assert filterValues[..i] == filterValues;
    r := if |readings| > 0 then Continue(Refit(existingEvent, readings)) else StopWith(ZERO_EVENT);
    AnswerExactly(filterValues, existingEvent);
  }
}
