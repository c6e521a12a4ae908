// appsdk/sdk.go: LoadConfigurablePipeline, from the execution order and the configured functions to a list of
// pipeline functions.

module ConfigurablePipeline {
  import opened Wrappers
  import opened Helpers
  import opened Parameters

  datatype FunctionInfo = FunctionInfo(parameters: KeyValues, addressable: string)

  type Functions = map<string, FunctionInfo>

  // The SDK's methods: which names exist, and what a method returns for a configuration, None when it has a
  // parameter of another type or does not return a pipeline function.
  datatype BuiltIns<!F> = BuiltIns(known: string -> bool, make: (string, FunctionInfo) -> Option<F>)

  ghost function LoweredInfo(lower: Lower, f: FunctionInfo): FunctionInfo {
    f.(parameters := Lowered(lower, f.parameters))
  }

  ghost predicate AllAgreeing(lower: Lower, fs: Functions) {
    forall n :: n in fs ==> Agreeing(lower, fs[n].parameters)
  }

  ghost function LoadOne<F>(lower: Lower, b: BuiltIns<F>, name: string, fs: Functions): (Functions, Result<F>) {
    if name !in fs then (fs, Failure("configuration not found in Pipeline.Functions section"))
    else if !b.known(name) then (fs, Failure("not a built in SDK function"))
    else
      var info := LoweredInfo(lower, fs[name]);
      var made := b.make(name, info);
      (fs[name := info], if made.None? then Failure("failed to make the function") else Success(made.value))
  }

  // One name after the other; the configuration is rewritten as far as the names were processed.
  ghost function LoadAll<F>(lower: Lower, b: BuiltIns<F>, names: seq<string>, fs: Functions)
    : (Functions, Result<seq<F>>)
    decreases |names|
  {
    if names == [] then (fs, Success([]))
    else
      var one := LoadOne(lower, b, names[0], fs);
      if one.1.Failure? then (one.0, Failure(one.1.error))
      else Continued([one.1.value], LoadAll(lower, b, names[1..], one.0))
  }

  ghost function Continued<F>(done: seq<F>, more: (Functions, Result<seq<F>>)): (Functions, Result<seq<F>>) {
    (more.0, if more.1.Success? then Success(done + more.1.value) else more.1)
  }

  ghost function Load<F>(lower: Lower, b: BuiltIns<F>, order: string, fs: Functions): (Functions, Result<seq<F>>) {
    if Parse(order) == [] then (fs, Failure("execution Order has 0 functions specified"))
    else LoadAll(lower, b, Parse(order), fs)
  }

  // ---- what is loaded ----

  // The function for this name as first configured.
  ghost function Made<F>(lower: Lower, b: BuiltIns<F>, fs: Functions, name: string): Option<F> {
    if name in fs && b.known(name) then b.make(name, LoweredInfo(lower, fs[name])) else None
  }

  ghost predicate AllMade<F>(lower: Lower, b: BuiltIns<F>, names: seq<string>, fs: Functions) {
    forall i :: 0 <= i < |names| ==> Made(lower, b, fs, names[i]).Some?
  }

  ghost predicate InOrder<F>(lower: Lower, b: BuiltIns<F>, names: seq<string>, fs: Functions, pipeline: seq<F>) {
    |pipeline| == |names| && forall i :: 0 <= i < |names| ==> Made(lower, b, fs, names[i]) == Some(pipeline[i])
  }

  // The same configuration up to names already made lower case.
  ghost predicate LowerInPlace(lower: Lower, fs: Functions, fs': Functions) {
    fs'.Keys == fs.Keys && forall n :: n in fs ==> fs'[n] == fs[n] || fs'[n] == LoweredInfo(lower, fs[n])
  }

  lemma InPlaceMakesSame<F>(lower: Lower, b: BuiltIns<F>, fs: Functions, fs': Functions)
    requires Idempotent(lower) && AllAgreeing(lower, fs) && LowerInPlace(lower, fs, fs')
    ensures AllAgreeing(lower, fs')
    ensures forall n :: Made(lower, b, fs', n) == Made(lower, b, fs, n)
  {
    forall n | n in fs
      ensures Agreeing(lower, fs'[n].parameters) && LoweredInfo(lower, fs'[n]) == LoweredInfo(lower, fs[n])
    {
      LoweredTwice(lower, fs[n].parameters);
    }
  }

  lemma InPlaceFurther(lower: Lower, fs: Functions, fs': Functions, fs'': Functions)
    requires Idempotent(lower) && AllAgreeing(lower, fs) && LowerInPlace(lower, fs, fs')
    requires LowerInPlace(lower, fs', fs'')
    ensures LowerInPlace(lower, fs, fs'')
  {
    forall n | n in fs ensures fs''[n] == fs[n] || fs''[n] == LoweredInfo(lower, fs[n]) {
      LoweredTwice(lower, fs[n].parameters);
    }
  }

  // Loading succeeds exactly when every name in the order can be made from its own configuration, and gives
  // those functions in that order, also when a name occurs more than once.
  lemma {:induction false} LoadExactly<F>(lower: Lower, b: BuiltIns<F>, names: seq<string>, fs: Functions)
    requires Idempotent(lower) && AllAgreeing(lower, fs)
    ensures LowerInPlace(lower, fs, LoadAll(lower, b, names, fs).0)
    ensures LoadAll(lower, b, names, fs).1.Success? <==> AllMade(lower, b, names, fs)
    ensures LoadAll(lower, b, names, fs).1.Success? ==>
              InOrder(lower, b, names, fs, LoadAll(lower, b, names, fs).1.value)
    decreases |names|
  {
    if names != [] {
      var one := LoadOne(lower, b, names[0], fs);
      OneExactly(lower, b, names[0], fs);
      if one.1.Success? {
        InPlaceMakesSame(lower, b, fs, one.0);
        LoadExactly(lower, b, names[1..], one.0);
        InPlaceFurther(lower, fs, one.0, LoadAll(lower, b, names[1..], one.0).0);
        Prepend(lower, b, names, fs, one.0, one.1.value, LoadAll(lower, b, names[1..], one.0).1);
      } else {
        assert Made(lower, b, fs, names[0]).None?;
      }
    }
  }

  lemma Prepend<F>(lower: Lower, b: BuiltIns<F>, names: seq<string>, fs: Functions, fs': Functions, f: F,
                   rest: Result<seq<F>>)
    requires names != [] && Made(lower, b, fs, names[0]) == Some(f)
    requires forall n :: Made(lower, b, fs', n) == Made(lower, b, fs, n)
    requires rest.Success? <==> AllMade(lower, b, names[1..], fs')
    requires rest.Success? ==> InOrder(lower, b, names[1..], fs', rest.value)
    ensures rest.Success? <==> AllMade(lower, b, names, fs)
    ensures rest.Success? ==> InOrder(lower, b, names, fs, [f] + rest.value)
  {
    var tail := names[1..];
    assert forall i :: 0 < i < |names| ==> names[i] == tail[i - 1];
    assert forall i :: 0 <= i < |tail| ==> tail[i] == names[i + 1];
  }

  lemma OneExactly<F>(lower: Lower, b: BuiltIns<F>, name: string, fs: Functions)
    requires Idempotent(lower) && AllAgreeing(lower, fs)
    ensures LowerInPlace(lower, fs, LoadOne(lower, b, name, fs).0)
    ensures match LoadOne(lower, b, name, fs).1
            case Success(f) => Made(lower, b, fs, name) == Some(f)
            case Failure(_) => Made(lower, b, fs, name) == None
  {
  }

  // The configuration of exactly the first j names is rewritten.
  ghost predicate RewrittenFor(lower: Lower, fs: Functions, fs': Functions, names: seq<string>, j: nat)
    requires j <= |names|
  {
    && fs'.Keys == fs.Keys
    && forall n :: n in fs ==> fs'[n] == if n in names[..j] then LoweredInfo(lower, fs[n]) else fs[n]
  }

  // Those are the names that could be looked up, one after the other: all of them, or those before one that
  // could not be, or those up to one that could not be made.
  ghost predicate LookedUp<F>(lower: Lower, b: BuiltIns<F>, fs: Functions, names: seq<string>, j: nat, ok: bool) {
    && j <= |names|
    && (forall i :: 0 <= i < j ==> names[i] in fs && b.known(names[i]))
    && (if ok then j == |names|
        else
          || (j < |names| && (names[j] !in fs || !b.known(names[j])))
          || (j > 0 && Made(lower, b, fs, names[j - 1]) == None))
  }

  lemma {:induction false} Rewrites<F>(lower: Lower, b: BuiltIns<F>, names: seq<string>, fs: Functions) returns (j: nat)
    requires Idempotent(lower) && AllAgreeing(lower, fs)
    ensures LookedUp(lower, b, fs, names, j, LoadAll(lower, b, names, fs).1.Success?)
    ensures RewrittenFor(lower, fs, LoadAll(lower, b, names, fs).0, names, j)
    decreases |names|
  {
    j := 0;
    if names != [] && names[0] in fs && b.known(names[0]) {
      var one := LoadOne(lower, b, names[0], fs);
      OneExactly(lower, b, names[0], fs);
      j := 1;
      if one.1.Success? {
        InPlaceMakesSame(lower, b, fs, one.0);
        var more := Rewrites(lower, b, names[1..], one.0);
        j := more + 1;
        LookedUpFurther(lower, b, fs, one.0, names, more, LoadAll(lower, b, names[1..], one.0).1.Success?);
        RewrittenFurther(lower, fs, one.0, LoadAll(lower, b, names[1..], one.0).0, names, more);
      }
    }
  }

  lemma LookedUpFurther<F>(lower: Lower, b: BuiltIns<F>, fs: Functions, fs': Functions, names: seq<string>, j: nat,
                           ok: bool)
    requires names != [] && names[0] in fs && b.known(names[0]) && fs'.Keys == fs.Keys
    requires forall n :: Made(lower, b, fs', n) == Made(lower, b, fs, n)
    requires LookedUp(lower, b, fs', names[1..], j, ok)
    ensures LookedUp(lower, b, fs, names, j + 1, ok)
  {
    assert forall i :: 0 < i < |names| ==> names[i] == names[1..][i - 1];
  }

  lemma RewrittenFurther(lower: Lower, fs: Functions, fs': Functions, fs'': Functions, names: seq<string>, j: nat)
    requires Idempotent(lower) && AllAgreeing(lower, fs) && names != [] && names[0] in fs && j < |names|
    requires fs' == fs[names[0] := LoweredInfo(lower, fs[names[0]])]
    requires RewrittenFor(lower, fs', fs'', names[1..], j)
    ensures RewrittenFor(lower, fs, fs'', names, j + 1)
  {
    assert names[..j + 1] == [names[0]] + names[1..][..j];
    LoweredTwice(lower, fs[names[0]].parameters);
  }

  lemma InOrderUnique<F>(lower: Lower, b: BuiltIns<F>, names: seq<string>, fs: Functions, fs': Functions,
                         pipeline: seq<F>, pipeline': seq<F>)
    requires forall n :: Made(lower, b, fs', n) == Made(lower, b, fs, n)
    requires InOrder(lower, b, names, fs, pipeline) && InOrder(lower, b, names, fs', pipeline')
    ensures pipeline == pipeline'
  {
    forall i | 0 <= i < |names| ensures pipeline[i] == pipeline'[i] {
      assert Made(lower, b, fs, names[i]) == Some(pipeline[i]);
      assert Made(lower, b, fs', names[i]) == Some(pipeline'[i]);
    }
  }

  lemma SameMade<F>(lower: Lower, b: BuiltIns<F>, names: seq<string>, fs: Functions, fs': Functions)
    requires forall n :: Made(lower, b, fs', n) == Made(lower, b, fs, n)
    ensures AllMade(lower, b, names, fs') == AllMade(lower, b, names, fs)
  {
  }

  // Loading again, after an update that changed nothing here, gives the same functions from the configuration
  // that the first time has rewritten.
  lemma ReloadStable<F>(lower: Lower, b: BuiltIns<F>, order: string, fs: Functions)
    requires Idempotent(lower) && AllAgreeing(lower, fs)
    ensures var (fs', first) := Load(lower, b, order, fs);
            var second := Load(lower, b, order, fs').1;
            second.Success? == first.Success? && (first.Success? ==> second == first)
  {
    var names := Parse(order);
    if names != [] {
      var (fs', first) := LoadAll(lower, b, names, fs);
      LoadExactly(lower, b, names, fs);
      InPlaceMakesSame(lower, b, fs, fs');
      LoadExactly(lower, b, names, fs');
      SameMade(lower, b, names, fs, fs');
      var second := LoadAll(lower, b, names, fs').1;
      if first.Success? { InOrderUnique(lower, b, names, fs, fs', first.value, second.value); }
    }
  }

  // Joining the names with commas is as good an execution order as the one they came from.
  lemma OrderNormalised<F>(lower: Lower, b: BuiltIns<F>, order: string, fs: Functions)
    ensures Load(lower, b, Join(Parse(order)), fs) == Load(lower, b, order, fs)
  {
    ParseStable(order);
  }

  // ---- the loop ----

  // What is still to load completes what was loaded so far.
  ghost predicate Ahead<F>(lower: Lower, b: BuiltIns<F>, order: seq<string>, i: nat, fs: Functions, done: seq<F>,
                           goal: (Functions, Result<seq<F>>))
    requires i <= |order|
  {
    AllAgreeing(lower, fs) && goal == Continued(done, LoadAll(lower, b, order[i..], fs))
  }

  lemma AheadFirst<F>(lower: Lower, b: BuiltIns<F>, order: seq<string>, fs: Functions)
    requires AllAgreeing(lower, fs)
    ensures Ahead(lower, b, order, 0, fs, [], LoadAll(lower, b, order, fs))
  {
    assert order[0..] == order;
    ContinuedFromNothing(LoadAll(lower, b, order, fs));
  }

  lemma AheadStep<F>(lower: Lower, b: BuiltIns<F>, order: seq<string>, i: nat, fs: Functions, done: seq<F>,
                     goal: (Functions, Result<seq<F>>))
    requires Idempotent(lower) && i < |order| && Ahead(lower, b, order, i, fs, done, goal)
    ensures var one := LoadOne(lower, b, order[i], fs);
            && AllAgreeing(lower, one.0)
            && (one.1.Failure? ==> goal == (one.0, Failure(one.1.error)))
            && (one.1.Success? ==> Ahead(lower, b, order, i + 1, one.0, done + [one.1.value], goal))
  {
    assert order[i..][1..] == order[i + 1..];
    LoadStep(lower, b, order[i..], fs, done);
    StillAgreeing(lower, b, order[i], fs);
  }

  lemma AheadLast<F>(lower: Lower, b: BuiltIns<F>, order: seq<string>, fs: Functions, done: seq<F>,
                     goal: (Functions, Result<seq<F>>))
    requires Ahead(lower, b, order, |order|, fs, done, goal)
    ensures goal == (fs, Success(done))
  {
    var none: seq<F> := [];
    assert order[|order|..] == [] && done + none == done;
  }

  lemma LoadStep<F>(lower: Lower, b: BuiltIns<F>, names: seq<string>, fs: Functions, done: seq<F>)
    requires |names| > 0
    ensures var one := LoadOne(lower, b, names[0], fs);
            Continued(done, LoadAll(lower, b, names, fs))
            == if one.1.Failure? then (one.0, Failure(one.1.error))
            else Continued(done + [one.1.value], LoadAll(lower, b, names[1..], one.0))
  {
    var one := LoadOne(lower, b, names[0], fs);
    if one.1.Success? { ContinuedTwice(done, one.1.value, LoadAll(lower, b, names[1..], one.0)); }
  }

  lemma ContinuedTwice<F>(done: seq<F>, f: F, more: (Functions, Result<seq<F>>))
    ensures Continued(done, Continued([f], more)) == Continued(done + [f], more)
  {
    if more.1.Success? { assert done + ([f] + more.1.value) == (done + [f]) + more.1.value; }
  }

  lemma ContinuedFromNothing<F>(more: (Functions, Result<seq<F>>))
    ensures Continued([], more) == more
  {
    if more.1.Success? { assert [] + more.1.value == more.1.value; }
  }

  lemma StillAgreeing<F>(lower: Lower, b: BuiltIns<F>, name: string, fs: Functions)
    requires Idempotent(lower) && AllAgreeing(lower, fs)
    ensures AllAgreeing(lower, LoadOne(lower, b, name, fs).0)
  {
    if name in fs { LoweredTwice(lower, fs[name].parameters); }
  }

  class Configuration {
    var functions: Functions

    constructor (fs: Functions)
      ensures functions == fs
    {
      functions := fs;
    }

    // Whatever order the parameters are iterated in, this is a function of the configuration if the keys agree.
    method LoadConfigurablePipeline<F>(lower: Lower, b: BuiltIns<F>, executionOrder: string) returns (r: Result<seq<F>>)
      requires Idempotent(lower)
      modifies this
      ensures functions.Keys == old(functions).Keys
      ensures AllAgreeing(lower, old(functions)) ==> (functions, r) == Load(lower, b, executionOrder, old(functions))
      ensures r.Success? ==> |r.value| == |Parse(executionOrder)| > 0
    {
      var order := DeleteEmptyAndTrim(Fields(executionOrder));
      if |order| <= 0 { return Failure("execution Order has 0 functions specified"); }
      ParseIsTidy(executionOrder);
      r := AddFunctions(lower, b, order);
    }

    // Its loop over the names.
    method AddFunctions<F>(lower: Lower, b: BuiltIns<F>, order: seq<string>) returns (r: Result<seq<F>>)
      requires Idempotent(lower) && AllTidy(order)
      modifies this
      ensures functions.Keys == old(functions).Keys
      ensures AllAgreeing(lower, old(functions)) ==> (functions, r) == LoadAll(lower, b, order, old(functions))
      ensures r.Success? ==> |r.value| == |order|
    {
      ghost var goal := LoadAll(lower, b, order, functions);
      ghost var agreeing := AllAgreeing(lower, functions);
      var pipeline: seq<F> := [];
      if agreeing { AheadFirst(lower, b, order, functions); }
      for i := 0 to |order|
        invariant |pipeline| == i
        invariant functions.Keys == old(functions).Keys
        invariant agreeing ==> Ahead(lower, b, order, i, functions, pipeline, goal)
      {
        TrimmedStays(order[i]);
        ghost var before := functions;
        var next := AddFunction(lower, b, TrimSpace(order[i]));
        if agreeing { AheadStep(lower, b, order, i, before, pipeline, goal); }
        if next.Failure? { return Failure(next.error); }
        pipeline := pipeline + [next.value];
      }
      if agreeing { AheadLast(lower, b, order, functions, pipeline, goal); }
      return Success(pipeline);
    }

    // One round of its loop.
    method AddFunction<F>(lower: Lower, b: BuiltIns<F>, functionName: string) returns (r: Result<F>)
      requires Idempotent(lower)
      modifies this
      ensures functions.Keys == old(functions).Keys
      ensures AllAgreeing(lower, old(functions)) ==> (functions, r) == LoadOne(lower, b, functionName, old(functions))
    {
      if functionName !in functions { return Failure("configuration not found in Pipeline.Functions section"); }
      if !b.known(functionName) { return Failure("not a built in SDK function"); }
      var info := functions[functionName];
      var parameters, visits := LowerKeys(lower, info.parameters);
      functions := functions[functionName := info.(parameters := parameters)];
      var made := b.make(functionName, functions[functionName]);
      if made.None? { return Failure("failed to make the function"); }
      return Success(made.value);
    }
  }
}
