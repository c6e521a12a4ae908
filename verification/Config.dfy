// appsdk/sdk.go: starting, stopping and restarting the retry loop as the configuration changes, with the
// way internal/store/factory.go and the two clients' NewClient come by a store client.

module Config {
  import opened Wrappers

  // The writable section, as far as it is looked at here.
  datatype Writable = Writable(logLevel: string, maxRetryCount: int, retryInterval: string, enabled: bool,
                               pipeline: string)

  // A store client in an interface variable: nil, usable, or a nil Redis pointer, which is not nil when
  // compared as an interface but panics when called.
  datatype Client = NoClient | Working | NilPointer

  datatype Kind = MongoDB | RedisDB | Unsupported

  datatype Database = Database(kind: Kind, timeoutParses: bool)

  // `held` is the client inside the runtime, None before MakeItRun has created the runtime. `loops` are
  // the running retry loops with their interval; `cancel` is the loop that the cancel function and the wait
  // group belong to. `clientOnce` tells whether the Redis factory has run its once-only part. `running`
  // is the pipeline section the transforms were loaded from, and `configurable` whether they were; `level` is what the
  // logging client logs at.
  datatype State = State(
    w: Writable, client: Client, clientOnce: bool, held: Option<Client>,
    loops: map<nat, string>, cancel: Option<nat>, contexts: nat, crashed: bool,
    running: string, configurable: bool, level: string)

  // ---- the steps as functions ----

  function NewStoreClient(db: Database, once: bool, dials: bool): (Client, bool)
  {
    match db.kind
    case MongoDB => if db.timeoutParses && dials then (Working, true) else (NoClient, false)
    case RedisDB => if db.timeoutParses then (Working, true) else (NilPointer, once)
    case Unsupported => (NoClient, false)
  }

  function InitializeStoreClient(db: Database, s: State, dials: bool): (State, bool) {
    var (client, ok) := NewStoreClient(db, s.clientOnce, dials);
    (s.(client := client, clientOnce := s.clientOnce || db.kind == RedisDB), ok)
  }

  function Start(s: State): State {
    if s.held.None? then s.(crashed := true)
    else s.(loops := s.loops[s.contexts := s.w.retryInterval], cancel := Some(s.contexts), contexts := s.contexts + 1)
  }

  function Stop(s: State): State {
    if s.cancel.None? then s.(crashed := true) else s.(loops := s.loops - {s.cancel.value})
  }

  function IntervalChanged(s: State): State {
    if !s.w.enabled then s
    else if Stop(s).crashed then Stop(s)
    else Start(Stop(s))
  }

  function EnabledChanged(db: Database, s: State, dials: bool): State {
    if !s.w.enabled then Stop(s)
    else if s.client != NoClient then Start(s)
    else StartWithNewClient(db, s, dials)
  }

  function StartWithNewClient(db: Database, s: State, dials: bool): State {
    var (s', ok) := InitializeStoreClient(db, s, dials);
    if !ok then s'.(w := s'.w.(enabled := false))
    else if s'.held.None? then s'.(crashed := true)
    else Start(s'.(held := Some(s'.client)))
  }

  // What an update meets: a database that can be dialled, and a pipeline section that can be loaded.
  datatype Env = Env(dials: bool, loads: bool)

  function PipelineChanged(s: State, loads: bool): State {
    if s.configurable && loads then s.(running := s.w.pipeline) else s
  }

  // One update from the registry; only the first setting that differs is acted on.
  function Update(db: Database, s: State, actual: Writable, env: Env): State {
    var s' := s.(w := actual);
    if s.w.logLevel != actual.logLevel then s'.(level := actual.logLevel)
    else if s.w.maxRetryCount != actual.maxRetryCount then
      if actual.maxRetryCount < 0 then s'.(w := actual.(maxRetryCount := 1)) else s'
    else if s.w.retryInterval != actual.retryInterval then IntervalChanged(s')
    else if s.w.enabled != actual.enabled then EnabledChanged(db, s', env.dials)
    else PipelineChanged(s', env.loads)
  }

  // What happens between updates: a loop that has just started replaces a negative count, or its timer fires
  // and it calls the store client that the runtime holds.
  datatype Step = Arrive(actual: Writable, env: Env) | Normalise | Tick

  function Take(db: Database, s: State, step: Step): State {
    if s.crashed then s
    else
      match step
      case Arrive(actual, env) => Update(db, s, actual, env)
      case Normalise => if |s.loops| > 0 && s.w.maxRetryCount < 0 then s.(w := s.w.(maxRetryCount := 1)) else s
      case Tick => if |s.loops| > 0 && s.held != Some(Working) then s.(crashed := true) else s
  }

  function RunSteps(db: Database, s: State, steps: seq<Step>): State
    decreases |steps|
  {
    if steps == [] then s else RunSteps(db, Take(db, s, steps[0]), steps[1..])
  }

  // ---- what should hold once the service runs ----

  // One loop, at the configured interval, exactly when enabled; cancel belongs to it.
  ghost predicate LoopsAsConfigured(s: State) {
    s.loops == if s.w.enabled && s.cancel.Some? then map[s.cancel.value := s.w.retryInterval] else map[]
  }

  // Kept by every step, also the badly handled ones.
  ghost predicate Bookkeeping(db: Database, s: State) {
    && (forall i :: i in s.loops ==> i < s.contexts)
    && (s.cancel.Some? ==> s.cancel.value < s.contexts && s.client != NoClient && s.held.Some?)
    && (s.client == NilPointer ==> Misdialled(db) && s.clientOnce)
    && (s.client == Working ==> !Misdialled(db))
    && (s.held.Some? && !Misdialled(db) ==> s.held.value == s.client)
    && (s.held.Some? && Misdialled(db) ==> s.held.value != Working)
  }

  ghost predicate Misdialled(db: Database) { db.kind == RedisDB && !db.timeoutParses }

  ghost predicate Inv(s: State) {
    && !s.crashed
    && LoopsAsConfigured(s)
    && (s.w.enabled ==> s.cancel.Some? && s.client != NoClient)
  }

  // Which updates the code deals with correctly, seen from the configuration in memory.
  predicate Handled(s: State, actual: Writable) {
    var log, max := s.w.logLevel == actual.logLevel, s.w.maxRetryCount == actual.maxRetryCount;
    var interval := s.w.retryInterval == actual.retryInterval;
    if s.w.enabled == actual.enabled then !actual.enabled || interval || (log && max)
    else log && max && (interval || (actual.enabled && s.cancel.Some?))
  }

  // The update differs from the configuration in memory in at most one setting.
  ghost predicate OneSetting(a: Writable, b: Writable) {
    || b == a.(logLevel := b.logLevel)
    || b == a.(maxRetryCount := b.maxRetryCount)
    || b == a.(retryInterval := b.retryInterval)
    || b == a.(enabled := b.enabled)
    || b == a.(pipeline := b.pipeline)
  }

  lemma BookkeepingKept(db: Database, s: State, step: Step)
    requires Bookkeeping(db, s)
    ensures Bookkeeping(db, Take(db, s, step))
    ensures s.held.Some? ==> Take(db, s, step).held.Some?
  {
    if step.Arrive? && !s.crashed {
      BookkeepingUpdate(db, s, step.actual, step.env);
    }
  }

  lemma BookkeepingUpdate(db: Database, s: State, actual: Writable, env: Env)
    requires Bookkeeping(db, s)
    ensures Bookkeeping(db, Update(db, s, actual, env))
    ensures s.held.Some? ==> Update(db, s, actual, env).held.Some?
  {
    var s' := s.(w := actual);
    if s.w.logLevel != actual.logLevel || s.w.maxRetryCount != actual.maxRetryCount {
    } else if s.w.retryInterval != actual.retryInterval {
      BookkeepingInterval(db, s');
    } else if s.w.enabled != actual.enabled {
      BookkeepingEnabled(db, s', env.dials);
    }
  }

  lemma BookkeepingInterval(db: Database, s: State)
    requires Bookkeeping(db, s)
    ensures Bookkeeping(db, IntervalChanged(s)) && IntervalChanged(s).held == s.held
  {
    BookkeepingStop(db, s);
    if s.cancel.Some? { BookkeepingStart(db, Stop(s)); }
  }

  lemma BookkeepingStart(db: Database, s: State)
    requires Bookkeeping(db, s) && s.client != NoClient
    ensures Bookkeeping(db, Start(s))
  {
  }

  lemma BookkeepingStop(db: Database, s: State)
    requires Bookkeeping(db, s)
    ensures Bookkeeping(db, Stop(s))
  {
  }

  lemma BookkeepingEnabled(db: Database, s: State, dials: bool)
    requires Bookkeeping(db, s)
    ensures Bookkeeping(db, EnabledChanged(db, s, dials))
    ensures s.held.Some? ==> EnabledChanged(db, s, dials).held.Some?
  {
    BookkeepingStop(db, s);
    if s.client != NoClient { BookkeepingStart(db, s); } else { BookkeepingNewClient(db, s, dials); }
  }

  lemma BookkeepingNewClient(db: Database, s: State, dials: bool)
    requires Bookkeeping(db, s) && s.client == NoClient
    ensures Bookkeeping(db, StartWithNewClient(db, s, dials))
    ensures s.held.Some? ==> StartWithNewClient(db, s, dials).held.Some?
  {
    var (s', ok) := InitializeStoreClient(db, s, dials);
    if ok && s.held.Some? { BookkeepingStart(db, s'.(held := Some(s'.client))); }
  }

  // An update keeps the loops as configured exactly when it is one of those.
  lemma UpdateExactly(db: Database, s: State, actual: Writable, env: Env)
    requires Bookkeeping(db, s) && Inv(s) && s.held.Some?
    ensures Inv(Update(db, s, actual, env)) <==> Handled(s, actual)
  {
    if s.w.logLevel != actual.logLevel || s.w.maxRetryCount != actual.maxRetryCount {
      LoopsUntouched(s, Update(db, s, actual, env));
    } else if s.w.retryInterval != actual.retryInterval {
      if !actual.enabled { LoopsUntouched(s, Update(db, s, actual, env)); }
      if s.cancel.Some? { StopsAll(s); }
    } else if s.w.enabled != actual.enabled {
      if s.cancel.Some? { StopsAll(s); }
    }
  }

  // Leaving the loop alone is right exactly when enabled and, if enabled, the interval stay.
  lemma LoopsUntouched(s: State, s': State)
    requires Inv(s) && s' == s.(w := s'.w, level := s'.level)
    ensures Inv(s') <==> s.w.enabled == s'.w.enabled && (s.w.enabled ==> s.w.retryInterval == s'.w.retryInterval)
  {
    LoopsDiffer(s);
    if Inv(s') { LoopsDiffer(s'); }
  }

  // The loops say whether the service is enabled, and at which interval.
  lemma LoopsDiffer(s: State)
    requires Inv(s)
    ensures s.w.enabled <==> |s.loops| > 0
    ensures s.w.enabled ==> s.cancel.value in s.loops && s.loops[s.cancel.value] == s.w.retryInterval
  {
    if s.w.enabled { assert s.cancel.value in s.loops; }
  }

  lemma StopsAll(s: State)
    requires Inv(s) && s.cancel.Some?
    ensures s.loops - {s.cancel.value} == map[]
  {
  }

  // ---- whole runs ----

  // An update is handled in the state it arrives in, and no loop ticks without a client to be had.
  ghost predicate Harmless(db: Database, s: State, step: Step) {
    && (step.Arrive? ==> Handled(s, step.actual))
    && (step.Tick? && |s.loops| > 0 ==> !Misdialled(db))
  }

  ghost predicate AllHarmless(db: Database, s: State, steps: seq<Step>)
    decreases |steps|
  {
    steps == [] || (Harmless(db, s, steps[0]) && AllHarmless(db, Take(db, s, steps[0]), steps[1..]))
  }

  ghost predicate InvThroughout(db: Database, s: State, steps: seq<Step>)
    decreases |steps|
  {
    Inv(s) && (steps == [] || InvThroughout(db, Take(db, s, steps[0]), steps[1..]))
  }

  lemma StepExactly(db: Database, s: State, step: Step)
    requires Bookkeeping(db, s) && Inv(s) && s.held.Some?
    ensures Inv(Take(db, s, step)) <==> Harmless(db, s, step)
  {
    match step
    case Arrive(actual, env) => UpdateExactly(db, s, actual, env);
    case Normalise => LoopsUntouched(s, Take(db, s, step));
    case Tick => LoopsDiffer(s);
  }

  // On any database configuration, the whole run stays as configured, and never panics, exactly when every
  // update is handled on arrival and, if no client can be had, no running loop ticks.
  lemma {:induction false} RunsExactly(db: Database, s: State, steps: seq<Step>)
    requires Bookkeeping(db, s) && Inv(s) && s.held.Some?
    ensures InvThroughout(db, s, steps) <==> AllHarmless(db, s, steps)
    decreases |steps|
  {
    if steps != [] {
      var next := Take(db, s, steps[0]);
      BookkeepingKept(db, s, steps[0]);
      StepExactly(db, s, steps[0]);
      if Inv(next) { RunsExactly(db, next, steps[1..]); }
    }
  }

  lemma OneSettingIsHandled(s: State, actual: Writable)
    requires OneSetting(s.w, actual)
    ensures Handled(s, actual)
  {
  }

  // What reaches the registry: one setting at a time, no negative count, and a database that answers.
  ghost predicate Gentle(db: Database, w: Writable, steps: seq<Step>)
    decreases |steps|
  {
    steps == []
    || (steps[0].Arrive? && OneSetting(w, steps[0].actual) && steps[0].actual.maxRetryCount >= 0
        && Opens(db, steps[0].env.dials) && Gentle(db, steps[0].actual, steps[1..]))
    || (!steps[0].Arrive? && Gentle(db, w, steps[1..]))
  }

  ghost predicate Opens(db: Database, dials: bool) {
    db.kind != Unsupported && db.timeoutParses && (db.kind == MongoDB ==> dials)
  }

  // Then memory follows the registry, and the loop runs exactly as configured in every state.
  lemma {:induction false} GentleRuns(db: Database, s: State, steps: seq<Step>)
    requires Bookkeeping(db, s) && Inv(s) && s.held.Some? && !Misdialled(db)
    requires s.w.maxRetryCount >= 0 && Gentle(db, s.w, steps)
    ensures InvThroughout(db, s, steps)
    decreases |steps|
  {
    if steps != [] {
      BookkeepingKept(db, s, steps[0]);
      if steps[0].Arrive? {
        OneSettingIsHandled(s, steps[0].actual);
        MemoryFollows(db, s, steps[0].actual, steps[0].env);
      }
      StepExactly(db, s, steps[0]);
      GentleRuns(db, Take(db, s, steps[0]), steps[1..]);
    }
  }

  // Memory ends up different from the registry exactly when a negative count is acted on or a client that is
  // needed cannot be had.
  lemma MemoryFollows(db: Database, s: State, actual: Writable, env: Env)
    ensures var toMax := s.w.logLevel == actual.logLevel && s.w.maxRetryCount != actual.maxRetryCount;
            var onlyEnabled := s.w == actual.(enabled := s.w.enabled, pipeline := s.w.pipeline);
            var toEnabled := onlyEnabled && !s.w.enabled && actual.enabled;
            Update(db, s, actual, env).w != actual
            <==> (toMax && actual.maxRetryCount < 0)
                 || (toEnabled && s.client == NoClient && !NewStoreClient(db, s.clientOnce, env.dials).1)
    ensures var w := Update(db, s, actual, env).w;
            w == actual || w == actual.(maxRetryCount := 1) || w == actual.(enabled := false)
  {
  }

  // The registry still holds a negative count that memory has replaced by 1: every change of Enabled alone
  // is then taken for a change of the count, and the loop is left running, or is not started.
  lemma NegativeCountHidesToggle(db: Database, s: State, registry: Writable, env: Env)
    requires Bookkeeping(db, s) && Inv(s) && s.held.Some?
    requires registry.maxRetryCount < 0 && s.w == registry.(maxRetryCount := 1)
    ensures var s' := Update(db, s, registry.(enabled := !registry.enabled), env);
            s'.loops == s.loops && s'.w.enabled != s.w.enabled && !Inv(s')
  {
    LoopsUntouched(s, Update(db, s, registry.(enabled := !registry.enabled), env));
  }

  // After a client could not be had, memory says disabled and the registry enabled: whatever other loop
  // setting is changed next, the loop does not run although it is enabled, or the service panics.
  lemma FailedClientSpoilsNextChange(db: Database, s: State, registry: Writable, env: Env, next: Writable,
                                     env': Env)
    requires Bookkeeping(db, s) && Inv(s) && s.held.Some?
    requires s.client == NoClient && !NewStoreClient(db, s.clientOnce, env.dials).1
    requires !s.w.enabled && registry == s.w.(enabled := true)
    requires next.enabled && next.(pipeline := registry.pipeline) != registry
    ensures var s' := Update(db, s, registry, env);
            !s'.w.enabled && Inv(s') && !Inv(Update(db, s', next, env'))
  {
    var s' := Update(db, s, registry, env);
    BookkeepingKept(db, s, Arrive(registry, env));
    UpdateExactly(db, s, registry, env);
    UpdateExactly(db, s', next, env');
  }

  // ---- the log level ----

  // The logging client always logs at the level in memory: no update that changes it goes unheeded.
  lemma {:induction false} LevelRuns(db: Database, s: State, steps: seq<Step>)
    requires s.level == s.w.logLevel
    ensures RunSteps(db, s, steps).level == RunSteps(db, s, steps).w.logLevel
    decreases |steps|
  {
    if steps != [] {
      if steps[0].Arrive? {
        LoopChangesSpareLevel(db, s.(w := steps[0].actual), steps[0].env.dials);
      }
      LevelRuns(db, Take(db, s, steps[0]), steps[1..]);
    }
  }

  ghost predicate SameLevel(s: State, s': State) { s'.level == s.level && s'.w.logLevel == s.w.logLevel }

  lemma LoopChangesSpareLevel(db: Database, s: State, dials: bool)
    ensures SameLevel(s, IntervalChanged(s)) && SameLevel(s, EnabledChanged(db, s, dials))
  {
    NewClientSparesLevel(db, s, dials);
  }

  lemma NewClientSparesLevel(db: Database, s: State, dials: bool)
    ensures SameLevel(s, StartWithNewClient(db, s, dials))
  {
  }

  // ---- the running pipeline ----

  ghost predicate PipelineCurrent(s: State) { s.running == s.w.pipeline }

  predicate LeavesRest(w: Writable, actual: Writable) {
    w == actual.(pipeline := w.pipeline)
  }

  // The update is one after which the running pipeline is the one in memory.
  ghost predicate Reaches(s: State, actual: Writable, env: Env) {
    (LeavesRest(s.w, actual) && s.configurable && env.loads) || s.running == actual.pipeline
  }

  // That is so exactly when it leaves every other setting in memory as it is and the section can be loaded,
  // or happens to name the pipeline that runs.
  lemma PipelineExactly(db: Database, s: State, actual: Writable, env: Env)
    ensures PipelineCurrent(Update(db, s, actual, env)) <==> Reaches(s, actual, env)
  {
    var s' := s.(w := actual);
    LoopChangesSparePipeline(db, s', env.dials);
    assert LeavesRest(s.w, actual) <==>
           && s.w.logLevel == actual.logLevel && s.w.maxRetryCount == actual.maxRetryCount
           && s.w.retryInterval == actual.retryInterval && s.w.enabled == actual.enabled;
  }

  ghost predicate SamePipeline(s: State, s': State) {
    s'.running == s.running && s'.configurable == s.configurable && s'.w.pipeline == s.w.pipeline
  }

  lemma LoopChangesSparePipeline(db: Database, s: State, dials: bool)
    ensures SamePipeline(s, IntervalChanged(s)) && SamePipeline(s, EnabledChanged(db, s, dials))
  {
    StopAndStartSpare(s);
    StopAndStartSpare(Stop(s));
    NewClientSparesPipeline(db, s, dials);
  }

  lemma StopAndStartSpare(s: State)
    ensures SamePipeline(s, Stop(s)) && SamePipeline(s, Start(s))
  {
  }

  lemma NewClientSparesPipeline(db: Database, s: State, dials: bool)
    ensures SamePipeline(s, StartWithNewClient(db, s, dials))
  {
    var s' := InitializeStoreClient(db, s, dials).0;
    StopAndStartSpare(s'.(held := Some(s'.client)));
  }

  ghost predicate AllReach(db: Database, s: State, steps: seq<Step>)
    decreases |steps|
  {
    steps != [] ==>
      && (steps[0].Arrive? && !s.crashed ==> Reaches(s, steps[0].actual, steps[0].env))
      && AllReach(db, Take(db, s, steps[0]), steps[1..])
  }

  ghost predicate CurrentThroughout(db: Database, s: State, steps: seq<Step>)
    decreases |steps|
  {
    PipelineCurrent(s) && (steps != [] ==> CurrentThroughout(db, Take(db, s, steps[0]), steps[1..]))
  }

  // Over whole runs the running pipeline is at all times the one in memory exactly when that is so of every
  // update on arrival.
  lemma {:induction false} PipelineRunsExactly(db: Database, s: State, steps: seq<Step>)
    requires PipelineCurrent(s)
    ensures CurrentThroughout(db, s, steps) <==> AllReach(db, s, steps)
    decreases |steps|
  {
    if steps != [] {
      var next := Take(db, s, steps[0]);
      if steps[0].Arrive? { PipelineExactly(db, s, steps[0].actual, steps[0].env); }
      if PipelineCurrent(next) { PipelineRunsExactly(db, next, steps[1..]); }
    }
  }

  // While the registry holds a negative count that memory has replaced by 1, no change of the pipeline is
  // acted on; and memory is left as it was but for the pipeline, so that the next one is not either.
  lemma NegativeCountHidesPipeline(db: Database, s: State, registry: Writable, pipeline: string, env: Env)
    requires registry.maxRetryCount < 0 && s.w == registry.(maxRetryCount := 1)
    ensures var s' := Update(db, s, registry.(pipeline := pipeline), env);
            && s'.running == s.running
            && s'.w == registry.(pipeline := pipeline, maxRetryCount := 1)
            && (PipelineCurrent(s') <==> pipeline == s.running)
  {
  }

  // A configuration that changes one setting at a time, as in GentleRuns, keeps a configurable pipeline
  // current as long as its sections can be loaded.
  lemma {:induction false} GentlePipelines(db: Database, s: State, steps: seq<Step>)
    requires Bookkeeping(db, s) && Inv(s) && s.held.Some? && !Misdialled(db)
    requires s.w.maxRetryCount >= 0 && Gentle(db, s.w, steps)
    requires PipelineCurrent(s) && s.configurable
    requires forall i :: 0 <= i < |steps| && steps[i].Arrive? ==> steps[i].env.loads
    ensures CurrentThroughout(db, s, steps)
    decreases |steps|
  {
    if steps != [] {
      BookkeepingKept(db, s, steps[0]);
      if steps[0].Arrive? {
        OneSettingIsHandled(s, steps[0].actual);
        MemoryFollows(db, s, steps[0].actual, steps[0].env);
        PipelineExactly(db, s, steps[0].actual, steps[0].env);
      }
      StepExactly(db, s, steps[0]);
      ConfigurableStays(db, s, steps[0]);
      GentlePipelines(db, Take(db, s, steps[0]), steps[1..]);
    }
  }

  lemma ConfigurableStays(db: Database, s: State, step: Step)
    ensures Take(db, s, step).configurable == s.configurable
  {
    if step.Arrive? { LoopChangesSparePipeline(db, s.(w := step.actual), step.env.dials); }
  }

  // ---- the client behind the loop ----

  // A running loop survives its next tick exactly when the database configuration can give a client: with a
  // Redis timeout that does not parse, the factory's second call returns a nil pointer and no error.
  lemma TickExactly(db: Database, s: State)
    requires Bookkeeping(db, s) && Inv(s) && s.held.Some? && s.w.enabled
    ensures Take(db, s, Tick).crashed <==> Misdialled(db)
  {
    LoopsDiffer(s);
  }

  // In any state, an update cannot be survived exactly when it stops a loop that was never started, or starts
  // one or hands over a new client before the runtime exists. Before that, and with no loop ever started, it is
  // every update that would touch the loop.
  lemma CrashesExactly(db: Database, s: State, actual: Writable, env: Env)
    requires !s.crashed
    ensures var log, max := s.w.logLevel == actual.logLevel, s.w.maxRetryCount == actual.maxRetryCount;
            var stops := s.cancel.None?;
            var starts := s.held.None?;
            Update(db, s, actual, env).crashed
            <==> log && max
                 && if s.w.retryInterval != actual.retryInterval then actual.enabled && (stops || starts)
                 else s.w.enabled != actual.enabled
                      && if !actual.enabled then stops
                      else starts && (s.client != NoClient || NewStoreClient(db, s.clientOnce, env.dials).1)
  {
  }

  // ---- bootstrapping ----

  // What one attempt would meet: configuration, logger, core services' version, secret provider, database.
  datatype BootAttempt = BootAttempt(configures: bool, logs: bool, versionMatches: bool, secretsOpen: bool, dials: bool)

  // What earlier attempts have done.
  datatype Progress = Progress(configured: bool, logging: bool, secrets: bool)

  // A missing dependency is waited for; another version or a closed secret provider ends it at once.
  function Boot(db: Database, s: State, attempts: seq<BootAttempt>, p: Progress): (State, bool)
    decreases |attempts|
  {
    if attempts == [] then (s, false)
    else
      var a, rest := attempts[0], attempts[1..];
      if !p.configured && !a.configures then Boot(db, s, rest, p)
      else if !p.logging && !a.logs then Boot(db, s, rest, p.(configured := true))
      else if !a.versionMatches || (!p.secrets && !a.secretsOpen) then (s, false)
      else if !s.w.enabled then (s, true)
      else
        var (s', gained) := InitializeStoreClient(db, s, a.dials);
        if gained then (s', true) else Boot(db, s', rest, Progress(true, true, true))
  }

  ghost predicate Configured(attempts: seq<BootAttempt>, i: nat, before: bool)
    requires i < |attempts|
  {
    before || exists c :: 0 <= c <= i && attempts[c].configures
  }

  // The n-th attempt is the first to have configuration and logger.
  ghost predicate Ready(attempts: seq<BootAttempt>, n: nat, before: bool) {
    && n < |attempts| && attempts[n].logs && Configured(attempts, n, before)
    && forall i :: 0 <= i < n ==> !(attempts[i].logs && Configured(attempts, i, before))
  }

  lemma ReadyLater(attempts: seq<BootAttempt>, n: nat, before: bool)
    requires Ready(attempts, n, before) && n > 0
    ensures Ready(attempts[1..], n - 1, before || attempts[0].configures)
    ensures !(attempts[0].logs && (before || attempts[0].configures))
  {
    var rest, after := attempts[1..], before || attempts[0].configures;
    assert forall i :: 0 <= i < |rest| ==> rest[i] == attempts[i + 1];
    forall i: nat | i < |rest| ensures Configured(rest, i, after) <==> Configured(attempts, i + 1, before) {
      if c :| 0 <= c <= i + 1 && attempts[c].configures && c > 0 { assert rest[c - 1].configures; }
      if c :| 0 <= c <= i && rest[c].configures { assert attempts[c + 1].configures; }
    }
    assert attempts[0].configures ==> Configured(attempts, 0, before);
  }

  // Whether the database answers the k-th of these attempts: MongoDB when it is dialled, Redis always, or with
  // an unusable timeout from the second call of its factory on, which gives no client.
  predicate AnsweredAt(db: Database, once: bool, attempts: seq<BootAttempt>, k: nat)
    requires k < |attempts|
  {
    match db.kind
    case MongoDB => db.timeoutParses && attempts[k].dials
    case RedisDB => db.timeoutParses || once || k > 0
    case Unsupported => false
  }

  // The database answers an attempt up to which the version always matches.
  ghost predicate AnsweredInTime(db: Database, once: bool, attempts: seq<BootAttempt>) {
    exists k: nat :: k < |attempts| && AnsweredAt(db, once, attempts, k) && SameVersionUpTo(attempts, k)
  }

  ghost predicate SameVersionUpTo(attempts: seq<BootAttempt>, k: nat) {
    forall i :: 0 <= i <= k && i < |attempts| ==> attempts[i].versionMatches
  }

  // What booting may change: the client, to one that the configuration can give if it succeeds.
  ghost predicate BootedTo(db: Database, s: State, s': State, ok: bool) {
    && s' == s.(client := s'.client, clientOnce := s'.clientOnce)
    && (!s.w.enabled ==> s' == s)
    && (ok && s.w.enabled ==> s'.client == if Misdialled(db) then NilPointer else Working)
  }

  // Booting succeeds exactly when at the first attempt with configuration and logger the version matches and
  // the secret provider opens, and, if the service is enabled, the database answers that attempt or a later
  // one up to which the version always matches.
  lemma {:induction false} BootExactly(db: Database, s: State, attempts: seq<BootAttempt>, n: nat, p: Progress)
    requires Bookkeeping(db, s) && s.held.None? && s.cancel.None?
    requires !p.logging && !p.secrets && Ready(attempts, n, p.configured)
    ensures var (s', ok) := Boot(db, s, attempts, p);
            && Bookkeeping(db, s') && BootedTo(db, s, s', ok)
            && (ok <==>
                && attempts[n].versionMatches && attempts[n].secretsOpen
                && (s.w.enabled ==> AnsweredInTime(db, s.clientOnce, attempts[n..])))
    decreases n
  {
    if n > 0 {
      assert attempts[1..][n - 1..] == attempts[n..];
      ReadyLater(attempts, n, p.configured);
      BootExactly(db, s, attempts[1..], n - 1, p.(configured := p.configured || attempts[0].configures));
    } else {
      assert attempts[0..] == attempts;
      assert p.configured || attempts[0].configures;
      var a := attempts[0];
      if a.versionMatches && a.secretsOpen && s.w.enabled {
        BootsWhenAnswered(db, s, attempts);
        BootsAtFirst(db, s, attempts, p);
      }
    }
  }

  lemma BootsAtFirst(db: Database, s: State, attempts: seq<BootAttempt>, p: Progress)
    requires attempts != [] && s.w.enabled
    requires (p.configured || attempts[0].configures) && (p.logging || attempts[0].logs)
    requires attempts[0].versionMatches && attempts[0].secretsOpen
    ensures Boot(db, s, attempts, p) == Boot(db, s, attempts, Progress(true, true, true))
  {
  }

  // If no attempt has both, booting fails and has changed nothing.
  lemma {:induction false} NeverReady(db: Database, s: State, attempts: seq<BootAttempt>, p: Progress)
    requires !p.logging
    requires forall i: nat :: i < |attempts| ==> !(attempts[i].logs && Configured(attempts, i, p.configured))
    ensures Boot(db, s, attempts, p) == (s, false)
    decreases |attempts|
  {
    if attempts != [] {
      var rest, after := attempts[1..], p.configured || attempts[0].configures;
      assert attempts[0].configures ==> Configured(attempts, 0, p.configured);
      forall i: nat | i < |rest| ensures !(rest[i].logs && Configured(rest, i, after)) {
        if c :| 0 <= c <= i && rest[c].configures { assert attempts[c + 1].configures; }
        assert rest[i] == attempts[i + 1] && (Configured(rest, i, after) ==> Configured(attempts, i + 1, p.configured));
      }
      NeverReady(db, s, rest, p.(configured := after));
    }
  }

  lemma {:induction false} BootsWhenAnswered(db: Database, s: State, attempts: seq<BootAttempt>)
    requires Bookkeeping(db, s) && s.held.None? && s.cancel.None? && s.w.enabled
    ensures var (s', ok) := Boot(db, s, attempts, Progress(true, true, true));
            && Bookkeeping(db, s') && BootedTo(db, s, s', ok)
            && (ok <==> AnsweredInTime(db, s.clientOnce, attempts))
    decreases |attempts|
  {
    if attempts != [] && attempts[0].versionMatches {
      var (s', gained) := InitializeStoreClient(db, s, attempts[0].dials);
      if gained {
        assert AnsweredAt(db, s.clientOnce, attempts, 0) && SameVersionUpTo(attempts, 0);
      } else {
        BootsWhenAnswered(db, s', attempts[1..]);
        AnsweredLater(db, s.clientOnce, s'.clientOnce, attempts);
      }
    }
  }

  lemma AnsweredLater(db: Database, once: bool, once': bool, attempts: seq<BootAttempt>)
    requires attempts != [] && attempts[0].versionMatches && !AnsweredAt(db, once, attempts, 0)
    requires once' == (once || db.kind == RedisDB)
    ensures AnsweredInTime(db, once', attempts[1..]) <==> AnsweredInTime(db, once, attempts)
  {
    var rest := attempts[1..];
    if k: nat :| k < |rest| && AnsweredAt(db, once', rest, k) && SameVersionUpTo(rest, k) {
      assert forall i :: 0 < i <= k + 1 ==> attempts[i] == rest[i - 1];
      assert AnsweredAt(db, once, attempts, k + 1) && SameVersionUpTo(attempts, k + 1);
    }
    if k: nat :| k < |attempts| && AnsweredAt(db, once, attempts, k) && SameVersionUpTo(attempts, k) {
      assert forall i :: 0 <= i < k ==> rest[i] == attempts[i + 1];
      assert AnsweredAt(db, once', rest, k - 1) && SameVersionUpTo(rest, k - 1);
    }
  }

  // ---- the service ----

  class AppFunctionsSDK {
    const database: Database
    var config: Writable
    var storeClient: Client
    var clientOnce: bool
    var runtime: Option<Client>
    var retryLoops: map<nat, string>
    var storeForwardCancelCtx: Option<nat>
    var contexts: nat
    var crashed: bool
    var transforms: string
    var logLevel: string
    const usingConfigurablePipeline: bool

    ghost function Now(): State
      reads this
    {
      State(config, storeClient, clientOnce, runtime, retryLoops, storeForwardCancelCtx, contexts, crashed,
            transforms, usingConfigurablePipeline, logLevel)
    }

    // The pipeline has been loaded from the configuration, or set by the service itself.
    constructor (db: Database, w: Writable, transforms: string, configurable: bool)
      ensures database == db
      ensures Now() == State(w, NoClient, false, None, map[], None, 0, false, transforms, configurable, w.logLevel)
      ensures Bookkeeping(db, Now())
    {
      database, config, storeClient, clientOnce, runtime := db, w, NoClient, false, None;
      retryLoops, storeForwardCancelCtx, contexts, crashed := map[], None, 0, false;
      this.transforms, usingConfigurablePipeline, logLevel := transforms, configurable, w.logLevel;
    }

    method InitializeStore(dials: bool) returns (ok: bool)
      modifies this`storeClient, this`clientOnce
      ensures (Now(), ok) == InitializeStoreClient(database, old(Now()), dials)
      ensures storeClient == Working <==> ok && !Misdialled(database)
      ensures storeClient == NilPointer <==> Misdialled(database)
      ensures database.kind == MongoDB ==> (ok <==> database.timeoutParses && dials)
      ensures database.kind == RedisDB ==> (ok <==> database.timeoutParses || old(clientOnce))
      ensures database.kind == Unsupported ==> !ok
    {
      match database.kind {
        case MongoDB =>
          ok := database.timeoutParses && dials;
          storeClient := if ok then Working else NoClient;
        case RedisDB =>
          ok := database.timeoutParses || clientOnce;
          storeClient := if database.timeoutParses then Working else NilPointer;
          clientOnce := true;
        case Unsupported =>
          ok := false;
          storeClient := NoClient;
      }
    }

    // The bootstrap loop over the attempts that fit into the boot timeout.
    method Initialize(attempts: seq<BootAttempt>) returns (ok: bool)
      requires Bookkeeping(database, Now()) && storeForwardCancelCtx.None? && runtime.None?
      modifies this`storeClient, this`clientOnce
      ensures (Now(), ok) == Boot(database, old(Now()), attempts, Progress(false, false, false))
    {
      var configured, logging, secrets := false, false, false;
      var i := 0;
      ghost var goal := Boot(database, Now(), attempts, Progress(false, false, false));
      assert attempts[0..] == attempts;
      while i < |attempts|
        invariant 0 <= i <= |attempts|
        invariant Boot(database, Now(), attempts[i..], Progress(configured, logging, secrets)) == goal
      {
        var a := attempts[i];
        assert attempts[i..][0] == a && attempts[i..][1..] == attempts[i + 1..];
        i := i + 1;
        if !configured {
          if !a.configures { continue; }
          configured := true;
        }
        if !logging {
          if !a.logs { continue; }
          logging := true;
        }
        if !a.versionMatches { return false; }
        if !secrets {
          if !a.secretsOpen { return false; }
          secrets := true;
        }
        if config.enabled {
          var gained := InitializeStore(a.dials);
          if !gained { continue; }
        }
        return true;
      }
      return false;
    }

    // The part of MakeItRun that creates the runtime and starts the loop. The service then runs as configured
    // exactly when it has a client or needs none; an update since Initialize may have enabled it without one.
    method MakeItRun()
      requires !crashed && storeForwardCancelCtx.None? && retryLoops == map[]
      modifies this`runtime, this`retryLoops, this`storeForwardCancelCtx, this`contexts, this`crashed
      ensures runtime == Some(storeClient) && !crashed
      ensures LoopsAsConfigured(Now()) && (config.enabled ==> storeForwardCancelCtx.Some?)
      ensures Inv(Now()) <==> (config.enabled ==> storeClient != NoClient)
      ensures old(Bookkeeping(database, Now())) ==>
                (Bookkeeping(database, Now()) <==> (config.enabled ==> storeClient != NoClient))
    {
      runtime := Some(storeClient);
      if config.enabled { StartStoreForward(); }
    }

    // The end of MakeItRun: cancel and wait if enabled, then cancel everything. It panics exactly when the
    // service is enabled without ever having started a loop.
    method Terminate()
      requires !crashed
      modifies this`retryLoops, this`crashed
      ensures crashed <==> config.enabled && storeForwardCancelCtx.None?
      ensures !crashed ==> retryLoops == map[]
    {
      if config.enabled { StopStoreForward(); }
      if crashed { return; }
      retryLoops := map[];
    }

    method StartStoreForward()
      modifies this`retryLoops, this`storeForwardCancelCtx, this`contexts, this`crashed
      ensures Now() == Start(old(Now()))
    {
      if runtime.None? { crashed := true; return; }
      storeForwardCancelCtx := Some(contexts);
      retryLoops := retryLoops[contexts := config.retryInterval];
      contexts := contexts + 1;
    }

    method StopStoreForward()
      modifies this`retryLoops, this`crashed
      ensures Now() == Stop(old(Now()))
    {
      if storeForwardCancelCtx.None? { crashed := true; return; }
      retryLoops := retryLoops - {storeForwardCancelCtx.value};
    }

    method ProcessConfigChangedRetryInterval()
      requires !crashed
      modifies this`retryLoops, this`storeForwardCancelCtx, this`contexts, this`crashed
      ensures Now() == IntervalChanged(old(Now()))
    {
      if config.enabled {
        StopStoreForward();
        if crashed { return; }
        StartStoreForward();
      }
    }

    method ProcessConfigChangedEnabled(dials: bool)
      requires !crashed
      modifies this
      ensures Now() == EnabledChanged(database, old(Now()), dials)
    {
      if config.enabled {
        if storeClient == NoClient {
          var ok := InitializeStore(dials);
          if !ok {
            config := config.(enabled := false);
            return;
          }
          if runtime.None? { crashed := true; return; }
          runtime := Some(storeClient);
        }
        StartStoreForward();
      } else {
        StopStoreForward();
      }
    }

    // `loads` says whether the section can be loaded (see ConfigurablePipeline).
    method ProcessConfigChangedPipeline(loads: bool)
      modifies this`transforms
      ensures Now() == PipelineChanged(old(Now()), loads)
    {
      if usingConfigurablePipeline {
        if !loads { return; }
        transforms := config.pipeline;
      }
    }

    // One update received by listenForConfigChanges.
    method ProcessUpdate(actual: Writable, env: Env)
      requires !crashed
      modifies this
      ensures Now() == Update(database, old(Now()), actual, env)
    {
      var previous := config;
      config := actual;
      if previous.logLevel != config.logLevel {
        logLevel := config.logLevel;
      } else if previous.maxRetryCount != config.maxRetryCount {
        if config.maxRetryCount < 0 { config := config.(maxRetryCount := 1); }
      } else if previous.retryInterval != config.retryInterval {
        ProcessConfigChangedRetryInterval();
      } else if previous.enabled != config.enabled {
        ProcessConfigChangedEnabled(env.dials);
      } else {
        ProcessConfigChangedPipeline(env.loads);
      }
    }
  }
}
