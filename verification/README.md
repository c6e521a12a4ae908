# Verified model of the application functions SDK

An application service built on this SDK sends every event through a pipeline of functions. When an export fails, the
service stores the payload together with its position in the pipeline and tries it again later. This project models that
protocol in Dafny, together with the code it stands on and the algorithmic parts around it, and proves what they promise.
Where a promise turns out not to hold of the code, the project states exactly when it holds.

`dafny verify dfyconfig.toml` checks everything.

## Layout

| file | models |
|---|---|
| `Contracts.dfy` | stored objects and their validation |
| `RedisModels.dfy`, `RedisStore.dfy` | JSON shape, key families and transactions of the Redis client |
| `MongoStore.dfy`, `StoreAgreement.dfy` | the Mongo client, and both clients side by side |
| `PipelineHash.dfy`, `Pipeline.dfy` | the version stamp, and the resumable run over the pipeline's functions |
| `StoreForward.dfy` | storing a failed payload, one pass of the retry loop, the runtime object |
| `StoreForwardRuns.dfy` | whole runs at the grain of one store call or one retried item, with a ledger |
| `RetryBounds.dfy`, `RetryAttempts.dfy`, `RetryDrain.dfy` | retry counts, attempts and lost writes, and how long an object stays, over those runs |
| `StoreForwardOnRedis.dfy` | the same runs carried out on a Redis keyspace |
| `Batch.dfy`, `BatchSchedules.dfy` | the batcher, and any schedule of its callers |
| `BatchSteps.dfy`, `BatchRelease.dfy` | what each of its steps does, told by the history; what a met count releases |
| `Config.dfy` | the retry loop and the running pipeline as the configuration changes |
| `Helpers.dfy`, `Parameters.dfy`, `ConfigurablePipeline.dfy` | comma lists, lower-casing of parameter names, loading a configured pipeline |
| `Secrets.dfy` | the secrets cache |
| `Filter.dfy`, `Encryption.dfy` | value-descriptor filtering; AES-CBC framing |

## How it is modelled

* Classes of the source are classes here, with the same fields changed by the same methods; each method is proved against
  a function of the old state, and the theorems are about those functions and about state machines whose steps they are.
* A transform is an arbitrary function of the moment of the call, the event's identifiers, the input and the content type.
  So an export may fail now and succeed later.
* Atomic steps. A message, a change of the pipeline, one store call and one retried item are each atomic in
  `StoreForwardRuns`, and may be interleaved in any order; a restart forgets a pass at any point. A message that is still
  running while the pipeline changes is the one interleaving left out of the runs; it runs one pipeline and is stamped with
  another. `NeverUncalledExactly` and `RetriesWhatFailed` say what that needs: no item is removed as delivered uncalled
  exactly when its position lies inside the stamped pipeline, and retries start with the function that failed exactly when
  the stamped pipeline has its name there. In the batcher, each stretch between two blocking points is atomic.
* Whether a store call, a dial or a request succeeds is a parameter of the call or a field of the step. A MULTI/EXEC block
  takes effect as a whole.
* Integers are unbounded where the source uses `int` as a count or position; bytes are 8 bits wide and wrap around.
* A function's name is whatever string the Go runtime reports for it. Names hold no space; two functions may share a name.

## What the code does not promise

* Redis removal with another service key than the stored one leaves a dangling id, and that service can then retrieve
  nothing (`RemoveExactly`, `DanglingIdBlocksRetrieval`). The retry loop never does this (`RunsOnRedis`).
* Redis retrieval decodes every value over one variable, so optional strings leak from one item into the next
  (`SharedTarget`, `RetrievedExactly`). The next update of such an item writes the leaked strings back (`LeaksPersist`).
* A Mongo lookup that fails counts as "no such object", so a second document can come under one uuid
  (`MongoStore.Client.Store`); removing the first of the two uncovers the second (`RemovalUncovers`).
* A resumed pipeline is not always the pipeline that would have run: after a function that continues with nil, the next
  one is given the original message in a first run and the stored payload in a retry (`ResumeEquivalence`).
* The SDK's own README.md:312 has either count or time release a batch in time-and-count mode, whichever comes first.
  Neither half holds of every threshold and schedule.
  A met count releases the batch without the timer, in every reachable state, exactly when the threshold is at least 2
  (`CountReleasesExactly`): the first caller starts to wait before the threshold is looked at, so with a threshold of 1 a
  single call waits for the timer, or for another call (`OneCallWaits`).
  And a batch below the threshold goes out exactly when fewer than that many items were appended since the last one; without
  a timer elapsed that needs another batch handed out since the threshold was found met (`ShortExactly`). It happens when a
  caller is left blocked on the channel and let go later (`SenderCanBeStranded`, `StrandedSenderCutsShort`), and also when
  the sender overtakes the waiter it has woken (`WaiterCutsShort`).
* An attempt whose write is lost, because the store fails or a restart forgets it, costs one more attempt: an item is
  retried at most the maximum and once more for each of those (`BoundedRetries`), and that bound is reached for any number
  of them (`BoundIsReached`).
* Exactly one fate per object needs every removal to succeed and no restart to forget one; failing updates do no harm
  (`Conservation`).
* A configuration update is acted on for the first differing setting only, seen from memory, and memory can differ from the
  registry: a negative retry count is replaced by 1, and a failed database connection resets Enabled
  (`UpdateExactly`, `NegativeCountHidesToggle`, `FailedClientSpoilsNextChange`). The running pipeline falls behind memory
  exactly when a change of it comes with another one, or cannot be loaded (`PipelineExactly`, `NegativeCountHidesPipeline`).
* The second call of the Redis factory gives no error and no client when the timeout does not parse (`TickExactly`).
* The secrets cache is never read, because the loop assigns a second variable of the same name
  (`GetSecretsCacheAsWritten`); with the evident correction it is transparent (`LiveCacheTransparent`). A map that was
  returned is the one in the cache, and grows with later requests for its path (`UpdateSecretsCache`).

## Model

| member | source | states |
|---|---|---|
| Contracts.ParseIsCanonical | internal/store/contracts/storedobject.go:67-96 | whatever spelling of a UUID is accepted, what is kept is the canonical lower-case dashed text |
| Contracts.ParseKeepsCanonical | internal/store/contracts/storedobject.go:67-96 | canonical text is kept as it is |
| Contracts.FormsAreRead | internal/store/contracts/storedobject.go:67-96 | the dashed form of a UUID is read as it stands, after the URN prefix, between any two characters, and without its dashes, always to the same text in lower case |
| Contracts.OnlyFormsAreRead | internal/store/contracts/storedobject.go:67-96 | no other text is read |
| Contracts.ValidateExactly | internal/store/contracts/storedobject.go:54-96 | validation accepts exactly the objects with all required fields and a UUID (given or generated); its result is well formed, differs in the id alone and validates to itself |
| RedisModels.Model.constructor | internal/store/db/redis/store.go:113-115 | a fresh decode target is the zero object |
| RedisModels.Model.FromContract | internal/store/db/redis/models/storedobject.go:70-80 | the nine fields are those of the contract, and read as the contract again |
| RedisModels.Model.UnmarshalJSON | internal/store/db/redis/models/storedobject.go:124-167 | decoding in place keeps the target's string where the document has none, and resets payload and numbers |
| RedisModels.RoundTrip | internal/store/db/redis/models/storedobject.go:83-167 | decode after encode restores an object exactly when no string it leaves empty is set in the target; over a fresh target that is every object |
| RedisModels.MembersExactly | internal/store/db/redis/models/storedobject.go:83-121 | each member of the document is its field, and is left out when that has the zero value |
| RedisModels.SharedTarget | internal/store/db/redis/store.go:113-121 | item i of a retrieval has six exact fields, and each optional string is the last nonempty one among items 0..i |
| RedisModels.RetrievedExactly | internal/store/db/redis/store.go:113-121 | item i comes back as stored exactly when each optional string it leaves empty is empty in all items before it |
| RedisStore.KeysNeverCollide | internal/store/db/redis/store.go:35-77 | family and argument can be read back from a key, which is the prefix with that argument, and a canonical UUID is in neither prefixed family |
| RedisStore.RepresentsOne | internal/store/db/redis/store.go:49-195 | a keyspace represents at most one map of objects |
| RedisStore.StoreAdds | internal/store/db/redis/store.go:49-87 | the three writes of Store turn a representation of m into one of m plus the object; keys of other programs are as they were |
| RedisStore.UpdateReplaces | internal/store/db/redis/store.go:127-166 | the writes of Update replace the object, moving its id between services when its service key changes; other programs' keys are as they were |
| RedisStore.RemoveDeletes | internal/store/db/redis/store.go:169-195 | the writes of Remove delete the object when it carries the stored service key; other programs' keys are as they were |
| RedisStore.RemoveDangles | internal/store/db/redis/store.go:169-195 | with another service key the result represents no map of objects at all |
| RedisStore.RemoveExactly | internal/store/db/redis/store.go:169-195 | after Remove some objects are represented exactly when the object was absent or carried its stored service key |
| RedisStore.RemoveServes | internal/store/db/redis/store.go:169-195 | Remove leaves a representation without the object, or, under another service key than the stored one, of nothing; other programs' keys are as they were either way |
| RedisStore.RetrieveServes | internal/store/db/redis/store.go:90-124 | on a represented keyspace retrieval succeeds in any member order and returns each object of the service once |
| RedisStore.DanglingIdBlocksRetrieval | internal/store/db/redis/store.go:90-124 | after a Remove under the wrong service key the owner's retrieval fails in any order |
| RedisStore.ListMembers | internal/store/db/redis/store.go:99-108 | any order of a Redis set lists each member once |
| RedisStore.DecodeEach | internal/store/db/redis/store.go:108-124 | the decode loop over one model, which one nil reply fails |
| RedisStore.Client.Store | internal/store/db/redis/store.go:49-87 | adds the validated object under its id exactly when the server answers, the contract is valid and the id is free; otherwise nothing changes; on a server shared with other programs the client's own keys stay a representation and all others are untouched |
| RedisStore.Client.RetrieveFromStore | internal/store/db/redis/store.go:90-124 | returns every object of the service once, exact in six fields |
| RedisStore.Client.Update | internal/store/db/redis/store.go:127-166 | replaces a present object, fails without effect on an absent one |
| RedisStore.Client.RemoveFromStore | internal/store/db/redis/store.go:169-195 | deletes and reports success exactly when the object was there; under a wrong service key reports success and leaves no representation |
| MongoStore.InsertAdds | internal/store/db/mongo/store.go:49-94 | inserting under a free uuid adds exactly that object |
| MongoStore.InsertShadowed | internal/store/db/mongo/store.go:49-94 | a second document under one uuid breaks uniqueness and is hidden behind the first |
| MongoStore.UpdateActs | internal/store/db/mongo/store.go:139-171 | an update acts exactly when uuid and service key match a document, and then replaces that object alone |
| MongoStore.DeleteActs | internal/store/db/mongo/store.go:174-194 | a removal acts exactly when uuid and service key match a document |
| MongoStore.FindServes | internal/store/db/mongo/store.go:97-136 | a find returns an object exactly when it is the service's and answers for its uuid, each once |
| MongoStore.FindsInOrder | internal/store/db/mongo/store.go:97-136 | on any collection the documents of the service are found in collection order |
| MongoStore.RemovalUncovers | internal/store/db/mongo/store.go:174-194 | of two documents under one uuid and service key a removal uncovers the second, which answers from then on |
| MongoStore.Client.Store | internal/store/db/mongo/store.go:49-94 | a failed lookup counts as absent; whatever the collection, it is then one with one document per uuid exactly when it was and the uuid was absent, and a second document is hidden behind the first |
| MongoStore.Client.RetrieveFromStore | internal/store/db/mongo/store.go:97-136 | the cursor loop collects the matching documents in collection order |
| MongoStore.Client.Update | internal/store/db/mongo/store.go:139-171 | reports success whether or not a document matched; on any collection the first match alone is replaced, and on one with one document per uuid the object is, exactly when it is stored under this service key |
| MongoStore.Client.RemoveFromStore | internal/store/db/mongo/store.go:174-194 | reports success whether or not a document matched; on any collection the first match alone is dropped, and on one with one document per uuid the object is, exactly when it is stored under this service key |
| StoreAgreement.CallBoth | internal/store/db/redis/store.go:49-195 | one call leaves both clients with the same objects exactly when a present object is named with its stored service key, and both answer alike exactly when, besides, an update or removal names a present object |
| StoreAgreement.RunBoth | internal/store/db/mongo/store.go:49-194 | any sequence of such calls leaves both clients with the same map, that of a plain map, and the same objects retrieved up to three optional strings |
| StoreAgreement.Twins | internal/store/db/mongo/store.go:97-136 | the two retrievals from one map are the same set of objects up to the optional strings |
| PipelineHash.CalculatePipelineHash | internal/runtime/storeforward.go:248-256 | the loop's text is the prefix followed by every name after one space |
| PipelineHash.HashOfTwo | internal/runtime/storeforward.go:248-256 | the text of a stamp of two names |
| PipelineHash.HashIsInjective | internal/runtime/storeforward.go:179-180 | over space-free names, equal stamps mean the same length and the same name at every position |
| PipelineHash.SpacesCollide | internal/runtime/storeforward.go:248-256 | with a space in a name two pipelines of different length share a stamp |
| Pipeline.RunShape | internal/runtime/runtime.go:157-196 | a run calls consecutive positions, all but the last continued, and hands off a payload exactly when it is no retry and its last call failed and itself set retry data |
| Pipeline.RunsExactly | internal/runtime/runtime.go:165-195 | a run is the one sequence of calls in which the first is on the value at hand, or the target with the content type, each later one on exactly what the call before returned without a content type, or again on the target when that was nil, all as long as functions continue; with the error of a last call that stopped with one, and that call's retry data |
| Pipeline.RunsAreTraces | internal/runtime/runtime.go:157-196 | that is what a message is from the first function, and a retry from its position on the payload without a content type, a negative position standing for the first |
| Pipeline.LeftInExactly | internal/runtime/runtime.go:170 | what a run leaves in RetryData is what its last call set, if anything |
| Pipeline.HandOffProvenance | internal/runtime/runtime.go:165-192 | at most one payload per message and none on a retry; it was set by the very call at its position, which failed after all earlier ones continued |
| Pipeline.UnclearedShape | internal/runtime/runtime.go:165-192 | without the clearing of RetryData a run makes the same calls and fails alike, but hands off what was set last by any of them |
| Pipeline.ClearingMatters | internal/runtime/runtime.go:170 | the clearing makes a difference exactly when a message fails at a function that set nothing after an earlier one had; uncleared, the earlier payload would be stored under the later position |
| Pipeline.UnclearedStoresEarlierPayload | internal/runtime/runtime.go:170 | a pipeline in which that happens |
| Pipeline.RunsAlike | internal/runtime/runtime.go:165-195 | two runs on inputs that coerce alike make the same calls and end alike exactly when the targets coerce alike or no function but the last continued with nil |
| Pipeline.ResumeEquivalence | internal/runtime/runtime.go:165-195 | resuming from the stored position makes the calls and has the outcome of a first run exactly when the message coerces to the payload or no resumed function but the last continued with nil |
| Pipeline.NilResultBreaksResume | internal/runtime/runtime.go:172-176 | a pipeline in which a first run succeeds and the resumed run fails |
| StoreForward.IndicesIncrease | internal/runtime/storeforward.go:171-221 | the two lists of a pass keep the order of the retrieved items |
| StoreForward.IndicesComplete | internal/runtime/storeforward.go:171-221 | every retrieved item is on the list of its verdict |
| StoreForward.SortedPartitions | internal/runtime/storeforward.go:171-221 | removals and updates partition the retrieved items in order |
| StoreForward.JudgeExactly | internal/runtime/storeforward.go:179-217 | an item is invalidated exactly when its version differs; delivered when it matches and the resumed pipeline returns no error; expired when it matches, the retry fails and the count is exhausted; and tried again when it matches, fails and is not exhausted |
| StoreForward.PassSplits | internal/runtime/storeforward.go:171-221 | to be updated are, in order, exactly the items of the last kind, with one more retry and nothing else changed; to be removed all others, with one more retry if theirs failed |
| StoreForward.PassEffect | internal/runtime/storeforward.go:130-169 | whichever writes fail, each retrieved item whose version matches, whose retry fails and whose count is not exhausted is updated with one more retry, each other one removed, every other object is untouched, and no id appears |
| StoreForward.CleanPassExactly | internal/runtime/storeforward.go:130-221 | without store errors the objects of the service are afterwards exactly those items, each with one more retry |
| StoreForward.PassLifts | internal/runtime/storeforward.go:130-221 | a clean pass raises the least retry count of the service's objects by one and keeps it below the maximum |
| StoreForward.PassesDrain | internal/runtime/storeforward.go:130-221 | with constant m > 0, m clean passes without new objects leave nothing of the service, however the pipeline changes |
| StoreForward.StampNamesWhatRan | internal/runtime/storeforward.go:104-109 | the stamp names the pipeline that ran exactly when no other names have been set since the copy was taken |
| StoreForward.NeverUncalledExactly | internal/runtime/storeforward.go:179-180 | an item stamped with the current pipeline is never removed as delivered without a function having been called on it, by any pipeline at any time, exactly when its position lies inside the current pipeline |
| StoreForward.RetriesWhatFailed | internal/runtime/storeforward.go:239-245 | every retry starts with a function of the name that failed, on the payload, exactly when the current pipeline has that name at that position |
| StoreForward.StaleStampLosesPayload | internal/runtime/runtime.go:133-141 | a message that ends with its position outside: the pipeline shrinks while its second function is failing |
| StoreForward.StoresExactly | internal/runtime/storeforward.go:104-128 | storing adds exactly that object, field by field, or nothing |
| StoreForward.GolangRuntime.constructor | appsdk/sdk.go:137-140 | a new runtime has no transforms and an empty stamp |
| StoreForward.GolangRuntime.Initialize | internal/runtime/runtime.go:143-147 | the store client is set, and nothing else |
| StoreForward.GolangRuntime.SetTransforms | internal/runtime/runtime.go:150-155 | transforms and stamp change together |
| StoreForward.GolangRuntime.StoreForLaterRetry | internal/runtime/storeforward.go:104-128 | one new object with count 0, the given payload, position, event identifiers and the current stamp, and only if enabled, complete, new and the store answers |
| StoreForward.GolangRuntime.ExecutePipeline | internal/runtime/runtime.go:157-196 | the loop, which clears RetryData before each call, returns the error, stores the hand-off, and leaves the RetryData of the run from its start position, whatever RetryData was before |
| StoreForward.GolangRuntime.ProcessMessage | internal/runtime/runtime.go:133-141 | a message runs the copied list from its first function |
| StoreForward.GolangRuntime.RetryExportFunction | internal/runtime/storeforward.go:223-246 | success means that the resumed pipeline returned no error, and a retry stores nothing |
| StoreForward.GolangRuntime.ProcessRetryItems | internal/runtime/storeforward.go:171-221 | the two lists are those of the verdicts: in order, the items that match, fail and are not exhausted with one more retry, and all others |
| StoreForward.GolangRuntime.RetrieveFromStore | internal/runtime/storeforward.go:134-138 | each object of the service once, in any order, which is all the retry loop relies on |
| StoreForward.GolangRuntime.RetryStoredData | internal/runtime/storeforward.go:130-169 | one tick does to every object of the store what the pass does to it; a failed retrieval changes nothing |
| StoreForwardRuns.StepKeepsInv | internal/runtime/storeforward.go:104-221 | every step keeps: each accepted object is stored as accepted or decided, and everything a pass holds is traced to an accepted object |
| StoreForwardRuns.DeliveredWasCalled | internal/runtime/storeforward.go:179-221 | an item judged delivered had the function named at its position called on its payload |
| StoreForwardRuns.NothingIsLost | internal/runtime/storeforward.go:104-221 | over any run with failing writes, restarts and pipeline changes, no object leaves the store before its fate was decided |
| StoreForwardRuns.StepKeepsOrderly | internal/runtime/storeforward.go:130-221 | whatever fails, each object is on one list of a pass at most and none of them leaves the store before its removal |
| StoreForwardRuns.Conservation | internal/runtime/storeforward.go:104-221 | over any run every accepted object is at all times in exactly one of stored, delivered, expired, version-invalidated, exactly when no removal fails and no restart forgets one |
| StoreForwardRuns.RemovalExactly | internal/runtime/storeforward.go:150-158 | a removal keeps one fate per object exactly when the store deletes the object |
| StoreForwardRuns.RestartExactly | internal/runtime/storeforward.go:150-158 | a restart keeps one fate per object exactly when it forgets no removal |
| StoreForwardRuns.TidyExactly | internal/runtime/storeforward.go:104-221 | any step keeps one fate per object exactly when it is neither a removal that fails nor a restart that forgets one; a failing update keeps it |
| StoreForwardRuns.MessageIsAStep | internal/runtime/runtime.go:133-141 | what a message does to the store is one step of the runs |
| StoreForwardRuns.AddedExactly | internal/runtime/runtime.go:157-196 | a message adds an object exactly when its run failed at a call that set a payload and nothing keeps that from being stored; the object is what that call set, at its position, with count 0 and the identifiers of the message |
| StoreForwardRuns.RetryResumesMessage | internal/runtime/storeforward.go:223-246 | with the pipeline unchanged the first call of its retry is of the very function that failed, on that payload, for the same event |
| StoreForwardRuns.RetryRecords | internal/runtime/storeforward.go:171-221 | a retried item is recorded as invalidated exactly when its version differs, delivered when it matches and succeeds, expired when it matches, fails and is exhausted; an attempt is counted exactly when it matches; nothing else changes |
| StoreForwardRuns.PassIsARun | internal/runtime/storeforward.go:130-169 | one undisturbed tick is a run of the small steps with the same effect on the store, and the ledger of its verdicts |
| RetryBounds.BoundedCounts | internal/runtime/storeforward.go:178-221 | over any run with a constant maximum, whatever fails, stored counts stay below the maximum (a negative one acting as 1), and with maximum 0 nothing expires |
| RetryAttempts.BoundedRetries | internal/runtime/storeforward.go:178-221 | over any run with a constant maximum, whatever fails, an object is retried at most m times and once more for every attempt whose write was lost; between passes, while it is stored, its attempts are exactly its count and those lost |
| RetryAttempts.BoundIsReached | internal/runtime/storeforward.go:150-221 | for any number n there is a run in which an object that fails alone loses n writes and is retried the maximum and n times |
| RetryAttempts.LostWritesRetryOn | internal/runtime/storeforward.go:150-167 | while all writes are lost an object whose version matches is retried in every pass, however small the maximum |
| RetryDrain.RunsDrain | internal/runtime/storeforward.go:130-221 | after any run, whatever it lost, everything accepted so far is gone from the store once m passes have been made without a lost write, for constant m other than 0, even while new objects are stored |
| StoreForwardOnRedis.StepOnRedis | internal/store/db/redis/store.go:49-195 | each store call of the protocol keeps the keyspace a representation of the store |
| StoreForwardOnRedis.ItemIsDisciplined | internal/runtime/storeforward.go:150-167 | every update and removal of the retry loop names the object with the service key it is stored under |
| StoreForwardOnRedis.RunsOnRedis | internal/store/db/redis/store.go:49-195 | so over all runs no id dangles and the three key families agree |
| StoreForwardOnRedis.RetrievalOnRedis | internal/store/db/redis/store.go:90-124 | and what Redis returns after any run is what the next pass may be given |
| StoreForwardOnRedis.LeaksPersist | internal/store/db/redis/store.go:113-121 | after a pass, an item to be retried again has for each optional string the last nonempty one among the objects retrieved up to it; only its count has changed exactly when no string it lacks is in an earlier one |
| Batch.BatchConfig.NewBatchByTime | pkg/transforms/batch.go:33-46 | a timed batch, or none when the interval does not parse |
| Batch.BatchConfig.NewBatchByCount | pkg/transforms/batch.go:49-56 | a count batch with this threshold, whatever it is |
| Batch.BatchConfig.NewBatchByTimeAndCount | pkg/transforms/batch.go:59-73 | both, or none when the interval does not parse |
| Batch.BatchConfig.Batch | pkg/transforms/batch.go:76-108 | from the call to the first blocking point; data that does not coerce changes nothing |
| Batch.BatchConfig.AfterWait | pkg/transforms/batch.go:103-133 | after the select the timer is off and everything buffered is forwarded |
| Batch.BatchConfig.CheckThreshold | pkg/transforms/batch.go:111-133 | the threshold check, in the modes that look at it |
| Batch.BatchConfig.AfterSend | pkg/transforms/batch.go:126-133 | a nonempty buffer is forwarded whole and emptied |
| BatchSchedules.StepKeepsInv | pkg/transforms/batch.go:87-133 | every stretch of any caller keeps conservation, exclusiveness, and the rules of its mode |
| BatchSchedules.Reachable | pkg/transforms/batch.go:87-133 | under any schedule in any mode the batches in forwarding order followed by the buffer are the data in append order, each batch nonempty and given to exactly one caller; in the timed modes flag, caller on the timer and nonempty buffer go together |
| BatchSteps.ArrivalExactly | pkg/transforms/batch.go:76-133 | in every reachable state: a call in count-only mode returns all data appended since the last batch once there are enough, and else nothing; in the timed modes the first one waits, and others return nothing, unless the count matters and is met, when they are blocked |
| BatchSteps.GoingOnExactly | pkg/transforms/batch.go:103-133 | who goes on after the select or the send returns with all data appended since the last batch, or with nothing if there is none |
| BatchSteps.TimeOnlyExactly | pkg/transforms/batch.go:91-133 | in time-only mode a batch is handed out exactly when a caller whose timer has fired goes on and something was appended since the last one; nobody is ever blocked |
| BatchSteps.OneBatchPerTimer | pkg/transforms/batch.go:91-133 | so there is at most one batch for every timer that fires |
| BatchSchedules.CountOnlyBlocks | pkg/transforms/batch.go:111-133 | in count-only mode the batches are the consecutive blocks of max(1, threshold) items |
| BatchSchedules.BufferedDataCanLeave | pkg/transforms/batch.go:91-133 | whenever data is buffered in a timed mode, the caller on the timer alone can forward all of it |
| BatchSchedules.SenderNeedsWaiter | pkg/transforms/batch.go:95-122 | a caller blocked on the channel can go on exactly when somebody waits |
| BatchSchedules.ShortExactly | pkg/transforms/batch.go:91-133 | in every reachable state of time-and-count mode a step hands out a batch below the threshold exactly when its caller goes on after the select or the send and fewer than the threshold, but some, items were appended since the last batch, which are then the batch; then its timer has elapsed, or another batch was handed out since the threshold was found met; if none was, at least the threshold goes out |
| BatchSchedules.LetGo | pkg/transforms/batch.go:95-133 | a blocked caller that is let go forwards exactly what is buffered then, with no timer elapsed |
| BatchSchedules.SenderCanBeStranded | pkg/transforms/batch.go:91-122 | a schedule after which a caller is blocked on the channel and only a new call can let it go |
| BatchSchedules.StrandedSenderCutsShort | pkg/transforms/batch.go:114-133 | a stranded caller, let go by a later one, forwards what that one brought: a batch below the threshold with no timer elapsed |
| BatchSchedules.WaiterCutsShort | pkg/transforms/batch.go:91-133 | a waiter that is woken by the channel and overtaken by the sender forwards a batch below the threshold with no timer elapsed, and nobody is stranded |
| BatchRelease.CountReleasesExactly | pkg/transforms/batch.go:91-133 | whenever the buffer has met the threshold, in every reachable state of time-and-count mode, the callers already there can hand all of it out in two steps without a timer, exactly when the threshold is at least 2 |
| BatchRelease.OneCallWaits | pkg/transforms/batch.go:91-103 | after a single call only a timer or another call is possible, and nothing else can hand out what is buffered, whatever the threshold; with a threshold up to 1 it has been met |
| BatchRelease.AtMostOneLetGo | pkg/transforms/batch.go:91-122 | in every reachable state of the timed modes at most one blocked caller is let go until somebody new arrives, and one can be exactly when somebody waits and somebody is blocked |
| Config.UpdateExactly | appsdk/sdk.go:869-898 | an update leaves one loop at the configured interval exactly when enabled, with client and cancel function, if and only if its settings differ from memory in a way the code acts on |
| Config.RunsExactly | appsdk/sdk.go:837-901 | over whole runs of updates and loop activity, on any database configuration, that holds in every state exactly when every update is of that kind on arrival and, if no client can be had, no running loop ticks |
| Config.OneSettingIsHandled | appsdk/sdk.go:875-876 | an update that differs from memory in at most one setting is of that kind |
| Config.MemoryFollows | appsdk/sdk.go:872-927 | memory differs from the registry after an update exactly when a negative count is acted on, which makes it 1, or a needed client cannot be had, which makes Enabled false |
| Config.GentleRuns | appsdk/sdk.go:837-959 | if the registry changes one setting at a time, holds no negative count and the database answers, at most one loop runs, exactly when enabled, over the whole run |
| Config.PipelineExactly | appsdk/sdk.go:869-898 | after an update the running pipeline is the one in memory exactly when no other setting in memory changed and it can be loaded, or it names the pipeline that runs |
| Config.PipelineRunsExactly | appsdk/sdk.go:837-901 | over whole runs the running pipeline is at all times the one in memory exactly when that is so of every update on arrival |
| Config.LevelRuns | appsdk/sdk.go:878-880 | over whole runs the logging client always logs at the level in memory |
| Config.GentlePipelines | appsdk/sdk.go:875-898 | if the registry changes one setting at a time, holds no negative count, the database answers and every pipeline can be loaded, the running pipeline is always the one in memory |
| Config.NegativeCountHidesToggle | appsdk/sdk.go:882-887 | while the registry holds a negative count that memory has replaced, a change of Enabled alone is never acted on |
| Config.NegativeCountHidesPipeline | appsdk/sdk.go:882-898 | while the registry holds a negative count that memory has replaced, a change of the pipeline alone is not acted on, and memory is left so that the next one is not either |
| Config.FailedClientSpoilsNextChange | appsdk/sdk.go:912-918 | after a client could not be had, the next change of another loop setting leaves the service enabled without a loop, or panics |
| Config.TickExactly | internal/store/db/redis/store.go:203-245 | a running loop panics at its tick exactly when the database is Redis with a timeout that does not parse |
| Config.CrashesExactly | appsdk/sdk.go:903-959 | in any state an update panics exactly when it stops a loop that was never started, or starts one or hands over a new client before the runtime exists |
| Config.BookkeepingKept | appsdk/sdk.go:869-959 | every step keeps cancel function and client in line: cancel is only set with a client and a runtime |
| Config.AppFunctionsSDK.InitializeStore | appsdk/sdk.go:477-494 | the client, working, nil or a nil pointer, that the factory gives |
| Config.AppFunctionsSDK.Initialize | appsdk/sdk.go:379-446 | the bootstrap loop waits for configuration, logger and database, and ends at once on another version or a closed secret provider |
| Config.BootExactly | appsdk/sdk.go:379-446 | booting succeeds exactly when at the first attempt with configuration and logger the version matches and the secret provider opens, and, if enabled, the database answers that attempt or a later one up to which the version always matches; the client is usable exactly when the configuration can give one |
| Config.NeverReady | appsdk/sdk.go:379-446 | without an attempt that has both, booting fails and has changed nothing |
| Config.AppFunctionsSDK.MakeItRun | appsdk/sdk.go:137-157 | the runtime holds the client, and the loop runs exactly when enabled, at the configured interval; all is as configured exactly when there is a client or none is needed |
| Config.AppFunctionsSDK.Terminate | appsdk/sdk.go:175-178 | from any state, at the end all loops are stopped, or a panic exactly when the service is enabled without ever having started one |
| Config.AppFunctionsSDK.StartStoreForward | appsdk/sdk.go:946-953 | one more loop at the configured interval, which cancel now belongs to |
| Config.AppFunctionsSDK.StopStoreForward | appsdk/sdk.go:955-959 | the loop that cancel belongs to ends, or a panic when there is none |
| Config.AppFunctionsSDK.ProcessConfigChangedRetryInterval | appsdk/sdk.go:903-908 | the loop is restarted if enabled |
| Config.AppFunctionsSDK.ProcessConfigChangedEnabled | appsdk/sdk.go:910-927 | the client is created on first use; on failure Enabled is reset |
| Config.AppFunctionsSDK.ProcessConfigChangedPipeline | appsdk/sdk.go:929-944 | a pipeline that was configured is replaced exactly when the section can be loaded |
| Config.AppFunctionsSDK.ProcessUpdate | appsdk/sdk.go:869-898 | the first differing setting is acted on; if none differs the pipeline is reloaded |
| Helpers.DeleteEmptyAndTrim | pkg/util/helpers.go:31-40 | the loop keeps the trimmed fields that are not empty, in order |
| Helpers.TrimSpaceCuts | pkg/util/helpers.go:34 | trimming takes all spaces off both ends and nothing else |
| Helpers.SpacesExactly | pkg/util/helpers.go:34 | the spaces are the 25 characters of the Unicode property |
| Helpers.ParseDistributes | pkg/util/helpers.go:26-40 | a comma separates wherever it stands: parsing a,b is parsing a, then b |
| Helpers.ParseOne | pkg/util/helpers.go:26-40 | text without a comma is one trimmed name, or none |
| Helpers.ParseIsTidy | pkg/util/helpers.go:26-40 | every parsed name is nonempty, trimmed and free of commas |
| Helpers.JoinThenParse | pkg/util/helpers.go:26-40 | a list survives being joined and parsed exactly when all its names are so |
| Helpers.ParseStable | appsdk/sdk.go:201 | a parsed list joined with commas parses to itself |
| Parameters.LowerKeys | appsdk/sdk.go:226-228 | the loop ends after some legal iteration (each original key once, added keys visited or skipped), and in one and the same map if competing keys agree |
| Parameters.VisitedMap | appsdk/sdk.go:226-228 | each lower-case name has the value of the key visited last among those it stands for, all else is untouched |
| Parameters.LastOfVisited | appsdk/sdk.go:226-228 | that key is one after which no other key visited stands for the name |
| Parameters.OrderIrrelevant | appsdk/sdk.go:226-228 | if competing keys agree in value every legal iteration ends in one map |
| Parameters.OrderIndependentExactly | appsdk/sdk.go:226-228 | the order cannot be told from the result exactly when the keys that are not lower case agree wherever they share a lower-case name |
| Parameters.LoweredTwice | appsdk/sdk.go:226-228 | doing it again to the same map changes nothing |
| ConfigurablePipeline.LoadExactly | appsdk/sdk.go:186-257 | loading succeeds exactly when every listed name can be made from its configuration, and gives those functions in that order |
| ConfigurablePipeline.Rewrites | appsdk/sdk.go:209-257 | the parameters rewritten are exactly those of the names looked up: all of them, or those before one that could not be, or up to one that could not be made |
| ConfigurablePipeline.ReloadStable | appsdk/sdk.go:929-944 | loading again from the configuration the first time has rewritten gives the same functions |
| ConfigurablePipeline.OrderNormalised | appsdk/sdk.go:201 | the joined list of names is as good an execution order as the original text |
| ConfigurablePipeline.Configuration.LoadConfigurablePipeline | appsdk/sdk.go:186-257 | whatever order parameters are iterated in, pipeline and rewritten configuration are one function of the configuration if competing keys agree |
| ConfigurablePipeline.Configuration.AddFunctions | appsdk/sdk.go:209-257 | the loop stops at the first name that cannot be loaded |
| ConfigurablePipeline.Configuration.AddFunction | appsdk/sdk.go:209-254 | unknown configuration before unknown function before a function that cannot be made; parameters are rewritten in between |
| Secrets.GetKeepsCacheTrue | internal/security/credentials.go:58-78 | a request keeps every cached value the one in the store |
| Secrets.TransparentExactly | internal/security/credentials.go:125-152 | with the hit path live, no request can tell the cache from none exactly when every cached value is true |
| Secrets.FetchedIsCached | internal/security/credentials.go:58-167 | with the hit path live, any of the keys fetched are answered from the cache from then on, even when the store is away |
| Secrets.CachedStays | internal/security/credentials.go:154-167 | and no request takes anything out of the cache |
| Secrets.StoreExactly | internal/security/credentials.go:172-193 | a store request keeps the cache true exactly when it succeeds or changes no cached value |
| Secrets.TrueExactly | internal/security/credentials.go:58-193 | the cache is true over a whole run exactly when no failed store request changes a value cached at that moment |
| Secrets.LiveCacheTransparent | internal/security/credentials.go:58-193 | with the hit path live every answer of such a run is the uncached one, except that a hit does not notice an unreachable store |
| Secrets.SecretProvider.constructor | internal/security/secret.go:42-50 | a new cache is true of any store |
| Secrets.SecretProvider.GetSecretsCacheAsWritten | internal/security/credentials.go:125-152 | never finds anything |
| Secrets.SecretProvider.GetSecretsCacheAsIntended | internal/security/credentials.go:125-152 | finds exactly a nonempty list of keys that are all cached, with their values |
| Secrets.SecretProvider.UpdateSecretsCache | internal/security/credentials.go:154-166 | a fetched map itself is entered under a new path; under a known path its pairs are merged into the map already there, which whoever asked first still holds |
| Secrets.SecretProvider.GetSecrets | internal/security/credentials.go:58-78 | in secure mode answer and new cache are as the request machine has them, and a fetched map is returned and entered as it is; in insecure mode the cache is left alone and the answer comes from the configuration |
| Secrets.GetInsecureSecrets | internal/security/credentials.go:84-123 | whatever the order of the entries, it succeeds exactly when the path is listed and, if keys are asked for, every entry for it has all of them, and answers from an entry for the path |
| Secrets.InsecureIsFetch | internal/security/credentials.go:84-123 | with one entry for the path the insecure answer is that of a secret store with these entries |
| Secrets.SecretProvider.StoreSecrets | internal/security/credentials.go:172-193 | fails in insecure mode; the cache is emptied exactly after a successful write |
| Filter.FilterByDeviceName | pkg/transforms/filter.go:40-68 | an event goes on exactly when the list is empty or holds its device |
| Filter.FilterByValueDescriptor | pkg/transforms/filter.go:74-115 | with an empty list an event goes on as it is; otherwise it goes on exactly when some reading bears a listed name, under no id and with its other fields, each reading as often as the product of its count and its name's, in order; and else stops with the zero event |
| Filter.Multiplicity | pkg/transforms/filter.go:101-114 | each reading comes out its count in the event times its name's count in the list |
| Filter.Ordered | pkg/transforms/filter.go:101-114 | output positions correspond one to one to all hits, ordered by filter position and then input position |
| Filter.AnswerExactly | pkg/transforms/filter.go:74-115 | that is the answer for every list and event |
| Filter.Idempotent | pkg/transforms/filter.go:101-114 | a second application changes nothing exactly when no filter value that a reading bears is listed twice |
| Filter.FilterTwice | pkg/transforms/filter.go:74-115 | with distinct filter values the event passed on is passed on unchanged |
| Encryption.PaddingInvertible | pkg/transforms/encryption.go:48-52 | the padded length is the next strict multiple of 16, every byte added is their number, and unpadding restores the text |
| Encryption.CbcChains | pkg/transforms/encryption.go:80-83 | each block of cipher text is the cipher of the block of text added to the block of cipher text before it, at first the vector |
| Encryption.CbcInvertible | pkg/transforms/encryption.go:80-83 | CBC over any invertible block permutation is undone by the reverse chain, block by block |
| Encryption.Base64Invertible | pkg/transforms/encryption.go:85 | decoding the encoded text gives the bytes back |
| Encryption.AlphabetExactly | pkg/transforms/encryption.go:85 | the digits are A to Z, a to z, 0 to 9, plus and slash, and padding is the equals sign |
| Encryption.QuantumExactly | pkg/transforms/encryption.go:85 | three bytes are the four digits of their 24 bits; of fewer, missing bits are zero and missing digits padding |
| Encryption.Base64Distributes | pkg/transforms/encryption.go:85 | longer data is taken three bytes at a time |
| Encryption.EncryptedExactly | pkg/transforms/encryption.go:56-88 | the result is the Base64 text of the padded data, as many blocks, each chained from the vector |
| Encryption.EncryptionInvertible | pkg/transforms/encryption.go:56-88 | padding, CBC and Base64 are undone by the reverse chain for all data and any vector text, truncated or zero-filled to 16 bytes |
| Encryption.EncryptWithAES | pkg/transforms/encryption.go:56-88 | the buffers filled in place hold that chain's result; no data and data that does not coerce are errors |
| Encryption.CryptBlocks | pkg/transforms/encryption.go:80-83 | the output buffer is filled block by block with the chain's cipher text |

## Left out

- Decoding of envelopes (JSON, CBOR), the target type, correlation headers and everything before ProcessMessage copies the transforms.
- HTTP, MQTT and message bus transports, triggers, web server, telemetry, registry and Vault clients: I/O.
- JSONLogic, compression, and XML and JSON conversion: thin wrappers around libraries.
- The AES rounds and SHA-1: the block cipher is an arbitrary function on 16-byte blocks, with an inverse where one is needed; a key that the library refuses cannot occur, as it is always 16 bytes long.
- UUID generation: what it returns is a parameter, and runs assume that it is an id never accepted before.
- JSON syntax: a document is the record of its members, and json.Marshal of an object is part of the object.
- Real time: a timer is a step that may happen whenever a caller waits; how an interval text parses is a parameter, and the one-second minimum of the retry interval is not modelled.
- Connection pools, timeouts and the dialling of both databases, except whether the factory returns a client.
- Unsynchronised interleavings inside one stretch of Batch, inside one retried item, or of a message with a change of the pipeline.
- Callers of GetSecrets that change a map they were given, which may be the one in the cache.
- pkcs5Padding: may write into the spare capacity of its argument, which the model's values do not have.
- LoadConfigurablePipeline: reflection is reduced to which names exist and what they return for a configuration; invalid UTF-8 in the execution order is not modelled.
- Config.AppFunctionsSDK.ProcessConfigChangedPipeline: whether a section can be loaded is a parameter there, and the section a text; loading is ConfigurablePipeline, and the rewriting of parameter names in the section does not count as a change.
- StoreForward.GolangRuntime.Initialize: the secret provider and the reference back to the runtime are not fields of the model, as nothing modelled reads them.
- StoreForward.GolangRuntime: holds the objects of its store client as a map; RedisStore and MongoStore say how the clients keep it, and StoreForwardOnRedis carries the runs over to Redis.
- StoreForwardRuns on Mongo: its lookups and writes act on one document each, and StoreAgreement relates them to the same map.
- Overflow of retry counts and positions: they are unbounded integers.
