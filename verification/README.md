# AIGr.id: verified models of its core algorithms

A Dafny 4.11 project with one module per component of AIGr.id that holds an algorithm, a state
machine or a protocol. Each module states what its component is for and proves it for every
input, every run or every interleaving. `dafny verify dfyconfig.toml` checks the whole project.

Code that changes things step by step is modelled by classes and loops, proved against functions on
values; the properties are lemmas about those functions. Concurrent code is a state machine over
its atomic steps, with a class whose methods perform the steps. Where the code does not do what its
name or documentation suggests, the model follows the code, a lemma shows an input on which it goes
wrong, and another says exactly when it is right.

| module | component | main result |
|---|---|---|
| SearchQuery, LikePattern | documents, queries, single conditions | each condition selects what it says |
| QueryRewrite | entity search and join rewriting | exact for every query but an OR, which is widened |
| QueryCompiler, PipelineMeaning, CompilerCorrectness | metrics queries to database pipelines | compiler correctness, with the exact meaning of what is lost beneath an OR |
| Sequences, Digraph, PolicyGraph | policy-graph scheduler | Kahn's test decides acyclicity; a run returns exactly when the dataflow equations have a solution, which is unique |
| JobExecutor | threaded job executor | per-session order, exact refusal, conservation and completion in every interleaving |
| Muxing | muxer and batchers | grouping per key, conservation, and when a key or a batcher is stuck |
| TaskPool | asynchronous validation pool | each task in one place; calls return exactly when made one at a time |
| BlockRouting, Discovery, Gateway | inference graphs, block addresses, the way of a request | replies are exactly the entry-to-sink paths |
| ClusterGroups | cluster-group hierarchy | links, inheritance and traversals in every reachable state |
| TemplateValidator, TemplateVerdict | specification parser | acceptance is conformance; the trace blames the first failure; when an exception passes |
| ControlsValidator | component settings | idempotent exactly when the defaults used are fixed points |
| BroadcastProtocol | distributed generation | all ranks finish or raise exactly when they agree about joining a failing broadcast |
| LogRotation | rotating log files | what is lost is exactly what the removed and overwritten files held, the oldest records |
| StateDict | dictionary over Redis | refines an ordinary map, namespace by namespace |
| RollingMetric | rolling averages | the mean of the complete history in the window |

## What the models show about the code

- Beneath an OR only the last match of a branch survives, so an AND of two conditions there keeps too
  much, and a condition other than an equality at the end of a branch keeps nothing
  (`WideAndKeepsTooMuch`, `WideAndKeepsUnasked`, `NonEqualityBeneathOrFails`). Aggregates whose computed
  names collide are all compared with the last one's value (`CollidingNamesCompareTheLast`); names collide
  only if targets agree once dots are read as underscores (`NamesEqualIff`).
- Also beneath an OR, a text that starts with a dollar is read as the name of a field
  (`DollarTextReadsField`), and a field of the elements of an array equals no plain value
  (`ArrayBeneathOrIsDropped`).
- An element without the inner array makes an aggregate over three levels the aggregate of nothing, so
  that a document can be dropped although it satisfies the query
  (`DropsWhatOnlyWholeSatisfies`, `MissingInnerArrayDropsSatisfying`).
- Restricting an entity query that is an OR appends the ids as one more alternative. It is exact only
  where restricting is pointless (`OrRestrictsExactlyIffPointless`, `OrOnAnotherFieldIsWidened`,
  `OrStillFinds`).
- `execute_graph` calls its "leaf node", the one without predecessors, with an empty list; the input
  data reaches no function (`SourceReceivesNothing`).
- A gateway connection stays with the first block sent to through its host, at the inference gateway as
  at the blocks (`GatewayDeliveryExact`, `SharedHostMisdelivers`, `EntersRightIffHostsApart`).
- Addresses are remembered under block and instance ids joined by a hyphen, which would make two
  different requests share a key (`HyphenCollides`). Both callers ask without an instance id
  (ai_server.py:95, rest.py:213), so their answers are always right (`BlockIdsAreSafe`).
- A group of packets that does not parse blocks its key for good (`UnparsableGroupBlocks`); a timed
  batch that fills up is never flushed, because its flush asks for a lock it holds
  (`FullBatchIsNeverFlushed`).
- A submitting call can be left waiting on an empty task queue, exactly when another call was in
  progress (`SafeIffAlone`, `SubmitMayWait`), though every task is still carried out
  (`QuietMeansAllDone`).
- An exception during validation counts as a pass: exactly when the first failing site raises, never with
  complete templates and tagged values (`RaisesIffFirstFailureRaises`, `UntypedFieldPasses`,
  `CompletePassesIffConforms`). The template name in a trace is that of the template entered last, even
  if it has been left (`NameIsRightIff`, `NamesAnotherTemplate`); the initial data and type in it are
  one-element tuples (`Validate`).
- The specification parser reads a bound of minus one as no bound (`RangeHoldsIffNoMinusOne`) and applies
  no range, choice or prefix to the elements of an array (`ElementsUnrestricted`).
- A block without a cluster id, with an empty first URL or with an empty list of URLs resolves in a
  compiled graph or at the entry only (`ResolvesAsCompiled`).
- A rank whose broadcast raises before joining goes on to a reduction in which the other ranks never
  meet it: all ranks are then stuck, unless every rank does the same (`AllTerminateIffUniform`,
  `LockstepLost`, `SourceRaisesFirst`).
- Dictionary keys that begin with `type:` overwrite the type entries of other keys
  (`ReservedKeyBreaksAnother`), and a namespace with a pattern character clears keys of others
  (`OwnKeysOnlyIffGlobFree`).
- The settings validator ignores bounds and sizes of zero, and does not check falsy values
  (`BoundsHoldIffNonZero`, `SizeHoldsIffNonZero`, `CheckedIffFalsyLikeMissing`, `FalsyGoesWrong`).

## Model

| member | source | states |
|---|---|---|
| `CompilerCorrectness.PipelineDecides` | services/management-services/search-server/core/similarity_search.py:70-237 | Compiler correctness: on every supported document the compiled pipeline never fails, never changes an original field, and keeps the document exactly when it satisfies the query in which every branch of an OR is reduced to its last condition, aggregates with one computed name are replaced by the last of them, and an aggregate over an array with an element that lacks the inner array is that of nothing |
| `CompilerCorrectness.PipelineDecidesRelaxed` | services/management-services/search-server/core/similarity_search.py:104-147 | When the aggregates of each OR have distinct computed names, the reduction to last conditions and the aggregates of nothing remain |
| `CompilerCorrectness.PipelineNeverDrops` | services/management-services/search-server/core/similarity_search.py:104-147 | A document satisfying a non-empty query is kept, with its original fields intact, if it does so with the aggregates as the pipeline takes them, or if no element lacks an inner array |
| `CompilerCorrectness.PipelineExact` | services/management-services/search-server/core/similarity_search.py:104-147 | Without an AND of two or more conditions beneath an OR the pipeline keeps exactly the documents satisfying the query with the aggregates as it takes them, which are the satisfying documents when no element lacks an inner array |
| `CompilerCorrectness.WideAndKeepsTooMuch` | services/management-services/search-server/core/similarity_search.py:124-137 | An AND of two conditions beneath an OR is decided by the second one alone: the documents wrongly kept are exactly those meeting the second and not the first |
| `CompilerCorrectness.WideAndKeepsUnasked` | services/management-services/search-server/core/similarity_search.py:124-137 | For example "x is one and y is two" beneath an OR keeps a document whose x is zero |
| `CompilerCorrectness.NonEqualityBeneathOrFails` | services/management-services/search-server/core/similarity_search.py:124-137 | A condition other than an equality that ends a branch of an OR, at any depth of ANDs and ORs beneath it, becomes a comparison with an operator object, and no document is ever kept |
| `CompilerCorrectness.RefusingOrFails` | services/management-services/search-server/core/similarity_search.py:108-137 | Nor is one when such an OR stands beneath ANDs, whatever stands beside it |
| `CompilerCorrectness.DollarTextReadsField` | services/management-services/search-server/core/similarity_search.py:124-137 | Beneath an OR an equality with a text that starts with a dollar keeps exactly the documents in which the field of that name is equal, or both are missing |
| `CompilerCorrectness.ArrayBeneathOrIsDropped` | services/management-services/search-server/core/similarity_search.py:124-137 | Beneath an OR an equality with a field of the elements of an array drops every document, also one that satisfies it through an element |
| `CompilerCorrectness.UnknownAggregateRefused` | services/management-services/search-server/core/similarity_search.py:149-220 | An unknown aggregate is translated, and the database refuses the pipeline |
| `CompilerCorrectness.CollidingNamesCompareTheLast` | services/management-services/search-server/core/similarity_search.py:116-126 | Two aggregates with one computed name beneath an OR are both compared with the value of the second |
| `CompilerCorrectness.DropsWhatOnlyWholeSatisfies` | services/management-services/search-server/core/similarity_search.py:185-192 | The satisfying documents that are dropped are exactly those that do not satisfy the query once every aggregate over an array with an element lacking the inner array is that of nothing, zero for a sum and null otherwise |
| `CompilerCorrectness.MissingInnerArrayDropsSatisfying` | services/management-services/search-server/core/similarity_search.py:185-192 | For example a document whose one inner number is five is dropped by "the sum is at least five" because of an empty element beside it |
| `CompilerCorrectness.NamesCollide` | services/management-services/search-server/core/similarity_search.py:155 | Two different aggregate targets can be given the same computed field |
| `QueryCompiler.NamesEqualIff` | services/management-services/search-server/core/similarity_search.py:155 | Two aggregates get the same computed field if and only if they have the same operator and their targets agree once dots are read as underscores; with targets free of underscores, only if they are the same |
| `CompilerCorrectness.PlainTargetsAreDistinct` | services/management-services/search-server/core/similarity_search.py:116-155 | So a query whose targets have no underscore keeps the computed fields of each OR apart |
| `CompilerCorrectness.PlainQueriesExact` | services/management-services/search-server/core/similarity_search.py:70-237 | On such a query, with no AND of two conditions beneath an OR, the pipeline keeps exactly the satisfying documents, and with one it drops none, as long as no element lacks an inner array |
| `CompilerCorrectness.RunSets` | services/management-services/search-server/core/similarity_search.py:139-143 | The set stages an OR moves to the front leave every computed field with the value of the last aggregate of its name, and original fields untouched |
| `CompilerCorrectness.RelaxedExact` | services/management-services/search-server/core/similarity_search.py:119-137 | When no AND beneath an OR has two conditions, keeping only the last match of each branch changes no meaning, whichever way aggregates are taken |
| `CompilerCorrectness.RelaxedWeaker` | services/management-services/search-server/core/similarity_search.py:119-137 | Keeping only the last match of each branch of an OR can only admit more documents |
| `PipelineMeaning.ComputationExact` | services/management-services/search-server/core/similarity_search.py:149-220 | The value a set stage computes is the aggregate the query asks about, for counts, two-level targets and targets of three or more levels, or that of nothing when an element lacks the inner array |
| `PipelineMeaning.MapFieldCollects` | services/management-services/search-server/core/similarity_search.py:196-202 | Mapping a field over array elements yields the values that collecting the field from them finds, and nulls |
| `PipelineMeaning.ConcatenationCollects` | services/management-services/search-server/core/similarity_search.py:185-192 | Concatenating inner arrays and then collecting a field is collecting through both levels |
| `SearchQuery.SumAndMean` | services/management-services/search-server/core/similarity_search.py:204-210 | A sum is that of the numbers found; the mean times their count is the sum, and the mean of nothing is null |
| `SearchQuery.ExtremesMeaning` | services/management-services/search-server/core/similarity_search.py:204-210 | The minimum and the maximum are values found that are not null, none of which comes before the one or after the other; those of nothing are null |
| `SearchQuery.LeastIsFirst` | services/management-services/search-server/core/similarity_search.py:204-210 | The minimum of values of any scalar kinds is one of them, and none comes before it |
| `SearchQuery.GreatestIsLast` | services/management-services/search-server/core/similarity_search.py:204-210 | The maximum is one of the values, and it comes before none |
| `QueryCompiler.Translate` | services/management-services/search-server/core/similarity_search.py:70-77 | The recursive translator returns the pipeline of a query or the first error in traversal order |
| `QueryCompiler.TranslateAnd` | services/management-services/search-server/core/similarity_search.py:108-113 | An AND concatenates the pipelines of its conditions, stopping at the first error |
| `QueryCompiler.TranslateOr` | services/management-services/search-server/core/similarity_search.py:115-143 | An OR collects the set stages of all branches and ends in one match over the kept expressions |
| `QueryCompiler.SplitBranch` | services/management-services/search-server/core/similarity_search.py:124-137 | One branch of an OR contributes all its set stages and only the expression of its last match |
| `QueryRewrite.Translate` | services/management-services/search-server/core/similarity_search.py:14-66 | The plain translator returns the filter of a query or the first error in traversal order |
| `QueryRewrite.TranslatesIffTranslatable` | services/management-services/search-server/core/similarity_search.py:14-66 | It succeeds exactly on queries built by AND and OR from conditions with known operators in which no condition names its enclosing operator as its field |
| `QueryRewrite.TranslationPreservesMeaning` | services/management-services/search-server/core/similarity_search.py:14-66 | The filter selects exactly the documents the query asks for, and the database accepts it exactly when no AND or OR is empty |
| `QueryRewrite.RestrictedMeaning` | services/management-services/search-server/core/similarity_search.py:341-362 | Appending the IN condition intersects the query with the ids found, except that an OR is widened by them |
| `QueryRewrite.SoundRestrictsExactly` | services/management-services/search-server/core/similarity_search.py:370-392 | An absent, empty, single-condition or AND query is restricted exactly: the documents selected are those that satisfy the query and have a listed id |
| `QueryRewrite.OrRestrictsExactlyIffPointless` | services/management-services/search-server/core/similarity_search.py:377-383 | An OR is restricted exactly if and only if the documents satisfying it are those with a listed id |
| `QueryRewrite.OrOnAnotherFieldIsWidened` | services/management-services/search-server/core/similarity_search.py:377-383 | So no OR with an equality on another top-level field is restricted exactly: the document with just that field is still selected |
| `QueryRewrite.OrStillFinds` | services/management-services/search-server/core/similarity_search.py:377-383 | For example an OR on the region still finds a document of that region whose id is not listed |
| `QueryRewrite.SearchExact` | services/management-services/search-server/core/similarity_search.py:325-434 | For an absent, empty, single-condition or AND query, both rewritings followed by the translation select exactly the documents that satisfy the original query and have an id among the sub-results |
| `QueryRewrite.Request.Restrict` | services/management-services/search-server/core/similarity_search.py:370-392 | The in-place rewriting of the entity query: replaced, extended, or joined with AND, by the shape found |
| `QueryRewrite.Request.BlockSearch` | services/management-services/search-server/core/similarity_search.py:332-394 | The block case: no cluster found ends the search, otherwise the query as rewritten is translated, and the filter sent is exact for the queries above |
| `QueryRewrite.Request.ClusterSearch` | services/management-services/search-server/core/similarity_search.py:398-434 | The cluster case: no metrics found ends the search, otherwise the filter sent is exact for the queries above |
| `SearchQuery.SimpleTranslationExact` | services/management-services/search-server/core/similarity_search.py:21-44 | A condition translates exactly when its operator is known and a LIKE value is text, and the result selects what the condition asks for |
| `LikePattern.LikeIsUnanchoredGlob` | services/management-services/search-server/core/similarity_search.py:26-28 | On patterns with no metacharacter other than dot and star, the regular expression finds exactly the texts some stretch of which matches the glob |
| `PolicyGraph.IsDag` | services/registries/system/core/graph.py:7-30 | True if and only if the multigraph, with duplicate targets and self-loops, has no directed cycle |
| `PolicyGraph.BuildDegrees` | services/registries/system/core/graph.py:9-17 | Each counter is the number of edges into its node with multiplicity, and the adjacency list of a node is its target list |
| `PolicyGraph.Release` | services/registries/system/core/graph.py:25-28 | Decrementing the targets queues exactly the nodes whose counter reaches zero, each once |
| `PolicyGraph.KahnStep` | services/registries/system/core/graph.py:22-28 | Each turn of the worklist keeps every counter equal to the number of edges into the node from nodes not yet visited, and visits predecessors first |
| `PolicyGraph.KahnVerdict` | services/registries/system/core/graph.py:30 | All nodes have been visited when the queue runs empty if and only if there is no cycle |
| `PolicyGraph.InitialQueue` | services/registries/system/core/graph.py:67-68 | The first queue holds each listed id without a predecessor as often as it is listed |
| `PolicyGraph.CollectInputs` | services/registries/system/core/graph.py:87-90 | The inputs collected for a function: one per source that lists it, with the fallback for a source without an output |
| `PolicyGraph.OneInputOrList` | services/registries/system/core/graph.py:86-92 | A function listed by one source receives the output of that source itself, and one listed by several receives a list |
| `PolicyGraph.CallFunction` | services/registries/system/core/graph.py:74-95 | The call made for a function, or which of the three failures ends the run |
| `PolicyGraph.RunWorklist` | services/registries/system/core/graph.py:67-101 | With every root listed once: each function is called at most once, after its predecessors, on exactly their outputs; a run on an acyclic graph that does not fail covers every function; a run that fails does so at a function not yet called, whose predecessors all have been, for the reason given |
| `PolicyGraph.RunIsPartOfSolution` | services/registries/system/core/graph.py:71-101 | What a run has computed so far is part of every solution of the dataflow equations |
| `PolicyGraph.FailureMeansUnsolvable` | services/registries/system/core/graph.py:71-95 | A run that fails shows that the equations have no solution |
| `PolicyGraph.ExecuteGraph` | services/registries/system/core/graph.py:33-106 | The two admission checks exactly; then an orderly dataflow run, which returns the output of the single node without predecessors if and only if the dataflow equations have a solution, and otherwise names a function that has no entry, no executor or no answer |
| `PolicyGraph.SolutionUnique` | services/registries/system/core/graph.py:71-101 | The dataflow equations of an acyclic graph have at most one solution |
| `PolicyGraph.ExecutionDeterministic` | services/registries/system/core/graph.py:71-101 | Any two finished runs make the same calls and produce the same outputs, whatever the worklist order and the input data |
| `PolicyGraph.SourceReceivesNothing` | services/registries/system/core/graph.py:87-92 | A function without predecessors is called with the empty list, never with the input data |
| `PolicyGraph.CalledOnceIffListedOnce` | services/registries/system/core/graph.py:67-68 | In a run that returned, every function was called exactly once if and only if every node without predecessors is listed exactly once |
| `JobExecutor.EveryRun` | services/applications/aios-sdk/instance-sdk/aios_instance/muti_workers.py:34-63 | In every interleaving of submitters, workers and shutdown: each worker's accepted jobs are, in order, its finished ones, the running one and its queue; no queue exceeds its bound; session routing is consistent; a worker starts at most one job after the stop |
| `JobExecutor.SessionsInOrder` | services/applications/aios-sdk/instance-sdk/aios_instance/muti_workers.py:45-55 | With sticky sessions all accepted jobs of a session go to one worker and start in the order of acceptance |
| `JobExecutor.ChoiceIsRemembered` | services/applications/aios-sdk/instance-sdk/aios_instance/muti_workers.py:45-53 | In every run a submission is given the worker remembered for its session, or else the one given by the session's hash, or without sticky sessions the random one; with them it is remembered from then on |
| `JobExecutor.RefusedIffAtBound` | services/applications/aios-sdk/instance-sdk/aios_instance/muti_workers.py:53-60 | In every run a submission is refused if and only if there is a bound and the queue of its worker holds exactly that many jobs; otherwise that queue grows by the job and no other changes |
| `JobExecutor.EveryAcceptedJobCanFinish` | services/applications/aios-sdk/instance-sdk/aios_instance/muti_workers.py:34-43 | Unless stopped, every run can be continued by the workers alone until each has finished exactly the jobs accepted for it, in order |
| `JobExecutor.StoppedIffAsked` | services/applications/aios-sdk/instance-sdk/aios_instance/muti_workers.py:62-63 | An executor is stopped if and only if it has been asked to |
| `JobExecutor.OneLateStart` | services/applications/aios-sdk/instance-sdk/aios_instance/muti_workers.py:34-37 | After the stop a worker starts at most one more job |
| `JobExecutor.EveryWorkerCanStop` | services/applications/aios-sdk/instance-sdk/aios_instance/muti_workers.py:34-43 | After the stop every worker can come to rest, and then goes no further |
| `JobExecutor.ThreadJobExecutor.AssignJob` | services/applications/aios-sdk/instance-sdk/aios_instance/muti_workers.py:45-60 | Choosing a worker, the one of the session if it has one, and putting the job without waiting: refused if and only if the queue is at its bound, accepted at its end otherwise, or failed for want of workers |
| `JobExecutor.ThreadJobExecutor.PollQueue` | services/applications/aios-sdk/instance-sdk/aios_instance/muti_workers.py:34-37 | A worker goes on unless stopped |
| `JobExecutor.ThreadJobExecutor.TakeJob` | services/applications/aios-sdk/instance-sdk/aios_instance/muti_workers.py:36-41 | The wait of a worker ends with the oldest job of its queue or with none |
| `JobExecutor.ThreadJobExecutor.JobDone` | services/applications/aios-sdk/instance-sdk/aios_instance/muti_workers.py:38-43 | A job that returns or raises leaves the worker ready for the next |
| `JobExecutor.ThreadJobExecutor.Shutdown` | services/applications/aios-sdk/instance-sdk/aios_instance/muti_workers.py:62-63 | Stopping changes the stop flag only |
| `Muxing.Muxer.ProcessPacket` | services/applications/aios-sdk/instance-sdk/aios_instance/tools.py:13-27 | One arrival: passed on when N is one, stored, or completing a group |
| `Muxing.Muxer.MergePackets` | services/applications/aios-sdk/instance-sdk/aios_instance/tools.py:29-37 | A merged group: its first packet, the parsed data of each packet, and the files of all packets one list after the other; nothing if one packet does not parse |
| `Muxing.MergeCombines` | services/applications/aios-sdk/instance-sdk/aios_instance/tools.py:29-37 | A group is merged exactly when all its packets parse, and the files of each packet stand in order at the offset the lists before it give |
| `Muxing.KeysAreIndependent` | services/applications/aios-sdk/instance-sdk/aios_instance/tools.py:13-27 | However keys interleave, each key's merged packets are those of its own arrivals cut into groups of N, and its store and counter hold the rest |
| `Muxing.KthMergedPacket` | services/applications/aios-sdk/instance-sdk/aios_instance/tools.py:13-37 | When all data parse, the k-th merged packet of a key has arrival kN as its first packet, the parsed data of arrivals kN to kN + N - 1 as inputs and their files in order; fewer than N wait |
| `Muxing.UnparsableGroupBlocks` | services/applications/aios-sdk/instance-sdk/aios_instance/tools.py:21-27 | A key holds N or more packets exactly when a packet of a complete group does not parse; then, whatever arrives later for any key, nothing more is ever merged for it and its packets only pile up |
| `Muxing.NeverMerges` | services/applications/aios-sdk/instance-sdk/aios_instance/tools.py:21-27 | With N below one nothing is ever merged |
| `Muxing.Batcher.AddToBatch` | services/applications/aios-sdk/instance-sdk/aios_instance/tools.py:45-53 | One packet collected, with the full batch handed out |
| `Muxing.BatchesPartitionArrivals` | services/applications/aios-sdk/instance-sdk/aios_instance/tools.py:40-53 | Batches have exactly N packets and, followed by the current one, are the arrivals in order |
| `Muxing.TimedBatcherIsSafe` | services/applications/aios-sdk/instance-sdk/aios_instance/tools.py:56-99 | Flushed batches followed by the current one are the accepted packets, a timer runs exactly while packets wait, and the lock is lost exactly when a batch fills up |
| `Muxing.FullBatchIsNeverFlushed` | services/applications/aios-sdk/instance-sdk/aios_instance/tools.py:72-83 | After a batch has filled up no event changes anything: the flush waits for the lock its own caller holds |
| `Muxing.TimerFlushes` | services/applications/aios-sdk/instance-sdk/aios_instance/tools.py:85-99 | While the lock is not lost, a timer that fires flushes what waits as one batch, after which every packet accepted has been flushed |
| `TaskPool.EveryTaskOnce` | services/management-services/parser/core/async_pool.py:13-28 | In every interleaving each submitted task is in exactly one place: queued, in a submitter's hands, pending, running, or finished |
| `TaskPool.AtMostOneResult` | services/management-services/parser/core/async_pool.py:13-28 | No task reaches the pool twice or leaves two results |
| `TaskPool.QueueHasSubmitter` | services/management-services/parser/core/async_pool.py:17-20 | While tasks are queued some submitting call is in progress |
| `TaskPool.QuietMeansAllDone` | services/management-services/parser/core/async_pool.py:13-28 | A run in which nothing more can happen has exactly one result for each submitted task |
| `TaskPool.SafeIffAlone` | services/management-services/parser/core/async_pool.py:13-20 | After any run, a submission has a continuation without a further one that leaves a call waiting if and only if some earlier call had not returned when it was made |
| `TaskPool.SerialCallsReturn` | services/management-services/parser/core/async_pool.py:13-20 | When each submission is made after all earlier calls have returned, every call has returned once the run is quiet |
| `TaskPool.OverlapMayWait` | services/management-services/parser/core/async_pool.py:18-19 | After any run, submitting while a call is in progress leaves a continuation in which that very call waits on an empty queue |
| `TaskPool.WaitsUntilSubmit` | services/management-services/parser/core/async_pool.py:19 | A call that waits goes on waiting until the next submission |
| `TaskPool.SubmitMayWait` | services/management-services/parser/core/async_pool.py:18-19 | For example two calls both see a non-empty queue, one takes both tasks and the other is left waiting |
| `TaskPool.ThreadPoolQueueSystem.SubmitTask` | services/management-services/parser/core/async_pool.py:13-20 | An uninterrupted call empties the queue into the pool in order |
| `TaskPool.ThreadPoolQueueSystem.PutTask` | services/management-services/parser/core/async_pool.py:14 | The task is queued |
| `TaskPool.ThreadPoolQueueSystem.TestEmpty` | services/management-services/parser/core/async_pool.py:18 | The call returns when the queue is empty |
| `TaskPool.ThreadPoolQueueSystem.GetTask` | services/management-services/parser/core/async_pool.py:19 | The oldest task is taken |
| `TaskPool.ThreadPoolQueueSystem.HandOver` | services/management-services/parser/core/async_pool.py:20 | The task is handed to the pool |
| `TaskPool.ThreadPoolQueueSystem.StartTask` | services/management-services/parser/core/async_pool.py:20-22 | An idle worker starts the oldest pending task |
| `TaskPool.ThreadPoolQueueSystem.FinishTask` | services/management-services/parser/core/async_pool.py:22-28 | A task leaves one result whether it returns or raises |
| `BlockRouting.GraphCache.Get` | services/applications/adhoc-inference-server/core/discovery.py:234-268 | A cached lookup answers as the registry does |
| `BlockRouting.GraphCache.LookUpChildren` | services/applications/adhoc-inference-server/core/discovery.py:273-276 | The children are looked up in order, each once |
| `BlockRouting.GraphCache.ResolveOutputs` | services/applications/adhoc-inference-server/core/discovery.py:270-295 | The outputs of a block: its children, each once, by queue in its own cluster and by gateway otherwise; an unknown block fails the whole |
| `BlockRouting.GraphCache.ResolveGraph` | services/applications/adhoc-inference-server/core/ai_server.py:24-37 | The compiled graph, or failure if any block does not resolve |
| `BlockRouting.ResolvesIffRegistered` | services/applications/adhoc-inference-server/core/ai_server.py:24-37 | A graph resolves if and only if every block and child in it is registered with a gateway, and keeps its blocks |
| `BlockRouting.ConnectionCache.Get` | services/applications/aios-sdk/instance-sdk/aios_instance/main.py:73-105 | A live or gateway connection is reused, a dead one dropped, and a new one opened within the allowed attempts |
| `BlockRouting.ConnectionCache.PushAll` | services/applications/aios-sdk/instance-sdk/aios_instance/main.py:539-555 | The blocks that receive a copy, in order of the outputs |
| `BlockRouting.ConnectionCache.Route` | services/applications/aios-sdk/instance-sdk/aios_instance/main.py:530-555 | The block looks itself up in the packet's graph and falls back on the final endpoints |
| `BlockRouting.FirstUseBinds` | services/applications/aios-sdk/instance-sdk/aios_instance/main.py:73-89 | A gateway host stays bound to the first block sent to through it |
| `BlockRouting.ConnectionsStay` | services/applications/aios-sdk/instance-sdk/aios_instance/main.py:73-105 | Sending keeps every connection there is and leaves one for every endpoint sent to |
| `BlockRouting.GatewayDeliveryExact` | services/applications/aios-sdk/instance-sdk/aios_instance/main.py:73-89 | A sender delivers all gateway packets to the intended blocks if and only if it never uses one gateway host for two blocks |
| `BlockRouting.SharedHostMisdelivers` | services/applications/aios-sdk/instance-sdk/aios_instance/main.py:73-89 | For example what is meant for the second of two blocks behind one gateway host goes to the first |
| `BlockRouting.SentToIntended` | services/applications/aios-sdk/instance-sdk/aios_instance/main.py:539-555 | With one block per gateway host every output reaches the block it is meant for, and the connections stay sound |
| `BlockRouting.OutputsAreChildren` | services/applications/adhoc-inference-server/core/discovery.py:270-292 | The outputs compiled for a block are exactly its logical children, addressed where they are reached and at the queue they read |
| `BlockRouting.ForwardIsProcessed` | services/applications/aios-sdk/instance-sdk/aios_instance/main.py:528-555 | One forwarding step sends the packet to exactly the logical children of its block, or to the reply queue when there are none |
| `BlockRouting.EverySchedule` | services/applications/aios-sdk/instance-sdk/aios_instance/main.py:528-555 | Under every schedule the packets in flight and processed are walks of the logical graph from the entry, each met once and only after its beginnings |
| `BlockRouting.RequestAnswered` | services/applications/adhoc-inference-server/core/ai_server.py:142-184 | Under every schedule that leaves nothing in flight the reply queue has received exactly one packet for each path from the entry to a sink, so one reply if and only if there is one path |
| `BlockRouting.EveryScheduleCanFinish` | services/applications/aios-sdk/instance-sdk/aios_instance/main.py:528-555 | Every schedule can be continued until nothing is in flight |
| `BlockRouting.RepliesAreCompletePaths` | services/applications/adhoc-inference-server/core/ai_server.py:142-175 | Once nothing is in flight the reply queue holds one packet for each path from the entry to a sink and no other |
| `BlockRouting.OneReplyIffOnePath` | services/applications/adhoc-inference-server/core/ai_server.py:142-175 | There is exactly one reply if and only if there is exactly one such path |
| `BlockRouting.ForwardingBounded` | services/applications/aios-sdk/instance-sdk/aios_instance/main.py:528-555 | On an acyclic graph the number of packets processed is bounded whatever the schedule |
| `Gateway.InferenceGateway.Enter` | services/applications/adhoc-inference-server/core/ai_server.py:85-100 | A request is looked up and pushed on a connection kept by host and port |
| `Gateway.InferenceGateway.Push` | services/applications/adhoc-inference-server/core/redis_cache.py:14-38 | A kept connection is used whatever block it was opened for |
| `Gateway.EntersRightIffHostsApart` | services/applications/adhoc-inference-server/core/redis_cache.py:14-38 | Every request of a run enters at the block it names if and only if no two of the blocks named are reached through one gateway host |
| `Gateway.RequestServed` | services/applications/adhoc-inference-server/core/ai_server.py:82-184 | The whole request, from the lookup to the replies: with one block per gateway host the packet enters at the block named, and the reply queue receives one packet for each path from there to a sink |
| `Discovery.DiscoveryCache.Discover` | services/applications/adhoc-inference-server/core/discovery.py:192-224 | One lookup through the remembered entries |
| `Discovery.RemembersFirst` | services/applications/adhoc-inference-server/core/discovery.py:195-216 | What is remembered under a key is what the first resolved request with that key found |
| `Discovery.AnswersRightIffKeysApart` | services/applications/adhoc-inference-server/core/discovery.py:195-216 | Every request of a run is answered as the registry would if and only if no two requests share a key while their blocks have different addresses |
| `Discovery.BlockIdsAreSafe` | services/applications/adhoc-inference-server/core/ai_server.py:95 | Without instance ids, as the gateway asks, every answer is right |
| `Discovery.HyphenCollides` | services/applications/adhoc-inference-server/core/discovery.py:195-216 | A hyphen in an id can make two requests, one of them with an instance id, share a key |
| `Discovery.AgreesWithCompiledGraph` | services/applications/adhoc-inference-server/core/discovery.py:206-216 | The entry hop addresses a block as the compiled graph does from a block of the gateway's own cluster |
| `Discovery.ResolvesAsCompiled` | services/applications/adhoc-inference-server/core/discovery.py:206-216 | A block resolves at the entry exactly when it resolves in a compiled graph, but for a missing cluster id, an empty first URL and an empty list of URLs |
| `Discovery.OtherModeAnswersDefault` | services/applications/adhoc-inference-server/core/discovery.py:192-224 | Outside the gateway mode every answer is the default address and nothing is remembered |
| `ClusterGroups.MergedKeys` | services/registries/clusters/src/controller_groups.js:5-9 | The merged policies have exactly the keys of the policies merged |
| `ClusterGroups.CreatedPolicies` | services/registries/clusters/src/controller_groups.js:16-27 | A new group has its own policies, and every other policy of a parent found, with the value of the last parent that has it |
| `ClusterGroups.CreateKeepsLinks` | services/registries/clusters/src/controller_groups.js:29-48 | Creation keeps every children list equal to the groups that list this one as a parent and were not removed |
| `ClusterGroups.CreateKeepsPolicies` | services/registries/clusters/src/controller_groups.js:16-48 | After a creation every group still has the policy keys of each existing parent |
| `ClusterGroups.RemoveKeepsValid` | services/registries/clusters/src/controller_groups.js:58-80 | A soft removal keeps links, names and policies consistent |
| `ClusterGroups.DeleteKeepsValid` | services/registries/clusters/src/controller_groups.js:83-105 | A deletion keeps links, names and policies consistent, though parent lists may dangle |
| `ClusterGroups.LinksSoundAndAcyclic` | services/registries/clusters/src/controller_groups.js:12-105 | Every listed child exists and lists the group as a parent, and neither link relation has a cycle |
| `ClusterGroups.EveryStateValid` | services/registries/clusters/src/controller_groups.js:12-105 | All of this holds after every history of creations, removals and deletions |
| `ClusterGroups.NamesTaken` | services/registries/clusters/src/controller_groups.js:12-105 | After every such history a name is taken if and only if a creation has asked for it and no deletion since; a soft removal does not free it |
| `ClusterGroups.PathsAreWalks` | services/registries/clusters/src/controller_groups.js:119-186 | A traversal tree contains every walk from its root, once, and nothing else |
| `ClusterGroups.PathsBelowAreWalks` | services/registries/clusters/src/controller_groups.js:119-186 | The paths below a node are one step to a kid followed by a walk from it, each once |
| `ClusterGroups.GroupStore.CreateGroup` | services/registries/clusters/src/controller_groups.js:12-55 | Creation fails and changes nothing when the name is taken, and otherwise adds the group with its name, parents and merged policies and links it |
| `ClusterGroups.GroupStore.RemoveGroup` | services/registries/clusters/src/controller_groups.js:58-80 | The group is pulled from its parents' children and itself kept |
| `ClusterGroups.GroupStore.DeleteGroup` | services/registries/clusters/src/controller_groups.js:83-105 | The group disappears and is pulled from its parents' children |
| `ClusterGroups.GroupStore.ChildrenGraph` | services/registries/clusters/src/controller_groups.js:119-150 | The tree of descendants unfolds the child relation; it exists exactly when the group does |
| `ClusterGroups.GroupStore.ParentGraph` | services/registries/clusters/src/controller_groups.js:153-186 | The tree of ancestors unfolds the parent relation over existing groups |
| `ClusterGroups.GroupStore.ChildrenOf` | services/registries/clusters/src/controller_groups.js:122-131 | The recursion into the children terminates and unfolds the child relation |
| `ClusterGroups.GroupStore.ParentsOf` | services/registries/clusters/src/controller_groups.js:156-167 | The recursion into the parents terminates and unfolds the parent relation |
| `TemplateValidator.AcceptsIffConforms` | services/management-services/parser/core/parser_v1.py:97-313 | The validator accepts exactly the values that conform to the template, however templates refer to each other |
| `TemplateValidator.CheckHereExact` | services/management-services/parser/core/parser_v1.py:113-294 | The checks of one node accept exactly the numbers within the bounds that count and numerically equal to a choice, the texts among the choices, the booleans, the references with an allowed prefix and the references to a registered template; and exactly when they raise |
| `TemplateValidator.RangeHoldsIffNoMinusOne` | services/management-services/parser/core/parser_v1.py:113-134 | With both bounds given and no choices the numbers accepted are those between them if and only if neither is minus one |
| `TemplateValidator.ElementsUnrestricted` | services/management-services/parser/core/parser_v1.py:296-313 | Array elements are checked by their type alone, and objects by the fields given with the array: no range, choice or prefix applies, and references and arrays never conform |
| `TemplateValidator.StarsRemoved` | services/management-services/parser/core/parser_v1.py:205-233 | Dropping the stars of a prefix drops stars only |
| `TemplateValidator.DispatchBlames` | services/management-services/parser/core/parser_v1.py:97-313 | All nodes visited before a rejection pass their own checks; a rejection not due to a missing field is that of the last node visited |
| `TemplateValidator.PassesIffConforms` | services/management-services/parser/core/parser_v1.py:363-413 | A readable specification passes without an exception exactly when its values conform |
| `TemplateVerdict.OutcomeIsFirst` | services/management-services/parser/core/parser_v1.py:97-313 | The run, which stops at the first failure, ends as the first failing site of the complete traversal does |
| `TemplateVerdict.RaisesIffFirstFailureRaises` | services/management-services/parser/core/parser_v1.py:363-415 | A specification passes by an exception if and only if the first failing site of its traversal is one that raises; it passes if and only if it conforms or that is so |
| `TemplateVerdict.NeverRaises` | services/management-services/parser/core/parser_v1.py:97-313 | With templates that hold everything their types look up, values whose template references name a template and have values cause no exception |
| `TemplateVerdict.CompletePassesIffConforms` | services/management-services/parser/core/parser_v1.py:363-415 | For such templates and values, passing is conforming |
| `TemplateVerdict.UntypedFieldPasses` | services/management-services/parser/core/parser_v1.py:184-187 | For example any value of a field without a type passes, and none conforms |
| `TemplateVerdict.BodyNests` | services/management-services/parser/core/parser_v1.py:240-263 | A part that passes leaves the templates entered as they were; one that fails leaves open exactly those around the failure |
| `TemplateVerdict.NameIsRightIff` | services/management-services/parser/core/parser_v1.py:252-258 | The reported template is the innermost one around the failure if the template entered last has not been left, and, when none is entered twice, only then |
| `TemplateVerdict.NamesAnotherTemplate` | services/management-services/parser/core/parser_v1.py:252-258 | For example a value refused after a sibling template reference has passed is reported under the name of the sibling template |
| `TemplateValidator.TraceNamesFirstFailure` | services/management-services/parser/core/parser_v1.py:385-412 | The reported trace shows the first failing node in traversal order, or the initial setting when the root value itself is refused |
| `TemplateValidator.Validate` | services/management-services/parser/core/parser_v1.py:363-415 | The whole check: pass, pass by exception, failure with its trace, and exactly when the template is unknown or not an object |
| `TemplateValidator.Validators.CallValidator` | services/management-services/parser/core/parser_v1.py:97-108 | The dispatcher overwrites the trace and runs the chosen validator |
| `TemplateValidator.Validators.RunBody` | services/management-services/parser/core/parser_v1.py:113-313 | The node's own checks, then its parts |
| `TemplateValidator.Validators.ValidateTemplate` | services/management-services/parser/core/parser_v1.py:240-263 | The referenced template is entered and its specification applied to the values |
| `TemplateValidator.Validators.ValidateElements` | services/management-services/parser/core/parser_v1.py:296-313 | Elements are validated in order until one fails |
| `TemplateValidator.Validators.ValidateFields` | services/management-services/parser/core/parser_v1.py:165-192 | Fields are validated in order until one fails |
| `TemplateValidator.Validators.ValidateField` | services/management-services/parser/core/parser_v1.py:167-190 | A field is skipped, missing, untyped, or dispatched by its type |
| `ControlsValidator.ValidateValue` | services/registries/components-registry/src/controls.js:4-99 | A value is validated by its rule, at any nesting |
| `ControlsValidator.ValidateElements` | services/registries/components-registry/src/controls.js:66-76 | Array elements are validated in order until one fails |
| `ControlsValidator.ValidateValues` | services/registries/components-registry/src/controls.js:102-136 | The object is rewritten in place with defaults and validated values, also when validation stops with an error |
| `ControlsValidator.PlainValueAccepted` | services/registries/components-registry/src/controls.js:4-54 | The values of a plain type accepted: texts that are among the options if options are given, numbers within the bounds that count, booleans, and anything of any other type; they are returned as they are |
| `ControlsValidator.ArrayAccepted` | services/registries/components-registry/src/controls.js:55-77 | The arrays accepted: of the size that counts, with every element accepted |
| `ControlsValidator.ObjectAccepted` | services/registries/components-registry/src/controls.js:79-97 | The objects accepted: those whose keys the rules accept |
| `ControlsValidator.LeftAtTheStop` | services/registries/components-registry/src/controls.js:102-136 | An object is left as the rules before the one that stopped the validation have written it |
| `ControlsValidator.AcceptedIffEachSettles` | services/registries/components-registry/src/controls.js:102-136 | With distinct names an object is accepted if and only if every rule can settle its own key of the original object |
| `ControlsValidator.RulesSettle` | services/registries/components-registry/src/controls.js:102-136 | Then every rule has settled its own key from the original object and no other key has changed |
| `ControlsValidator.ValueIdempotent` | services/registries/components-registry/src/controls.js:4-99 | Validating a validated value succeeds and changes nothing |
| `ControlsValidator.ValuesIdempotent` | services/registries/components-registry/src/controls.js:102-136 | Validating a validated object succeeds and changes nothing |
| `ControlsValidator.ValidatedObject` | services/registries/components-registry/src/controls.js:113-132 | After a successful validation every required key is truthy and keys without a rule are untouched |
| `ControlsValidator.IdempotentIffDefaultsFixed` | services/registries/components-registry/src/controls.js:114-123 | A second validation agrees with the first if and only if the defaults the first one wrote are fixed points of their rules |
| `ControlsValidator.BoundsHoldIffNonZero` | services/registries/components-registry/src/controls.js:27-36 | The numbers accepted are those within the bounds given if and only if neither bound is zero |
| `ControlsValidator.SizeHoldsIffNonZero` | services/registries/components-registry/src/controls.js:57-63 | The arrays accepted are those of the size given if and only if it is not zero |
| `ControlsValidator.CheckedIffFalsyLikeMissing` | services/registries/components-registry/src/controls.js:113-132 | A value given is accepted exactly when its rule accepts it if and only if the rule refuses null, false, zero and the empty text where a missing value is refused, and accepts all four where it is not |
| `ControlsValidator.FalsyGoesWrong` | services/registries/components-registry/src/controls.js:113-132 | For example a required flag cannot be false, a default of true overrides it, and an optional number of at least one can be zero |
| `BroadcastProtocol.EveryRun` | services/applications/splits-sdk/aios_transformers/sdk.py:15-155 | In every interleaving every rank has issued exactly what its schedule says and is in the status the schedule prescribes; a rank whose broadcast raises before joining goes straight to the reduction |
| `BroadcastProtocol.Lockstep` | services/applications/splits-sdk/aios_transformers/sdk.py:112-151 | Unless the ranks disagree about joining a broadcast, any two issue the same kinds of collectives in the same order; buffer lengths agree, in the mask broadcast exactly when the mask is as long as the ids |
| `BroadcastProtocol.LockstepLost` | services/applications/splits-sdk/aios_transformers/sdk.py:15-34 | When they disagree, every run comes to rest with one rank in a reduction and another in the broadcast |
| `BroadcastProtocol.SourceRaisesFirst` | services/applications/splits-sdk/aios_transformers/sdk.py:18-27 | For example when rank 0 raises before joining the first broadcast, two ranks are stuck for good |
| `BroadcastProtocol.GenerateInputsAgree` | services/applications/splits-sdk/aios_transformers/sdk.py:112-151 | Every rank that reaches generation holds rank 0's configuration, ids and mask |
| `BroadcastProtocol.AgreeOnFailure` | services/applications/splits-sdk/aios_transformers/sdk.py:15-34 | Whatever fails, ranks at the same place are in the same status, and none finishes while another raises |
| `BroadcastProtocol.ReductionReports` | services/applications/splits-sdk/aios_transformers/sdk.py:24-27 | The MIN over the success flags is zero exactly when the guarded call failed on some rank |
| `BroadcastProtocol.MixedNeverReduces` | services/applications/splits-sdk/aios_transformers/sdk.py:18-27 | When the ranks disagree about joining a broadcast, the reduction after it never completes |
| `BroadcastProtocol.NoDeadlock` | services/applications/splits-sdk/aios_transformers/sdk.py:15-34 | Unless they disagree, some rank can take a step while any rank has neither finished nor raised |
| `BroadcastProtocol.RunsAreBounded` | services/applications/splits-sdk/aios_transformers/sdk.py:87-155 | No run has more than 34 effective actions per rank |
| `BroadcastProtocol.EveryRunComesToRest` | services/applications/splits-sdk/aios_transformers/sdk.py:87-155 | Every run can be continued until no rank can take a step |
| `BroadcastProtocol.AllTerminateIffUniform` | services/applications/splits-sdk/aios_transformers/sdk.py:15-34 | At rest every rank has come to its end if and only if the ranks agree about joining the broadcast that fails first; then all have raised or all have finished, according to whether any guarded call failed anywhere |
| `BroadcastProtocol.JoinedBroadcastsTerminate` | services/applications/splits-sdk/aios_transformers/sdk.py:15-34 | When no broadcast raises before joining, every run ends with all ranks finished or all raised, however generation fails |
| `LogRotation.FilesHoldLatestRecords` | services/registries/components-registry/aios_logger/b.js:1469-1552 | Over any run of writes and rotations, with failing removals and moves, the records found and written are, in order, what the removed and overwritten files held, then the files read oldest to newest, then the queue |
| `LogRotation.FaultFreeRotation` | services/registries/components-registry/aios_logger/b.js:1487-1543 | A fault-free rotation leaves file i with what file i-1 held, file 0 with the live file's records, and the new live file with the records written meanwhile |
| `LogRotation.RotationRuns` | services/registries/components-registry/aios_logger/b.js:1469-1543 | A rotation whose time is unset or has come starts on an idle stream and, when nothing fails, runs to its end and shifts every kept file |
| `LogRotation.RotationsEnd` | services/registries/components-registry/aios_logger/b.js:1487-1543 | Each answer of the file system brings a running rotation closer to its end, and nothing else delays it |
| `LogRotation.MoveIntoGap` | services/registries/components-registry/aios_logger/b.js:1500-1525 | Moving a file into a free slot changes nothing that is read back |
| `LogRotation.RotatingFileStream.BeginRotation` | services/registries/components-registry/aios_logger/b.js:1469-1486 | A rotation starts, is put off until its time, or throws because one is running |
| `LogRotation.RotatingFileStream.Delete` | services/registries/components-registry/aios_logger/b.js:1487-1493 | The file whose removal is asked for is the oldest one kept, or the live one when none are kept, and what its removal loses are exactly the oldest records |
| `LogRotation.RotatingFileStream.OnUnlinked` | services/registries/components-registry/aios_logger/b.js:1494-1497 | The moves begin whether or not the removal succeeded |
| `LogRotation.RotatingFileStream.MoveNext` | services/registries/components-registry/aios_logger/b.js:1500-1510 | The next older slot, or the end of the rotation |
| `LogRotation.RotatingFileStream.OnChecked` | services/registries/components-registry/aios_logger/b.js:1510-1515 | A missing file is skipped |
| `LogRotation.RotatingFileStream.OnMoved` | services/registries/components-registry/aios_logger/b.js:1515-1522 | A failed move ends the rotation |
| `LogRotation.RotatingFileStream.FinishRotation` | services/registries/components-registry/aios_logger/b.js:1527-1539 | The live file is reopened for appending and receives the queue in order |
| `LogRotation.RotatingFileStream.Append` | services/registries/components-registry/aios_logger/b.js:1545-1552 | A record is queued during a rotation and appended otherwise |
| `StateDict.OperationRefines` | services/applications/aios-sdk/instance-sdk/aios_instance/utils.py:205-323 | On keys that do not begin with type: every operation does and returns what it would on an ordinary map, and a type entry exists exactly when the value entry does |
| `StateDict.NamespacesAreIndependentMaps` | services/applications/aios-sdk/instance-sdk/aios_instance/utils.py:199-323 | However operations in separate namespaces interleave, each dictionary is the map its own operations alone would have built |
| `StateDict.ReadsAgree` | services/applications/aios-sdk/instance-sdk/aios_instance/utils.py:236-277 | Iteration, length and membership agree with the map; membership differs exactly on reserved keys with an entry |
| `StateDict.KeysMeaning` | services/applications/aios-sdk/instance-sdk/aios_instance/utils.py:270-277 | Iteration finds exactly the keys with a value entry that are not reserved |
| `StateDict.SeparateIffDisjoint` | services/applications/aios-sdk/instance-sdk/aios_instance/utils.py:199-203 | Two namespaces share no entry exactly when neither, with its colon, begins the other |
| `StateDict.OtherNamespaceUntouched` | services/applications/aios-sdk/instance-sdk/aios_instance/utils.py:199-323 | An operation leaves every entry of a separate namespace as it was |
| `StateDict.PrefixPattern` | services/applications/aios-sdk/instance-sdk/aios_instance/utils.py:236-241 | A namespace without pattern characters followed by a star matches exactly the keys that begin with it |
| `StateDict.StarIsAnyStretch` | services/applications/aios-sdk/instance-sdk/aios_instance/utils.py:236-241 | A star matches any stretch of characters |
| `StateDict.ReservedKeyBreaksAnother` | services/applications/aios-sdk/instance-sdk/aios_instance/utils.py:221-229 | Writing a key that begins with type: overwrites another key's type entry, and what reading that key then does |
| `StateDict.NestedNamespaceShows` | services/applications/aios-sdk/instance-sdk/aios_instance/utils.py:270-277 | A namespace that continues another one after a colon shows its entries there |
| `StateDict.OwnKeysOnlyIffGlobFree` | services/applications/aios-sdk/instance-sdk/aios_instance/utils.py:236-268 | A namespace finds and clears only its own keys if and only if it has no pattern character |
| `StateDict.PatternNamespaceClearsAnother` | services/applications/aios-sdk/instance-sdk/aios_instance/utils.py:258-268 | For example clearing the namespace "?" empties the namespace "a" |
| `StateDict.StateDictV2.GetItem` | services/applications/aios-sdk/instance-sdk/aios_instance/utils.py:205-219 | A read by the type entry; a pickled value is told apart and not decoded |
| `StateDict.StateDictV2.SetItem` | services/applications/aios-sdk/instance-sdk/aios_instance/utils.py:221-226 | A write of both entries |
| `StateDict.StateDictV2.DelItem` | services/applications/aios-sdk/instance-sdk/aios_instance/utils.py:231-234 | Both entries are deleted, or the key is missing |
| `StateDict.StateDictV2.PopItem` | services/applications/aios-sdk/instance-sdk/aios_instance/utils.py:293-301 | A read and a deletion, with the default for a missing key; nothing is deleted when the read raises |
| `StateDict.StateDictV2.SetDefaultItem` | services/applications/aios-sdk/instance-sdk/aios_instance/utils.py:318-323 | A read, with the default written for a missing key |
| `StateDict.StateDictV2.Contains` | services/applications/aios-sdk/instance-sdk/aios_instance/utils.py:255-256 | In a namespace without pattern characters a key is found when the dictionary has it, or when it is reserved and its entry exists |
| `StateDict.StateDictV2.Length` | services/applications/aios-sdk/instance-sdk/aios_instance/utils.py:246-253 | In a namespace without pattern characters the length is the size of the dictionary |
| `StateDict.StateDictV2.ClearAll` | services/applications/aios-sdk/instance-sdk/aios_instance/utils.py:258-268 | All entries of the namespace are deleted |
| `RollingMetric.DequeIsWindow` | services/applications/aios-sdk/instance-sdk/aios_instance/metrics.py:15-28 | With a clock that never runs backwards the deque is exactly the suffix of the complete history inside the window at the last cleanup |
| `RollingMetric.AveragesHistory` | services/applications/aios-sdk/instance-sdk/aios_instance/metrics.py:25-34 | The average is taken over the complete history restricted to the shorter of the span asked for and the metric's window, which a call at time zero counts back from the clock |
| `RollingMetric.MeanIsBetween` | services/applications/aios-sdk/instance-sdk/aios_instance/metrics.py:30-34 | The mean times the number of samples is their sum, and it lies between the least and the greatest value |
| `RollingMetric.TrimIsSince` | services/applications/aios-sdk/instance-sdk/aios_instance/metrics.py:25-28 | On samples in order, trimming the front keeps exactly those young enough |
| `RollingMetric.RollingMetric.Cleanup` | services/applications/aios-sdk/instance-sdk/aios_instance/metrics.py:25-28 | The front is trimmed to the window before the given time, or before a new clock reading if it is missing or zero |
| `RollingMetric.RollingMetric.Add` | services/applications/aios-sdk/instance-sdk/aios_instance/metrics.py:20-23 | A sample is added and the deque trimmed |
| `RollingMetric.RollingMetric.Average` | services/applications/aios-sdk/instance-sdk/aios_instance/metrics.py:30-34 | The mean of the kept samples inside the span, zero if there is none |
| `RollingMetric.RollingMetric.Current` | services/applications/aios-sdk/instance-sdk/aios_instance/metrics.py:36-38 | The newest sample still inside the window, zero if there is none |

## Left out

Weaker than a reader might expect:

- CompilerCorrectness.PipelineDecides: assumes that conditions and targets do not read computed fields, that aggregates meet arrays where the pipeline expects them, the extremes no objects or arrays (whose own order is not modelled), and that beneath an OR a condition is an equality of a scalar field with a non-null constant; outside that fragment the database's own coercions decide.
- PipelineMeaning.ComputationExact: assumes the same shapes of arrays.
- SearchQuery.LeastIsFirst: objects and arrays are excluded; their own order is not modelled.
- SearchQuery.GreatestIsLast: the same.
- CompilerCorrectness.NonEqualityBeneathOrFails: excludes an operand that is an array of two, which the database would read as the two operands of the operator.
- LikePattern.LikeIsUnanchoredGlob: patterns with other regular-expression metacharacters are excluded, because they are passed on unescaped; a star does not cross a line break, as in the database.
- QueryRewrite.TranslationPreservesMeaning: excludes those patterns too.
- QueryRewrite.Translate: a condition directly beneath an operator that names that operator as its field is reported as an error, where the code splices its operand into the list.
- QueryRewrite.TranslatesIffTranslatable: counts that case as not translated.
- PolicyGraph.RunWorklist: the claim of one call per function assumes every node without predecessors is listed exactly once, which `CalledOnceIffListedOnce` shows to be necessary.
- JobExecutor.ThreadJobExecutor.AssignJob: the random worker is a parameter; the hash of a session is a fixed function.
- Muxing.TimedBatcherIsSafe: nothing is claimed about progress; time is reduced to whether the timer fires.
- BlockRouting.EverySchedule: assumes one output packet per packet at each block, connections that do not fail, no block named "final", one reply endpoint and no gateway host shared by two blocks of one sender.
- BlockRouting.ConnectionCache.PushAll: sending is modelled fault-free; reconnection is modelled in `ConnectionCache.Get` alone.
- BlockRouting.ConnectionCache.Route: the same.
- BlockRouting.RequestAnswered: assumes that no gateway host is shared by two blocks of one sender; `GatewayDeliveryExact` shows that delivery fails otherwise. The entry is given here and comes from the lookup in `RequestServed`.
- Discovery.AnswersRightIffKeysApart: the registry does not change during the run.
- Gateway.InferenceGateway.Enter: requests are handled one at a time, over connections that do not fail; the gateway's own reconnection is not modelled.
- ClusterGroups.GroupStore.CreateGroup: assumes that parent ids have been given out before, as ids chosen by the database are; each request is one atomic step.
- ClusterGroups.CreateKeepsLinks: the same assumption on parent ids.
- ClusterGroups.CreateKeepsPolicies: the same.
- TemplateValidator.AcceptsIffConforms: not-a-number values, non-text entries in prefix lists and templates of an unexpected shape are not modelled.
- TemplateVerdict.NeverRaises: one direction; an incomplete template raises only for values that reach the incomplete part, which `RaisesIffFirstFailureRaises` decides.
- TemplateVerdict.NameIsRightIff: when a template is entered twice, the name reported can be right by coincidence although that template has been left.
- ControlsValidator.ValidateValue: an array where an object is described is reported apart, because its properties are not those of a plain object; not-a-number values and properties inherited from the prototype are not modelled.
- ControlsValidator.ValidateValues: a nested object is validated as a copy, so a nested object left half rewritten by an error, and two keys that share one object, are not captured.
- BroadcastProtocol.EveryRun: no rank fails outside a guarded call, and decoding the configuration is taken to succeed; collectives pair up by the order in which each rank issues them, and mismatched ones wait, where a library may also abort.
- LogRotation.RotatingFileStream.OnMoved: the 'error' event emitted before the rotation finishes is left out; it throws, and the rotation does not finish, when nobody listens (b.js:1516-1518).
- LogRotation.RotationsEnd: the same.
- LogRotation.FilesHoldLatestRecords: a move either happens completely or not at all, records handed to the old stream reach its file, and no other process touches the files.
- StateDict.OperationRefines: values are text; numbers come back as text and pickled values are not decoded.
- StateDict.StateDictV2.GetItem: a pickled value is reported as such and not decoded.
- StateDict.StateDictV2.SetItem: writes texts only, so no pickled value is ever written.
- StateDict.OwnKeysOnlyIffGlobFree: patterns with bracket classes or escapes are not modelled.
- RollingMetric.AveragesHistory: arithmetic is over the reals, and the clock never runs backwards.

Not modelled:

- `ProcessJobExecutor`: the same steps on processes, whose shutdown also terminates running jobs.
- The first version of the state dictionary, `popitem` and `update`: single entries without types, and compositions of the operations modelled.
- The `vdag`, `policyFunction` and `policyGraph` branches of `execute_filter`, which read or write other keys than they test, and the attachment of metrics to the blocks found.
- The gateway's session search for a block id, and requests without a graph: one push and one pop.
- The post-processing choice in the default policies, allreduce over Redis, and the executor client's graph estimate, whose evident claims are false.
- Calendar computation of rotation times, record formatting and the rest of the logging library.
- Template loading, registry controllers and database schemas beyond the uniqueness of group names.
- Network, storage and cluster plumbing, tensors and models, policy code and user blocks, which appear as parameters or not at all.
