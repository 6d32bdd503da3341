# Foliage: a model of its graph store and query engine

Foliage keeps a graph in a replicated key/value cache and answers path queries over it by messages between the
handlers of its vertices. This project models five parts of it and proves what each of them is for:

- **Two query protocols** (`Ctra*`, `Dcra*`, `Channel*`, `PairGraph`, `Jpgql*`, `Ids`). The same path query is answered by
  a tree of calls with callback counters (CTRA) and by pending marks in the cache that a collector watches (DCRA). Both
  are transition systems; every delivery order and every interleaving is a run. On every finite graph, cyclic or not,
  both stop, and neither gives anything but exactly the objects at the ends of the walks that match the query. CTRA
  always comes to write that result; DCRA comes to reply exactly in the runs whose channel misses no wake-up.
- **Low-level graph operations** (`GraphStore`, `Crud*`, `Tokens`, `Patterns`). Six operations keep five families of redundant
  keys beside the vertex and link bodies. They are written key by key on a mutable store and proved against functions;
  what each leaves in the graph is said of the request's fields alone; the invariants, each with the exact condition
  under which runs keep it, the operation log and the link names are proved over every run.
- **The cache** (`CacheEntry`, `Eviction*`, `Lru`, `Paths`, `Trie`, `ValidKeys`). The tree of nodes is a flat map, its pattern
  traversals find exactly the live keys, and over the write-behind state machine reads see the last write exactly when
  seven hazards are kept out.
- **The key mutex** (`KvMutex*`). Clients interleave between reading the clock, Get and Update on one revisioned key;
  mutual exclusion has its exact condition.
- **Query text, filters, matching and graph traversal** (`Query`, `Filter*`, `LinkMatch`, `Traverse`).

`Sums`, `Text` and `Wrappers` hold shared arithmetic, string search and the option type.

## What the code does that its own description does not say

Each of these is stated in the model as the code has it; where a promise fails, the exact condition is proved.

- A link name the store generates is not checked against the names in use, so `name0` given by a caller is given out
  again (`CrudNames.GeneratedNameCollides`, `CrudNames.LinkCreateNamesIff`).
- `&&` appends every right-hand disjunct to each left-hand one, so `name('a') && (tags('t') || tags('u'))` asks for
  both tags (`Filter.ParenthesisedCounterexample`, `FilterOnLinks.ExactIffMeaning`).
- Updating or deleting a vertex that does not exist logs `{}` as its old body, so the log does not undo the request
  (`CrudReplay.LogUndoesIff`).
- The buffering channel notifies without blocking, so a notification between the pusher's look at the empty buffer and
  its wait is lost (`statefun/system/system.go:82-97`). If no value follows, the pusher sleeps on the buffered one: on
  every query there is a DCRA run in which everything is done and no reply comes until the time limit
  (`DcraLiveness.StuckRun`, `DcraTheorems.StuckIff`, `DcraLiveness.RepliesIffNoMissedWake`). The result CTRA writes
  travels to the waiting process over such a channel too, and the root process signals its own object before it
  subscribes to the result (`embedded/graph/jpgql/jpgql.go:86`, `:90`), so that one written in between is never seen.
  For CTRA the theorems speak of what is written.
- The nested request for the reverse key of a link cuts the id of its target at the first `===`
  (`embedded/graph/crud/ll_crud.go:340`, `:650`), so a link to `b===c` is filed under `b`, and a self-loop on `x=` under
  `x` (`CrudEnds.RunCoherentIff`, `CrudEnds.VertexDeleteMissesLink`).
- Seven interleavings make reads of the cache miss the last write (`EvictionHazards.ReadsLastIffNoHazard`). The lazy
  writer reads `syncNeeded` a second time without the lock (`statefun/cache/cache.go:445`); a write that lands just
  before puts an empty record, and an old value can come back. A collector decides under one lock and removes under
  another (`:171-180`); a write that lands in between goes with the node, on the key itself or below a node that is
  removed above it, and so does a write that had found the node before (`:698-700`). A missed read fetches and then sets
  (`:568-577`), and the watcher compares an event and then acts on it (`:322-348`); both overwrite or falsely confirm a
  write in between. A node evicted and then re-created on the way to a longer key reads as missing (`:917-928`).
- On a key without a node whose record is empty, as the first of these leaves it, `GetValue` slices the value before it
  checks the length and fails (`statefun/cache/cache.go:571-573`); the model reads nothing there.
- Locking an absent mutex key, or one whose lock is taken to be dead on the client's own clock, is an unconditional Put,
  and refreshing and unlocking accept any revision with a warning, so two clients can both hold the lock
  (`KvMutex.ExclusiveIff`).
- An object id that ends in `=` or holds `===` is read back wrong from the composite id of a query handler
  (`Ids.CompositeIdReadBackIff`, `JpgqlTheorems.ReadExpandIff`).
- The traversal files links under run-together keys, which can coincide, and then loses links (`Traverse.GraphState`,
  `Traverse.LosesLink`).
- A pattern without a wildcard lists a key whose node is there, live or not (`Trie.Store.GetKeysByPattern`).
- The comment on pending marks speaks of the byte 0x0; the code writes 1 (`embedded/graph/jpgql/jpgql.go:475`, `:500`).
- The collector deletes its pending entries by their last token only, which names no key, so they stay
  (`embedded/graph/jpgql/jpgql.go:521-524`).

## Assumptions

- The graph does not change while a query is evaluated. Messages are delivered exactly once, in any order. The handlers
  of one id run one at a time, so one CTRA handler run is one step. For DCRA every cache write, notification, signal and
  channel move is its own step.
- md5 never maps two strings to the same hash; unique ids are unique. The strings that are hashed are proved distinct
  (`JpgqlTheorems.PendingKeysDiffer`).
- Ids, types, names and tags are single valid key tokens, as the key validation demands.
- JSON bodies are a record of an optional name, a list of tags and the rest; how two documents merge is any function,
  and for link names one that keeps the old name unless the new document has one.
- Application writes to one key come one after another, each later in time than those before it. What the store refuses
  is not stored, and a Get gives the record stored last. Calls on the trie are one step each; in the eviction model what
  the code does under separate locks are separate steps.

## Model

| member | source | states |
|---|---|---|
| `PairGraph.System.ClosedSetFindsAnswer` | embedded/graph/jpgql/jpgql.go:239-393 | any set of reachable pairs that holds the root and is closed under calls finds exactly the objects of the reachability semantics |
| `CtraHandler.Runtime.constructor` | embedded/graph/jpgql/jpgql.go:80-90 | asking a query leaves exactly one message, the call of the root pair |
| `CtraHandler.Runtime.ReplyCaller` | embedded/graph/jpgql/jpgql.go:199-237 | the answer goes to whoever asked, a parent aggregation or the asking process, and the aggregation is released |
| `CtraHandler.Runtime.SendCalls` | embedded/graph/jpgql/jpgql.go:306-324 | the loop over the result objects keeps exactly the final ones and sends exactly one call for each other, whatever the order |
| `CtraHandler.Runtime.HandleCall` | embedded/graph/jpgql/jpgql.go:259-344 | the handler of a query is one delivery of the protocol: duplicates answered with nothing, leaves answered at once, others registered with their number of calls |
| `CtraHandler.Runtime.HandleReply` | embedded/graph/jpgql/jpgql.go:345-393 | the handler of a result is one delivery of the protocol: merged, counted off, answered and released at the last |
| `CtraTheorems.AnswerIsExact` | embedded/graph/jpgql/jpgql.go:239-393 | over every run and delivery order at most one result is written for the asking process, exactly the reachability answer; empty replies to duplicates lose nothing |
| `CtraTheorems.Terminates` | embedded/graph/jpgql/jpgql.go:276-341 | no run is longer than a bound fixed by the graph and the query, cycles included |
| `CtraTheorems.Completes` | embedded/graph/jpgql/jpgql.go:259-393 | whatever was delivered so far, further deliveries lead to the written answer and a silent network; with termination, every maximal run does |
| `CtraTheorems.CallbacksCountOutstanding` | embedded/graph/jpgql/jpgql.go:172-197 | in every reachable state `_callbacks` is the number of calls in flight, live children and replies on their way, and positive; unregistered pairs are owed nothing |
| `CtraTheorems.SilentIffWritten` | embedded/graph/jpgql/jpgql.go:374-391 | the network is silent exactly when the result has been written: not earlier, and no deadlock |
| `CtraTheorems.OwedNothingMeansQuiet` | embedded/graph/jpgql/jpgql.go:191-197 | once the result is written no aggregation is left registered and no message is left in flight |
| `CtraTheorems.MessageCanBeDelivered` | embedded/graph/jpgql/jpgql.go:251-261 | every message of every reachable state has a handler run that takes it |
| `CtraTheorems.CallersNeverRepeat` | embedded/graph/jpgql/jpgql.go:172-189 | from every registered pair the callers lead back to the asking process without meeting a pair twice, so chains are no longer than the query has pairs |
| `CtraTheorems.RunHasHistory` | embedded/graph/jpgql/jpgql.go:172-189 | the length of a run and the weight of its last state stay within the bound, with a history that accounts for every pair ever registered |
| `CtraTermination.DeliveryDecreases` | embedded/graph/jpgql/jpgql.go:276-341 | each single delivery lowers the weighted sum of calls, replies and registered aggregations |
| `ChannelRuns.Shared.Append` | statefun/system/system.go:73-80 | the puller's turn under the mutex keeps every value, over the size too, and tells of the overflow |
| `ChannelRuns.Shared.Notify` | statefun/system/system.go:82-86 | the notification wakes the pusher if it is waiting and is dropped otherwise |
| `ChannelRuns.Shared.Look` | statefun/system/system.go:94-108 | the pusher's turn takes exactly the oldest value, or sees an empty buffer and goes on to wait |
| `ChannelRuns.RunIsFifo` | statefun/system/system.go:56-117 | over every interleaving of the two goroutines, delivered, in hand, buffered and pulled together are everything received, in order |
| `ChannelRuns.DeliversInOrder` | statefun/system/system.go:56-117 | so what came out is a prefix of what went in, at most the buffer and two values behind |
| `ChannelRuns.MissedWakeRun` | statefun/system/system.go:82-97 | a notification between the pusher's look and its wait is lost, and the pusher sleeps on a value |
| `ChannelRuns.NeverSleepsIff` | statefun/system/system.go:82-97 | the pusher never sleeps on a value exactly when no notification comes in between |
| `DcraCollector.Aggregation.PendingDone` | embedded/graph/jpgql/jpgql.go:512-517 | the loop answers whether every known pair is done |
| `DcraCollector.Aggregation.ResultMap` | embedded/graph/jpgql/jpgql.go:527-530 | the reply names exactly the collected objects, each once |
| `DcraCollector.Aggregation.Receive` | embedded/graph/jpgql/jpgql.go:491-536 | a mark makes only an unknown pair pending; a stored array adds exactly its objects, makes its pair done and brings the reply exactly when nothing known is pending; the array of whatever a handler found is received as the protocol's done mark with that set |
| `DcraTheorems.ReplyIsExact` | embedded/graph/jpgql/jpgql.go:470-537 | over every interleaving the first time everything known is done nothing is missing: the reply is the reachability answer, and there is at most one |
| `DcraTheorems.ChildrenPendingBeforeDone` | embedded/graph/jpgql/jpgql.go:592-628 | in the order of notification the done mark of a pair follows the pending mark of each child, even one set by another parent |
| `DcraTheorems.ExpandedAtMostOnce` | embedded/graph/jpgql/jpgql.go:614-624 | however many parents reach a pair, at most one handler expands it |
| `DcraTheorems.QuietMeansAnswered` | embedded/graph/jpgql/jpgql.go:520-536 | when all handlers have finished and all notifications were delivered the answer was given |
| `DcraReply.ReplyMeansDone` | embedded/graph/jpgql/jpgql.go:519-536 | when the reply is given every handler has finished, every notification was delivered and no handler has a step left, so nothing is sent to the channel that is closed then |
| `DcraTheorems.StuckIff` | embedded/graph/jpgql/jpgql.go:592-628 | a reachable state without a reply has no step exactly when all handlers have finished and the pusher sleeps on a buffered notification that nobody will wake it for |
| `DcraTheorems.HandleSummarises` | embedded/graph/jpgql/jpgql.go:500-511 | the collector's map is at all times exactly what the delivered notifications say |
| `DcraTermination.Terminates` | embedded/graph/jpgql/jpgql.go:565-629 | every run ends: its length and the measure of its last state stay within the first measure |
| `DcraLiveness.Completes` | embedded/graph/jpgql/jpgql.go:465-629 | in runs that miss no wake-up, whatever was interleaved so far, further steps lead to the exact reply |
| `DcraLiveness.StuckRun` | statefun/system/system.go:82-97 | on every query and graph there is a run in which every handler finishes, every notification is buffered and no reply ever comes |
| `DcraLiveness.RepliesIffNoMissedWake` | embedded/graph/jpgql/jpgql.go:465-629 | on every query and graph, all runs can come to the reply exactly when no wake-up is missed |
| `Jpgql.SystemIsValid` | embedded/graph/jpgql/tools.go:101-132 | a well-formed query on a finite store visits finitely many pairs, and its calls stay among them |
| `Jpgql.PairHasPlace` | embedded/graph/jpgql/tools.go:101-132 | the remaining query of every visited pair is the printed rest of the asked one from some step on |
| `Jpgql.ExpandIs` | embedded/graph/jpgql/tools.go:240-251 | one handler run expands an object by its head step; where an any-depth step stops it goes on with the tail of the stop, elsewhere with the same query |
| `Jpgql.AnswerBySteps` | embedded/graph/jpgql/jpgql.go:306-324 | the answer on pairs of objects and query strings is the set of ends of walks over the links of the graph, by type and body, that match the steps one after the other |
| `Jpgql.LoneDot` | embedded/graph/jpgql/tools.go:105-107 | the query of a single dot finds the object it is asked of |
| `JpgqlTheorems.CtraAnswersQuery` | embedded/graph/jpgql/jpgql.go:239-393 | for every query, graph with plain ids and delivery order, the handlers read the objects they are sent to and CTRA writes at most one result, the query's meaning, and has written it when no message is left |
| `JpgqlTheorems.DcraAnswersQuery` | embedded/graph/jpgql/jpgql.go:465-629 | the same for DCRA over every interleaving: at most one reply, the query's meaning, given when all handlers have finished and all notifications were delivered |
| `JpgqlTheorems.ProtocolsAgree` | embedded/graph/jpgql/jpgql.go:632-646 | whatever each of them did, the two protocols give the same result |
| `JpgqlTheorems.PendingKeysDiffer` | embedded/graph/jpgql/jpgql.go:471-476 | two pairs of a query never have the same hashed string, although ids may hold underscores |
| `Ids.CompositeIdReadBackIff` | embedded/graph/jpgql/jpgql.go:566-567 | the handler reads back object and process of a composite id exactly for objects that hold no `===` and do not end in `=` |
| `JpgqlTheorems.ReadExpandIff` | embedded/graph/jpgql/jpgql.go:130-136 | a query handler expands the object it was sent to, on every graph and query, exactly for such ids |
| `Query.SplitPrinted` | embedded/graph/jpgql/tools.go:101-132 | splitting a printed query gives the head step and the printed rest; plain tails and stop tails are shorter, the continuing tail of an any-depth step is the query itself |
| `ValidKeys.TypeCharsAre` | embedded/graph/jpgql/tools.go:18-18 | a link type in a query is made of the letters, digits, `*`, `_` and `-` |
| `ValidKeys.StepsAre` | embedded/graph/jpgql/tools.go:18-18 | the steps of the queries spoken of here are those with a non-empty link type over these and any filter without brackets |
| `Filter.FilterData.AndWith` | embedded/graph/jpgql/tools.go:26-35 | `&&` in place extends each left-hand disjunct by all features of the right-hand side |
| `Filter.Evaluate` | embedded/graph/jpgql/tools.go:36-99 | evaluation fails exactly for an empty name or no tags, and computes the form above otherwise |
| `Filter.WellFormedIff` | embedded/graph/jpgql/tools.go:36-58 | a filter evaluates exactly when none of its calls is in error, however they are combined |
| `Filter.ComputedImpliesMeaning` | embedded/graph/jpgql/tools.go:26-35 | for every expression, what the computed form accepts satisfies the Boolean meaning |
| `Filter.SingleRightIsExact` | embedded/graph/jpgql/tools.go:26-35 | and conversely when every right operand of `&&` has one disjunct |
| `Filter.UnparenthesisedIsSingle` | embedded/graph/jpgql/tools.go:19-35 | which all filters without parentheses do |
| `FilterOnLinks.ExactIffMeaning` | embedded/graph/jpgql/tools.go:26-35 | the computed form equals the Boolean meaning on every link body a store can hold exactly when each distributed conjunction that some link can satisfy includes a computed one |
| `Filter.ParenthesisedCounterexample` | embedded/graph/jpgql/tools.go:26-35 | a parenthesised right operand with two disjuncts is refused on a link it should accept |
| `LinkMatch.SpecificLinkIndices` | embedded/graph/jpgql/tools.go:181-199 | the loop over the index keys collects exactly the features with an index key of the link |
| `LinkMatch.DisjunctFound` | embedded/graph/jpgql/tools.go:212-224 | the nested loop finds a disjunct exactly when one is satisfied |
| `LinkMatch.IndicesAreFacts` | embedded/graph/crud/ll_crud.go:413-429 | in a coherent store the index keys of a link are its body's name and tags |
| `LinkMatch.TargetsByIndex` | embedded/graph/jpgql/tools.go:201-228 | matching by index keys finds exactly the targets that scanning all bodies finds |
| `LinkMatch.TypeTargetsAre` | embedded/graph/jpgql/tools.go:134-155 | without a filter, `t` is found exactly when a stored link of the type, of any type for `*`, leads there; with an empty type only the object itself |
| `Jpgql.FindTargets` | embedded/graph/jpgql/tools.go:230-238 | in an indexed store the index-driven search finds, for every link type and filter, exactly the ends of the links of that type whose bodies the filter accepts; without type and filter the object itself, and nothing for a filter that does not parse |
| `Jpgql.FindObjects` | embedded/graph/jpgql/tools.go:240-251 | with the marks of an any-depth stop it gives the expansion the protocols run on |
| `GraphStore.RenderedInjective` | embedded/graph/crud/common.go:7-26 | keys of different families or links never share a string |
| `ValidKeys.PartsOfKeys` | embedded/graph/crud/common.go:7-26 | the parts between the dots of a stored key are those of its family's pattern |
| `Patterns.OutBodies` | embedded/graph/crud/ll_crud.go:241-241 | the pattern of all out links lists exactly the body keys of the vertex, of all families |
| `Patterns.OutBodiesOfType` | embedded/graph/jpgql/tools.go:142-145 | with a type, exactly those of the type |
| `Patterns.InLinks` | embedded/graph/crud/ll_crud.go:260-260 | the pattern of the in links lists exactly the reverse keys at the vertex |
| `Patterns.LinkIndices` | embedded/graph/jpgql/tools.go:188-188 | the pattern of a link's indices lists exactly its index keys |
| `Tokens.SplitJoin` | embedded/graph/crud/ll_crud.go:243-245 | splitting a key at its dots gives back its tokens |
| `Tokens.GeneratedNamesDiffer` | embedded/graph/crud/ll_crud.go:407-407 | different counters give different names |
| `Crud.Graph.SetTags` | embedded/graph/crud/ll_crud.go:422-429 | the loop adds exactly one index key per tag |
| `Crud.Graph.Unindex` | embedded/graph/crud/ll_crud.go:516-530 | exactly the name and index keys of a body go |
| `Crud.Graph.WriteLink` | embedded/graph/crud/ll_crud.go:546-585 | name, name index, body and tag indices of a link, as the specification writes them at once |
| `Crud.Graph.LinkDelete` | embedded/graph/crud/ll_crud.go:639-727 | an existing link goes with all its keys, the reverse key as the nested request reads it back, and its old body is logged; a missing one changes and logs nothing |
| `Crud.Graph.LinkCreate` | embedded/graph/crud/ll_crud.go:329-459 | an existing link is deleted first; the reverse key is filed as the nested request reads it back; both log entries, in order |
| `Crud.Graph.LinkUpdate` | embedded/graph/crud/ll_crud.go:485-611 | old indices go, the new body is merged or replaced, renamed if its name is taken; a missing link is created |
| `Crud.Graph.VertexUpdate` | embedded/graph/crud/ll_crud.go:168-210 | a missing body fails without change but is logged |
| `Crud.Graph.DeleteLinks` | embedded/graph/crud/ll_crud.go:241-275 | deleting a list of links one by one removes exactly the keys of those that exist, one log entry each |
| `Crud.Graph.DeleteAllLinks` | embedded/graph/crud/ll_crud.go:240-276 | out links, then the in links still listed: every link that touches the vertex exactly once, self-loops included |
| `Crud.Graph.VertexDelete` | embedded/graph/crud/ll_crud.go:232-296 | all those links, the name counter and the body go; the log lists each link and then the vertex |
| `Crud.Graph.VertexCreate` | embedded/graph/crud/ll_crud.go:104-143 | an existing vertex is deleted first with its links |
| `Crud.Graph.Handle` | embedded/graph/crud/ll_crud.go:104-727 | every request gives the store of the specification and a log it allows, keeps the indices, and keeps the ends of links paired exactly when the written target reads back |
| `CrudCoherence.AfterIndexed` | embedded/graph/crud/ll_crud.go:339-718 | every operation with its nested requests, for all ids, keeps: index keys iff name and tags of the body, registered names in use |
| `CrudEnds.FilingIff` | embedded/graph/crud/ll_crud.go:340-344 | a link is filed under its target exactly when the target holds no `===` and, for a self-loop, does not end in `=` |
| `CrudEnds.AfterCoherentIff` | embedded/graph/crud/ll_crud.go:339-718 | a request leaves a coherent store coherent, body iff reverse key, exactly when the target of a link it writes reads back |
| `CrudCoherence.RunIndexed` | embedded/graph/crud/ll_crud.go:104-727 | so in every state of every run from the empty store the indices are in step |
| `CrudEnds.RunCoherentIff` | embedded/graph/crud/ll_crud.go:104-727 | a run of complete operations is coherent throughout exactly when the target of every link it writes reads back |
| `CrudCoherence.LinkCreatedIndexed` | embedded/graph/crud/ll_crud.go:375-444 | re-creating over an existing link leaves no stale index behind |
| `CrudCoherence.LinkUpdatedIndexed` | embedded/graph/crud/ll_crud.go:514-599 | neither does an update, in either mode |
| `CrudEnds.VertexDeleteExact` | embedded/graph/crud/ll_crud.go:232-287 | in a coherent store deleting a vertex is complete and local: exactly the keys that mention it and the registered names of links to it go, all else keeps its value |
| `CrudEnds.FilingOfBC` | embedded/graph/crud/ll_crud.go:340-344 | a link to `b===c` is filed under `b` |
| `CrudEnds.FilingOfLoop` | embedded/graph/crud/ll_crud.go:437-438 | a self-loop on `x=` is filed under `x` |
| `CrudEnds.VertexDeleteMissesLink` | embedded/graph/crud/ll_crud.go:650-653 | deleting a link to `b===c` takes the reverse key of the link to `b` along, and deleting the vertex `b` then misses that link |
| `CrudNames.NamesUniqueAndRegistered` | embedded/graph/crud/ll_crud.go:391-415 | over every run whose callers avoid generated names, out links of a vertex have distinct names and the registry is exactly the names in use |
| `CrudNames.AfterNames` | embedded/graph/crud/ll_crud.go:516-570 | every operation keeps names distinct, registered and, if generated, below the counter |
| `CrudNames.VertexDeletedNames` | embedded/graph/crud/ll_crud.go:278-280 | resetting the counter is safe because no out link is left |
| `CrudNames.LinkCreateNamesIff` | embedded/graph/crud/ll_crud.go:402-415 | without that condition, a create keeps names distinct exactly when the name it generates is free |
| `CrudNames.LinkUpdateNamesIff` | embedded/graph/crud/ll_crud.go:546-570 | so does an update of an existing link, judged after its old name was released |
| `CrudNames.RunNamesIff` | embedded/graph/crud/ll_crud.go:104-727 | along any run, names stay distinct and registered exactly as long as no request generates a name in use |
| `CrudNames.GeneratedNameCollides` | embedded/graph/crud/ll_crud.go:402-411 | two links of one vertex can both be called `name0` |
| `CrudReplay.LogReplays` | embedded/graph/crud/ll_crud.go:31-80 | replaying the log of any successful request over the old graph gives exactly the new graph |
| `CrudReplay.LogUndoesIff` | embedded/graph/crud/ll_crud.go:184-204 | taking the log back gives the old graph exactly unless a missing vertex was updated or deleted |
| `CrudReplay.VertexDeleteReplay` | embedded/graph/crud/ll_crud.go:241-287 | this holds for the nested deletes in whatever order they were done |
| `CrudEffects.LinkCreateEffect` | embedded/graph/crud/ll_crud.go:358-465 | after a create with a body the link named by the request has that body's tags and rest, and its name unless that is missing or taken, else the next generated one; nothing else in the graph changes; without a body nothing happens |
| `CrudEffects.LinkUpdateEffect` | embedded/graph/crud/ll_crud.go:496-615 | the same for an update of the given type and target, over the replacing body, the old body merged with the new one, or the new one for a link that does not exist; all three fields are needed |
| `CrudEffects.LinkDeleteEffect` | embedded/graph/crud/ll_crud.go:664-727 | a delete removes exactly the body of the link of the given type and target |
| `CrudEffects.TakenIff` | embedded/graph/crud/ll_crud.go:398-401 | while names are distinct and registered, a wanted name is taken exactly when another link out of the vertex has it |
| `CrudEffects.VertexCreateEffect` | embedded/graph/crud/ll_crud.go:112-145 | a vertex gets the given document or an empty one, after a vertex of that id and its links were deleted |
| `CrudEffects.VertexUpdateEffect` | embedded/graph/crud/ll_crud.go:176-209 | exactly the document changes, to the new one or to the old, or empty, one merged with it; without a document nothing changes and the old one is logged twice |
| `CrudEffects.VertexDeleteEffect` | embedded/graph/crud/ll_crud.go:232-290 | the vertex goes with its counter, all links that leave it and those that lead to it by its reverse keys; all other bodies stay |
| `CrudEffects.LogKindsFit` | embedded/graph/crud/ll_crud.go:31-67 | creates log no old body, deletes no new one, updates both |
| `CacheEntry.StoreValue.constructor` | statefun/cache/cache.go:677-677 | a new node holds its value and still has to be written if asked for |
| `CacheEntry.StoreValue.TryPurgeReady` | statefun/cache/cache.go:186-196 | only a node in use becomes ready, and the result says so |
| `CacheEntry.StoreValue.TryPurgeConfirm` | statefun/cache/cache.go:198-208 | only a ready, written and echoed node is confirmed |
| `CacheEntry.StoreValue.CollectGarbage` | statefun/cache/cache.go:155-184 | a node is dropped exactly when it is droppable, childless and unwatched |
| `CacheEntry.StoreValue.Look` | statefun/cache/cache.go:421-442 | the writer captures a node that needs it, and ages one that does not |
| `CacheEntry.StoreValue.Echo` | statefun/cache/cache.go:343-358 | the store's echo marks a node synced and confirms a waiting purge |
| `CacheEntry.PurgeStaysSafe` | statefun/cache/cache.go:173-173 | no change of a node lets a confirmed purge coexist with a pending write |
| `CacheEntry.DeletedNodeGoes` | statefun/cache/cache.go:210-240 | a deleted node that the store has to hear of is dropped once its delete was written and echoed and not before; others are dropped at once |
| `CacheEntry.CollectedIff` | statefun/cache/cache.go:163-173 | a collector finds a node droppable exactly when its purge is confirmed or it holds no value and has nothing to write |
| `EvictionTheorems.ReadsLastWrite` | statefun/cache/cache.go:545-588 | in every state of a run without the seven hazards GetValue returns the last written bytes, cached or reloaded |
| `EvictionTheorems.SyncedMatchesStore` | statefun/cache/cache.go:322-358 | a synced value with nothing to write equals the stored record in time and bytes, and no older event is still queued |
| `EvictionTheorems.EvictionInvisible` | statefun/cache/cache.go:155-184 | in such runs no step but a write changes what is read, and a node is removed only when the store holds its last write |
| `EvictionTheorems.PassSyncs` | statefun/cache/cache.go:417-457 | from any state of a run one undisturbed writer pass and the events that follow leave the node synced with the last write |
| `EvictionHazards.RaceRun` | statefun/cache/cache.go:444-457 | a write between the writer's look and its second reading of the flag leads to a read of an older value |
| `EvictionHazards.RemovalRun` | statefun/cache/cache.go:171-180 | a write between the collector's decision and the removal is lost |
| `EvictionHazards.ReloadRun` | statefun/cache/cache.go:567-579 | a write between a missed read's look into the store and its setting of the cache is overwritten |
| `EvictionHazards.OrphanRun` | statefun/cache/cache.go:914-929 | a longer key created after eviction makes the shorter one read as missing |
| `EvictionHazards.AboveRun` | statefun/cache/cache.go:171-180 | a write below a node that a collector has decided to remove is lost with it |
| `EvictionHazards.LostRun` | statefun/cache/cache.go:698-700 | a write that found the node before it was removed lands nowhere |
| `EvictionHazards.EventRun` | statefun/cache/cache.go:322-348 | a write between the watcher's comparing and acting counts as echoed too soon, is dropped, and its late event overwrites a newer write |
| `EvictionHazards.ReadsLastIffNoHazard` | statefun/cache/cache.go:417-457 | reads are exact over all runs exactly when all seven hazards are kept out |
| `Lru.AgedIffOldest` | statefun/cache/cache.go:471-476 | a node is marked by age exactly when more than `lruSize` nodes are cached and at least `lruSize` of them, itself included, are no older; none is marked otherwise |
| `Lru.YoungerSorted` | statefun/cache/cache.go:471-473 | the n-th sorted time reaches a time exactly when n nodes are no older |
| `Lru.CanBeSorted` | statefun/cache/cache.go:471-471 | the arrangement the limit is read from exists for every list of times |
| `Paths.KeyAndPath` | statefun/cache/cache.go:910-913 | every key is the joined tokens of its path |
| `Paths.PathAndKey` | statefun/cache/cache.go:833-839 | and every path of the trie is the path of its joined tokens |
| `Paths.WalkStep` | statefun/cache/cache.go:816-847 | popping a node and pushing its children keeps the stack free of repetitions and of nodes already taken |
| `Trie.Store.constructor` | statefun/cache/cache.go:286-301 | a new cache is the empty map |
| `ValidKeys.ValidKeyIff` | statefun/cache/cache.go:29-29 | a key is taken exactly when it fits one of the two alternatives of the pattern |
| `ValidKeys.TokenCharsAre` | statefun/cache/cache.go:29-29 | the characters of a token are the letters, digits, `=`, `_` and `-` |
| `ValidKeys.JoinedTokensFit` | statefun/cache/cache.go:658-688 | every dotted rendering of tokens is taken |
| `ValidKeys.GraphKeysFit` | embedded/graph/crud/common.go:7-26 | so is every key of the graph |
| `ValidKeys.QueryKeysFit` | embedded/graph/jpgql/jpgql.go:471-476 | and every key of a pending entry and of a call tree's result |
| `Trie.Store.LastParent` | statefun/cache/cache.go:909-937 | the descent ends at the node above the last token, creating what is missing only if asked to, and never changes the live keys |
| `Trie.Store.SetValue` | statefun/cache/cache.go:685-720 | setting a valid key changes exactly that key of the flat map; invalid keys are refused |
| `Trie.Store.SetValueIfDoesNotExist` | statefun/cache/cache.go:658-683 | succeeds exactly for a valid key that is not live, and then sets exactly it |
| `Trie.Store.DeleteValue` | statefun/cache/cache.go:726-748 | removes exactly that key and no node |
| `Trie.Store.GetValue` | statefun/cache/cache.go:545-564 | is lookup in the flat map |
| `Trie.Store.PushChildren` | statefun/cache/cache.go:833-847 | the inner loop pushes each child once with its key text and collects the keys of the live ones |
| `Trie.Store.KeysBelow` | statefun/cache/cache.go:813-848 | the explicit-stack traversal ends and returns exactly the live keys below the prefix |
| `Trie.Store.GetKeysByPattern` | statefun/cache/cache.go:773-882 | `*` gives exactly the live keys one level below, `>` exactly those below; other patterns ask for the node |
| `KvMutex.AtMostOneHolder` | statefun/kv_mutices.go:88-128 | over all interleavings of reading the clock, Get, Put and Update under those conditions, at most one client holds the lock and its revision and time are the stored ones |
| `KvMutex.HolderUpdateSucceeds` | statefun/kv_mutices.go:131-182 | the Update of a holder that refreshes or unlocks always finds the revision it read |
| `KvMutexTimes.RefreshWritesClock` | statefun/kv_mutices.go:131-154 | a holder's refresh that succeeds stores what its clock showed between the Get, which saw a lock of the same revision, and the Update |
| `KvMutexTimes.LockTimeIsRead` | statefun/kv_mutices.go:88-154 | over all runs every lock time stored is what the writer's clock showed when it last read it |
| `KvMutexTimes.RefreshedLockStands` | statefun/kv_mutices.go:115-128 | a client whose clock is not past that reading by more than the lifetime does not go on to reset the refreshed lock |
| `KvMutexTimes.LockStands` | statefun/kv_mutices.go:107-128 | a client that finds a lock within its lifetime gets the error if it asked for one, and else starts over |
| `KvMutexTimes.UnlockFrees` | statefun/kv_mutices.go:156-181 | an unlock that succeeds stores 0 over a lock it saw |
| `KvMutexTimes.FreeLockIsLeft` | statefun/kv_mutices.go:143-181 | a refresh or an unlock that sees the lock free writes nothing |
| `KvMutexTimes.UpdateNeedsRevision` | statefun/kv_mutices.go:40-49 | an Update changes the key only at the revision its client saw |
| `KvMutex.FirstCreationRun` | statefun/kv_mutices.go:94-105 | two clients that both find no key both get the lock |
| `KvMutex.ExpiryRun` | statefun/kv_mutices.go:115-120 | a holder that outlives the lifetime still believes to hold the lock another client has put over |
| `KvMutex.StrayRun` | statefun/kv_mutices.go:156-181 | a client that holds nothing unlocks the lock of another with any revision, and takes it |
| `KvMutex.ExclusiveIff` | statefun/kv_mutices.go:27-182 | mutual exclusion over all runs holds exactly when the key exists at the start, no holder outlives the lifetime on any client's clock, and only holders refresh and unlock |
| `Traverse.GetChildren` | embedded/graph/tx/traverse.go:140-160 | one entry per out link of the vertex |
| `Traverse.FileLinks` | embedded/graph/tx/traverse.go:119-129 | every key of the listed links is taken afterwards, and only by links of visited vertices |
| `Traverse.QueueChildren` | embedded/graph/tx/traverse.go:131-133 | exactly the children not visited are appended |
| `Traverse.RevisitProgress` | embedded/graph/tx/traverse.go:106-135 | taking a visited vertex off the queue brings the first unvisited entry nearer or shortens the queue |
| `Traverse.GraphState` | embedded/graph/tx/traverse.go:91-138 | ends on every finite graph although vertices are queued and expanded again, with exactly the reachable vertices, and with all links out of them exactly when no two of these run together to one key |
| `Traverse.LosesLink` | embedded/graph/tx/traverse.go:120-129 | on a store with links from `a` to `bc` and from `ab` to `c` below the start, the traversal loses a link in whatever order it goes |
| `Traverse.LossyKeysCollide` | embedded/graph/tx/traverse.go:120-120 | those two links are reachable, different, and run together |

## Left out

- NATS, JetStream, subscriptions and key/value buckets: the store is a register per key with a revision and an ordered queue of events.
- The time limit of a query, the optional call on found targets, and malformed queries, on which a handler returns without replying.
- The steps of the root process before its own pair is marked and its object signalled: no other process of the query exists yet, so they are one initial state.
- Closing of the buffering channel, which may drop values, and its overflow callback.
- Eviction of pending entries while a DCRA query runs: the entries of one query are taken to stay in the cache.
- The regular-expression and expression-parser libraries: the query grammar is the allowed link types with bracket-free filters, and filters come parsed.
- Wrap-around of the 64-bit name counter and of times.
- Empty names and tags with dots, and other keys the cache refuses.
- Transactions and high-level graph operations, triggers, merge and commit: request plumbing over the low-level operations.
- The order in which Go ranges over a map or a pattern lists keys is any order.
- In the cache's eviction: deletes, keys shared by several runtimes, writes that are not put into the store, and writes with a caller's own time.
- Completeness of key patterns after eviction, and the time stamps of lost consistency: the trie is modelled without eviction, over an empty store.
- Retries of the lazy writer when the store refuses a record are steps of the model, but not how often it retries.
- CrudNames.NamesUniqueAndRegistered: asks callers not to use names of the generated shape, because without that it is false (CrudNames.GeneratedNameCollides).
- KvMutex.AtMostOneHolder: asks that the key exists, that holders refresh in time by every client's clock and that only holders refresh and unlock, because without any of these it is false (KvMutex.ExclusiveIff).
- Trie.Store.GetValue: a key without a node is not looked up in the store, which the eviction model covers for one key.
- CrudEnds.VertexDeleteExact: asks for a coherent store, because with reverse keys filed under cut ids it is false (CrudEnds.VertexDeleteMissesLink).
- DcraLiveness.Completes: asks that no wake-up is missed, because without that it is false (DcraLiveness.StuckRun).
- JpgqlTheorems.CtraAnswersQuery: asks for plain object ids, because handlers refuse or misread others (JpgqlTheorems.ReadExpandIff).
- JpgqlTheorems.DcraAnswersQuery: asks for plain object ids, for the same reason.
- Trie.Store.GetKeysByPattern: the keys the source adds from the store after consistency was lost, which eviction alone brings about, are not part of this model.
- EvictionTheorems.ReadsLastWrite: asks that the hazards are kept out, because with any of them it is false (EvictionHazards.ReadsLastIffNoHazard), and speaks of one key: of the steps of other keys only those that create or remove a node at or above this one are part of the model.
