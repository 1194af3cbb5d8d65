# Verification of the industrial runtime

A Dafny model of the runtime's concurrent core (`core/`) and of its IRSP protocol (`irsp/`, with the
JavaScript client), with proofs of what they promise. `dafny verify dfyconfig.toml` checks everything.

## What is modelled

**Event path.** `ring_arithmetic.dfy`, `mpmc_machine.dfy`, `ring_words.dfy` and `mpmc_queue.dfy` treat the
bounded lock-free ring: first as a machine of single shared-memory accesses by any number of threads, with
compare-and-swaps that may fail for no reason; then the same machine computing in 64-bit words as the
program does, proved equal to it; then the class itself, proved to refine a bounded FIFO and to take only
steps of that machine. `event_bus.dfy` puts publishers, the dispatch worker, changing
subscriptions and the final drain on top of the ring's machine.

**Plugins.** `plugin_host.dfy` is write routing by longest prefix with owners. `plugin_lifecycle.dfy` is
the manager's bookkeeping as an automaton of small steps with arbitrary results of the plugin's own
functions; `hot_unload.dfy` interleaves that automaton with any number of writer threads, the shared
lock, the in-flight counts, and registrations by any loaded plugin at any time; `plugin_manager.dfy` is the
manager class, whose recorded steps are all steps of the automaton.

**Protocol.** `irsp_value.dfy`, `irsp1_codec.dfy` and `irsp1_roundtrip.dfy` are the encoder, the streaming
decoder and what survives the two. `topic.dfy` is topic matching, `subscription_index.dfy` the
subscription registry as a value, `topic_trie.dfy` the linked trie proved to implement it.
`irsp1_bytes.dfy` pins the bytes themselves and what the decoder refuses. `irsp_dispatcher.dfy` handles
requests, `command_laws.dfy` says what each command means for its sender and for everybody else,
`irsp_server.dfy` is connections and frames, `connection_closing.dfy` when they end. `reply_frames.dfy` says
how replies and pushes look to a client, `frame_contents.dfy` what they carry, and `reply_matching.dfy` joins
one client to the server over an in-order connection. `tag_engine.dfy` is the tag store,
`core_tag_writer.dfy` the way of a SET to a plugin, `tag_currency.dfy` the race between writers and pushes, `core_tag_source.dfy` reads and paging by cursor,
`variant_codec.dfy` the byte form of tag values. `scheduler.dfy` is the periodic scheduler. `options.dfy`
and `facts.dfy` hold what several modules use.

## Assumptions

- Atomic operations are sequentially consistent. Acquire and release orders are not modelled.
- Mutexes exclude, shared locks exclude only exclusive ones, clocks do not run backwards.
- A connection delivers whole messages in order, the pieces of one message in order, and loses none while
  it is open.
- Plugin functions, event handlers and scheduled tasks return; a C++ exception from a plugin counts as a
  failed call, as the program treats it.
- The machine stores numbers lowest byte first, as the program's comment on copying them says
  (irsp/server/core_tag_source.cpp:19).
- Every value that is encoded fits in memory: lengths are below 2^63.

## Where code and documentation differ

- The queue's header (core/event_bus/mpmc_queue.hpp:13) calls its operations wait-free single attempts. The code retries a
  failed compare-and-swap, and the model follows the code.
- `tryDequeue` may answer "empty" although a later item has been published and accepted
  (`MpmcMachine.EmptyWhilePublished`); `MpmcMachine.EmptyVerdict` says exactly when. The same gap lets the
  bus worker finish with accepted events left (`EventBuses.FinishLeavesBehindIff`, and the run
  `EventBuses.FinishLeavesBehindHappens`).
- The plugin host's header promises that an unloaded plugin is never written to
  (core/plugin_host/plugin_host.hpp:22-25). That rests on the plugin registering writers only while its init
  or start runs (`HotUnload.DisciplinedPluginsAreSafe`). `HotUnload.CloseSafeIff` says for any library, at the
  moment it is closed, exactly when nothing will call it again; `HotUnload.StopRegistersHappens` is a run in
  which a writer registered by stop outlives its library.
- The same header asks for retire and wait before an owner is removed
  (core/plugin_host/plugin_host.hpp:58). A failed `createPlugin` removes the owner without either:
  `HotUnload.CreateFailureSafeIff` says exactly when that is safe, `HotUnload.CreateFailureHappens` gives a
  run in which it is not.
- After a failed `init` the plugin is destroyed before its writers are retired: `HotUnload.DestroyOverlapIff`,
  with the runs `HotUnload.DestroyOverlapHappens` and `HotUnload.DestroyRegistersHappens`.
- `unsubscribe` does not validate its pattern, so a malformed one can drop a trie entry and leave the
  pattern counted: `SubscriptionIndex.UnsubscribeKeepsExact` says exactly which, and
  `SubscriptionIndex.MalformedUnsubscribeLeaks` that "unsubscribe all" does not repair it.
- The store accepts a tag with the empty name. EXISTS finds it, GET and MGET answer null
  (`Dispatchers.ExistsAgreesIff`, `Dispatchers.EmptyNameDisagrees`).
- A tag named `0` is taken for the end of a scan: `CoreTagSource.FixedStoreScan` says exactly when names are
  missed, `CoreTagSource.StopsEarlyHappens` gives the smallest scan that misses one.
- A simple or error text with a line break does not come back whole: `Irsp1RoundTrip.RoundTrip` is an
  equivalence. Among the server's replies this concerns exactly the echo of an unknown command whose name
  holds a line break (`ReplyFrames.ReplyReads`, `ReplyFrames.EchoExact`).

## Model

| member | source | states |
|---|---|---|
| `RingArithmetic.RoundUpPow2` | core/event_bus/mpmc_queue.hpp:82-91 | for requests up to 2^63 the loop ends, without overflow, at the least power of two that is at least the request and at least 2 |
| `RingArithmetic.MaskIsModulo` | core/event_bus/mpmc_queue.hpp:33 | masking a position selects its remainder modulo the ring size |
| `RingArithmetic.SignedDifferenceExact` | core/event_bus/mpmc_queue.hpp:35 | for two words the signed difference is the mathematical one exactly when both are on the same side of 2^63 |
| `RingWords.NumbersBelowHalf` | core/event_bus/mpmc_queue.hpp:31-70 | while the enqueue position plus the size has not passed 2^63, every cell's sequence, both positions and every position an operation holds, also plus one or plus the size, lie below it |
| `RingWords.WordStepIsStep` | core/event_bus/mpmc_queue.hpp:29-72 | then each step computed with masks, wrapping words and the signed test is the step on unbounded numbers: the same cell, the same comparison, the same words stored |
| `RingWords.WordRunIsRun` | core/event_bus/mpmc_queue.hpp:16-72 | from the constructor's state, for every interleaving that issues at most 2^63 minus the size enqueue tickets, the words go through exactly the states of the unbounded machine |
| `MpmcMachine.StepInv` | core/event_bus/mpmc_queue.hpp:29-72 | one atomic step of any thread keeps the invariant: occupied at most the ring's size, every cell free, being written or published for its current ticket, every thread's position consistent with the counters |
| `MpmcMachine.RunInv` | core/event_bus/mpmc_queue.hpp:29-72 | the invariant holds after every interleaving of any length |
| `MpmcMachine.ExclusiveCells` | core/event_bus/mpmc_queue.hpp:46-47 | no two operations between their compare-and-swap and their sequence store ever have the same cell |
| `MpmcMachine.FifoConservation` | core/event_bus/mpmc_queue.hpp:46-71 | dequeue position <= enqueue position <= dequeue position + size; the value moved out for a ticket is the one stored for it, so in ticket order nothing is lost, repeated or reordered |
| `MpmcMachine.RealTimeOrder` | core/event_bus/mpmc_queue.hpp:29-72 | a call that begins after another has got its ticket, as one that has returned true has, gets a later ticket, for enqueues and for dequeues; so the value of the later enqueue is taken only after that of the earlier one |
| `MpmcMachine.FullVerdict` | core/event_bus/mpmc_queue.hpp:40-41 | enqueue answers "full" exactly when its position is current and the ring is full or the dequeue one lap back is not finished |
| `MpmcMachine.EmptyVerdict` | core/event_bus/mpmc_queue.hpp:63-64 | dequeue answers "empty" exactly when its position is current and nothing is queued or the oldest ticket is claimed but unpublished |
| `MpmcMachine.EmptyWhilePublished` | core/event_bus/mpmc_queue.hpp:63-64 | a run in which dequeue answers "empty" although a later enqueue has already returned true |
| `MpmcMachine.QuiescentCells` | core/event_bus/mpmc_queue.hpp:46-71 | with no operation in flight the cells hold exactly the accepted, untaken values |
| `MpmcQueues.MpmcQueue.constructor` | core/event_bus/mpmc_queue.hpp:16-23 | an empty queue whose size is the least power of two at least the capacity and at least 2 |
| `MpmcQueues.MpmcQueue.TryEnqueue` | core/event_bus/mpmc_queue.hpp:29-49 | alone: succeeds exactly when the queue is not full, then appends; whatever spurious failures, it is a run of the machine |
| `MpmcQueues.MpmcQueue.TryDequeue` | core/event_bus/mpmc_queue.hpp:52-72 | alone: succeeds exactly when the queue is not empty, then removes and returns the oldest item; a run of the machine |
| `EventBuses.NothingLostOrRepeated` | core/event_bus/event_bus.cpp:32-48 | in every interleaving the accepted events are those delivered, then the one in hand, then those queued, in order of acceptance; every delivery but one in progress has called exactly the subscriptions of its snapshot that let it through, and that one those whose turn has come |
| `EventBuses.SnapshotsAreOfTheMoment` | core/event_bus/event_bus.cpp:85-91 | in every run each delivery's snapshot is the list of subscriptions at a moment when the worker had that event in hand and had begun exactly the deliveries before it |
| `EventBuses.SubscribedAre` | core/event_bus/event_bus.cpp:50-66 | after any run the subscriptions are exactly those made and not taken back since, oldest first, with ids counted up from 1 |
| `EventBuses.EveryPublishCounted` | core/event_bus/event_bus.cpp:32-39 | in every run the publishes begun are as many as those accepted, those counted as dropped and those still trying |
| `EventBuses.FinishedUntilRestart` | core/event_bus/event_bus.cpp:32-48 | once the worker has finished, and until the bus is started again, nothing more is delivered, and what publish still accepts stays queued |
| `EventBuses.LeftBehindIsDelivered` | core/event_bus/event_bus.cpp:12-30 | started again, the bus delivers what it had left behind: when the worker next finishes after a drain that began with no publish in progress, every event accepted before the restart has been delivered, once and in order |
| `EventBuses.FinalDrainIsComplete` | core/event_bus/event_bus.cpp:68-83 | if no publish was in progress when the final drain began, every event accepted until then is delivered, once and in order, when the worker has finished |
| `EventBuses.FinishLeavesBehindIff` | core/event_bus/event_bus.cpp:79-82 | the worker finishes with accepted events undelivered exactly when the publisher of the oldest of them has claimed but not published its place |
| `EventBuses.FinishLeavesBehindHappens` | core/event_bus/event_bus.cpp:79-82 | for any event, a run from the start in which it is accepted and the worker finishes without it |
| `EventBuses.ToldIs` | core/event_bus/event_bus.cpp:92-100 | a subscription is called exactly when its minimum severity and its category let the event through |
| `EventBuses.EventBus.Deliver` | core/event_bus/event_bus.cpp:85-101 | the loop over the snapshot calls these and no others, in order |
| `EventBuses.EventBus.PublishEvent` | core/event_bus/event_bus.cpp:32-39 | accepted at the end of the queue exactly when there is room, otherwise counted as dropped |
| `EventBuses.EventBus.RemoveSubscription` | core/event_bus/event_bus.cpp:57-66 | removes the first subscription of that id and tells whether there was one |
| `EventBuses.EventBus.Drain` | core/event_bus/event_bus.cpp:80-82 | empties the queue and delivers each event in turn |
| `PluginHosts.RoutingAfterAnyRun` | core/plugin_host/plugin_host.cpp:273-321 | after any registrations and retirements prefixes are distinct, a name is routed to the one registration with the longest applying prefix, and to none exactly when no prefix applies |
| `PluginHosts.RoutePermutation` | core/plugin_host/plugin_host.cpp:308-321 | the choice is the same for every order of the registrations |
| `PluginHosts.RetiredNotRouted` | core/plugin_host/plugin_host.cpp:188-189 | no name is routed to a retired owner |
| `PluginHosts.WithoutConcat` | core/plugin_host/plugin_host.cpp:188-189 | dropping an owner's registrations works part by part, so what is left keeps its order |
| `PluginHosts.RetireKeepsOthers` | core/plugin_host/plugin_host.cpp:188-189 | names routed to other owners stay where they were |
| `PluginHosts.PluginHost.CreateOwner` | core/plugin_host/plugin_host.cpp:167-172 | a new owner id, never 0 and never used before, with no call in flight |
| `PluginHosts.PluginHost.RetireOwner` | core/plugin_host/plugin_host.cpp:179-190 | drops exactly the registrations of a known owner other than 0, keeping the order of the rest |
| `PluginHosts.PluginHost.RegisterWriter` | core/plugin_host/plugin_host.cpp:266-294 | first come, first served per prefix, attributed to the active owner or, when that one is unknown, to nobody |
| `PluginHosts.PluginHost.BeginWrite` | core/plugin_host/plugin_host.cpp:306-328 | the loop finds the longest applying prefix, fails exactly when none applies, and counts one call in for the chosen owner only |
| `PluginLifecycle.NextKeeps` | core/plugin_manager/plugin_manager.cpp:79-294 | every step keeps table, handles, owners, active owner and call traces consistent |
| `PluginLifecycle.PhaseIffWellOrdered` | core/plugin_manager/plugin_manager.cpp:120-146 | a call trace is accepted exactly when create comes first, init second, stop right after each successful start and nowhere else, and destroy last, at once after a failed init |
| `PluginLifecycle.InstanceLifecycle` | core/plugin_manager/plugin_manager.cpp:216-290 | over every sequence of operations and results every instance's trace is of that form, and a closed library's instance was never made or has been destroyed |
| `PluginLifecycle.NothingLeaks` | core/plugin_manager/plugin_manager.cpp:79-294 | between operations each opened library is closed exactly once or held by exactly one row, the host knows exactly owner 0 and the rows' distinct owners, and no owner is active |
| `HotUnload.StepKeeps` | core/plugin_host/plugin_host.cpp:179-346 | every step of manager, plugins and writer threads, whatever plugins do, keeps the in-flight counts equal to the calls in progress, prefixes distinct, and a draining owner without writers |
| `HotUnload.StepKeepsLib` | core/plugin_host/plugin_host.cpp:179-346 | for a library that registers only while it has the word and whose failed createPlugin leaves nothing: it has writers only until it is retired and calls only until it is drained, whatever other libraries do |
| `HotUnload.NoCallIntoClosedLibrary` | core/plugin_manager/plugin_manager.cpp:270-294 | in every interleaving, once such a library is closed none of its handlers is registered, chosen or running, whatever other plugins do |
| `HotUnload.DisciplinedPluginsAreSafe` | core/plugin_manager/plugin_manager.cpp:79-329 | a plugin that registers writers in init and start only is never in a thread's reach once its library is closed, nor while unload stops or destroys it, in every interleaving and whatever other plugins do |
| `HotUnload.UnloadIsQuiet` | core/plugin_manager/plugin_manager.cpp:272-286 | when unload calls stop or destroy of a library that has registered only while it had the word, no thread is in it or about to enter it, whatever other plugins do |
| `HotUnload.DrainingOnlyFalls` | core/plugin_host/plugin_host.cpp:192-206 | once an owner is retired its in-flight count never rises |
| `HotUnload.DrainingEnds` | core/plugin_host/plugin_host.cpp:203-205 | the wait can always end by the calls in flight returning, with no other step needed |
| `HotUnload.EntersIff` | core/plugin_host/plugin_host.cpp:306-338 | in any reachable state a thread can get into a library that registers nothing more, without the manager moving, exactly when a registration leads there or a thread has got past choosing one |
| `HotUnload.CloseSafeIff` | core/plugin_manager/plugin_manager.cpp:287-292 | closing any library is followed by no call into it, in every continuation, exactly when at that moment no registration leads into it and no thread has chosen one or is inside |
| `HotUnload.PoliteClosesSafely` | core/plugin_manager/plugin_manager.cpp:270-294 | which is so for a library that has registered only while it had the word |
| `HotUnload.StopRegistersHappens` | core/plugin_host/plugin_host.cpp:283-288 | for any prefix, a run in which a plugin registers it in stop during unload and is called after its library is closed |
| `HotUnload.CreateFailureSafeIff` | core/plugin_manager/plugin_manager.cpp:126-133 | after a failed createPlugin every continuation in which that library keeps to its word stays out of it once it is closed, exactly when the failed call left no writer registered |
| `HotUnload.CreateFailureHappens` | core/plugin_manager/plugin_manager.cpp:126-133 | for any prefix, a run that calls into a closed library |
| `HotUnload.DestroyOverlapIff` | core/plugin_manager/plugin_manager.cpp:136-143 | while destroy runs after a failed init, a thread can be inside the plugin exactly when init had registered a writer, and again as soon as destroy registers one under a free prefix |
| `HotUnload.DestroyOverlapHappens` | core/plugin_manager/plugin_manager.cpp:136-143 | for any prefix, a run in which a writer of init is entered while destroy runs |
| `HotUnload.DestroyRegistersHappens` | core/plugin_manager/plugin_manager.cpp:136-143 | for any prefix, a run in which init registered nothing and a writer of destroy is entered while it runs |
| `HotUnload.RunIsManagerRun` | core/plugin_manager/plugin_manager.hpp:19-21 | every run is a sequence of the manager's steps with traffic in between that does not affect them |
| `PluginManagers.PluginManager.Load` | core/plugin_manager/plugin_manager.cpp:79-153 | succeeds exactly when library, entry points, ABI version, createPlugin and init all do, then adds one row that is not started and one owner; otherwise table and owners are unchanged and the library, if it was opened, is closed |
| `PluginManagers.PluginManager.StartAt` | core/plugin_manager/plugin_manager.cpp:216-231 | started afterwards exactly when it was or start succeeds; other rows unchanged |
| `PluginManagers.PluginManager.StartAll` | core/plugin_manager/plugin_manager.cpp:233-242 | every row tried once, true exactly when all are started |
| `PluginManagers.PluginManager.StopAll` | core/plugin_manager/plugin_manager.cpp:244-258 | nothing is started afterwards; true exactly when no stop failed |
| `PluginManagers.PluginManager.BeginUnloading` | core/plugin_manager/plugin_manager.cpp:274 | the owner's registrations are gone from the host before anything else is done to the plugin, all others are kept in order |
| `PluginManagers.PluginManager.FailedInit` | core/plugin_manager/plugin_manager.cpp:136-145 | after a failed init the owner's registrations are gone, all others kept, the owner is forgotten and the library closed |
| `PluginManagers.PluginManager.UnloadAt` | core/plugin_manager/plugin_manager.cpp:270-294 | exactly that row is gone and exactly its library is closed; of the host's registrations exactly those of its owner are gone |
| `PluginManagers.PluginManager.Unload` | core/plugin_manager/plugin_manager.cpp:296-306 | unloads the first row with the id, after which no name is routed to its owner, or fails when there is none |
| `PluginManagers.PluginManager.Reload` | core/plugin_manager/plugin_manager.cpp:308-329 | the first row with the id is replaced by a new one from the same path at the end, started again if it was; after a failed load it is gone; either way the old owner's registrations are gone and all others kept |
| `PluginManagers.PluginManager.Discover` | core/plugin_manager/plugin_manager.cpp:181-214 | adds each acceptable library of the listing whose path is not loaded, none twice, started when asked; counts them |
| `PluginManagers.PluginManager.Shutdown` | core/plugin_manager/plugin_manager.cpp:66-72 | unloads all rows, last first; every library ever opened has been closed exactly once, only owner 0 is left, and the registrations left are those of no row |
| `IrspValues.ParsesPrinted` | irsp/codec/irsp1_codec.cpp:28-36 | every 64-bit integer printed in decimal parses back to itself |
| `Irsp1Bytes.DecimalDigit` | irsp/codec/irsp1_codec.cpp:162-164 | the k-th character from the right of a printed number is its k-th decimal digit, and there is no leading zero |
| `IrspValues.Encode` | irsp/codec/irsp1_codec.cpp:143-189 | the recursive printer appends exactly the value's byte form |
| `Irsp1Bytes.MarkedAndClosed` | irsp/codec/irsp1_codec.cpp:143-189 | every value's bytes begin with the mark of its kind and end with a line break |
| `Irsp1Bytes.ExampleLines` | irsp/tests/test_irsp1_codec.cpp:13-19 | the expected bytes of a text, errors with and without a message, and null |
| `Irsp1Bytes.ExampleNumbers` | irsp/tests/test_irsp1_codec.cpp:16-18 | the expected bytes of two numbers and a bulk |
| `Irsp1Bytes.ExampleArray` | irsp/tests/test_irsp1_codec.cpp:21-27 | the expected bytes of a request |
| `Irsp1Bytes.ExampleMap` | irsp/tests/test_irsp1_codec.cpp:30-33 | the expected bytes of a map |
| `Irsp1Codec.FindCrlfLoop` | irsp/codec/irsp1_codec.cpp:19-26 | the loop finds the first line break at or after a position |
| `Irsp1Codec.ParseValue` | irsp/codec/irsp1_codec.cpp:38-139 | the recursive parser with its loops computes the parse function; a success consumes at least 3 bytes and stays within the buffer |
| `Irsp1Codec.DecodeIsStable` | irsp/codec/irsp1_codec.cpp:197-200 | a verdict of Ok or error, with value and length, does not change when more bytes follow |
| `Irsp1Bytes.LineVerdict` | irsp/codec/irsp1_codec.cpp:51-120 | a whole first line with an unknown mark, a number that is none or a negative count of entries is refused whatever follows; texts and numbers are accepted on it |
| `Irsp1Bytes.BulkVerdict` | irsp/codec/irsp1_codec.cpp:71-89 | a bulk of the announced length is accepted exactly when a line break follows it, and otherwise refused |
| `Irsp1Bytes.BulkWaits` | irsp/codec/irsp1_codec.cpp:80-83 | it is waited for as long as its bytes and two more have not all come |
| `Irsp1Bytes.ContainerVerdict` | irsp/codec/irsp1_codec.cpp:90-133 | an array or a map is refused, or waited for, as its first element is that is not read |
| `Irsp1RoundTrip.RoundTrip` | irsp/codec/irsp1_codec.cpp:38-200 | decoding an encoding, with anything after it, gives the value back and consumes exactly its bytes if and only if no framing byte is in its simple and error texts |
| `Irsp1RoundTrip.ProperPrefixIncomplete` | irsp/codec/irsp1_codec.cpp:39-46 | every proper prefix of such an encoding is reported incomplete |
| `Irsp1RoundTrip.StreamRoundTrip` | irsp/codec/irsp1_codec.cpp:101-108 | encodings one after the other decode to the same values in order |
| `Irsp1RoundTrip.PrefixFree` | irsp/codec/irsp1_codec.cpp:191-195 | no such encoding is a prefix of another value's |
| `Topics.SplitTopic` | irsp/semantic/topic.cpp:5-21 | the loop yields the levels of a topic |
| `Topics.SplitInjective` | irsp/semantic/topic.cpp:5-21 | splitting loses nothing: different topics have different levels |
| `Topics.CheckPattern` | irsp/semantic/topic.cpp:31-55 | valid exactly when not empty, no level empty, and wildcards only as whole levels with `#` last |
| `Topics.CheckConcrete` | irsp/semantic/topic.cpp:57-67 | concrete exactly when valid and without wildcard levels |
| `Topics.MatchTopic` | irsp/semantic/topic.cpp:69-92 | the two-cursor loop decides whether the pattern covers the topic level by level, a final `#` covering any rest, even none |
| `Topics.CoversStep` | irsp/semantic/topic.cpp:77-91 | covering is decided by the first level and then the rest |
| `SubscriptionIndex.RunSound` | irsp/semantic/topic_trie.cpp:7-70 | after any operations with any arguments every trie entry is in the reverse index, which holds only valid patterns |
| `SubscriptionIndex.RunExact` | irsp/semantic/topic_trie.cpp:7-70 | with valid unsubscribe patterns the two agree exactly |
| `SubscriptionIndex.UnsubscribeKeepsExact` | irsp/semantic/topic_trie.cpp:31-58 | from agreement, an unsubscribe keeps agreement exactly when it is not a malformed pattern whose walk ends at an entry of that subscriber |
| `SubscriptionIndex.MatchIsExact` | irsp/semantic/topic_trie.cpp:92-99 | after such operations a subscriber is matched exactly when one of its registered patterns matches the topic |
| `SubscriptionIndex.MatchNeverOverReports` | irsp/semantic/topic_trie.cpp:92-99 | after any operations whoever is matched has a registered pattern that matches |
| `SubscriptionIndex.UnsubscribeAllSilences` | irsp/semantic/topic_trie.cpp:60-70 | afterwards the subscriber is in no match, and every other's matches and patterns are as before, even after malformed unsubscribes |
| `SubscriptionIndex.LeftoverCount` | irsp/semantic/topic_trie.cpp:60-70 | "unsubscribe all" leaves no pattern counted exactly when none had been orphaned |
| `SubscriptionIndex.OperationsAreIsolated` | irsp/semantic/topic_trie.cpp:7-70 | an operation of one subscriber changes nobody else's matches |
| `SubscriptionIndex.MalformedUnsubscribeLeaks` | irsp/semantic/topic_trie.cpp:47-55 | a malformed unsubscribe that ends at a registered pattern leaves it counted even after "unsubscribe all" |
| `SubscriptionIndex.MalformedExample` | irsp/semantic/topic_trie.cpp:34-40 | `a/#/b` is such a malformed spelling of `a/#` |
| `SubscriptionIndex.ExactIff` | irsp/semantic/topic_trie.cpp:47-56 | the indexes agree exactly when they hold the same pairs |
| `TopicTries.TopicTrie.Subscribe` | irsp/semantic/topic_trie.cpp:7-29 | the trie and the reverse index together become the registry with that subscription, and are unchanged for an invalid pattern |
| `TopicTries.TopicTrie.Unsubscribe` | irsp/semantic/topic_trie.cpp:31-58 | they become the registry without what the unvalidated walk finds |
| `TopicTries.TopicTrie.UnsubscribeAll` | irsp/semantic/topic_trie.cpp:60-70 | the loop over a copy of the patterns has the registry's effect |
| `TopicTries.TopicTrie.Collect` | irsp/semantic/topic_trie.cpp:72-90 | the depth-first search adds exactly those below a node whose path covers the remaining levels |
| `TopicTries.ReachStep` | irsp/semantic/topic_trie.cpp:74-89 | whoever is reached from a node is reached by its `#` child, at the end itself, or by one of the two children for the next level |
| `TopicTries.TopicTrie.Match` | irsp/semantic/topic_trie.cpp:92-99 | the matching subscribers, each once, ascending; none for a topic that is not concrete |
| `TopicTries.TopicTrie.Size` | irsp/semantic/topic_trie.cpp:101-107 | the number of remembered pairs of pattern and subscriber |
| `TopicTries.TopicTrie.CountFor` | irsp/semantic/topic_trie.cpp:109-112 | the number of patterns remembered for one subscriber |
| `TopicTries.ShapeAdd` | irsp/semantic/topic_trie.cpp:14-24 | hanging a new node below one keeps a tree with one path to every node |
| `Dispatchers.Dispatcher.Handle` | irsp/semantic/dispatcher.cpp:51-236 | every request gets the reply and the effect specified for its command, its arity and its arguments |
| `Dispatchers.ReadMany` | irsp/semantic/dispatcher.cpp:109-120 | the loop of MGET reads the tags one after the other, each as it is stored when its turn comes |
| `Dispatchers.ScanPage` | irsp/semantic/dispatcher.cpp:127-151 | SCAN checks arity, COUNT and pattern in this order and returns cursor and names of the page |
| `Dispatchers.ReadCount` | irsp/semantic/dispatcher.cpp:33-38 | reading digit by digit accepts exactly unsigned 64-bit numbers of digits only |
| `CoreTagWriters.SetOkIff` | irsp/semantic/dispatcher.cpp:212-229 | SET changes no subscription; with a writer installed it is answered OK exactly when HELLO was said, there are three arguments, the bytes are a value of the named type, and the plugin registered under the longest prefix of the name takes that value |
| `CoreTagWriters.SetDelivers` | irsp/server/core_tag_writer.cpp:54-62 | every tag value a client sends in its encoded form reaches that plugin as the value it was, and the answer says whether the plugin took it |
| `CoreTagWriters.WriteTag` | irsp/server/core_tag_writer.cpp:54-62 | unreadable bytes fail before any plugin is asked; otherwise the value goes to the registration with the longest applying prefix, if there is a handler, and no call stays counted in |
| `CoreTagWriters.HostWrite` | core/plugin_host/plugin_host.cpp:296-346 | accepted exactly when a prefix applies and the writer under the longest one takes the value; every in-flight count is as before |
| `Dispatchers.ManyAsOne` | irsp/semantic/dispatcher.cpp:109-120 | MGET answers item by item as a GET at that moment would, while tags may change between one item and the next |
| `Dispatchers.ExistsAgreesIff` | irsp/semantic/dispatcher.cpp:102-126 | EXISTS tells whether GET finds anything exactly unless the name is empty and a tag is stored under it |
| `Dispatchers.EmptyNameDisagrees` | core/tag_engine/tag_engine.cpp:75-92 | with a tag stored under the empty name EXISTS answers 1 while GET and MGET answer null |
| `Dispatchers.RespondSame` | irsp/semantic/dispatcher.cpp:153-210 | a reply and its effect on its session depend on that session's own subscriptions only |
| `Dispatchers.ReplyIsNoPush` | irsp/semantic/dispatcher.cpp:40-47 | no reply can be taken for a push |
| `Dispatchers.ErrorsChangeNothing` | irsp/semantic/dispatcher.cpp:153-206 | a request answered with an error leaves session and subscriptions as they were |
| `Dispatchers.HelloFirst` | irsp/semantic/dispatcher.cpp:70-90 | before a successful HELLO nothing has any effect, and it is never forgotten |
| `Dispatchers.OnlyOwnSubscriptions` | irsp/semantic/dispatcher.cpp:153-210 | a request changes only its own session's tag and event subscriptions |
| `Dispatchers.SubscribeTells` | irsp/semantic/dispatcher.cpp:167-180 | after a SUBSCRIBE of valid patterns, in any capitalization, exactly those told about a topic before are told, and this session if one of its patterns matches |
| `Dispatchers.UnsubscribeSilences` | irsp/semantic/dispatcher.cpp:181-190 | after UNSUBSCRIBE without arguments the session is told about nothing, and everybody else about the same topics |
| `CommandLaws.AddingRemembers` | irsp/semantic/dispatcher.cpp:153-180 | WATCH and SUBSCRIBE are refused exactly when there is no argument or one does not fit; otherwise the patterns remembered are those before and the arguments, and the reply is how many that are |
| `CommandLaws.WatchTells` | irsp/semantic/dispatcher.cpp:153-166 | after a WATCH of topics exactly those told about a topic before are told, and the sender if it is one of them |
| `CommandLaws.DroppingTells` | irsp/semantic/dispatcher.cpp:181-190 | after UNWATCH or UNSUBSCRIBE of valid patterns, in any capitalization, the sender is told about a topic exactly when one of its patterns not among the arguments matches, and everybody else as before |
| `CommandLaws.DroppingRemembers` | irsp/semantic/dispatcher.cpp:181-190 | the patterns that remain are those not among the arguments, and the reply is how many that are, when nothing had been orphaned |
| `CommandLaws.DroppingAll` | irsp/semantic/dispatcher.cpp:182-189 | without arguments the sender is told about nothing, and the reply is 0 exactly when none of its patterns had been orphaned |
| `CommandLaws.SubeventTells` | irsp/semantic/dispatcher.cpp:192-206 | SUBEVENT is refused exactly when its first argument is no severity; otherwise the sender is told of exactly the events at least so severe and of the given category, and everybody else as before |
| `CommandLaws.UnsubeventSilences` | irsp/semantic/dispatcher.cpp:207-210 | after UNSUBEVENT the sender is told of no event, and everybody else of the same ones |
| `CommandLaws.RankIsPlace` | irsp/semantic/dispatcher.cpp:21-31 | the severities rank info, warning, alarm, critical, and nothing else is one |
| `CommandLaws.RefusedWhen` | irsp/semantic/dispatcher.cpp:70-236 | a command is refused as too early, as unknown, or for the number of its arguments exactly when HELLO has not been said, its name is none of the seventeen, or it does not take so many |
| `CommandLaws.ProtocolErrorIff` | irsp/semantic/dispatcher.cpp:51-64 | a request is a protocol error exactly when it is not a non-empty array of bulk strings |
| `CommandLaws.HelloIff` | irsp/semantic/dispatcher.cpp:75-90 | HELLO is accepted exactly for version 1 |
| `CommandLaws.ScanTells` | irsp/semantic/dispatcher.cpp:127-151 | SCAN asks for the page at its cursor, with its pattern and the count printed in decimal or 0, and replies with the next cursor and then the names in order |
| `CommandLaws.PingEchoes` | irsp/semantic/dispatcher.cpp:92-94 | PING comes back with its first argument, or as PONG |
| `Dispatchers.EachEntries` | irsp/semantic/dispatcher.cpp:176-187 | the loops over valid arguments add, or drop, exactly one entry per argument |
| `Dispatchers.Dispatcher.OnSessionClosed` | irsp/semantic/dispatcher.cpp:238-241 | both kinds of subscription of a closed session are dropped |
| `Dispatchers.Dispatcher.EventSubscribers` | irsp/semantic/dispatcher.cpp:243-257 | exactly the sessions whose filter lets the event through, ascending |
| `IrspServers.DecodeInline` | irsp/codec/irsp1_codec.cpp:202-215 | the loop yields the words of a line |
| `IrspServers.WordsAreMaximal` | irsp/codec/irsp1_codec.cpp:203-213 | words hold no blank and are not empty, and together they are the line without its blanks |
| `IrspServers.IrspServer.OnEstablished` | irsp/server/irsp_server.cpp:143-154 | a new connection with the next id |
| `IrspServers.IrspServer.OnReceive` | irsp/server/irsp_server.cpp:156-170 | fragments are collected and a complete frame is processed once |
| `IrspServers.IrspServer.OnFrame` | irsp/server/irsp_server.cpp:111-139 | nothing for a blank frame; one error and closing for an unreadable one; otherwise the request's effect, the pushes a SET causes, then one reply, and closing after BYE |
| `IrspServers.IrspServer.OnWriteable` | irsp/server/irsp_server.cpp:172-195 | sends the oldest queued frame; closes when writing failed, or when nothing is left and closing was asked for |
| `IrspServers.IrspServer.OnDisconnected` | irsp/server/irsp_server.cpp:208-216 | the connection and all its subscriptions are gone |
| `IrspServers.IrspServer.OnTagChanged` | irsp/server/irsp_server.cpp:230-252 | one push frame at the end of the queue of every live subscriber of the topic, and nothing else |
| `IrspServers.IrspServer.OnEvent` | irsp/server/irsp_server.cpp:254-273 | likewise for the sessions whose filter lets the event through |
| `IrspServers.RunLive` | irsp/server/irsp_server.cpp:141-222 | in every run every id in the trie or the event table belongs to a live connection |
| `IrspServers.ClosedForever` | irsp/server/irsp_server.cpp:208-216 | after a connection is closed its id is never a connection again and no tag or event is ever routed to it, whatever was sent before or after |
| `ConnectionClosing.ByeCloses` | irsp/server/irsp_server.cpp:133-138 | a complete request makes its connection a closing one exactly when its command is BYE, in any capitalization; the reply is queued all the same |
| `ConnectionClosing.BadFrameCloses` | irsp/server/irsp_server.cpp:118-122 | so does a complete frame that cannot be read, after one error |
| `ConnectionClosing.ClosingStays` | irsp/server/irsp_server.cpp:156-222 | a closing connection stays one until it is gone, in every run |
| `ConnectionClosing.EndsWhenDrained` | irsp/server/irsp_server.cpp:172-195 | its queued frames go out in order and it is ended with the last of them, not before, or at once when none is queued |
| `ConnectionClosing.StaysOpen` | irsp/server/irsp_server.cpp:178-193 | a connection that is not closing is ended only when writing fails |
| `ReplyMatching.IrspClient.Send` | sdk/irsp-client/JS/src/client.js:87-96 | rejected when the connection is not open; otherwise the request is put last among those waiting and its frame is sent |
| `ReplyMatching.IrspClient.OnFrame` | sdk/irsp-client/JS/src/client.js:66-84 | a push is delivered; an error rejects and any other readable frame resolves the oldest request that waits |
| `ReplyMatching.IrspClient.OnClose` | sdk/irsp-client/JS/src/client.js:48-52 | every request still waiting is rejected, oldest first |
| `ReplyFrames.ErrorReads` | irsp/codec/irsp1_codec.cpp:54-61 | an error whose code holds no blank and no line break is read with that code and its message up to the first line break |
| `ReplyFrames.ReplyReads` | irsp/semantic/dispatcher.cpp:51-236 | every reply's bytes are read as a reply, with its code, and unchanged exactly unless it echoes an unknown command whose name holds a line break |
| `ReplyFrames.PushReads` | irsp/server/irsp_server.cpp:45-64 | every pushed frame's bytes are read as that push |
| `FrameContents.PushTellsTag` | irsp/server/irsp_server.cpp:45-53 | a pushed frame, decoded and looked up by key, carries the tag's name and time, and a type and bytes that read as the value the store holds |
| `FrameContents.GetTellsTag` | irsp/semantic/dispatcher.cpp:40-47 | so does the reply to a GET of a stored tag; for any other name, and the empty one, it is null |
| `FrameContents.PushTellsEvent` | irsp/server/irsp_server.cpp:55-64 | a pushed event, decoded and looked up by key, carries source, category, severity by name, time and message |
| `FrameContents.SeverityNamed` | irsp/server/irsp_server.cpp:26-38 | severities are named in the order of their ranks, an unknown one "info" |
| `FrameContents.AskedByName` | irsp/semantic/dispatcher.cpp:192-206 | a session that names a severity is told of an event exactly when the name pushed with it comes no earlier in that order |
| `FrameContents.ChangeIsTold` | irsp/server/irsp_server.cpp:230-252 | a change puts one frame that tells the tag at the end of the queue of each connection with a matching pattern, and nothing anywhere else |
| `FrameContents.EventIsTold` | irsp/server/irsp_server.cpp:254-273 | an event puts one frame that tells it at the end of the queue of each connection whose filter lets it through, and nothing anywhere else |
| `ReplyFrames.EchoExact` | irsp/semantic/dispatcher.cpp:235 | the echo of an unknown command arrives unchanged exactly when it holds no line break |
| `ReplyMatching.OwnRequest` | irsp/server/irsp_server.cpp:133-138 | a complete request has its command's outcome and queues the pushes it causes, then exactly one reply |
| `ReplyMatching.ForeignTold` | irsp/server/irsp_server.cpp:230-273 | anything else that happens to the server queues for this connection exactly the pushes due to it, and no reply |
| `ReplyMatching.NetKeeps` | irsp/server/irsp_server.cpp:111-195 | every step keeps requests and replies in transit in matching order |
| `ReplyMatching.RequestsGetTheirReplies` | sdk/irsp-client/JS/src/client.js:66-96 | in every interleaving the client's i-th result is the reply to its i-th request that a server of its own would have given after the same requests and tag states, as it reads, or is lost with the connection; the pushes delivered are the first of those due, in order; with nothing in transit every request has its result and every push is delivered |
| `TagEngines.TagEngine.WriteImpl` | core/tag_engine/tag_engine.cpp:24-37 | the tag is stored, nothing else changes; changed exactly when it is new or its value differs |
| `TagEngines.TagEngine.WriteCopy` | core/tag_engine/tag_engine.cpp:39-48 | the callback is called with the tag exactly on change |
| `TagEngines.TagEngine.WriteMove` | core/tag_engine/tag_engine.cpp:50-63 | the same through reading the tag back, except for the empty name, which never reads |
| `TagEngines.TagEngine.WriteBatch` | core/tag_engine/tag_engine.cpp:65-73 | all are written in order and the changes counted |
| `TagEngines.LastWriteWins` | core/tag_engine/tag_engine.cpp:65-73 | after a batch every name written holds its last write, every other one what it held |
| `TagEngines.ChangesCounted` | core/tag_engine/tag_engine.cpp:65-73 | the number reported is that of the writes whose value differs from the latest earlier write of the name, or else from what was stored |
| `TagEngines.TagEngine.Read` | core/tag_engine/tag_engine.cpp:75-86 | the stored tag; nothing for the empty name |
| `TagEngines.TagEngine.Remove` | core/tag_engine/tag_engine.cpp:94-98 | that tag only is gone |
| `TagEngines.TagEngine.Size` | core/tag_engine/tag_engine.cpp:100-107 | the shards' sizes add up to the number of tags |
| `TagEngines.TagEngine.Snapshot` | core/tag_engine/tag_engine.cpp:109-119 | every tag exactly once |
| `TagCurrency.StepKeeps` | irsp/server/irsp_server.cpp:230-252 | every step of writers, requests and removals keeps every due subscriber either up to date, or with a thread that will tell it |
| `TagCurrency.LastFrameIsCurrent` | irsp/server/irsp_server.cpp:230-248 | in every interleaving, when no change is still being told, every connection subscribed before a tag's last change was last told the value the tag has now |
| `TagCurrency.StaleWithoutMutex` | irsp/server/irsp_server.hpp:84-85 | without the mutex two writers of any topic can leave a subscriber with the old value for good |
| `CoreTagSource.ReadRecord` | irsp/server/core_tag_source.cpp:67-74 | finds what is stored under the name, in its byte form, but never the empty name |
| `CoreTagSource.TagExists` | irsp/server/core_tag_source.cpp:76 | true exactly when a tag is stored under the name, the empty one included |
| `CoreTagSource.RecordKeepsValue` | irsp/server/core_tag_source.cpp:72-73 | the type tag and bytes of a record read back as the stored value |
| `CoreTagSource.Scan` | irsp/server/core_tag_source.cpp:78-100 | one page: the first matching names after the cursor, ascending, at most the limit, with the last as next cursor, or all that are left with the end cursor |
| `CoreTagSource.ScanReturnsAllPresent` | irsp/server/core_tag_source.cpp:78-100 | over a changing store, iterating to the end yields strictly ascending names and every matching tag present at every call exactly once, unless the last page was cut short; that happens only at a tag named "0", and then a matching tag of the last call is missed |
| `CoreTagSource.FixedStoreScan` | irsp/server/core_tag_source.cpp:91-98 | over a fixed store everything is returned exactly unless a full page with more to come ends at "0"; it then takes one call per started page, at least one |
| `CoreTagSource.StopsEarlyHappens` | irsp/server/core_tag_source.cpp:80-97 | of the tags "0" and "1" a scan one name at a time returns "0" and ends |
| `VariantCodec.VariantRoundTrip` | irsp/server/core_tag_source.cpp:26-59 | every tag value survives type tag and bytes |
| `VariantCodec.EncodedBytes` | irsp/server/core_tag_source.cpp:20-24 | a number is written in as many bytes as it is wide, byte k being its two's complement divided by 256 to the power of k, modulo 256: lowest byte first |
| `VariantCodec.DecodedBytes` | irsp/server/core_tag_writer.cpp:14-18 | and read so from the first bytes |
| `VariantCodec.TagNames` | irsp/server/core_tag_source.cpp:26-59 | a number's type tag is the letter of its kind and its width in bits |
| `VariantCodec.OtherBytes` | irsp/server/core_tag_source.cpp:30-33 | a truth value is one byte, 1 or 0, and read as true from any other than 0; a text is its own bytes; nothing has none |
| `VariantCodec.FixedWidth` | irsp/server/core_tag_writer.cpp:21-50 | a fixed-width tag is read exactly when there are enough bytes, from the first of them only, and writes back to these bytes |
| `VariantCodec.EncodingsDiffer` | irsp/server/core_tag_source.cpp:26-59 | no two values share tag and bytes |
| `Schedulers.StepKeeps` | core/scheduler/scheduler.cpp:63-106 | every step keeps wake-up time, due times and history consistent |
| `Schedulers.CollectingFindsWork` | core/scheduler/scheduler.cpp:72-98 | every pass that gets as far as collecting finds a due task |
| `Schedulers.NeverTooOften` | core/scheduler/scheduler.cpp:37-106 | the k-th collection is at least k intervals after the task was added, so it has been collected at most as often as its interval fits into the time since; calls follow collections one to one |
| `Schedulers.DueOneIntervalLater` | core/scheduler/scheduler.cpp:93-98 | over every run a task in the table is due exactly one interval after its last collection, or after it was added |
| `Schedulers.DueIsCollected` | core/scheduler/scheduler.cpp:78-98 | nothing due is slept through: a sleeping worker can wake, and its next steps alone collect the task |
| `Schedulers.AddedUntilRemoved` | core/scheduler/scheduler.cpp:37-56 | a task added gets an id no task has had and stays, at its interval, exactly until that id is removed |
| `Schedulers.RemovedIsOver` | core/scheduler/scheduler.cpp:48-56 | a removed task is never collected again in any continuation; only the call of its last collection may still be made |
| `Schedulers.Scheduler.FindSoonest` | core/scheduler/scheduler.cpp:73-76 | the least due time in the table |
| `Schedulers.Scheduler.CollectDue` | core/scheduler/scheduler.cpp:91-98 | exactly the due tasks, each once, and only these get a new due time |
| `Schedulers.Scheduler.RemoveTask` | core/scheduler/scheduler.cpp:48-56 | the task is gone and the version changes exactly when it was there, as in the step of the machine |

## Left out

- libwebsockets, sockets, wake-up calls, dynamic linking and directory iteration: their results are inputs of the model.
- Memory orders, and runs of the ring that issue more than 2^63 minus its size tickets.
- Waiting for calls in flight inside the manager class: the class records the step; the wait itself, with other threads, is in `HotUnload`.
- PluginManagers.PluginManager.Load: leaves out the writers a plugin registers meanwhile, which are steps of `HotUnload`.
- EventBuses.EventBus.Drain: is the drain loop used by one thread; with publishers running it is part of `EventBuses.NothingLostOrRepeated`.
- Creating, starting and joining the worker threads of the bus, the scheduler and the server.
- Conversions at the plugin interface between C structures and the runtime's types.
- Dispatchers.Dispatcher.Handle: takes tag reads, scans and the write-back result as inputs; `TagEngines`, `CoreTagSource`, `CoreTagWriters` and `PluginHosts` model them.
- ReplyMatching.IrspClient.OnFrame: reads frames with the C++ decoder; the JavaScript decoder accepts the same well-formed frames and is not modelled separately.
- Requests still on their way to the server when the connection is lost: they are dropped together with it.
- TagCurrency.LastFrameIsCurrent: takes a callback that stays installed; start and stop of the server change it.
- Floating-point values beyond their bit patterns; NaN, which differs from itself, would count as a change at every write.
- Logging, configuration, the memory store, admin commands, the other client libraries, drivers and demonstration programs: little to prove.
- Stream frames, which no protocol command carries yet.
