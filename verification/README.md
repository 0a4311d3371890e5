# Verified models of the Hermes WebUI server core

A Dafny 4.11 project that models the parts of the WebUI server whose behaviour
spans several functions, threads or processes, and proves what those parts are
for. `dafny verify dfyconfig.toml` checks all of it.

| file | models |
|---|---|
| `Continuation.dfy`, `LineageTips.dfy`, `Projection.dfy`, `Conversations.dfy`, `SubagentAncestors.dfy` | Session lineage: rows linked by `parent_session_id` are collapsed into one conversation per continuation tree. Root walks, both tip searches, the projection, what a conversation consists of, and the worklist that re-adds subagent parents after the recency slice. |
| `AdmissionGate.dfy`, `WakeupDelivery.dfy`, `WakeupTurns.dfy` | Delivery of background-process wakeups: the drain thread's gate, the deferred list, claims, re-deferral after a busy answer, and when a turn may start. |
| `SessionChannels.dfy`, `SessionBroadcast.dfy`, `EmitCoalescer.dfy` | The per-session event channels with their reaper, broadcasts whose offers interleave with everything else, and the coalescing gate whose cancelled timers may still fire. |
| `GatewayRendezvous.dfy` | The meeting of a gateway worker and the requests waiting for its run id. |
| `PngScanner.dfy`, `GifScanner.dfy`, `JpegScanner.dfy`, `Bytes.dfy` | The scanners that accept exactly complete image files. |
| `CborValues.dfy`, `CborReader.dfy`, `CborRoundTrip.dfy`, `CborGrammar.dfy`, `Utf8Text.dfy` | The CBOR reader of the passkey code, its inverse, and the grammar of what it accepts. |
| `SidecarToken.dfy` | The per-extension token file, minted, read and reset by many processes. |
| `SnapshotStore.dfy` | The content-addressed store of media snapshots with its quota. |
| `ProbeCache.dfy` | The single-flight probe of a remote gateway and its one-line cache. |

Three conventions recur. Code that updates state in place is a class whose
methods are proved equal to functions on a value holding that state. A
concurrent protocol is a state machine whose steps are the critical sections;
its theorems quantify over every schedule of steps. Where the shared state is
made of objects (event channels, the token file), a method lets others take any
number of steps between any two of the operation's own. A loop that walks a
structure is proved against a declarative description of it (a reachable set, a
grammar, an order-free eviction rule), in both directions.

Where code and documentation differ the model follows the code: the probe cache
keeps one line for all URLs although its documentation says per URL
(`ProbeCache.OtherUrlTakesLine`), a re-captured snapshot keeps its old age, the
CBOR reader takes some floats for simple values
(`CborGrammar.HalfFloatLoadsAsFalse`), and two sources can meet in one
conversation through a row that has none (`Conversations.MissingSourceBridges`).
`TipsAgree` gives the exact condition under which the two tip searches agree,
for all scores; a negative score matters only to whether a conversation without
messages in its root has a tip at all (`NegativeScoreHidesTree`).

## Model

| member | source | states |
|---|---|---|
| Continuation.ContinuationRootId | api/agent_sessions.py:344-362 | The walk always ends by itself: its length-plus-one bound is never what stops it, cyclic rows included. The root is the one the unbounded walk finds; no id gives no root. |
| Continuation.ContinuationRootAndDepth | api/agent_sessions.py:1146-1166 | Finds the same root as the bounded walk on every row map, and a depth at which the row really hangs below that root along continuation links. |
| Continuation.RootReached | api/agent_sessions.py:344-362 | Every row hangs, at some depth, below the root its walk stops at, and the root is none of the rows already seen. |
| Continuation.DepthUnique | api/agent_sessions.py:1146-1166 | A row has at most one depth below a given root, so the depth reported is the depth. |
| Continuation.AcyclicRoot | api/agent_sessions.py:344-362 | With acyclic continuation links the walk stops at a row that continues nothing, whatever rows it had already seen below. |
| Continuation.ContinuationSharesRoot | api/agent_sessions.py:344-362 | With acyclic links a continuation and the row it continues have the same root. |
| Continuation.OrderedTimesAreAcyclic | api/agent_sessions.py:308-341 | If every row closed by compression or by the CLI has an end time after its start time, continuation links cannot form a cycle. |
| Continuation.ClimbingGoesBack | api/agent_sessions.py:308-341 | Along continuation links, start times strictly decrease from child to ancestor under that same condition. |
| LineageTips.PushContinuations | api/agent_sessions.py:431-437 | Pushing the continuation children of a visited row keeps the search invariant: everything one link below the visited rows is visited or on the stack, at its right depth. |
| LineageTips.CompressionSearch | api/agent_sessions.py:395-439 | The depth-first search visits each row of the tree exactly once, and its best row so far is an argmax by (score, depth) of the importable rows visited. |
| LineageTips.CompressionTip | api/agent_sessions.py:395-439 | The segment count is the number of rows reachable from the root. The tip is an importable row of maximal score in that tree, deepest among equals; there is none exactly when no row of the tree is importable. |
| LineageTips.FreshestSearch | api/agent_sessions.py:1168-1194 | The second search, which may push a row twice, also counts every row of the tree once and keeps an argmax, starting from the root whether or not the root has messages. |
| LineageTips.FreshestContinuationTip | api/agent_sessions.py:1168-1194 | The segment count is the size of the tree; the tip is the root or a row with messages, of maximal score and then depth among these. An unknown root gives itself and 1. |
| LineageTips.TipsAgree | api/agent_sessions.py:395-439 | Whatever the scores: the two searches pick rows of equal score and depth if and only if the first one's tip scores no less than the root; a root with messages always meets that. |
| LineageTips.NegativeScoreHidesTree | api/agent_sessions.py:423-430 | A row with messages but a negative score, under a root without messages, is not importable, so that its conversation has no tip: ShownMeansMessages needs its condition on scores. The exact condition for having no tip is the one in CompressionTip. |
| Projection.TreesDisjoint | api/agent_sessions.py:376-383 | Continuation trees under different heads share no row. |
| Projection.EveryRowHasOneHead | api/agent_sessions.py:376-383 | With acyclic links each row lies in the tree of exactly one row that continues nothing: the root its walk finds. |
| Projection.SegmentsCountEveryRow | api/agent_sessions.py:395-449 | The segment counts of all heads, shown or not, add up to the number of rows: no row is lost or counted twice. |
| Projection.IndexChildren | api/agent_sessions.py:376-393 | One pass yields child lists that contain exactly each row's children, and exactly the ids that continue their parent. |
| Projection.ProjectHead | api/agent_sessions.py:442-489 | A head is emitted if and only if its conversation holds an importable row, and then as itself or with the freshest such row and the size of its tree. A head not closed by compression or by the CLI, for which no search is made, fits the same statement. |
| Projection.Project | api/agent_sessions.py:365-495 | Exactly one row per conversation that can be imported, each representing its conversation as above; ids of the emitted rows are pairwise distinct; scores descend. |
| Projection.SortSorts | api/agent_sessions.py:491-495 | The final sort orders the rows by descending key. |
| Projection.SortKeepsRows | api/agent_sessions.py:491-495 | The final sort loses and duplicates nothing. |
| Projection.ShownMeansMessages | api/agent_sessions.py:441-451 | With no negative score a conversation is shown if and only if some row of it has messages. |
| Conversations.SegmentFollowsParent | api/agent_sessions.py:308-341 | Every row of a conversation but its head is no fork, hangs under a parent closed by compression or by the CLI, started no earlier than that parent ended, and has its parent's source unless one of the two has none. |
| Conversations.SegmentIsNoHead | api/agent_sessions.py:308-341 | Conversely such a row is never emitted as a head of its own, and lies in every tree its parent lies in. |
| Conversations.OneSource | api/agent_sessions.py:308-341 | Where rows name their source, all rows of a conversation have the head's source. |
| Conversations.MergedFromOneSource | api/agent_sessions.py:442-489 | So a head is merged only with a tip of its own source. |
| Conversations.OtherSourceStandsAlone | api/agent_sessions.py:308-341 | A row with messages whose parent has another source heads a conversation that is shown. |
| Conversations.ForkStandsAlone | api/agent_sessions.py:308-341 | So does a fork, or a row whose parent ended otherwise. |
| Conversations.MissingSourceBridges | api/agent_sessions.py:323-329 | A middle row without a source lets two sources meet in one conversation: OneSource needs its condition. |
| Conversations.NothingFresher | api/agent_sessions.py:395-439 | No row with messages of the conversation was active after the emitted tip, nor at the same time and deeper. |
| Conversations.NewestFirst | api/agent_sessions.py:491-495 | Emitted rows stand by the last activity of their tips, newest first; a tip without one counts by its head's start. |
| SubagentAncestors.AddAncestors | api/agent_sessions.py:782-818 | The first `limit` rows are an unchanged prefix of the result; what follows are exactly the rows of the least set that holds them and the projected subagent parent of each of its subagent rows. A limit of zero or less selects nothing, one no smaller than the projection adds nothing; ids stay distinct; it terminates on cyclic parents. |
| GatewayRendezvous.Rendezvous.MarkStarting | api/gateway_chat.py:50-58 | Starts a fresh pending entry and forgets an old id, touching no other stream. |
| GatewayRendezvous.Rendezvous.PublishRunId | api/gateway_chat.py:61-71 | Makes the entry ready with the id, keeping the waiter count and the owner flag, and wakes everybody. |
| GatewayRendezvous.Rendezvous.FinishStarting | api/gateway_chat.py:74-86 | Leaves a ready entry alone; otherwise records fallback or failure, keeps the count, and wakes everybody. |
| GatewayRendezvous.Rendezvous.RetireIfDone | api/gateway_chat.py:89-99 | Removes both map entries if and only if nobody waits and the owner is done. |
| GatewayRendezvous.Rendezvous.ClearStarting | api/gateway_chat.py:102-108 | Records that the owner is done and retires the entry if nobody waits. |
| GatewayRendezvous.Rendezvous.RecordApprovalRun | api/gateway_chat.py:1177-1178 | The unlocked write of the legacy path sets the stored id and nothing else. |
| GatewayRendezvous.Rendezvous.Inspect | api/gateway_chat.py:124-141 | The verdict of one turn of the waiting loop equals the specification function on the two map entries, branch by branch. |
| GatewayRendezvous.Rendezvous.Enter | api/gateway_chat.py:116-148 | A call up to its first sleep or its return: registered only if an entry was there, and unregistered again on return. |
| GatewayRendezvous.Rendezvous.Resume | api/gateway_chat.py:123-148 | One more turn of the loop, woken, timed out or spuriously: sleep again with the count kept, or leave. |
| GatewayRendezvous.Rendezvous.Leave | api/gateway_chat.py:142-148 | Leaving lowers the count, never below zero, and the last one out retires a finished entry and notifies. |
| GatewayRendezvous.InvAlways | api/gateway_chat.py:50-148 | After every legal schedule of one owner and any number of waiters: the entry exists while the owner runs or a waiter is inside, it counts the waiters and knows whether the owner is done, it is ready exactly when an id was published and then holds that id, and only that id was ever answered. |
| GatewayRendezvous.CountIsExact | api/gateway_chat.py:116-148 | In every run the stored count equals the number of threads inside the wait, and no entry is removed while one is inside. |
| GatewayRendezvous.RetiredExactlyWhenUnneeded | api/gateway_chat.py:89-108 | Once the owner has cleared, both maps have no entry if and only if no waiter is inside. |
| GatewayRendezvous.AnswersArePublished | api/gateway_chat.py:61-71 | Every waiter that was ever given an id was given the one the owner published. |
| GatewayRendezvous.ReadyIsFinal | api/gateway_chat.py:74-86 | No step takes a ready entry back: it stays ready with the same id until it is retired with nobody inside. |
| GatewayRendezvous.NoLostWakeup | api/gateway_chat.py:116-148 | A waiter that no notification has reached would, if it looked now, only go back to sleep. |
| GatewayRendezvous.UnstructuredMeansFallback | api/gateway_chat.py:124-137 | "No structured run" is answered only in the fallback phase or when there is neither an entry nor an id. |
| GatewayRendezvous.ToldExactly | api/gateway_chat.py:124-140 | In every run what a waiter is told follows from the owner's calls alone: the published id, else whether the last finish said fallback, else nothing yet, when it sleeps until its deadline and then hears that there is no id. |
| GatewayRendezvous.SleepsExactly | api/gateway_chat.py:138-141 | A waiter sleeps if and only if the entry is pending and its deadline lies ahead. |
| GatewayRendezvous.TurnExactly | api/gateway_chat.py:123-148 | After each turn in any run the waiter is inside if and only if the verdict above is to sleep; otherwise it has left with that answer. |
| GatewayRendezvous.DeadlineEndsWaiting | api/gateway_chat.py:138-140 | No waiter is inside after a turn it took past its deadline. |
| AdmissionGate.InvAlways | api/background_process.py:1312-1342 | With the registry importable, whatever the drain thread, the reaper and other consumers do: all that has passed is consumed or is the completion in hand, and what is in hand before the gate has not passed. |
| AdmissionGate.PassesAtMostOnce | api/background_process.py:1312-1342 | With the registry importable a process id passes the gate at most once in a whole run, even if the reaper sweeps between any two steps. |
| AdmissionGate.SweepReopensWithoutRegistry | api/background_process.py:480-486 | Without the registry there is a legal run in which an id passes, its session is drained and swept, and the id passes again. |
| AdmissionGate.TwoSessionsWithoutRegistry | api/background_process.py:1326-1331 | Nor is a sweep needed then: the seen-sets are per session, and one id passes twice under two of them. |
| AdmissionGate.PassesAgainExactly | api/background_process.py:1312-1331 | From rest, a delivery of an id passes if and only if the registry does not hold it consumed and its session's seen-set does not hold it. |
| AdmissionGate.PassesOnceExactlyWithRegistry | api/background_process.py:1312-1342 | Every legal run lets each id through at most once if and only if the registry is importable. |
| AdmissionGate.SeenUntilDrained | api/background_process.py:480-486 | An id in its session's seen-set when the session is marked pending stays there through any sweeps until the session is drained or forgotten. |
| AdmissionGate.CompletionGate.TryPass | api/background_process.py:1326-1331 | Passes unless a non-empty id was already seen for the session; afterwards it is seen. |
| AdmissionGate.CompletionGate.Sweep | api/background_process.py:480-486 | Keeps exactly the seen-sets of pending sessions, unchanged. |
| WakeupDelivery.SoundKept | api/background_process.py:1412-1668 | Each atomic step (gate, dispatch, claim, re-defer, start, answer, next-turn claim) keeps the multiset of admitted wakeups equal to what is deferred, in threads' hands, or settled. |
| WakeupDelivery.SoundAlways | api/background_process.py:1412-1668 | That conservation holds after every interleaving. |
| WakeupDelivery.ExactlyOnePlace | api/background_process.py:1412-1668 | Each admitted wakeup with a process id is, unaltered, in exactly one place: deferred list, a claimed batch, a starter, or one outcome. |
| WakeupDelivery.AtMostOneOutcome | api/background_process.py:1584-1668 | At most one turn starts, and at most one outcome is reached, per process id. |
| WakeupDelivery.BusyNeverLoses | api/background_process.py:1629-1638 | A starter answered with a busy 409 leaves its wakeup in its session's deferred list. |
| WakeupDelivery.RecordAdds | api/background_process.py:1412-1446 | Deferring a wakeup found nowhere else in the lists adds exactly it: the duplicate check never swallows one. |
| WakeupDelivery.OnePlacePerPid | api/background_process.py:1434-1440 | Two admitted wakeups with one process id cannot be in two places at once. |
| WakeupDelivery.WakeupQueue.RecordDeferred | api/background_process.py:1412-1446 | Appends unless the process id is queued for the session; reports queued exactly for a session and a prompt that are not empty. |
| WakeupDelivery.WakeupQueue.Claim | api/background_process.py:1449-1471 | Hands over a session's whole list and leaves none of it, so a second claimant gets nothing. |
| WakeupDelivery.WakeupQueue.DrainForSession | api/background_process.py:1474-1561 | A busy session is left untouched; otherwise the first prompt is started and the others deferred again, in order. |
| WakeupTurns.TakenUpOnlyWhenIdle | api/background_process.py:1375-1405 | In every run a thread takes up a wakeup only in a step that found the session idle, at dispatch and at the teardown hook alike. |
| WakeupTurns.DispatchExactly | api/background_process.py:1375-1405 | A completion dispatched to a busy session starts no thread and is the last on its deferred list; dispatched to an idle one it has its starter in the next state and the list is unchanged. |
| WakeupTurns.HookExactly | api/background_process.py:1474-1561 | A teardown hook with its session busy or nothing deferred changes nothing; otherwise its thread holds exactly that session's list, which is then empty, and the session is no longer marked pending. |
| WakeupTurns.HookStartsOldest | api/background_process.py:1474-1561 | The steps of an undisturbed hook end with the oldest prompt started and the others deferred in order: the state machine does what DrainForSession does. |
| WakeupTurns.AnswerExactly | api/background_process.py:1616-1668 | An accepted start settles the wakeup as started, a refusal as not started, and a busy answer settles nothing. |
| WakeupTurns.StartedMeansAccepted | api/background_process.py:1584-1668 | In every run an outcome says that a turn started only after an accepted start, or for a turn that claimed the list. |
| SessionChannels.SessionChannel.Subscribe | api/background_process.py:141-147 | A new queue is appended and the grace timer cancelled. |
| SessionChannels.SessionChannel.Unsubscribe | api/background_process.py:149-156 | The first occurrence goes, a stranger changes nothing, and the grace timer starts when none is left. |
| SessionChannels.SubscriberQueue.Offer | api/background_process.py:168-171 | A queue takes the event exactly if it has room then; what was read from a queue and what it holds are at all times the events of the offers that found room, in order. |
| SessionChannels.SessionChannel.CopySubscribers | api/background_process.py:165-167 | The only part of an emit under the lock: the subscribers are copied and the time noted. |
| SessionChannels.SessionChannel.EmitAlone | api/background_process.py:162-183 | With nobody else acting, every queue with room gets the event, a full one drops it, and the count is that of queues with room. |
| SessionChannels.OnlyThatOneGone | api/background_process.py:149-156 | Removing a queue removes no other, and distinctness of the rest is kept. |
| SessionChannels.Registry.GetOrCreate | api/background_process.py:217-224 | Returns the registered channel, or registers a new empty one. |
| SessionChannels.Registry.SubscribeTo | api/background_process.py:233-271 | The queue handed out sits in the channel registered for the session, and this stays so in every later state until it is given back. |
| SessionChannels.Registry.Unsubscribe | api/background_process.py:149-156 | Giving a queue back keeps every other live queue in its registered channel. |
| SessionChannels.Registry.ReapOne | api/background_process.py:185-214 | A channel is collected exactly when it is empty and past its grace or lifetime; no live queue is stranded. |
| SessionChannels.DueExactly | api/background_process.py:185-214 | A channel is due if and only if nobody subscribes and the grace since the last drop or the lifetime since creation is over. |
| SessionChannels.Registry.ReaperTick | api/background_process.py:437-447 | One tick removes exactly the collectable channels. |
| SessionChannels.Registry.Resolve | api/background_process.py:227-230 | An emitter finds the channel of every live queue of the session. |
| SessionBroadcast.Broadcaster.Begin | api/background_process.py:165-167 | The copy an emit works on holds every live queue of the channel, each once, and none of them has been offered anything by this emit yet. |
| SessionBroadcast.Broadcaster.OfferTo | api/background_process.py:168-171 | One offer: taken exactly if the queue has room at that moment; offers of other emits are untouched. |
| SessionBroadcast.Broadcaster.OthersAct | api/background_process.py:141-183 | Any number of steps of others (subscribing, giving back, reaping, reading, other emits beginning or offering) keep the channels valid and add nothing to the offers of a given emit. |
| SessionBroadcast.Broadcaster.Emit | api/background_process.py:162-183 | With others acting between any two offers: each queue copied is offered the event exactly once, also if given back meanwhile; no other queue ever is, not even one that subscribed after the copy; a queue takes it exactly if it has room at its own turn, and the count is of those that did. |
| SessionBroadcast.Broadcaster.EmitForSession | api/background_process.py:688-692 | From the lookup on, with others acting after it and before every offer: every queue of the session live at the lookup and still live when the subscribers are copied is offered the event exactly once, hence every queue live throughout; no queue of another session is. |
| SessionChannels.Registry.EmitToSession | api/background_process.py:688-692 | With nobody else acting, all live queues of the session are its channel's, those with room get the event, and no other queue changes. |
| EmitCoalescer.Coalescer.EmitCoalesced | api/background_process.py:742-797 | Says exactly when the caller must emit itself and what the maps and timers are afterwards. |
| EmitCoalescer.Coalescer.FlushPending | api/background_process.py:722-739 | The callback takes whatever is pending for its session and leaves no payload and no timer. |
| EmitCoalescer.InvAlways | api/background_process.py:722-797 | After any submissions, callbacks (of cancelled timers too) and reaper pruning: same keys, live timers, order of release, nothing lost. |
| EmitCoalescer.PendingHasLiveTimer | api/background_process.py:742-797 | In every run the two pending maps have the same keys, and a pending payload's timer is neither cancelled nor spent. |
| EmitCoalescer.ReleasedOnceInOrder | api/background_process.py:722-797 | No payload is released twice, nor after a newer one of its session. |
| EmitCoalescer.NewestSurvives | api/background_process.py:722-797 | The newest payload of a session is already released, or is the one pending. |
| EmitCoalescer.DirectExactly | api/background_process.py:752-797 | In every run a submission goes out in its own step if and only if its session had nothing go out since the last prune, or at least a window ago; otherwise it is what is pending. Either way the timer of before is cancelled. |
| EmitCoalescer.CallbackExactly | api/background_process.py:722-739 | A callback sends the newest payload of its session if one is pending, and leaves nothing pending. |
| EmitCoalescer.DirectReleasesAreSpaced | api/background_process.py:752-797 | With no callback and no prune of the session in between, two payloads that go out with their submission are at least a window apart. |
| PngScanner.ReadChunk | api/helpers.py:666-708 | One turn of the loop accepts a chunk exactly when one with a right checksum and, where it comes first, a right header lies there whole. |
| PngScanner.OneChunkOn | api/helpers.py:665-716 | A file is complete from a position on if and only if the chunk there is right and it is complete after it. |
| PngScanner.IsCompletePng | api/helpers.py:659-716 | Accepts a byte string if and only if it is the signature followed by a complete chunk list. |
| PngScanner.CompletesIsWellFormed | api/helpers.py:684-713 | The loop's own flags (first chunk, IDAT seen) describe the declarative list: one IHDR, first; at least one IDAT; one empty IEND, last. |
| PngScanner.PngIsWellFormedList | api/helpers.py:659-716 | Both directions: accepted means there is a well-formed chunk list whose serialisation it is. |
| PngScanner.PngPrefixFree | api/helpers.py:712-713 | Bytes appended to a complete PNG make it incomplete. |
| GifScanner.SubblocksEnd | api/helpers.py:785-794 | Finds the end of the data sub-blocks exactly when a terminated list of them lies there. |
| GifScanner.BlockEnd | api/helpers.py:812-845 | One turn of the loop finds the end of a block exactly when a valid extension or image lies there. |
| GifScanner.ImageHead | api/helpers.py:825-840 | The fixed part of an image block is accepted exactly when its size, table and code size are. |
| GifScanner.OneBlockOn | api/helpers.py:811-846 | A file is complete from a position on if and only if the block there is right and it is complete after it. |
| GifScanner.BlockIsRead | api/helpers.py:785-845 | Reading back the serialisation of any valid block, followed by anything, gives its length. |
| GifScanner.BlockWasEncoded | api/helpers.py:785-845 | Whatever the loop steps over is the serialisation of a valid block. |
| GifScanner.IsCompleteGif | api/helpers.py:797-846 | Accepts a byte string if and only if it is a header with its table followed by complete blocks. |
| GifScanner.GifIsWellFormedList | api/helpers.py:797-846 | Both directions: accepted means header, colour table, valid blocks with an image among them, trailer last. |
| GifScanner.GifPrefixFree | api/helpers.py:814-815 | Bytes appended to a complete GIF make it incomplete. |
| JpegScanner.SkipRun | api/helpers.py:737-738 | A run of fill bytes is skipped whole and nothing else. |
| JpegScanner.ScanItem | api/helpers.py:765-779 | One turn of the inner loop moves past one item of entropy-coded data, or stops at the marker that ends it, with strict progress. |
| JpegScanner.ScanEnd | api/helpers.py:763-781 | The inner loop ends where the entropy-coded data does, if segments up to end-of-image follow. |
| JpegScanner.SegmentEnd | api/helpers.py:741-761 | Finds the end of a segment exactly when a valid marker and length lie there. |
| JpegScanner.OneSegmentOn | api/helpers.py:733-782 | A file is complete from a position on if and only if the segment there is right and it is complete after it. |
| JpegScanner.OneEntropyOn | api/helpers.py:765-781 | The same for one item of entropy-coded data. |
| JpegScanner.IsCompleteJpeg | api/helpers.py:727-782 | Accepts a byte string if and only if it is start-of-image followed by a list of valid segments with a frame header and a scan, ended by end-of-image. |
| JpegScanner.JpegPrefixFree | api/helpers.py:743-744 | Bytes appended to a complete JPEG make it incomplete. |
| CborReader.Cursor.ReadRaw | api/passkeys.py:233-238 | Reads exactly the bytes asked for and moves past them, or fails and stays. |
| CborReader.Cursor.ReadArgument | api/passkeys.py:265-276 | The argument in 0, 1, 2, 4 or 8 bytes, big-endian; indefinite lengths are refused. |
| CborReader.Cursor.ReadItem | api/passkeys.py:240-263 | Reads what the specification says is at the position, or raises its error; the recursive calls made never exceed the bytes consumed, one failing call aside, whatever counts are declared. |
| CborReader.LoadCbor | api/passkeys.py:279-284 | One item and nothing after it. |
| CborReader.ItemIgnoresMore | api/passkeys.py:240-263 | An item that was read is read the same whatever follows it. |
| CborReader.LoadsIsPrefixFree | api/passkeys.py:279-284 | If an input loads, every proper extension is refused for trailing data; so no proper prefix of it loads either. |
| CborRoundTrip.ItemReadsBack | api/passkeys.py:240-276 | Reading the shortest-form encoding of any value of the subset, wherever it stands, gives the value and moves by exactly its length. |
| CborRoundTrip.EncodingLoads | api/passkeys.py:279-284 | Decoding undoes encoding, for any suffix. |
| CborRoundTrip.ItemEncodesNoLonger | api/passkeys.py:240-276 | Every value that can be read is in the subset, and its encoding is no longer than the bytes it was read from. |
| CborRoundTrip.LoadedHasShortestForm | api/passkeys.py:279-284 | What loads has a shortest form that loads to the same value, and has no more nodes than the input has bytes. |
| CborGrammar.LoadsExactly | api/passkeys.py:229-284 | An input loads as a value if and only if it is the serialisation of an item with that meaning: heads with their argument in any of five widths, shortest or not, only major types 0 to 5 and three simple values, maps as repeated dictionary assignment. |
| CborGrammar.NothingElseLoads | api/passkeys.py:256-263 | No input that loads starts with a tag, an indefinite length, or a simple value in one byte other than False, True and null. |
| CborGrammar.HalfFloatLoadsAsFalse | api/passkeys.py:229-263 | The reader ignores the width of a simple value's argument: a half-precision float loads as False, unlike section 3.3 of RFC 8949. |
| Utf8Text.ValidExactly | api/passkeys.py:250-251 | A text string decodes if and only if its bytes are the encoding of a sequence of Unicode scalar values (section 3 of RFC 3629). |
| CborValues.NodesFitEncoding | api/passkeys.py:240-263 | A value has no more nodes than encoded bytes. |
| CborValues.InsertKeys | api/passkeys.py:254-255 | Inserting adds at most the key and keeps keys distinct under Python's equality, by which True equals 1. |
| CborValues.InsertThenLookup | api/passkeys.py:254-255 | After an insertion the key has the new value and every other key its old one. |
| SidecarToken.Disk.LinkNew | api/extension_sidecar_auth.py:169-177 | Publishing creates the file or fails, and never replaces one. |
| SidecarToken.Disk.ChangeAttributes | api/extension_sidecar_auth.py:169-181 | chmod of a published file and unlinking its temporary name give it a new fingerprint and leave its text alone; a publisher owes two such changes. |
| SidecarToken.Disk.StableRead | api/extension_sidecar_auth.py:100-121 | A token is returned with the fingerprint of the very version it was read from, which was on disk during the call. When nobody resets and there is a file, the answer is the file's own although its publisher may still be changing its fingerprint: a failed attempt uses up one of the two changes owed, and there are four attempts. |
| SidecarToken.HonestStampGivesToken | api/extension_sidecar_auth.py:84-89 | If fingerprints tell versions apart, a token read with a fingerprint is the file's token whenever the file shows that fingerprint. |
| SidecarToken.TokenExactly | api/extension_sidecar_auth.py:100-121 | A file's token is the one that stands in its text with only white space around it; any other file has none. |
| SidecarToken.Process.CurrentToken | api/extension_sidecar_auth.py:202-225 | A token returned, from the cache or not, was on disk at some instant of the call, whatever other processes and sibling threads do between its steps; the cache is left with that token or with nothing. When nobody resets and there is a file, the answer is the file's own. |
| SidecarToken.Process.RereadToken | api/extension_sidecar_auth.py:219-225 | On a cache miss the token stored and returned is one read from disk in the call. |
| SidecarToken.Process.EnsureToken | api/extension_sidecar_auth.py:124-199 | Only a token found on disk is returned; with no resets it is the one in the published file. With no resets and a writable directory, none is returned only if the file was there from the start and no token. |
| SidecarToken.Process.EnsureLocked | api/extension_sidecar_auth.py:143-199 | The same for the part under the lock: never the token just drawn unless it is what the disk holds. |
| SidecarToken.Process.ResetToken | api/extension_sidecar_auth.py:228-241 | Rotation takes effect: during the call there was an instant without any file, and a token returned was on disk after it. No token if the delete failed. |
| SidecarToken.OneTokenForAll | api/extension_sidecar_auth.py:124-199 | With no resets all tokens ever read by any process are equal to each other and to the file's. |
| SnapshotStore.Snapshots.SizeAndEntries | api/media_snapshots.py:301-317 | In whatever order the directory is listed: the total is the sum of the sizes of the blobs that can be inspected, each entered once. |
| SnapshotStore.Snapshots.EnforceQuota | api/media_snapshots.py:320-344 | The loop over sorted entries removes exactly the blobs that, together with all not older and all that cannot be unlinked, exceed the cap; bindings go with their blobs. |
| SnapshotStore.Snapshots.RecordSourceBinding | api/media_snapshots.py:236-261 | The path is added to the digest's recorded paths; an unreadable record is replaced, a failed write changes nothing. |
| SnapshotStore.Snapshots.CaptureSnapshot | api/media_snapshots.py:347-413 | Returns the digest of the bytes read exactly when the file is regular, within the per-file cap and readable; stored content is not written again; then binding, then quota. |
| SnapshotStore.Snapshots.ServableForPath | api/media_snapshots.py:264-284 | True exactly when the record can be read and some earlier capture of this very path recorded the digest, and nothing has undone that since; where no file operation has failed: captured from this path, and stored ever since. |
| SnapshotStore.RecordedExactly | api/media_snapshots.py:236-261 | In every run, whatever file operations fail: a path is recorded for a digest if and only if some capture of the path wrote it, and since then the record was neither unlinked with an evicted blob nor rewritten because it could not be read. |
| SnapshotStore.ServedExactly | api/media_snapshots.py:236-284 | While no file operation fails, exactly the stored blobs have records, and a path is recorded for a digest if and only if it was captured from that path and its blob has been stored ever since. |
| SnapshotStore.SortSorts | api/media_snapshots.py:330-330 | The sort puts entries in strict order of (modification time, size, name) and keeps them all. |
| SnapshotStore.SweepOne | api/media_snapshots.py:331-344 | One turn of the eviction loop evicts a blob that the order-free specification evicts, and lowers the running total by its size. |
| SnapshotStore.OldestFirst | api/media_snapshots.py:330-337 | Whatever is older than an evicted blob, or as old and smaller, or equal in both under a smaller name, and can be unlinked, is evicted too. |
| SnapshotStore.FitsOrNothingLeft | api/media_snapshots.py:327-344 | Afterwards the inspected blobs fit the cap, or all that could be unlinked are gone. |
| SnapshotStore.ShortestPrefix | api/media_snapshots.py:327-344 | When unlinks succeed the store fits the cap, and would not had the youngest evicted blob been kept. |
| SnapshotStore.BlobsMatchNames | api/media_snapshots.py:377-399 | In every run each stored blob's bytes hash to its name. |
| SnapshotStore.BlobsNeverChange | api/media_snapshots.py:391-399 | No capture changes the bytes or the age of a blob that stays. |
| SnapshotStore.BindingsEarned | api/media_snapshots.py:236-261 | In every run a path is recorded for a digest only if bytes with that digest were captured from that path. |
| SnapshotStore.AlwaysFits | api/media_snapshots.py:320-413 | While no file operation fails and the cap stays, the store is within its cap after every capture. |
| SnapshotStore.CapturedIsServedExactly | api/media_snapshots.py:347-413 | With no file operation failing, the digest returned is stored, and recorded for its path, if and only if it and all blobs not older fit the cap together. So content already in a store that fits evicts nothing and is served for the new path too; new content younger than all else is kept if and only if it fits the cap by itself. |
| ProbeCache.RemoteProbe.CachedResult | api/agent_health.py:565-576 | Returns the line's result exactly for its URL and strictly before its expiry. |
| ProbeCache.RemoteProbe.Begin | api/agent_health.py:652-676 | The first critical section: an answer from the cache, a wait if a probe of the URL is in flight, or the lead. |
| ProbeCache.RemoteProbe.Again | api/agent_health.py:664-676 | One turn of the waiting loop: sleep again, an answer from the cache, or the lead. |
| ProbeCache.RemoteProbe.End | api/agent_health.py:681-699 | The end of a probe: cache line expiring TTL after completion, marker removed and all waiters woken, also if it raised. |
| ProbeCache.SoundAlways | api/agent_health.py:640-704 | In every run: sleepers have a leader, the line is the latest completed probe's, and every answer comes from a completed probe. |
| ProbeCache.NoSleeperStranded | api/agent_health.py:662-699 | No waiter sleeps without a running leader for its URL, whatever probes raise and budgets expire. |
| ProbeCache.EntersExactly | api/agent_health.py:652-676 | A call is answered if and only if the latest completed probe was of its URL and is younger than the TTL; else it waits or leads by whether its URL is in flight. |
| ProbeCache.WaitsExactly | api/agent_health.py:662-676 | In every run a waiting call that wakes sleeps again if and only if its URL is in flight and its budget, counted from where it came in, is not spent. |
| ProbeCache.CachedAnswersAreFresh | api/agent_health.py:565-576 | A cached answer is the result of a completed probe of that URL and was unexpired, counted from completion, at the clock reading compared. |
| ProbeCache.CacheAnswersExactly | api/agent_health.py:565-576 | The cache answers if and only if the latest completed probe of any URL was of this one and is less than TTL old. |
| ProbeCache.OtherUrlTakesLine | api/agent_health.py:640-643 | The documented "cached per base URL" fails with two URLs: a concrete run in which a probe of another URL evicts a fresh result. |
| ProbeCache.SingleFlightKeptExactly | api/agent_health.py:640-704 | A step keeps "at most one leader per URL, in flight exactly the URLs with one" if and only if it is not a waiter whose budget ran out with nothing cached. |
| ProbeCache.AlwaysSingleFlight | api/agent_health.py:640-704 | That holds in every run without such a step, raising probes included. |
| ProbeCache.SingleFlightExactlyIfPatient | api/agent_health.py:640-704 | Single flight holds all along a run if and only if no waiter gives up in it. |
| ProbeCache.TwoLeadersAfterBudget | api/agent_health.py:664-676 | A concrete run in which an expired budget leads to two callers probing one URL. |
| ProbeCache.OneProbeServesAll | api/agent_health.py:640-704 | Until its line expires or another probe ends, every waiter that wakes and every newcomer for the URL gets the one probe's result, and nobody probes again. |

## Left out

- SQL, schema detection and database reads: the lineage code starts from in-memory rows.
- Titles, sources, visibility rules and the remaining annotations on projected rows (child sessions, parent lineage ids): flat case analysis.
- Field names of the score: `last_activity` and `last_message_at` are one field, since each search reads its own rows; Python floats are reals, so NaN and infinities are not modelled, and a value is a number, absent or malformed.
- Row ids are unique and not empty; child lists are arbitrary in order, so the results hold for whatever order the query gives.
- Stability of the final sort among equal keys, and the order in which recovered subagent parents are appended.
- Projection.SegmentsCountEveryRow: stated for acyclic links, because on a cycle every row continues another and none is a head.
- `limit=None`, which returns the projection before the slice.
- WakeupDelivery.ExactlyOnePlace: `NextTurnClaims` is the next-turn drain the documentation describes; nothing in the repository calls `claim_deferred_wakeups` but the teardown hook, so this step only adds interleavings. `start_session_turn` is an arbitrary answer: accepted, busy, or refused.
- Liveness of deferred wakeups, which does not hold of the code, and a minimum spacing between all emits of a session, which a callback that outlived its cancellation breaks; DirectReleasesAreSpaced has the spacing that does hold.
- The durable claim path of asynchronous delegations, and exceptions inside the emit.
- Live streams other than the per-session channel in `_emit_to_session_streams`, and queue objects beyond capacity, contents and the order of arrivals. Broadcasts keep no common order across queues, in the code and in the model.
- GatewayRendezvous.InvAlways: one owner per stream, in its call order; run ids are compared as they are, without the strip, and the published id is not empty.
- HTTP, server-sent events, subprocesses, threads as objects, logging and file permissions.
- The PNG checksum algorithm: an arbitrary function of the chunk's bytes. WebP and BMP, whose length is fixed by a header field.
- Python's recursion limit in the CBOR reader: deep nesting raises there and is read here.
- SidecarToken.Process.EnsureToken: writing the temporary file is one flag, writable or not; fingerprints are numbers that differ between versions and after every change of attributes, of which a publication brings at most two; and the lock may be held by sibling threads at any point outside it, which only adds interleavings.
- SnapshotStore.BlobsMatchNames: the hash is an arbitrary function, so nothing is said about collisions beyond names; the check of allowed roots and the crash behaviour of renames are left to the file system.
- SnapshotStore.Snapshots.CaptureSnapshot: the per-file cap applies to the size seen first, as in the code; the bytes read later may be more.
- ProbeCache.OneProbeServesAll: the refreshed `checked_at` field and the walk over health paths inside a probe are abstracted into an arbitrary payload.
