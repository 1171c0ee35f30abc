# Verified models of a chat companion's stateful parts

The program is a chat bot for QQ. Most of it is text and network code; a few small components carry
the guarantees the rest relies on. This project models those components in Dafny and proves what
they promise over every run, every interleaving of their atomic steps and every input.

A component that changes state is a `class` whose methods are proved to do what a specification
function says (`State`, `Next`, `Step`, or the functions beside the class). What is promised of it is
then proved about runs of that specification, in a second module. Concurrency is modelled as steps:
what the program does between two awaits, or under one lock, is one step, and every order of steps
is a run. Time and tokens are reals, text is a sequence of characters, files are sequences of bytes.

| Modules | Component |
|---|---|
| `RateLimit`, `RateLimitBounds`, `RateLimitRecency` | token buckets in a bounded, least-recently-used table |
| `SessionLock`, `SessionLockInvariant`, `SessionLockSafety` | the hand-over lock shared by tasks on several event loops |
| `SnapshotLog`, `SessionStore`, `SessionStoreRefinement`, `SessionStoreAppends` | the append-only snapshot files, and the map they stand for |
| `HistoryArchive` | a chat's history, summarized and trimmed while lines are appended |
| `Listener`, `ListenerSteps`, `ListenerProtocol` | waiting until a person has stopped typing |
| `OneBotGateway`, `OneBotGatewaySafety` | calls over the one active socket and their replies |
| `InboundDedup`, `InboundDedupEntries`, `InboundDedupRuns` | which inbound messages were seen lately |
| `ContextBuilder`, `ChatMessages` | the prompt: fitted into its budget; the two sides in turn |
| `ToolLoop` | tool calls against a model that may answer anything |
| `Greetings`, `GreetingLog`, `GreetingRules`, `GreetingLimits`, `Reminders` | chats she opens herself, and what she was asked to say later |
| `Cards`, `WrittenCards`, `CardRoundTrip` | the character card parser and printer |
| `Emitter` | one reply cut into messages |
| `NearDuplicate` | when two memories are the same |
| `Stream` | a streamed completion put back together |
| `Common`, `Text` | shared definitions |

## Where the code does not do what is promised of it

Each of these is proved: a concrete run or input that fails, and where there is one the exact condition
under which none does.

- **Two owners of a lock.** If a granted waiter is cancelled and has passed the lock on, and its loop
  then closes before the first releaser has scheduled the hand-over, that releaser takes its failed
  scheduling for its own and releases a lock somebody else holds (`ReleasedTwice`). Closing a loop is
  safe exactly when no such hand-over is outstanding (`CloseIsSafeIff`).
- **A lock lost.** A loop that closes after a hand-over to it was scheduled, and before the waiter
  resumed, keeps the lock for ever (`LostByClosingIff`, `LostStaysLost`; a run in `LockIsLost`).
- **"Only ever grants more".** True in total of a key that is asked for alone
  (`EvictionOnlyGrantsMore`); not call by call (`NotCallByCall`), and not of a key asked for together
  with others (`SharedCallsCanLoseGrants`). It cannot happen while all keys fit (`FittingRunsAgree`),
  and one key more is enough to be answered otherwise (`OneKeyTooMany`).
- **A first save cut short.** With no snapshot written whole and any byte of one written, loading
  raises instead of finding nothing (`NothingWholeIsCorrupt`).
- **Unsafe names.** Ids that differ only in characters the file store filters out are two chats in
  memory and one on disk (`UnsafeNamesCollide`).
- **Split arguments.** A stream may cut within a character. Halves that meet in the text are joined;
  halves that meet in the arguments of a call are not (`SplitArgumentsDoNotComeBack`), so calls come
  back exactly when no argument was cut so (`CallsComeBackIff`).
- **Turns and examples given up for nothing.** Turns are dropped before any memory, so some are
  dropped that fit in the prompt that is sent (`TurnGivenUpForNothing`), exactly when the memories do
  not all fit alone and the newest turn fits beside those that do (`FewestTurnsDropped`). Style
  examples are judged before anything is dropped (`ExamplesGivenUpForNothing`), and are given up for
  nothing exactly when they fit beside what stays without them (`ExamplesGivenUpIff`).
- **Bursts without an answer.** Every message is noted, but commands, card switches and lines for
  somebody else are handled without waiting. A message passed over for such a line is answered by
  nobody, and its pictures go out with whatever comes later (`BurstLost`); a burst is answered exactly
  when its newest message waits (`BurstAnsweredIff`).
- **Longest wait.** A person is to be answered at the latest `max_wait_seconds` after their first
  message not answered yet. A reply to an older message starts the wait again at the newest one
  (`LongestWaitRestarts`): the wait stays right exactly when at most one message is waiting behind the
  reply, or only messages of one moment (`StepKeepsPromiseIff`). A record dropped as stale restarts it
  as well, and lets an older message be answered (`DroppedRecordReleasesOlder`).
- **Equal lines.** A commit compares the text of the trimmed lines; after a cut, equal lines stand in
  for those that were summarized (`EqualLinesStandIn`). The lines are the very ones exactly when what
  was appended since fitted in the room left and nothing was trimmed (`TrimmedAreSummarizedIff`).
- **Limits above twenty.** She keeps twenty openings of a chat. A limit per 24 hours is checked
  correctly exactly up to twenty (`KeptLogSufficesIff`); with both limits above it there is none
  (`NoLimitAboveTwenty`). The daily limit holds of every run exactly if it is at most twenty or no
  chat can be opened more than twenty times in the greeting hours of one local day (`DailyLimitIff`);
  that of a group exactly if it is at most twenty or the daily limits of the days that 24 hours can
  touch are within it (`GroupLimitIff`).
- **An empty card section** is written with a placeholder that reads back as the item `-`
  (`EmptySectionReadsAsDash`), so a card of plain values reads back the same exactly when no section is
  empty (`PlainCardRoundTripIff`).

## Model

| member | source | states |
|---|---|---|
| RateLimit.TokenBucketLimiter.Acquire | src/waifu_standalone/infra/rate_limit.py:32-59 | the whole new table and the wait returned are those of one `Step`: all buckets read before any is written, one token from each or none, then eviction |
| RateLimit.TokenBucketLimiter.Refresh | src/waifu_standalone/infra/rate_limit.py:42-52 | every active rule is read from the same table, capped at its capacity; the wait is the longest of theirs |
| RateLimit.TokenBucketLimiter.Store | src/waifu_standalone/infra/rate_limit.py:53-56 | the readings less the spend are written and moved to the end of the use order, in the rules' order |
| RateLimit.TokenBucketLimiter.Evict | src/waifu_standalone/infra/rate_limit.py:57-58 | the least recently used keys go until the bound holds |
| RateLimit.WaitZeroIffGranted | src/waifu_standalone/infra/rate_limit.py:50-53 | zero is returned exactly when every bucket had a token |
| RateLimitBounds.RefillComposes | src/waifu_standalone/infra/rate_limit.py:47-48 | refilling to t1 and then to t2 is refilling to t2, the cap included |
| RateLimitBounds.CallSpends | src/waifu_standalone/infra/rate_limit.py:44-56 | a granted call takes exactly one token from each of its buckets, a denied call none, and no other bucket is touched |
| RateLimitBounds.WindowBound | src/waifu_standalone/infra/rate_limit.py:40-58 | between any two calls of any run, the times of its calls in any order, a bucket that stays in the table grants at most its capacity and what refills while the clock rises from call to call; in order that is the time between the two |
| RateLimitBounds.EvictionOnlyGrantsMore | src/waifu_standalone/infra/rate_limit.py:3-6 | at every point of every run, the times of its calls in any order, a key asked for alone has had at least the grants an unbounded limiter gives |
| RateLimitBounds.LeadCovers | src/waifu_standalone/infra/rate_limit.py:40-59 | the simulation behind it, read at any time: what the bounded limiter lacks in tokens it has already granted |
| RateLimitBounds.FittingRunsAgree | src/waifu_standalone/infra/rate_limit.py:54-58 | while all keys of a run fit, the bounded table is the unbounded one, call by call |
| RateLimitBounds.OneKeyTooMany | src/waifu_standalone/infra/rate_limit.py:54-58 | for every bound a run with one key more than fits, in which a call is granted that the unbounded limiter denies |
| RateLimitBounds.NotCallByCall | src/waifu_standalone/infra/rate_limit.py:3-6 | ahead in total, the bounded limiter can deny a call the unbounded one grants |
| RateLimitBounds.SharedCallsCanLoseGrants | src/waifu_standalone/infra/rate_limit.py:3-6 | a key asked for together with another can end up with fewer grants because of eviction |
| RateLimitRecency.ForgetsLeastRecent | src/waifu_standalone/infra/rate_limit.py:53-58 | in every run no key is kept that was last asked for before one that was asked for and is forgotten |
| RateLimitRecency.UsedAgainOutlives | src/waifu_standalone/infra/rate_limit.py:55-58 | a run in which a key asked for again outlives one that was not, and is denied for ever as its token is spent |
| RateLimitBounds.WaitIsExact | src/waifu_standalone/infra/rate_limit.py:35-39 | after a denial the same call is denied at every earlier instant and granted from the end of the returned wait on; infinite means never |
| RateLimitBounds.DeniedCallLeavesNoTrace | src/waifu_standalone/infra/rate_limit.py:47-56 | asking too early changes no later answer |
| SessionLock.Lock.Acquire | src/waifu_standalone/infra/session_lock.py:26-33 | a free lock is taken at once, else the task queues behind all others |
| SessionLock.Lock.Release | src/waifu_standalone/infra/session_lock.py:48-60 | dead waiters are skipped, the first live one is granted, or the lock is free |
| SessionLock.Lock.HandOver | src/waifu_standalone/infra/session_lock.py:61-65 | the hand-over is scheduled, or with the loop closed the lock is released again |
| SessionLock.Lock.Complete | src/waifu_standalone/infra/session_lock.py:67-70 | an undone future is resolved, a done one left alone |
| SessionLock.Lock.Unwind | src/waifu_standalone/infra/session_lock.py:36-46 | a cancelled waiter leaves the queue, or if granted passes the lock on |
| SessionLockInvariant.StepKeepsInv | src/waifu_standalone/infra/session_lock.py:26-70 | every atomic step, cancellations and safe closings of a loop included, keeps: one owner while held, queue in order and empty while free, nobody forgotten, hand-overs on their way |
| SessionLockSafety.RunKeepsInv | src/waifu_standalone/infra/session_lock.py:26-70 | the same over whole runs |
| SessionLockSafety.MutualExclusion | src/waifu_standalone/infra/session_lock.py:26-65 | two tasks are never inside together; a free lock has nobody alive waiting |
| SessionLockSafety.FirstComeFirstServed | src/waifu_standalone/infra/session_lock.py:30-57 | who enters or is granted came no later than every live waiter; each grant shortens the queue, so releasing ends |
| SessionLockSafety.CancelledNeverEnters | src/waifu_standalone/infra/session_lock.py:34-70 | whoever is cancelled while waiting, before or after the hand-over, stays cancelled and never enters |
| SessionLockSafety.CancelledUnwinds | src/waifu_standalone/infra/session_lock.py:34-46 | on an open loop a waiter unwinds exactly if it was cancelled, and resumes exactly if it was resolved and not cancelled |
| SessionLockSafety.HandsOn | src/waifu_standalone/infra/session_lock.py:48-70 | left alone, a release ends with the live waiter who came first inside and all others as they were |
| SessionLockSafety.RetryIsSafeIff | src/waifu_standalone/infra/session_lock.py:61-65 | releasing again after a failed scheduling keeps one owner exactly when the target had not passed the lock on itself |
| SessionLockSafety.CloseIsSafeIff | src/waifu_standalone/infra/session_lock.py:61-65 | the exact condition under which closing a loop at this moment breaks nothing |
| SessionLockSafety.OwnerMovesUnlessLost | src/waifu_standalone/infra/session_lock.py:34-65 | a held lock can move on exactly unless its owner was granted it on a loop that closed before it resumed |
| SessionLockSafety.LostByClosingIff | src/waifu_standalone/infra/session_lock.py:34-70 | a step loses the lock exactly when it closes the loop of the owner who was granted it, still waits and has nobody left to schedule the hand-over |
| SessionLockSafety.LostStaysLost | src/waifu_standalone/infra/session_lock.py:34-70 | and then no step ever frees it |
| SessionLockSafety.LockIsLost | src/waifu_standalone/infra/session_lock.py:26-65 | a concrete run of allowed steps that ends so |
| SessionLockSafety.ReleasedTwice | src/waifu_standalone/infra/session_lock.py:36-65 | a concrete run, with one unsafe closing of a loop, that ends with two tasks inside |
| SnapshotLog.LoadLatest | src/waifu_standalone/memory/session_service.py:237-269 | the newest line that decodes is found, blank lines are nothing, undecodable ones are passed over and alone raise |
| SnapshotLog.MissingIffBlank | src/waifu_standalone/memory/session_service.py:248-269 | a file counts as no session at all exactly if it has white space only |
| SnapshotLog.LinesOfSum | src/waifu_standalone/memory/session_service.py:248-248 | bytes appended to a file that ends in a line break only add lines |
| SnapshotLog.LinesOfRepaired | src/waifu_standalone/memory/session_service.py:314-320 | the line break put after an interrupted record adds no line of its own |
| SnapshotLog.SavedIsFound | src/waifu_standalone/memory/session_service.py:130-135 | a completed save, compacted or not, is what loading finds, and the file stays bounded |
| SnapshotLog.TornIsSurvived | src/waifu_standalone/memory/session_service.py:311-321 | a save cut after any byte leaves the new session if its record is whole, else what was there before |
| SnapshotLog.NewestWholeIsFound | src/waifu_standalone/memory/session_service.py:237-334 | after any run of saves, each possibly cut at any byte, loading finds the newest session written whole |
| SnapshotLog.NothingWholeIsCorrupt | src/waifu_standalone/memory/session_service.py:267-269 | with none written whole, loading raises if and only if some byte of a record was written |
| SnapshotLog.LettersAreLawful | src/waifu_standalone/memory/session_service.py:321-321 | the laws assumed of the encoding hold of a small concrete one |
| SessionStore.FileMemoryStore.Load | src/waifu_standalone/memory/session_service.py:101-128 | the path checks in their order, then the newest snapshot or a fresh session |
| SessionStore.FileMemoryStore.Save | src/waifu_standalone/memory/session_service.py:130-135 | exactly the chat's file changes, as one save of the snapshot log; nothing when the chat has no path |
| SessionStore.FileMemoryStore.AppendSnapshot | src/waifu_standalone/memory/session_service.py:311-321 | the file grows by a repaired line break if needed and one record |
| SessionStore.FileMemoryStore.MaybeCompact | src/waifu_standalone/memory/session_service.py:323-334 | a file over the threshold is replaced by one record |
| SessionStore.FileMemoryStore.Append | src/waifu_standalone/memory/session_service.py:137-141 | load, one line more, the newest 120, save |
| SessionStore.InMemoryStore.Load | src/waifu_standalone/memory/session_service.py:54-63 | the session under the key, entered fresh when missing |
| SessionStore.InMemoryStore.Save | src/waifu_standalone/memory/session_service.py:65-69 | the session is entered under its resolved character |
| SessionStore.InMemoryStore.Append | src/waifu_standalone/memory/session_service.py:71-75 | load, one line more, the newest 120, save |
| SessionStoreAppends.AppendAdds | src/waifu_standalone/memory/session_service.py:137-141 | after an append the chat loads with the line behind all others, or behind the newest 119, and nothing else of it changed |
| SessionStoreAppends.AppendsAreKept | src/waifu_standalone/memory/session_service.py:101-141 | after any run of appends to any chats, a chat loads with the newest 120 lines appended to it, in order |
| SessionStoreAppends.MapKeepsAppends | src/waifu_standalone/memory/session_service.py:54-75 | and so does the map, for chats with safe names |
| SessionStoreRefinement.SafeIff | src/waifu_standalone/memory/session_service.py:336-361 | a name is kept as it is exactly if it has letters, digits, hyphens and underscores only |
| SessionStoreRefinement.SharedPathIff | src/waifu_standalone/memory/session_service.py:186-206 | two chats share a file exactly when their filtered type, id and character are the same |
| SessionStoreRefinement.SafeChatsSharePathIff | src/waifu_standalone/memory/session_service.py:336-361 | for names of safe characters, sharing a file is sharing the map's key |
| SessionStoreRefinement.OpAgrees | src/waifu_standalone/memory/session_service.py:54-75 | one save or append keeps files and map in agreement on every safe chat |
| SessionStoreRefinement.FilesRefineMap | src/waifu_standalone/memory/session_service.py:101-141 | after any run of saves and appends, loading any safe chat from disk gives what the map holds for it |
| SessionStoreRefinement.UnsafeNamesCollide | src/waifu_standalone/memory/session_service.py:336-343 | two names that differ only in unsafe characters are one chat on disk and two in the map |
| HistoryArchive.Memory.SaveUserEvent | src/waifu_standalone/memory/session_service.py:402-410 | the context and the message, not repeated, are appended and the history cut to 120 |
| HistoryArchive.MessageIsLast | src/waifu_standalone/memory/session_service.py:402-410 | all of the context is added and the message comes last, added exactly if the context does not end with it |
| HistoryArchive.Memory.SaveAssistantMessage | src/waifu_standalone/memory/session_service.py:450-453 | her line is appended and the history cut to 120 |
| HistoryArchive.Memory.BeginArchive | src/waifu_standalone/memory/session_service.py:638-644 | how many lines overflow and which, or none below the batch size |
| HistoryArchive.Memory.CommitArchive | src/waifu_standalone/memory/session_service.py:645-663 | the lines are trimmed only if they still stand first, else nothing changes |
| HistoryArchive.RunConserves | src/waifu_standalone/memory/session_service.py:402-410 | the log of all lines is the lost ones followed by the history, at most 120 of them |
| HistoryArchive.RunAccounts | src/waifu_standalone/memory/session_service.py:649-657 | every trim is of exactly the lines an archiver had summarized, at most one for each |
| HistoryArchive.NothingLostSilently | src/waifu_standalone/memory/session_service.py:638-657 | both, for appends interleaved with any number of archivers |
| HistoryArchive.TakesOverflow | src/waifu_standalone/memory/session_service.py:638-644 | an archiver begins exactly when the lines beyond the limit make up a batch, and takes those, the oldest, leaving as many as the limit says |
| HistoryArchive.SummaryIsKept | src/waifu_standalone/memory/session_service.py:645-663 | lines are archived only with a summary, and the one kept is that of the last commit that archived |
| HistoryArchive.TrimmedLines | src/waifu_standalone/memory/session_service.py:651-655 | a trim takes the lines of the log right after those already lost; their text is that of the lines summarized |
| HistoryArchive.TrimmedAreSummarizedIff | src/waifu_standalone/memory/session_service.py:638-657 | they are the very lines summarized exactly when since the snapshot no commit has trimmed any and the lines appended fitted in the room left below 120 |
| HistoryArchive.EachBegan | src/waifu_standalone/memory/session_service.py:638-644 | every archiver has a step of the run that took its snapshot |
| HistoryArchive.EqualLinesStandIn | src/waifu_standalone/memory/session_service.py:653-655 | a run in which line 10 is about to be trimmed although only 0 to 9 were summarized |
| Listener.Listener.NoteInbound | src/waifu_standalone/reply_flow/listener.py:128-146 | the sender's record after a message, and the stale ones dropped from a table that is too long |
| Listener.Listener.PollTurn | src/waifu_standalone/reply_flow/listener.py:155-174 | one turn of the waiting loop: released, passed over with its pictures kept and the talk held open, or asleep |
| Listener.Listener.WithEarlierImages | src/waifu_standalone/reply_flow/listener.py:176-183 | the newest earlier pictures up to four with its own, the stash emptied |
| Listener.Listener.MarkAnswered | src/waifu_standalone/reply_flow/listener.py:185-207 | the record answered, or its longest wait restarted, and how long the talk goes on |
| Listener.TalkNeverShortens | src/waifu_standalone/reply_flow/listener.py:164-168 | extending a talk never shortens it and concerns nobody else |
| ListenerProtocol.RunKeepsInv | src/waifu_standalone/reply_flow/listener.py:128-195 | in every run, with messages handled elsewhere and late replies at any moment, the record is of the newest message, each message passed over has a newer one, pictures are kept, sleepers wake on time |
| ListenerProtocol.ReleasedIffNewest | src/waifu_standalone/reply_flow/listener.py:148-174 | a message is passed over exactly when a newer one was noted, unless the sender's record was dropped |
| ListenerProtocol.ReleasedIffEnteredNewest | src/waifu_standalone/reply_flow/service.py:66-111 | a message is released if it entered `await_turn` and nothing newer was noted before it left, and only if unless a record was dropped |
| ListenerProtocol.BurstAnsweredIff | src/waifu_standalone/reply_flow/listener.py:6-9 | once all messages are handled, each burst has had an answer released exactly if its newest message entered `await_turn`, and then to that one alone |
| ListenerProtocol.BurstLost | src/waifu_standalone/reply_flow/service.py:73-111 | a run in which a question is passed over for a line that never enters `await_turn`: nobody is answered, and its picture goes out with an unrelated message much later, released without any wait |
| ListenerProtocol.ReleasedWithBurstPictures | src/waifu_standalone/reply_flow/listener.py:176-183 | a released message carries the newest four pictures of those passed over since the last release, its own counted |
| ListenerProtocol.ReleasedOnTime | src/waifu_standalone/reply_flow/listener.py:171-174 | the newest is released within a hundredth of a second of falling due, at the latest after the longest wait |
| ListenerProtocol.WaitsForQuiet | src/waifu_standalone/reply_flow/listener.py:171-174 | the newest leaves exactly once `quiet_seconds` have passed since it came or `max_wait_seconds` since the first one open, and else sleeps for a hundredth to a quarter of a second |
| ListenerProtocol.StepKeepsPromiseIff | src/waifu_standalone/reply_flow/listener.py:138-142 | a step keeps the longest wait running from the first unanswered message exactly when it is no reply to an older message that leaves several waiting which came at different moments, nor the first note after a dropped record while an older message is open |
| ListenerProtocol.OneBehindIsFine | src/waifu_standalone/reply_flow/listener.py:191-195 | a reply with at most one message waiting behind it is always such a step |
| ListenerProtocol.ReleasedInTime | src/waifu_standalone/reply_flow/listener.py:6-7 | in a run of such steps the newest is released as it enters or by the longest wait after the first unanswered message came |
| ListenerProtocol.LongestWaitRestarts | src/waifu_standalone/reply_flow/listener.py:194-195 | for every setting a run in which that wait is over and the sender is made to wait further |
| ListenerProtocol.DroppedRecordReleasesOlder | src/waifu_standalone/reply_flow/listener.py:144-158 | a run in which a dropped record releases the older of two messages |
| ListenerProtocol.DroppedIff | src/waifu_standalone/reply_flow/listener.py:144-146 | noting a message drops exactly the stale records of others, and only from a table of more than 4096 |
| ListenerProtocol.CrowdDropsRecord | src/waifu_standalone/reply_flow/listener.py:138-146 | messages of 4096 others have a stale record dropped, those of fewer do not |
| OneBotGateway.Gateway.Activate | src/waifu_standalone/gateways/onebot_ws.py:152-155 | a new socket takes over and every pending call is cancelled |
| OneBotGateway.Gateway.Deactivate | src/waifu_standalone/gateways/onebot_ws.py:159-163 | only the active socket's own teardown cancels anything |
| OneBotGateway.Gateway.Close | src/waifu_standalone/gateways/onebot_ws.py:126-130 | nothing is active or pending afterwards |
| OneBotGateway.Gateway.Register | src/waifu_standalone/gateways/onebot_ws.py:85-92 | a fresh echo is pending on the active socket, or the call fails |
| OneBotGateway.Gateway.Receive | src/waifu_standalone/gateways/onebot_ws.py:63-67 | a reply resolves the undone future of its own echo and nothing else |
| OneBotGateway.Gateway.End | src/waifu_standalone/gateways/onebot_ws.py:94-97 | the call's entry is gone and its future done, however it ends |
| OneBotGateway.Gateway.CancelPending | src/waifu_standalone/gateways/onebot_ws.py:165-170 | the table is empty and every undone future of it cancelled |
| OneBotGatewaySafety.RunKeepsInv | src/waifu_standalone/gateways/onebot_ws.py:44-170 | in every run pending entries, calls on the wire and the active socket fit together |
| OneBotGatewaySafety.PendingIsOfActiveSocket | src/waifu_standalone/gateways/onebot_ws.py:81-97 | every pending echo was registered on the socket active now by a call that has not returned |
| OneBotGatewaySafety.OnlyOwnSocketCancels | src/waifu_standalone/gateways/onebot_ws.py:152-170 | a call is never cancelled by the late teardown of an earlier socket |
| OneBotGatewaySafety.NobodyHangs | src/waifu_standalone/gateways/onebot_ws.py:63-67 | a call still waiting is pending on the active socket, so its reply would reach it |
| OneBotGatewaySafety.SentIffConnected | src/waifu_standalone/gateways/onebot_ws.py:85-92 | a call that gets the lock is sent on the active socket, under an echo no call had before, exactly if there is one that has not closed; else it fails and leaves nothing behind |
| OneBotGatewaySafety.CallSucceeds | src/waifu_standalone/gateways/onebot_ws.py:81-97 | with the lock free and the socket open a new call is sent, and returns the very data of the reply to it |
| OneBotGatewaySafety.LockedIffSending | src/waifu_standalone/gateways/onebot_ws.py:85-92 | the lock is held exactly while a call is being sent, however that ends |
| OneBotGatewaySafety.TeardownEndsWaiting | src/waifu_standalone/gateways/onebot_ws.py:126-170 | a new socket, the shutdown and the teardown of the active socket end every call still waiting |
| OneBotGatewaySafety.ClosedIffDropped | src/waifu_standalone/gateways/onebot_ws.py:87-88 | a socket counts as closed exactly from its closing on |
| OneBotGatewaySafety.ReturnsOwnReplyOnce | src/waifu_standalone/gateways/onebot_ws.py:63-97 | a call returns at most once, with the first reply that bears its own echo |
| InboundDedup.InboundDeduplicator.Claim | src/waifu_standalone/gateways/inbound_dedup.py:54-68 | expired entries go, a fresh key is entered newest, the oldest leave with their delivery marks |
| InboundDedup.InboundDeduplicator.Prune | src/waifu_standalone/gateways/inbound_dedup.py:102-106 | exactly the expired entries and their delivery marks go |
| InboundDedup.InboundDeduplicator.MarkDelivered | src/waifu_standalone/gateways/inbound_dedup.py:70-75 | a key that is held is marked, no other |
| InboundDedup.InboundDeduplicator.Release | src/waifu_standalone/gateways/inbound_dedup.py:77-84 | a key is forgotten unless it was delivered |
| InboundDedupRuns.RunKeepsValid | src/waifu_standalone/gateways/inbound_dedup.py:54-84 | in every run the table is within its bound, keys are distinct and only held keys are marked delivered |
| InboundDedupRuns.ClaimedTwice | src/waifu_standalone/gateways/inbound_dedup.py:54-84 | two granted claims of a key within its time to live have an undelivered release or a full table of other grants between them |
| InboundDedupRuns.RefusedWasGranted | src/waifu_standalone/gateways/inbound_dedup.py:54-68 | a claim is refused only for one of the same message granted within its time to live and not released since |
| InboundDedupRuns.DeliveredHasReply | src/waifu_standalone/gateways/inbound_dedup.py:70-84 | and a release is ignored only when a reply to the latest granted claim has gone out |
| ContextBuilder.SplitHistory | src/waifu_standalone/conversation/context.py:171-202 | the history is refused exactly when it has an invalid role, order, scope or an unconfirmed answer, else cut into eligible and omitted turns |
| ContextBuilder.CheckTurn | src/waifu_standalone/conversation/context.py:176-182 | a turn passes exactly when each of its messages fits, in order |
| ContextBuilder.ItemsFitIff | src/waifu_standalone/conversation/context.py:176-182 | the history fits exactly if each message at its place is of the two sides, before the current one and in order, of this conversation and character if it says which |
| ContextBuilder.KeptIff | src/waifu_standalone/conversation/context.py:183-191 | a turn is kept exactly if it is not suppressed and begins with the other side, or is a lone reminder or follow-up that went out |
| ContextBuilder.KeptAreConfirmed | src/waifu_standalone/conversation/context.py:193-197 | answers in kept turns are confirmed ones |
| ContextBuilder.RefusedForUnsent | src/waifu_standalone/conversation/context.py:193-197 | a history that fits in every message is refused only for an answer in a kept turn that has not gone out |
| ContextBuilder.Build | src/waifu_standalone/conversation/context.py:163-229 | rejected exactly when the required parts alone do not fit or the history is refused, else a fitted bundle |
| ContextBuilder.Fit | src/waifu_standalone/conversation/context.py:211-229 | examples are left out exactly when the prompt with everything in it is over the budget; then the oldest turns while every memory is still in; memories only when no turn is left; the rest is within the limits |
| ContextBuilder.TurnsAreRuns | src/waifu_standalone/conversation/context.py:174-175 | turns are the history cut where the event changes and nowhere else |
| ContextBuilder.DroppingHelps | src/waifu_standalone/conversation/context.py:216-220 | dropping the oldest turn never makes the prompt dearer |
| ContextBuilder.CostIs | src/waifu_standalone/conversation/context.py:56-64 | a prompt costs sixteen for each message, one for each byte of text and the reserve for each picture |
| ContextBuilder.TurnsDroppedForMemories | src/waifu_standalone/conversation/context.py:216-220 | beside all memories any turn more would break a limit |
| ContextBuilder.FewestTurnsDropped | src/waifu_standalone/conversation/context.py:216-224 | of the prompt that is sent: any turn more would break a limit, exactly unless not all memories fit alone while the newest turn fits beside those that do; so always when every memory is kept |
| ContextBuilder.FewestMemoriesDropped | src/waifu_standalone/conversation/context.py:222-224 | any memory more would break the budget of the prompt that is sent |
| ContextBuilder.KeptWithoutExamples | src/waifu_standalone/conversation/context.py:213-224 | without examples the turns kept are those from the first that breaks no limit beside all memories, and the memories those that fit with no turn, both said of the parts alone |
| ContextBuilder.ExamplesGivenUpIff | src/waifu_standalone/conversation/context.py:213-224 | examples are left out that fit in the prompt that is sent exactly if they do not fit beside everything and do fit beside those turns and memories |
| ContextBuilder.TurnGivenUpForNothing | src/waifu_standalone/conversation/context.py:216-224 | parts whose one turn is dropped for a memory that is dropped too, although the turn fits without it |
| ContextBuilder.ExamplesGivenUpForNothing | src/waifu_standalone/conversation/context.py:213-220 | parts whose examples are left out for a turn that is dropped too, although they fit without it |
| ContextBuilder.WithinLimits | src/waifu_standalone/conversation/context.py:225-226 | the prompt is within the token budget and the picture limit |
| ContextBuilder.TurnsPartitioned | src/waifu_standalone/conversation/context.py:218-227 | kept and omitted turns are the history's turns, each once, the kept being the newest eligible ones in order |
| ContextBuilder.PromptFromItsEnd | src/waifu_standalone/conversation/context.py:225-225 | from its end the prompt has the current message, the kept turns in order, the kept memories, the examples if kept and the required parts |
| ContextBuilder.BundleIsConversation | src/waifu_standalone/infra/llm_clients.py:43-48 | the current message comes last and the prompt passes the role check of every request |
| ChatMessages.BuildChatMessages | src/waifu_standalone/reply_flow/prompt_assembler.py:614-635 | the two sides speak in turn, the other side first and last, and all that was said is there in order |
| ChatMessages.OthersAreNamed | src/waifu_standalone/reply_flow/prompt_assembler.py:614-635 | in a group everybody but her is named before what they say |
| ToolLoop.Invoke | src/waifu_standalone/reply_flow/prompt_assembler.py:886-964 | whatever the model does: at most one request after the rounds, each with every call answered and going on from the answer before it, the request to act made exactly after a first answer without calls on command, another wording asked for exactly of a direct answer too like earlier ones; what is said in the end is what the last answers come to; the tools run are the offered ones among the calls of all answers |
| ToolLoop.Finish | src/waifu_standalone/reply_flow/prompt_assembler.py:842-856 | a reply without calls costs at most one request more, without tools, exactly when no tool ran and it is too like earlier ones; the other wording is said if it is usable, else the first |
| ToolLoop.RunTools | src/waifu_standalone/reply_flow/prompt_assembler.py:921-951 | one answer for each call, in order, with its id; only offered tools run |
| ToolLoop.RoundKeeps | src/waifu_standalone/reply_flow/prompt_assembler.py:919-951 | a round keeps every call answered and adds exactly its calls |
| ToolLoop.Prompts | src/waifu_standalone/reply_flow/prompt_assembler.py:903-907 | the request to act is made once at most |
| ToolLoop.AnsweredAt | src/waifu_standalone/reply_flow/prompt_assembler.py:944-951 | position by position: call j of the message at i is answered at i + 1 + j, and every tool message is such an answer |
| ToolLoop.RunsExactlyWhatIsOffered | src/waifu_standalone/reply_flow/prompt_assembler.py:933-936 | an offered tool runs as often as it was called, any other never |
| ToolLoop.ParseToolResponse | src/waifu_standalone/infra/llm_clients.py:722-750 | the assistant message lists exactly the calls that will be answered, none without id or name |
| Greetings.Companion.NoteInbound | src/waifu_standalone/reply_flow/companion.py:247-257 | the chat was heard now, nothing is unanswered, no other chat changes |
| Greetings.Companion.OpenedToday | src/waifu_standalone/reply_flow/companion.py:677-680 | all kept openings of all chats since midnight are counted |
| Greetings.Companion.Choose | src/waifu_standalone/reply_flow/companion.py:502-574 | the chat picked is the first lucky one that every rule allows, within the greeting hours and the daily limit; none is picked in them only if there is none |
| Greetings.HoursGoRound | src/waifu_standalone/reply_flow/companion.py:671-675 | the greeting hours go round the clock from the first set to before the second; ten to twenty-two with none set, to the end of the day with one |
| Greetings.Companion.Record | src/waifu_standalone/reply_flow/companion.py:510-514 | the opening is kept among the newest twenty, and counts as unanswered if something was said |
| GreetingRules.KeptLogSufficesIff | src/waifu_standalone/reply_flow/companion.py:510-511 | the newest twenty openings answer a limit as all of them would exactly for limits up to twenty |
| GreetingLog.DayCheckIsFull | src/waifu_standalone/reply_flow/companion.py:504-504 | the day's check on what the chats keep is the check on the whole log |
| GreetingLog.DayCheckIff | src/waifu_standalone/reply_flow/companion.py:677-680 | and it forbids nothing that the whole log would allow |
| GreetingRules.RunKeepsInv | src/waifu_standalone/reply_flow/companion.py:502-544 | in every run, with people heard at any moment, what is kept of each chat is what the log says of it |
| GreetingRules.RunKeepsChatRule | src/waifu_standalone/reply_flow/companion.py:546-574 | over whole runs each opening of a chat has fewer than its limit in the 24 hours before it |
| GreetingRules.RunKeepsDayRule | src/waifu_standalone/reply_flow/companion.py:677-680 | and each opening at all fewer than the daily limit since midnight |
| GreetingRules.StopsWhenUnanswered | src/waifu_standalone/reply_flow/companion.py:538-544 | at most `unanswered_stop` said openings in a row go unanswered, each after its wait |
| GreetingRules.PrivateOpenedOnceADay | src/waifu_standalone/reply_flow/companion.py:546-550 | two openings of a private chat are more than 24 hours apart |
| GreetingRules.GroupLimitHolds | src/waifu_standalone/reply_flow/companion.py:568-574 | any 24 hours hold at most `group_daily_limit` openings of a group, for a limit of at most twenty |
| GreetingRules.DailyLimitHolds | src/waifu_standalone/reply_flow/companion.py:677-680 | no local day has more than `daily_limit` openings, where that is at most twenty or no chat can have more than twenty in one day |
| GreetingRules.RunKeepsHours | src/waifu_standalone/reply_flow/companion.py:671-675 | in every run each opening is within the greeting hours, which may run past midnight |
| GreetingRules.OpensOnlyWhenIdle | src/waifu_standalone/reply_flow/companion.py:546-574 | she opens a private chat or a group only when nobody has been heard there for as long as its kind is to be idle |
| GreetingRules.EligibleByLog | src/waifu_standalone/reply_flow/companion.py:517-574 | a chat is a candidate exactly if the whole log says so: few enough unanswered openings and the last long enough ago, idle long enough, not opened in 24 hours, or a group less often than its limit |
| GreetingRules.NoneWithoutLimit | src/waifu_standalone/reply_flow/companion.py:502-504 | with no openings allowed on a day there are none |
| GreetingLimits.DailyLimitIff | src/waifu_standalone/reply_flow/companion.py:502-514 | the daily limit holds of every run exactly if it is at most twenty or, taking the greeting hours of one local day that can be more than 24 hours apart, no chat reaches more than twenty by its own limit |
| GreetingLimits.OverDailyLimit | src/waifu_standalone/reply_flow/companion.py:510-511 | and else there is a run to a state that breaks it, with one chat opened twenty-one times and others once each |
| GreetingLimits.CountableOnShortDays | src/waifu_standalone/reply_flow/companion.py:677-680 | so it holds if greeting hours lie within `n` times 24 hours from midnight and `n` group limits within twenty |
| GreetingLimits.GreetingHoursAreShort | src/waifu_standalone/reply_flow/companion.py:671-675 | as they do for one such time with hours that end by 23, like those set by default, on a clock shifted by an hour at most |
| GreetingLimits.GroupLimitIff | src/waifu_standalone/reply_flow/companion.py:568-574 | any 24 hours hold at most `group_daily_limit` openings of a group, in every run, exactly if that is at most twenty or the daily limits of as many days as 24 hours can touch are within it |
| GreetingLimits.OverGroupLimit | src/waifu_standalone/reply_flow/companion.py:510-511 | and else there is a run to a state that breaks it |
| GreetingLimits.GroupLimitByDays | src/waifu_standalone/reply_flow/companion.py:510-511 | so two daily limits are enough where no day is shorter than 24 hours, three where none is shorter than twelve |
| GreetingLimits.NoLimitAboveTwenty | src/waifu_standalone/reply_flow/companion.py:510-511 | with both limits above twenty some run opens one group any number of times at any moment of the greeting hours |
| Reminders.Book.Add | src/waifu_standalone/reply_flow/companion.py:285-316 | taken exactly when it has a note, a readable time ahead within a year, no like one within five minutes, and the chat has room |
| Reminders.TakenIff | src/waifu_standalone/reply_flow/companion.py:285-301 | in numbers: ahead by at most 366 days, five minutes from anything like it, fewer than the share of the chat |
| Reminders.Book.Cancel | src/waifu_standalone/reply_flow/companion.py:276-284 | one reminder of this chat with that number goes, or there is none |
| Reminders.Book.Due | src/waifu_standalone/reply_flow/companion.py:479-484 | what is due is taken in time order, the rest stays in place |
| Reminders.ByTimeSorts | src/waifu_standalone/reply_flow/companion.py:484-484 | sorted by time with nothing lost or added |
| Reminders.ByTimeIsStable | src/waifu_standalone/reply_flow/companion.py:484-484 | what is due at one time stays in the order it was asked for |
| Reminders.StepKeepsTimely | src/waifu_standalone/reply_flow/companion.py:486-490 | nothing is said early, nor more than twelve hours late, and each by the first tick from its time on |
| Reminders.SaidUnlessLate | src/waifu_standalone/reply_flow/companion.py:486-490 | what is taken next is said unless it is more than twelve hours late |
| Reminders.RunKeepsTicks | src/waifu_standalone/reply_flow/companion.py:479-484 | in every run it is said by the last tick, `before` being the one before that |
| Reminders.StepKeepsModest | src/waifu_standalone/reply_flow/companion.py:296-301 | no chat has more than its share, nor the same thing twice within five minutes |
| Reminders.RunKeepsPromises | src/waifu_standalone/reply_flow/companion.py:233-238 | over any run, cancellations of a tick included, every reminder is accounted for and said at most as often as it was asked for |
| Reminders.NothingTwice | src/waifu_standalone/reply_flow/companion.py:296-301 | in every run two reminders of a chat with one note are five minutes apart, and no chat has more than its share |
| Cards.ParseCardText | src/waifu_standalone/character/cards.py:679-705 | the loop reads line after line as the specification does |
| Cards.WordsAreNoText | src/waifu_standalone/character/cards.py:793-800 | the words for truth values and for nothing are no text, in any case, and only "true" counts as something |
| Cards.DosBreakIsOne | src/waifu_standalone/character/cards.py:682-682 | a DOS line break ends one line |
| Cards.OneValueSection | src/waifu_standalone/character/cards.py:785-790 | a section of one value is that value if it is text and says something, else empty |
| Cards.StripInlineComment | src/waifu_standalone/character/cards.py:814-826 | the line up to the first `#` outside quotes, right-stripped |
| Cards.RenderCardYaml | src/waifu_standalone/character/cards.py:753-773 | the normalized fields as lines, an empty section with its placeholder |
| WrittenCards.NormalIsWritable | src/waifu_standalone/character/cards.py:723-750 | fields as the editor normalizes them meet what the round trip asks for, if they hold no line break |
| CardRoundTrip.ReadsBack | src/waifu_standalone/character/cards.py:679-705 | a written card of single-line values reads back value by value |
| CardRoundTrip.RoundTripIff | src/waifu_standalone/character/cards.py:753-773 | it reads back the same exactly when no section is empty and every value reads back as itself |
| CardRoundTrip.PlainStays | src/waifu_standalone/character/cards.py:793-811 | a value with no `#`, no quote at an end, no bracket in front, not a word for a bool or null and not a number reads back as itself |
| CardRoundTrip.PlainCardRoundTripIff | src/waifu_standalone/character/cards.py:679-773 | a card of plain values reads back the same exactly when no section is empty |
| CardRoundTrip.EmptySectionReadsAsDash | src/waifu_standalone/character/cards.py:701-704 | an empty section reads back as one dash |
| WrittenCards.SplitJoined | src/waifu_standalone/character/cards.py:682-682 | splitting joined lines gives the lines back |
| Emitter.SplitReplyText | src/waifu_standalone/reply_flow/emitter.py:68-92 | chunks of one to `limit` characters that with the white space at the cuts are the text; each cut the best in its window |
| Emitter.FindCut | src/waifu_standalone/reply_flow/emitter.py:79-87 | a blank line, else a line break, else a sentence end, the last one that leaves half the limit, else the limit |
| Emitter.CoversKeepsText | src/waifu_standalone/reply_flow/emitter.py:88-91 | such chunks keep all of the text but white space |
| Emitter.SentenceIs | src/waifu_standalone/reply_flow/emitter.py:34-34 | a sentence is plain text up to a line break, or to end marks with all closing quotes after them, or to the end |
| Emitter.AloneIff | src/waifu_standalone/reply_flow/emitter.py:51-60 | a sentence stands alone exactly if it says something and neither it nor the piece before it has fewer than four characters; else it joins that piece, with the line break between them |
| Emitter.Pieces | src/waifu_standalone/reply_flow/emitter.py:51-60 | the sentences one after another, so all of the text; of two pieces or more each has four characters |
| Emitter.Capped | src/waifu_standalone/reply_flow/emitter.py:61-64 | at most the allowed number of pieces, with the same text |
| Emitter.MergedTells | src/waifu_standalone/reply_flow/emitter.py:61-64 | of too many pieces all but the allowed number less one are told as one, the others as they were |
| Emitter.StaysWholeIff | src/waifu_standalone/reply_flow/emitter.py:41-50 | a text stays whole exactly if it is too long for a chat, has a code fence or a list, or is not to be cut at all |
| Emitter.ConversationalChunks | src/waifu_standalone/reply_flow/emitter.py:41-65 | few messages that say all of the reply, the whole text exactly if it stays whole, else its pieces, the last ones told together |
| Emitter.MessageParts | src/waifu_standalone/reply_flow/emitter.py:252-289 | the quote on the first part only, the pictures on exactly the last with text, the sticker on its own; the texts are the messages of a chat reply if those are several, else the text cut by length, nothing lost; parts within the longest message unless chat pieces may be longer |
| NearDuplicate.InsertedChars | src/waifu_standalone/memory/knowledge_service.py:36-45 | greedy matching succeeds exactly when one text is a subsequence of the other; what it leaves is the leftover of an embedding |
| NearDuplicate.LeftoverIsTheDifference | src/waifu_standalone/memory/knowledge_service.py:37-45 | every embedding leaves the same characters, each as often |
| NearDuplicate.IsNearDuplicate | src/waifu_standalone/memory/knowledge_service.py:48-60 | the answer depends on the two compacted texts only, by a symmetric condition |
| NearDuplicate.SubstitutionDiffers | src/waifu_standalone/memory/knowledge_service.py:14-16 | two different texts of one length are never near duplicates |
| NearDuplicate.NegatesIffMore | src/waifu_standalone/memory/knowledge_service.py:60-60 | a negation was inserted exactly when some negation occurs more often in one text |
| Stream.Unstream | src/waifu_standalone/infra/llm_clients.py:451-494 | text joined and made whole, calls by their index in order, the latest finish reason |
| Stream.UnchangedIffNoHalves | src/waifu_standalone/infra/llm_clients.py:431-437 | text is left alone exactly when it has no lone half of a character (RFC 2781, section 2.2) |
| Stream.WholeCharactersTwice | src/waifu_standalone/infra/llm_clients.py:431-437 | doing it twice changes nothing more |
| Stream.CallsAreGlued | src/waifu_standalone/infra/llm_clients.py:478-487 | however calls are mixed, each is made of the pieces with its index, in their order, halves of characters as they came |
| Stream.TextComesBack | src/waifu_standalone/infra/llm_clients.py:440-488 | the text of any stream that sends a completion is put back together to it, cut anywhere, also inside a character |
| Stream.CallsComeBackIff | src/waifu_standalone/infra/llm_clients.py:476-490 | the calls of such a stream, however mixed and cut, come back as they were sent exactly when no piece of their arguments was cut inside a character |
| Stream.GluedWholeIff | src/waifu_standalone/infra/llm_clients.py:487-487 | joined arguments hold no half of a character exactly when no piece of them does |
| Stream.HalvesStayApart | src/waifu_standalone/infra/llm_clients.py:487-487 | a character of arguments sent in two halves stays two halves |
| Stream.SplitArgumentsDoNotComeBack | src/waifu_standalone/infra/llm_clients.py:476-490 | a concrete stream of two deltas that sends one call and gives another |
| Stream.TwoCuttingsAgree | src/waifu_standalone/infra/llm_clients.py:440-494 | two streams that send one completion give the same text; and the same calls, if one cuts no argument inside a character, exactly when the other does not either |
| Stream.HalvesMeet | src/waifu_standalone/infra/llm_clients.py:434-437 | a character sent in two halves arrives whole |
| Stream.SortedOnce | src/waifu_standalone/infra/llm_clients.py:490-490 | there is one order of the calls |

## Left out

- Network, process and user-interface code, prompt wording, model output, embeddings and metrics: they are I/O, or have no specification beyond themselves.
- `runtime_v2`, `systems/value_game.py` and the skills are not part of this model; what they decide enters as a parameter (`outside` in `Greetings`, `repeats` and `clean` in `ToolLoop`).
- JSON, SHA and YAML libraries: the encoding of sessions is any codec with the laws in `SnapshotLog.Lawful`; Python's `int`, `float` and `ast.literal_eval` are parameters in `Cards`.
- Float rounding and real clocks: time and tokens are reals, clocks never run backwards.
- Thread scheduling inside a step: what happens under a lock, or between two awaits, is atomic.
- File system failures other than a write cut short: `replace` is atomic, as the source relies on.
- The legacy `.json` files, `list_sessions` and `clear` of the stores, which add nothing to the argument.
- Asynchronous twins of synchronous functions: one of each pair is modelled.
- `SessionLock.hold` and `locked`: a blocking caller is a task on a loop of its own; `locked` only reads the flag.
- The owner loop of the gateway and its re-binding (`send_action`, `run_sync`): one loop owns the socket, and event payloads are handled elsewhere.
- Stage-by-stage wording of `_user_message` and the scope checks of memory records in `ContextBuilder.build` before line 163; the cost of a message is modelled, its text is not.
- Group chime-ins of the listener (`_newest`, `_checks`, budgets) and quiet hours: they use the limiter, whose bound is proved.
- Watches, the diary and the state file of the companion: watches speak by the same path and have no limits over time to prove.
- `clip_rolling_summary`, tags and the summary text: a summary is any text, empty for none.
- Images and raw blocks of tool results in `ToolLoop`, and `_drop_habitual_ellipsis`: they only decorate the reply's text.
- `_repetition_evidence` and `leak_guard`: any function of the text.
- Regular expressions: the sentence pattern of `Emitter` is written out as a scanner; the list pattern is a parameter.
- Case folding and the alphanumeric filter of `_compact_text`: any function from text to text.
- The parsing of event lines in `_unstream`: a stream is its decoded events.
- Text.Lower: ASCII letters only; no other letter lowers to one of the words that are compared.
- RateLimit.TokenBucketLimiter.Acquire: keys repeated within one call are modelled, but the bounds are stated for calls that name the key once, as the callers do.
- GreetingRules.GroupLimitHolds: openings in which she chose to say nothing count as openings, as in the source.
- CardRoundTrip.RoundTripIff: values that hold a line break are not covered; the editor stores one line per value.
- Stream.CallsComeBackIff: pieces without an index are modelled by `WithItem`, but two of them are told apart by arrival only, so the statement is about streams that number their calls; what a JSON parser makes of a half later is not part of this model.
- ListenerProtocol.BurstAnsweredIff: messages that are not noted at all (no id, an ignored sender or prefix) are not among the sender's messages, and one cancelled while it waits is not modelled.
- Emitter.MessageParts: the text is what is left when sticker tags have been removed, which is not part of this model; with `max_total_chars` above `outbound_message_max_chars` chat pieces are not cut again, so the length bound needs that setting to be the smaller one.
