# A verified model of Add_members

Add_members is a Telegram bot that queues users, adds them to a group with several accounts at once, and
collects candidates from chats. This project models the bookkeeping and concurrency underneath the
Telegram calls, in Dafny, and proves what that code keeps over every run. Telegram's answers, the clock,
random draws and the outcome of every wait are parameters or free choices of a step.

`dafny verify dfyconfig.toml` checks everything.

## The modules

- `AddRun`, `AddRunProofs`, `AddRunPromises`, `AddRunLaws`, `AddRunWorkers`: the parallel add run of `bot.py`. `AddRun` is a
  step system on values: one worker step is the code between two awaits (cut finer where that code goes
  round the loop without awaiting, which only adds schedules). `AddRunProofs` proves the invariants of every
  schedule, a bound on its length, and two things it does not promise; `AddRunPromises` says what the
  counters, the stop event and the shared set mean, and `AddRunLaws` exactly when a worker leaves, where it
  goes otherwise, and who ends where, in terms of the schedule alone. `AddRunWorkers` is the same run with shared fields
  updated in place, a blocked set that may be the very object the cache holds, and the tables, while other
  handlers use the cache and the tables too. `Drive` carries out any sequence of such deeds, and leaves
  exactly the run, tables and cache that the value-level `ActAll` computes.
- `Database`, `BlockedCache`: the scraped, added-history and do-not-add tables of `db.py` with the
  counter-driven purge, and the in-memory set of `add_engine.py` that caches them.
- `Harvester`, `DeepScan`, `DeepHistory`, `PageScan`: the one-pass message harvester, the batch loop with
  flood retries that feeds it, what such a scan reads and notes, and the membership oracle.
- `SessionLocks`: the three-level locking of `attacker.py` for any number of concurrent tasks.
- `GlobalThrottle`: the minimum gap between invitations for any number of concurrent callers.
- `AccountLeases`: the "account busy" table.
- `RateWindows`: the flood deque and the last-ten tracker.
- `CallbackRouter`: exact keys and longest prefixes, with the lazy in-place sort.
- `Distribution`: the greedy deal of ids to accounts.
- `Prefilter`, `PrefilterRun`: the batched pre-filter with both abort paths.
- `AddQueue`: filtering, sorting and shuffling the add queue.
- `Paging`: the offset and token paging generators.
- `Duration`, `Text`: the duration printer and parser, and the string helpers they share with `AddQueue`.
- `Common`: options, sums and counters.

## Where the code does less than it seems to

- The abort guard's message speaks of 25 invitations in a row without a join. Privacy refusals raise that
  counter too, but only the answer "invited but not a member" tests it, so any number of privacy refusals
  passes without tripping it (`AddRunProofs.PrivacyNeverTripsGuard`).
- A worker leaves when it sees the queue empty although another worker may still put its member back, so a
  run without any stop can end with members queued (`AddRunProofs.EmptyQueueExitMayLeaveMembers`). What is
  left over is exactly the final queue; everybody is accounted for exactly when the last worker leaves an
  empty queue and does not put a member back in leaving (`AddRunProofs.AllAccountedIff`).
- A bulk insert that names one user twice within a page of 500 rows loses that page and all later ones: the
  server refuses such a statement, and the error is logged and swallowed (`Database.RepeatLosesThePage`;
  `Database.AllLandIff` is the exact condition under which everything lands).
- A row without an id is dropped by the pre-filter as "not found" although nobody asked about it, exactly
  when its batch has some other id, no earlier lookup gave up, and the lookup of its batch succeeds
  (`Prefilter.IdlessRowDroppedIff`; an instance is `Prefilter.IdlessRowsAreDroppedUnasked`).
- The reactor and voter generators yield one entry even when `max_total` is zero or negative
  (`Paging.CapIsKeptIff` says when the cap is kept).
- The membership oracle's documentation promises one request per id. A flood is not remembered, so a
  candidate asked about again before anything settled it costs another request
  (`DeepHistory.FloodCostsASecondRequest`; `DeepHistory.MoreThanOneRequestIff` is exact).
- A batch of the deep scan that is read again after a flood notes the ids of messages with reactions or
  polls again, and each repeat is asked about again (`DeepScan.FloodsRepeatNotesIff` and, for any scan,
  `DeepScan.NotesRepeatIff` say exactly when).
- The flood window is read from the settings at every message. If it is made wider, messages that the deque
  has dropped stay forgotten although the new window covers them (`RateWindows.WideningForgets`;
  `RateWindows.DequeIsExactIff` is the exact condition).
- A lease can be granted again early if the times of the calls do not rise: when the clock goes back after a
  read in between, or when two threads, each of which reads the clock before it takes the lock, take it in
  the other order (`AccountLeases.NextGrantIff` is the exact condition for any times).
- The move of a lock from the temporary to the permanent name in `persist_to_permanent` never happens with
  the relative sessions directory the program uses, and would break mutual exclusion if names were
  absolute (`SessionLocks.AbsoluteNamesBreakExclusion`; `SessionLocks.ExclusionIff` has both directions).
- A printed duration of a day or more loses its seconds (`Duration.RoundTripIff`).

## Model

| member | source | states |
|---|---|---|
| AddRunProofs.RunIsBounded | bot.py:7730-8153 | in every schedule, for any starting strikes, N queued members and W workers make at most 6(N+W) dequeues and 42N+45W worker steps |
| AddRunProofs.WorkersNeverStuck | bot.py:7730-8153 | a worker that has not left always has a step it can take |
| AddRunProofs.RunsCanFinish | bot.py:8172-8177 | from every state some schedule brings all workers to leave, within the rank that bounds every schedule |
| AddRunProofs.RunConserves | bot.py:7735-7750 | in every reachable state each queued member is in exactly one of queue, hands and finished; the counters equal the finished members of each kind; nobody finishes twice |
| AddRunProofs.RunEndsComplete | bot.py:8179-8183 | when all workers have left, added + failed + skipped + still queued = N, so the sum is N exactly when the queue is empty |
| AddRunProofs.LastLeavesEmptyQueue | bot.py:7730-7738 | if the last worker leaves by the empty-queue test, added + failed + skipped = N |
| AddRunProofs.AllAccountedIff | bot.py:7846-7851 | when the last worker leaves, added + failed + skipped = N exactly if the queue is empty and the leaving step is not a stop after the throttle or a refused write, which put a member back |
| AddRunProofs.OvershootIsBounded | bot.py:7905-7918 | while nobody has joined, "invited but not a member" came back at most 24 + W times, and at most 24 times without the stop event |
| AddRunProofs.BlockedSetIsTruthful | bot.py:7968-8038 | the set the workers share only grows, and holds every id that ended joined, not joined, already in, privacy or invalid |
| AddRunProofs.ReactionsAreSound | bot.py:7777-7811 | each step moves one member in one of five ways; a requeue costs a strike or the worker, and only a join restores strikes |
| AddRunProofs.PrivacyNeverTripsGuard | bot.py:8017-8030 | for every k up to the number of ids in range there is a run of k privacy refusals with nobody joined and no stop |
| AddRunProofs.EmptyQueueExitMayLeaveMembers | bot.py:8097-8124 | a run without a stop in which one worker leaves on an empty queue and a member stays queued |
| AddRunPromises.OnlyUnblockedAreInvited | bot.py:7746-7750 | in every schedule only members in range and not blocked at the start are invited, and only members out of range or blocked are barred |
| AddRunPromises.CountersMeanWhatTheySay | bot.py:7905-7961 | the global counter is the failures since the last join, the accounts' joins add up to the total, and nobody goes on after eight "not joined" without the long rest |
| AddRunPromises.SkipsAreOwnAnswers | bot.py:7905-7929 | each worker's counter is its own "not joined" answers since its last join or long rest, and it never carries eight on |
| AddRunPromises.RestsAtTheEighth | bot.py:7921-7929 | the long rest comes exactly with the eighth of them, unless that answer makes the guard stop the run |
| AddRunPromises.GuardStopsExactly | bot.py:7908-7918 | the run stops itself exactly when, with nobody joined, "not joined" comes back as the 25th or later failure |
| AddRunPromises.StopHalts | bot.py:7846-7851 | once the stop event is up, or while the stop request is, nothing more is taken, and only invitations already out are answered |
| AddRunPromises.PauseHalts | bot.py:7731-7733 | while the stop button of the parallel add is down nothing more is taken, and only members in hand are answered about |
| AddRunPromises.PauseLetsThrough | bot.py:7848-7851 | that flag is not looked at after the throttle, so a member past it is still invited and answered |
| AddRunPromises.BlockedSetIsExact | bot.py:7968-8038 | the held set is the initial one, the ids of blocking outcomes and what other tasks added, and nothing else |
| AddRunLaws.ExitLaw | bot.py:7730-8153 | in every reachable state a worker's next step is its last exactly if the start or connect failed, a wait ended by the stop event, at the loop head the queue is empty or its own joins have reached 100000 or a flag is up, a stop is up after the throttle, a cool-down ends with six strikes, the answer is write-forbidden or a flood wait, or the guard trips |
| AddRunLaws.StageLaw | bot.py:7752-8138 | a step that is not its last takes a worker to the next stage: resolve, once more by id, throttle, invite, and after every answer but "too many channels" a wait, long after the eighth "not joined" |
| AddRunLaws.WhatCanHappen | bot.py:7679-7689 | which outcomes a step can have in each phase |
| AddRunLaws.QueueIsFifo | bot.py:7735-7816 | over every schedule members are taken from the front in order and put back at the end, and each taking is a dequeue |
| AddRunLaws.OutcomesAreBooked | bot.py:7873-8138 | joined counts as added, flood waits and other errors as failed, all else as skipped; which outcomes enter the held set; invited ids lie between 10000 and 10^11 |
| AddRunLaws.EverybodyJoins | bot.py:7954-8153 | when nothing fails, nobody stops and every answer is a join, a finished run has emptied the queue, joined every member in range and not blocked, and barred the rest, unless every worker has made 100000 joins |
| AddRunWorkers.ParallelRun.constructor | bot.py:7517-7613 | a run starts with the cache read afresh, the held set equal to the blocked ids, and an initial state of the step system |
| AddRunWorkers.ParallelRun.EndWait | bot.py:7679-7689 | the end of a wait or start-up call does exactly one step and touches only the worker |
| AddRunWorkers.ParallelRun.TurnLoop | bot.py:7730-7750 | one turn of the loop head does exactly one step: leave, bar, or take a member |
| AddRunWorkers.ParallelRun.ResolveAnswered | bot.py:7760-7816 | the answer to resolving, with the one retry by id, the flood requeue and the unresolved skip, does exactly one step |
| AddRunWorkers.ParallelRun.ThrottleDone | bot.py:7846-7851 | after the throttle the second stop test puts the member back and leaves, or the invitation goes out |
| AddRunWorkers.ParallelRun.InviteAnswered | bot.py:7859-8138 | every handled answer does exactly one step, and the tables change as that outcome requires |
| AddRunWorkers.ParallelRun.Book | bot.py:8009-8038 | after an outcome the tables, the cache and the held set agree again, also when the held set is the cached object |
| AddRunWorkers.ParallelRun.CountNotJoined | bot.py:7873-7946 | counter, guard, long rest after eight in a row |
| AddRunWorkers.ParallelRun.CountJoined | bot.py:7954-7961 | a join counts, clears strikes and both failure counters, and the worker goes on to its break or pause |
| AddRunWorkers.ParallelRun.CountOther | bot.py:8003-8136 | the remaining outcomes count as failed or skipped, and only privacy counts as a failure in a row |
| AddRunWorkers.ParallelRun.Perform | bot.py:7730-8153 | one step of any worker refines the step system, with the tables and the cache as that step requires |
| AddRunWorkers.ParallelRun.MarkedElsewhere | bot.py:530-534 | another handler's join reaches the held set exactly when that is still the cached object |
| AddRunWorkers.ParallelRun.RefusedElsewhere | bot.py:2079-2080 | another handler's refusal is listed and parts the held set from the cache |
| AddRunWorkers.ParallelRun.AskedElsewhere | add_engine.py:102-112 | another handler's question parts them exactly when the cached set is over two minutes old |
| AddRunWorkers.ParallelRun.OpenedElsewhere | bot.py:7517-7518 | opening another run parts them |
| AddRunWorkers.ParallelRun.Happen | bot.py:7730-8153 | one deed, by a worker or by another handler, has exactly its effect on run, tables and cache, and none if it is impossible |
| AddRunWorkers.ParallelRun.Drive | bot.py:8172-8177 | after any sequence of deeds, run, tables and cache are exactly those of ActAll, reached by exactly those events that were possible in their turn |
| AddRunWorkers.DeedsAreARun | bot.py:8172-8177 | whatever workers and other handlers do, the run goes by steps of the step system, so all that is proved of its schedules holds |
| AddRunWorkers.SchedulesHappen | bot.py:8172-8177 | every schedule of the step system is carried out event for event when its deeds are done |
| AddRunWorkers.HeldSetMirrorsTables | add_engine.py:102-139 | the held set never names anybody who is not blocked, and is exactly the blocked ids while it is the cached object |
| AddRunWorkers.OutcomesBook | bot.py:7873-8138 | a join or "already in" writes the history row of this group only, a refusal lists the id under privacy, invalid or too_many_channels and deletes the scraped row, and nothing else touches the tables |
| Database.TablesStayClean | db.py:1187-1226 | over every history nobody is both scraped and do-not-add, and the overlap of scraped and added is at most 299 per life of the process |
| Database.OverlapBelowPurgePeriod | db.py:1417-1425 | starting without overlap and without restarts, at most 299 users are both scraped and added |
| Database.OverlapIsReached | db.py:1375-1388 | every overlap up to 299 is reached by some history |
| Database.BlockedNeverReturns | db.py:433-484 | a blocked user that is out of the scraped table stays out and stays blocked |
| Database.SavesAdmitOnlyUnblocked | db.py:383-398 | saving, single or bulk, brings in only users that are not blocked and changes nothing else |
| Database.BulkSaveStoresAll | db.py:449-484 | a bulk insert stores exactly the users of the rows that land; all that are not blocked, if no page names a user twice and the server does not fail |
| Database.AllLandIff | db.py:472-484 | all rows land exactly when the server carries out every page and no page of 500 names a user twice |
| Database.LandedPagesAreClean | db.py:472-484 | what lands is whole pages, up to the first that fails |
| Database.RepeatLosesThePage | db.py:472-484 | a user named twice in the first page, and nothing is saved |
| Database.PageIsOneStatement | db.py:472-481 | each row of a page meets the table as it was before the statement, whatever their order |
| Database.RowAfterBulkSave | db.py:472-481 | a user, at most once in each page that lands, is left with the last phone that is not empty, the group it was first seen in and the names of its last row |
| Database.BlockedGrows | db.py:1267-1282 | no operation unblocks anybody |
| Database.MarkAddedIds | db.py:732-744 | marking adds one id to the added ids, the purge included |
| Database.LeavesScrapedIff | db.py:1379-1425 | exactly which operation takes which user out of the scraped table: a delete that names it, a refusal of it, a purge if it has been added or refused, and the 300th mark if it has been added |
| Database.UnblockedStay | db.py:1379-1425 | over every history a scraped user that is not blocked at the end and that no delete names is still scraped |
| Database.RowsChangeOnlyByName | db.py:383-398 | over every history a user that no save names keeps its row while it is there |
| Database.SaveStores | db.py:383-398 | a new user gets the row; a known one new names only, and keeps phone, group id and group name; a blocked one changes nothing |
| Database.NewRowHasFirstGroup | db.py:472-481 | a user new to the table ends with the group of its first row in the insert |
| Database.MarkStores | db.py:732-744 | marking writes that history row if it is not there and no other, and the 300th call resets the counter |
| Database.RefusalStores | db.py:1210-1226 | a refusal is listed under its latest reason, takes the user's scraped row away, and touches nothing else |
| Database.Database.SaveUser | db.py:382-400 | the row after the blocked test and the conflict rule of the insert |
| Database.Database.BulkSaveUsers | db.py:432-484 | the filtered rows go in by pages of 500, each whole or not at all, until one fails |
| Database.Database.GetBlockedUserIds | db.py:1267-1282 | the two queries give ever-added together with do-not-add |
| Database.Database.MarkAdded | db.py:732-744 | the history row and the purge counter |
| Database.Database.MaybeAutopurge | db.py:1417-1425 | every 300th call purges and resets the counter |
| Database.Database.PurgeAddedUsers | db.py:1379-1395 | a user stays, with its old row, exactly if no group has it in the history |
| Database.Database.AddDoNotAdd | db.py:1210-1226 | the do-not-add row is written or replaced |
| Database.Database.DeleteUser | db.py:1186-1194 | the scraped row is gone, and the result says whether it was there |
| BlockedCache.Cache.GetBlockedIds | add_engine.py:102-112 | returns exactly the blocked ids, as the cached object itself unless they are empty |
| BlockedCache.Cache.MarkAddedLocal | add_engine.py:120-126 | the cached set, if any, gains the id |
| BlockedCache.Cache.MarkUserAsAdded | bot.py:530-534 | tables and cache agree again after a join |
| BlockedCache.Cache.NeverAddAgain | add_engine.py:129-139 | listed, deleted, and nothing cached any more |
| BlockedCache.Cache.BookAdded | bot.py:7968-7972 | a worker's own set may be the cached one while it is ahead of the tables; afterwards all agree |
| BlockedCache.Cache.BookRefused | bot.py:7880-7887 | the worker's set keeps the id although the cache it came from is dropped |
| BlockedCache.Cache.Serve | add_engine.py:98-139 | any history of calls, with any number of open runs holding their sets, purges, deletes and restarts, gets the answers of an uncached reading of the tables |
| Harvester.OnePassIsSixPasses | scrape_optimize.py:152-197 | one pass finds exactly the union of the six single-source passes |
| Harvester.OnePassIsSixFieldPasses | scrape_optimize.py:152-197 | one pass finds a user exactly if one of six passes does, each over its own field: author, forwarded author, author replied to, whom that one forwarded, new members, mentions |
| Harvester.MessageIsConsumed | scrape_optimize.py:142-197 | after one message exactly the takeable ids in its fields are seen besides the old ones, each new one is sent once and labelled by the first field that holds it |
| Harvester.HistoryByFields | scrape_optimize.py:142-197 | the same over any history: who is seen, and that everybody is labelled by the first field of the first message that has it |
| Harvester.EachUserOnce | scrape_optimize.py:142-150 | each eligible user is sent once with the source of its first eligible sighting, nobody else is, and each source's count is the number sent with its label |
| Harvester.RereadIsHarmless | attacker.py:845-867 | reading an overlap again changes neither users nor labels nor counts |
| Harvester.FeedSeesUsers | scrape_optimize.py:142-150 | what is seen is what was seen before and all eligible users of the sightings |
| DeepHistory.MessageHarvester.Offer | scrape_optimize.py:142-150 | the take rule and the sink call for one user |
| DeepHistory.MessageHarvester.Consume | scrape_optimize.py:152-197 | one message, by its fields: who is seen, sent and under which label (`Consumed`), and the reaction and poll ids noted |
| DeepHistory.ScrapeDeepHistory | attacker.py:845-867 | whatever the floods, harvest and sets of messages to ask about are those of one clean pass over the batches up to limit; after a break or stop, of one up to the furthest message read; the lists and the count are those of the stretches read |
| DeepScan.ScanEnds | attacker.py:845-867 | no scan reads beyond a clean one, and one that only floods interrupt ends where a clean one does |
| DeepHistory.TakeTurn | attacker.py:848-867 | what a flood, an error, a stop or an empty batch does to the loop |
| DeepHistory.ConsumePart | attacker.py:850-858 | the messages read one by one: harvest, ids noted in order, and the count of messages |
| DeepScan.FloodsRepeatNotesIff | attacker.py:859-861 | a scan that only floods interrupt notes some message twice exactly when an attempt cut short by a flood had read one with what it is noted for |
| DeepScan.NotesRepeatIff | attacker.py:845-867 | any scan does exactly when two of the stretches it read have such a message in common |
| DeepScan.ScanEndIs | attacker.py:845-867 | that pass covers min(messages, batches for limit times batch size) messages |
| DeepScan.StretchesAre | attacker.py:845-867 | the stretches any scan reads: each to the end of its batch or to where it was cut short; the next starts again after a flood, and otherwise where the last one ended; the scan ends exactly by an error, a stop, an empty batch or the limit |
| DeepHistory.OneRequestEach | scrape_optimize.py:69-99 | the requests about a candidate are its floods and at most one answer, none once settled, and settled stays settled |
| DeepHistory.MoreThanOneRequestIff | scrape_optimize.py:69-99 | a candidate costs two or more requests exactly when it is asked about again while nothing, not even the first request, has settled it |
| DeepHistory.FloodCostsASecondRequest | scrape_optimize.py:81-86 | a flood and then an answer are two requests |
| DeepHistory.KnowledgeIs | scrape_optimize.py:55-99 | after any queries a candidate is known as a member exactly if it was marked as one or its first settling answer said so |
| DeepHistory.AnswersAreRepeated | scrape_optimize.py:69-99 | the next answer is yes exactly if some query up to it said so, so a settled candidate gets its first settling answer again |
| DeepHistory.MembershipOracle.IsMember | scrape_optimize.py:69-99 | answers from the two sets when settled, otherwise asks once and remembers all but floods |
| DeepHistory.MembershipOracle.Serve | scrape_optimize.py:55-99 | a whole life of the oracle: answers, what is learnt, sent and saved are those of the queries in order |
| SessionLocks.SessionsExcludeEachOther | attacker.py:157-210 | no two tasks are ever inside the critical section of one session file |
| SessionLocks.OneTaskAtATime | attacker.py:26-28 | in every reachable state at most one task is inside its connect, disconnect or persist body, and it holds the global lock and those of its sessions |
| SessionLocks.NoDeadlock | attacker.py:163-165 | in every reachable state with an unfinished task some task can step, and n tasks take at most 5n steps |
| SessionLocks.PlansRise | attacker.py:163-165 | every task takes its locks in rising order: temporary file, permanent file, global |
| SessionLocks.AbsoluteNamesBreakExclusion | attacker.py:182-185 | with any absolute names the lock move lets two tasks into one session |
| SessionLocks.ExclusionIff | attacker.py:182-185 | for names spelled either absolutely or so that the temporary one is no real path, all runs of any tasks keep apart exactly in the second case |
| SessionLocks.LockTable.GetSessionLock | attacker.py:34-39 | one lock per real path, made on first use and then kept |
| SessionLocks.LockTable.MovePersisted | attacker.py:182-185 | the lock is moved between spelled names, if the temporary one is a key |
| GlobalThrottle.ReleasesAreSpaced | add_engine.py:58-85 | under any interleaving at most one caller sleeps inside the lock, each stamp follows the one before by at least its own mode's lower bound, and windows span the sum of those bounds |
| GlobalThrottle.OneModeSpan | config.py:151-156 | n consecutive releases in one mode span at least (n-1) times its lower bound |
| GlobalThrottle.SleepsAreBounded | config.py:151-156 | whoever sleeps inside the lock wakes within its mode's upper bound of the last stamp |
| GlobalThrottle.ThrottleNeverStuck | add_engine.py:77-82 | a waiting caller or the sleeping holder can always go on |
| GlobalThrottle.Throttle.Acquire | add_engine.py:77-82 | sleeps exactly when the interval since the last stamp has not passed, and until it has |
| AccountLeases.GrantsAreApart | account_state.py:26-34 | two grants for one phone without a release between, under a clock that does not go back, are over 45 minutes apart |
| AccountLeases.NextGrantIff | account_state.py:22-34 | for any times of the calls, rising or not, the next request is granted exactly when 45 minutes have passed or a read saw the lease lapsed |
| AccountLeases.GrantHolds | account_state.py:22-34 | a granted lease refuses others by name, and shows its label, for 45 minutes and no longer |
| AccountLeases.ReleaseFrees | account_state.py:37-42 | after a release the next request is granted at once and no label is shown, and other phones are as before |
| AccountLeases.ClockBackBreaksLease | account_state.py:58-64 | a concrete early grant when the times of the calls do not rise |
| AccountLeases.SweepingIsInvisible | account_state.py:45-64 | dropping lapsed entries during reads never changes an answer |
| AccountLeases.AccountState.MarkBusy | account_state.py:26-34 | grants, or names the holder |
| AccountLeases.AccountState.BusyLabel | account_state.py:45-55 | the live label, and the lapsed entry dropped |
| AccountLeases.AccountState.AllBusy | account_state.py:58-64 | the live labels, and all lapsed entries dropped |
| RateWindows.DequeIsExact | group_manager.py:629-639 | under a clock that does not go back, with windows that may change but under which what is out stays out, the deque sounds the alarms of the full history since the last alarm |
| RateWindows.DequeIsExactIff | group_manager.py:629-639 | for given times and windows, that holds for all limits exactly when no message once outside the window is inside a later one |
| RateWindows.NarrowingIsEnough | group_manager.py:634-636 | windows that stay the same or only narrow meet that condition |
| RateWindows.WideningForgets | group_manager.py:634-636 | a window made wider, and an alarm the deque misses |
| RateWindows.AlarmsArePaidFor | group_manager.py:637-639 | the limits of all alarms together are at most the number of messages |
| RateWindows.AlarmMeans | group_manager.py:634-639 | the reference alarm: at least limit messages since the last alarm are no older than the window |
| RateWindows.FloodLog.Message | group_manager.py:631-639 | one message: append, pop what is outside the window, fire and clear |
| RateWindows.FloodLog.Watch | group_manager.py:629-639 | a whole conversation gets the deque's alarms, and the reference alarms under the condition above |
| RateWindows.TenAreEnoughIff | bot.py:2138-2146 | keeping the last ten times is exact for all histories exactly when the threshold is at most ten |
| RateWindows.TrackerNumbers | bot.py:2138-2146 | the last ten times are kept, and those under ten seconds old count |
| RateWindows.MessageTracker.Message | bot.py:2129-2146 | one message: the last ten times kept, and the recent ones counted |
| CallbackRouter.LookupIsLongest | callback_router.py:78-88 | the reference finds the unique longest registered prefix, and nothing exactly when none matches |
| CallbackRouter.ResolutionMeans | callback_router.py:74-88 | an exact key comes before every prefix, then the longest prefix, else nothing |
| CallbackRouter.OrderDoesNotMatter | callback_router.py:55-66 | any order of the same registrations resolves alike |
| CallbackRouter.Router.Exact | callback_router.py:43-53 | succeeds exactly on new, distinct keys, and then adds exactly those |
| CallbackRouter.Router.Prefix | callback_router.py:55-66 | appends the prefixes, or fails on one already registered |
| CallbackRouter.Router.Resolve | callback_router.py:69-88 | exact key, else longest prefix; the lazy sort keeps the registrations and so every later answer |
| Distribution.DealIsCompleteAndBalanced | bot.py:1337-1353 | min(ids, total capacity) are dealt, nobody is over capacity, and accounts with work are within one free place of the roomiest |
| Distribution.DealIsGreedy | bot.py:1337-1353 | each id goes to an account that has room, and the most room at that moment |
| Distribution.DealGoesOnWhileRoom | bot.py:1339-1353 | the deal ends before the ids do only when nobody has room left |
| Distribution.BestIsFirst | bot.py:1339 | among accounts with equally much room the first listed is taken |
| Distribution.LoadsAddUp | bot.py:1337-1353 | the accounts' loads add up to the ids dealt |
| Distribution.ShareOf | bot.py:1345-1353 | a batch holds exactly the ids dealt to its account |
| Distribution.FindBest | bot.py:1339 | the first account with the most room |
| Distribution.FallbackSearch | bot.py:1340-1350 | the fallback never finds anybody |
| Distribution.Distribute | bot.py:1333-1353 | each batch is its account's share, in order, of a prefix of the ids |
| Prefilter.PrefilterIsConservative | add_engine.py:302-392 | the blocked are set aside; each other member gets exactly the fate its own batch's lookup gives it, and is dropped only if that lookup was made, succeeded and spoke against it; at most one lookup per hundred members |
| Prefilter.ScreenFates | add_engine.py:302-390 | every staged member is judged by the answer to its own batch's lookup, if the batch has an id, no earlier lookup gave up and that one succeeds, and is kept otherwise |
| Prefilter.FateOfFound | add_engine.py:204-259 | a member with an id whose own lookup was reached and succeeded is kept exactly if it was found, is not deleted, no bot, not the account itself and, when strict, no scam or fake and in none of the eight listed statuses; else the first of these is its reason; any other member with an id is kept |
| Prefilter.ErrorsAreFailures | add_engine.py:320-323 | the errors counted are the lookups that did not succeed |
| Prefilter.OwnLookupIsAsked | add_engine.py:302-306 | that lookup is made, for exactly the ids of the batch, exactly when no earlier one gave up |
| Prefilter.OwnIdsAre | add_engine.py:302-304 | member i's batch is the hundred from i - i mod 100 on |
| Prefilter.IdlessRowDroppedIff | add_engine.py:361-372 | the exact condition under which a row without an id, which nobody asks about, is dropped |
| Prefilter.EveryIdIsAsked | add_engine.py:302-306 | the lookups ask about the ids in order, once per row, and about all of them unless the screening gives up |
| Prefilter.ScreenStopsExactly | add_engine.py:336-358 | it gives up exactly at the first flood or the first third failure in a row |
| Prefilter.IdlessRowsAreDroppedUnasked | add_engine.py:361-372 | two rows of one batch, and the one without an id is dropped; alone it is kept |
| PrefilterRun.PrefilterUnaddable | add_engine.py:262-396 | kept is the members with fate "keep" in order, kept + removed = input, reasons add up to removed, each reason's count, the ids listed, and the lookup bound, on every path |
| PrefilterRun.SelectAt | add_engine.py:361-394 | exactly the members with fate "keep" are kept, in their order |
| PrefilterRun.ListedAt | add_engine.py:361-390 | every dropped id is listed at its place, as privacy for a hidden status, stale for an abandoned account and invalid otherwise, and no other is |
| PrefilterRun.ScreenStaged | add_engine.py:302-393 | the batch loop with both aborts gives the screening's fates, lookups and errors |
| PrefilterRun.Judge | add_engine.py:361-390 | one batch judged by the answer to its lookup |
| AddQueue.OrderMembersForAdd | add_queue.py:29-55 | for any shuffle a permutation of the reachable members; sorted outside max mode; in max mode nobody in the first 800 ranks behind anybody after |
| AddQueue.SortIsStableSort | add_engine.py:164-172 | same members, key order, equal keys in their original order |
| AddQueue.OrderMeans | add_engine.py:164-172 | members with a username come first, by username, then those with a phone, by phone, then the others by the digits of their id |
| AddQueue.KeptAreReachable | add_engine.py:156-162 | exactly the members with a username or a phone are kept |
| AddQueue.PreferAddableMembers | add_engine.py:142-172 | the kept members, sorted |
| AddQueue.Shuffle | add_queue.py:47-54 | an in-place shuffle by any draws keeps the members |
| Paging.IterParticipants | scrape_api.py:169-214 | for any finite floods exactly the members up to the last whole page below max_total, in order; a prefix after an error |
| Paging.ParticipantsAreFirst | scrape_api.py:188-214 | that is the first min(members, ceil(max_total / limit) * limit) |
| Paging.IterEntries | scrape_api.py:51-130 | a prefix of the user entries, for any floods exactly the capped list |
| Paging.CapIsKeptIff | scrape_api.py:83-93 | at most max_total entries exactly when it is positive, or zero with nothing to yield |
| Paging.EntryIsYielded | scrape_api.py:83-90 | each entry about a user is yielded in its turn, with the user's record if the page has one, and no other is |
| Paging.PagesInOrder | scrape_api.py:79-93 | the pages count one after another up to the first without entries |
| Paging.UidMeans | scrape_api.py:120-123 | a vote's own user id comes before its peer, a reaction has only its peer, and zero is no id |
| Duration.ParsePrinted | group_manager.py:264-289 | parsing a printed n > 0 gives n below a day and n - n mod 60 from a day on |
| Duration.RoundTripIff | group_manager.py:264-289 | the round trip gives n back exactly for n > 0 that is below a day or whole minutes |
| Duration.ParseWritten | group_manager.py:259-279 | any counts with units after them, in either script and either case, with spaces between and anything but digits around, are worth the sum of count times unit (1, 60, 3600, 86400, 604800), and a sum of zero is refused |
| Duration.ParseNumber | group_manager.py:271-279 | a number without a unit is that many seconds, and zero is refused |
| Duration.PrintedIs | group_manager.py:282-289 | days, hours, minutes and, below a day, seconds, each if it is not zero; nothing at all prints as "always" |
| Duration.ParseDuration | group_manager.py:264-279 | the accumulating loop gives the sum of the matches, the plain number, or nothing |

## Left out

- Telegram calls, Pyrogram types, session files and reconnects: replaced by free choices of a step.
- Database faults: the tables' functions are atomic calls that do not fail, except that a bulk insert may stop after any page.
- Database.Database.BulkSaveUsers: how many statements the server carries out before a fault of its own is a parameter; a repeated user fails its page by itself.
- AddRunWorkers.ParallelRun.Drive: the stop event is not cleared during a run, because clearing it belongs to the start of another run.
- The probe and pre-filter that a run may do first (off by default), the live statistics, and the account limits written to their own table.
- Strikes are kept with each worker instead of in a dictionary by phone, which is the same while one run uses a phone.
- SessionLocks: what connect, disconnect and persist do inside the locks, and the order in which waiting tasks are woken, which is arbitrary here.
- GlobalThrottle: the switch that turns the throttle off, and calls outside an event loop.
- DeepHistory.ScrapeDeepHistory: batches have at least one message, because a limit of zero means "no limit" to the library; and the history does not shift during the scan, although new messages would shift the offsets it pages by.
- Paging.IterParticipants: a page has at least one member, and the server's list does not change during the iteration.
- Duration.ParseDuration: digits and letter case outside ASCII, and underscores in plain numbers.
- AddQueue.Shuffle: the distribution of the draws.
- The adaptive delay, summaries, progress texts, menus, the mini-app and all HTTP handlers.
- Encryption, login and account diagnosis, the older parallel and background scrapers, and configuration lookups.
