# The chat server's pool, file transfer, log and online list

A model of the concurrent and stateful core of a C chat program, and proofs about it.
Four parts:

- **The worker-thread pool** of the server. `PoolCore` gives the shared fields as a value
  and each critical section as a function. `PoolObject` is the pool with the original's
  fields and arrays, updated in place, each method tied to the function of its section.
  `PoolSystem` interleaves the sections for any number of producers, workers and one
  manager, with condition variables as POSIX allows them (signals to some sleeper,
  spurious wakeups, woken threads competing for the lock). `PoolCounters`, `PoolTasks` and
  `PoolWakeups` hold the invariants, `PoolTheorems`, `PoolScan`, `PoolManager`,
  `PoolService`, `PoolShutdown` and `PoolStranding` the results.
- **The chunked file transfer** through the server. `Blocks` cuts the file, `Streams` has
  the three byte loops (send, relay, receive) over connections that deliver any short
  results. `TransferSystem` interleaves one sending thread and one relay per block, the
  receiving client's message loop and its threads behind two semaphores, and the shared
  table in which receivers' connections wait for their relays. `TransferHandoff`,
  `TransferMatching` and `TransferData` hold the invariants, `TransferTheorems`,
  `TransferStores`, `TransferSearch`, `TransferLoops` and `TransferProgress` the results, the
  last by way of the termination measure in `TransferMeasure`.
- **The rotating log** over three files (`RotatingLog`).
- **The list of online users** on the heap (`OnlineList`).

The sizes of the original (NUMBERE, BLOCKSIZE, SEND_SIZE, RECVBUF_SIZE, the number of slots,
the log's size limit, thread and queue limits) are parameters, so the results hold for all
positive values. A run is a sequence of actions of any length; "reachable" means after some
run from the initial state. History components of a state (what was accepted, dequeued,
announced) only record what happened: no step's effect on the rest depends on them.

Where the intended behaviour and the code part, the code is kept:

- A retiring worker can use up the signal of an addition, so a task can stay queued beside
  sleeping workers. `PoolStranding.StrandingIffElastic` says for which pools this can happen.
- The receiving loop stops at the first short receive. `Streams.StoredAllIff`,
  `TransferTheorems.EndToEnd` and `TransferProgress.ShortReceiveLosesBytes` say what that costs.
- The relay's loop does not look for the end of the sender's stream.
  `Streams.RelayEndsIff` says on which streams it ends.
- The number of the log file in use is lost with the process.
  `RotatingLog.RestartKeepsOrderIff` and `RotatingLog.FirstRestartIff` say exactly when the
  order of the files survives that.

## Model

| member | source | states |
|---|---|---|
| PoolCore.PutAppends | a_cat/server/pthreadpool/pthreadpool.c:140-144 | enqueueing at the rear of the circular buffer appends to the queue read from the front, wrap-around included |
| PoolCore.TakeDropsOldest | a_cat/server/pthreadpool/pthreadpool.c:220-226 | dequeueing at the front yields and removes the oldest queued task |
| PoolCore.GrowIsExact | a_cat/server/pthreadpool/pthreadpool.c:278-288 | the whole growing scan creates exactly min(NUMBERE, vacant slots) threads, fills only the lowest vacant slots with fresh ids and keeps the live count within the maximum |
| PoolCore.ClearSlotAt | a_cat/server/pthreadpool/pthreadpool.c:319-327 | an exiting thread's search clears its own slot and no other |
| PoolObject.ThreadPool.constructor | a_cat/server/pthreadpool/pthreadpool.c:28-60 | a new pool has an empty queue, min live workers in the first slots, zero counters and no shutdown |
| PoolObject.ThreadPool.Add | a_cat/server/pthreadpool/pthreadpool.c:128-144 | in place, the adding section waits when full, refuses after shutdown, else enqueues, and touches nothing else |
| PoolObject.ThreadPool.Work | a_cat/server/pthreadpool/pthreadpool.c:195-226 | in place, a worker's section waits when empty, quits after shutdown, else takes the oldest task |
| PoolObject.ThreadPool.Wake | a_cat/server/pthreadpool/pthreadpool.c:201-226 | in place, a woken worker first spends the retirement budget, retires only above the minimum, and otherwise goes through the worker's section |
| PoolObject.ThreadPool.Grow | a_cat/server/pthreadpool/pthreadpool.c:278-288 | the manager's loop over the slot array is the growing scan whose exact result GrowIsExact gives |
| PoolObject.ThreadPool.ThreadExit | a_cat/server/pthreadpool/pthreadpool.c:315-327 | the loop over the slot array clears the first slot holding the caller's id and changes nothing else |
| PoolTheorems.ReachableInv | a_cat/server/pthreadpool/pthreadpool.c:124-329 | every step of every thread keeps the whole invariant, so it holds after every run |
| PoolTheorems.ElasticBounds | a_cat/server/pthreadpool/pthreadpool.c:201-208 | in every reachable state the live count is between min and max and equals min + created - retired, the budget is between 0 and NUMBERE, the busy count between 0 and the live count, and retirements are at most NUMBERE per shrink decision, although the manager acts on stale snapshots |
| PoolTheorems.SlotAccounting | a_cat/server/pthreadpool/pthreadpool.c:201-209 | before shutdown the occupied slots are the live workers plus those that have left the live count but not yet cleared their slot |
| PoolTheorems.OneSlotEach | a_cat/server/pthreadpool/pthreadpool.c:277-289 | every thread that has not left owns exactly one slot |
| PoolTheorems.GrowFromReachable | a_cat/server/pthreadpool/pthreadpool.c:275-290 | from every reachable state before shutdown one uninterrupted scan creates exactly min(NUMBERE, vacant slots) threads within the maximum |
| PoolTheorems.TasksConserved | a_cat/server/pthreadpool/pthreadpool.c:128-229 | in every reachable state the accepted tasks are the dequeued ones in order followed by the ring's contents: no loss, no duplication, first in first out |
| PoolTheorems.ExactlyOnePlace | a_cat/server/pthreadpool/pthreadpool.c:195-243 | every accepted task is in exactly one of queued, with one worker, or done, and is started at most once, through retirements and shutdown |
| PoolTheorems.NotEmptyAccounting | a_cat/server/pthreadpool/pthreadpool.c:140-147 | beside a sleeping worker the queue is no longer than the woken workers plus the retirements so far |
| PoolTheorems.NotFullAccounting | a_cat/server/pthreadpool/pthreadpool.c:126-147 | beside a blocked producer the free capacity is at most the notified producers, for any barging and spurious wakeups |
| PoolTheorems.WorkerRunsAreFinite | a_cat/server/pthreadpool/pthreadpool.c:191-244 | without new submissions and signals every run of worker steps is bounded by a measure of the state |
| PoolTheorems.RestingState | a_cat/server/pthreadpool/pthreadpool.c:195-243 | where the workers of any pool come to rest before shutdown, all are asleep or retired, nothing is half done, and the queue holds at most one task per retirement |
| PoolTheorems.FixedPoolFinishes | a_cat/server/pthreadpool/pthreadpool.c:191-244 | with min equal to max the workers rest only with an empty ring, all asleep, nobody busy and every accepted task done |
| PoolManager.GrowsExactlyIf | a_cat/server/pthreadpool/pthreadpool.c:262-275 | with any steps of other threads between its looks, the manager begins a scan exactly if at its first look more tasks were queued than threads alive and not all possible threads were alive |
| PoolManager.ShrinksExactlyIf | a_cat/server/pthreadpool/pthreadpool.c:268-297 | through the same round and its scan, the budget is set to NUMBERE exactly if fewer than half of the threads alive at the first look were busy at the second and more than the minimum were alive; nothing else changes |
| PoolManager.SignalMovesOne | a_cat/server/pthreadpool/pthreadpool.c:299-302 | a signal of the manager moves exactly one sleeper out of its wait if there is one, and nobody else |
| PoolManager.SignalsWake | a_cat/server/pthreadpool/pthreadpool.c:299-302 | with nobody else moving, the signals of a decision wake min(NUMBERE, sleepers) |
| PoolManager.SignalsCounted | a_cat/server/pthreadpool/pthreadpool.c:299-302 | whatever the others do meanwhile, the manager sends exactly the signals it has left and then ends the round |
| PoolManager.BudgetSpent | a_cat/server/pthreadpool/pthreadpool.c:201-204 | over every run between shrink decisions the budget falls by one for every return from the wait until it is gone, whether those threads retire or not |
| PoolManager.EveryWakeWasANap | a_cat/server/pthreadpool/pthreadpool.c:193-201 | in every run the returns of a thread from its wait, the only places where it looks at the budget, together with a wait still under way are exactly the times it went to sleep |
| PoolManager.RetirementsExact | a_cat/server/pthreadpool/pthreadpool.c:201-210 | over every run between shrink decisions at most as many threads retire as there are returns from the wait and budget; exactly the smallest of returns, budget and threads above the minimum if none is added |
| PoolManager.OnlyFirstWakesRetire | a_cat/server/pthreadpool/pthreadpool.c:201-210 | in every run, once NUMBERE returns from the wait have happened since the last shrink decision, nobody retires until the next |
| PoolShutdown.ShutdownFreezes | a_cat/server/pthreadpool/pthreadpool.c:133-217 | in every run after the flag is set no task is accepted or dequeued any more, and a manager at its loop test begins no other round |
| PoolShutdown.RestAfterShutdown | a_cat/server/pthreadpool/pthreadpool.c:213-218 | where the workers come to rest, each sleeps or has left, nobody is busy and every dequeued task is done |
| PoolService.SubmissionsKept | a_cat/server/pthreadpool/pthreadpool.c:124-147 | after every run the producers have the submitted tasks in order, the accepted tasks are exactly those of the calls that were accepted, and no call is refused before shutdown |
| PoolService.ServiceRunsAreFinite | a_cat/server/pthreadpool/pthreadpool.c:124-147 | without new submissions and spurious wakeups every run of worker and producer steps, signals between them included, is bounded by a measure of the state |
| PoolService.BlockedOnlyIfStranded | a_cat/server/pthreadpool/pthreadpool.c:124-147 | where workers and producers of any pool come to rest before shutdown, every call is accepted or blocked, and blocked only beside a full ring no longer than the retirements so far |
| PoolService.FixedPoolServesAll | a_cat/server/pthreadpool/pthreadpool.c:124-244 | with min equal to max they come to rest only with nobody blocked, every submitted task accepted and dequeued exactly as often as it was submitted, and all of them done |
| PoolStranding.StrandingIffElastic | a_cat/server/pthreadpool/pthreadpool.c:193-210 | a queued task beside only sleeping workers and no signal under way is reachable exactly when min < max and min < capacity |
| PoolScan.ScanThrough | a_cat/server/pthreadpool/pthreadpool.c:279-288 | from any state in which the manager scans, its own steps lead to the end of the scan and amount to GrowScan, whatever the workers are doing |
| PoolScan.GrowthUndisturbed | a_cat/server/pthreadpool/pthreadpool.c:275-290 | a scan begun in any reachable state before shutdown and left alone makes exactly min(NUMBERE, vacant slots) threads |
| PoolScan.GrowthDisturbed | a_cat/server/pthreadpool/pthreadpool.c:275-290 | with any steps of other threads in between, exits included, such a scan makes at least min(NUMBERE, slots vacant at its start) threads, and more only for slots that leaving threads have freed meanwhile; exactly that many if none leaves |
| Blocks.SplitCount | a_cat/client/work/work.c:596-603 | the number of blocks is the quotient, plus one if the block size does not divide the file size |
| Blocks.SplitFile | a_cat/client/work/work.c:595-660 | the sender's loops produce exactly the block sequence whose tiling SplitTiles proves, and count is its length |
| Blocks.SplitTiles | a_cat/client/work/work.c:533-545 | for every file and block size the blocks are nonempty, in order, disjoint and cover exactly the file |
| Streams.SendFiledata | a_cat/client/work/work.c:559-572 | the writes, whole pieces and the remainder, add up to exactly the block's slice of the file, each but the last of sendSize bytes, and the connection is closed |
| Streams.RelayEndsIff | a_cat/server/work/work.c:250-264 | for every fragmentation the loop ends exactly if the sender's stream has at least the announced bytes; when it ends it has forwarded at least those, and all of a stream that has just those |
| Streams.Relay | a_cat/server/work/work.c:243-269 | in place, the loop takes the passes that RelayEndsIff is about and forwards the stream's bytes in order, all of them if they are just the announced ones, and closes both connections |
| Streams.RelayUnfragmented | a_cat/server/work/work.c:247-263 | where no receive comes short, a longer stream is cut off exactly behind the announced bytes if they fill at least one buffer, and forwarded entirely if they do not |
| Streams.RecvFile | a_cat/client/work/work.c:62-77 | the loop stores a prefix of the stream from the block's offset on, as long as StoredAmount says, and leaves the rest of the mapping alone |
| Streams.StoredAllIff | a_cat/client/work/work.c:66-76 | the receiving loop stores the whole block exactly when no receive before the end of the block comes short of its buffer |
| Streams.StoredAmount | a_cat/client/work/work.c:66-76 | if the i-th piece is the first too small for its receive, the loop stores i full buffers and that piece and stops; if there is none it stores everything |
| Streams.AnyOrderOfStores | a_cat/client/work/work.c:62-76 | reordered, disjoint writes into the mapping are still disjoint and give the same result |
| TransferTheorems.ReachableInv | a_cat/client/work/work.c:48-79 | every step of every thread of a transfer keeps the whole invariant, so it holds after every run |
| TransferTheorems.OneToken | a_cat/client/work/work.c:22-36 | the two semaphores and the threads holding what they guard always add up to one |
| TransferTheorems.ThreadsGetAnnouncements | a_cat/client/work/work.c:53-56 | the k-th receiving thread copies exactly the k-th announced block, and no block is announced twice |
| TransferTheorems.CellNotOverwrittenEarly | a_cat/client/work/work.c:170-174 | the shared message is overwritten only when every thread made so far has its copy |
| TransferTheorems.SlotsDistinct | a_cat/server/work/work.c:478-494 | used slots carry distinct offsets and connections, each offset that of the connection parked there |
| TransferTheorems.ClaimsAreRight | a_cat/server/work/work.c:451-469 | a relay has claimed exactly a connection whose receiver was told about its own block, and no two relays have the same one |
| TransferTheorems.ParkedUntilClaimed | a_cat/server/work/work.c:480-490 | a used slot is never overwritten; it changes only by the claim of the relay of its own block |
| TransferTheorems.ParkedIsWanted | a_cat/server/work/work.c:449-469 | for every used slot a relay is already scanning for its offset |
| TransferTheorems.RelayAccounting | a_cat/server/work/work.c:251-264 | while a relay runs, remain_size is the bytes it has still to read, never negative, and it never starves |
| TransferTheorems.StoredSoFar | a_cat/client/work/work.c:63-76 | in every run, short receives included, what has been stored of a block is the file's and the rest of the block is as it was |
| TransferTheorems.StoresStayInBlock | a_cat/client/work/work.c:63-70 | a receive stores within its own block and the mapping and nowhere else |
| TransferStores.StoresCommute | a_cat/client/work/work.c:62-76 | in every run the writes of all the receivers' threads, one per receive, touch no byte twice and have made the mapping what it is, and in any other order they would have made it the same |
| TransferTheorems.CompleteIffFull | a_cat/client/work/work.c:66-76 | along any run every finished thread has its whole block exactly when every receive filled its buffer or ended its block |
| TransferTheorems.EndToEnd | a_cat/client/work/work.c:547-575 | once all blocks are relayed and received, in every interleaving, the copy is the file byte for byte if every receive was full; in general exactly if the missed bytes agree |
| TransferLoops.WritesCounted | a_cat/client/work/work.c:559-572 | in every run a sender that has made n writes stands n whole pieces into its block, and has closed its connection exactly after one write more than whole pieces |
| TransferLoops.PassRefined | a_cat/server/work/work.c:250-264 | where all of a block has been sent, each pass of the relay's loop in Streams over any pieces is a run of that relay in the transition system, of two receives or one, leaving the same bytes and remain_size |
| TransferLoops.ReadRefined | a_cat/client/work/work.c:66-76 | where all of a block has been forwarded, the receiver's loop in Streams over any pieces is a run of its thread in the transition system, storing the same number of bytes |
| TransferMeasure.FruitfulBounded | a_cat/server/work/work.c:449-494 | in every run the steps other than looks at a slot that does not help are bounded by a measure of the state at its start |
| TransferSearch.ClaimedWithin | a_cat/server/work/work.c:452-469 | in every run, once the connection for a relay's block is parked, the relay has claimed it within as many of its own looks as there are slots, whatever the others do |
| TransferSearch.ParkedWithin | a_cat/server/work/work.c:478-494 | in every run, a connection that is d looks away from a free slot has parked after more than d looks of its own, or the slot was taken by another meanwhile |
| TransferSearch.FreeSlotIsFound | a_cat/server/work/work.c:478-494 | in every run in which some slot is free all the while a connection seeks, the connection has parked within as many of its own looks as there are slots |
| TransferSearch.SearchOrder | a_cat/server/work/work.c:452-494 | in every run both searches go round the table from the first slot, one slot a look: the next look is at the slot numbered by the looks so far, modulo the number of slots |
| TransferProgress.SomeoneHelps | a_cat/server/work/work.c:449-494 | in every reachable state short of the end there is one thread that, whatever the others do, can step until the measure has gone down, and within at most slotCount steps of its own makes it go down |
| TransferProgress.FairSchedulesFinish | a_cat/server/work/work.c:436-495 | every fair schedule finishes the transfer, for any number of blocks and slots, within a number of rounds that the measure gives; a relay whose first receive still waits for a full buffer need not be scheduled |
| TransferProgress.NeverWedged | a_cat/server/work/work.c:436-495 | every reachable state leads on to a finished transfer, for any number of blocks and slots, and to a faithful copy unless a receive has already come short |
| TransferProgress.ShortReceiveLosesBytes | a_cat/client/work/work.c:68-75 | for every block of at least two bytes some run with a one-byte receive ends with a wrong copy, unless the missed byte was there already |
| RotatingLog.LogFile.Open | a_cat/server/log/log.c:153-193 | in place, a started file below the limit is appended to and any other truncated |
| RotatingLog.LogFile.Print | a_cat/server/log/log.c:234-249 | in place, a record is appended to the file in use, which is closed and rotated out at the limit |
| RotatingLog.LogFile.Close | a_cat/server/log/log.c:301-307 | closing keeps the files and the number of the file in use |
| RotatingLog.HoldsAfter | a_cat/server/log/log.c:234-249 | after every run of writes and closings the three files hold the current segment and the last complete ones, in rotation |
| RotatingLog.DiskHoldsSuffix | a_cat/server/log/log.c:153-249 | the files read oldest first are a suffix of everything written, cut between records, with at least the last two complete segments, each of limit bytes or more |
| RotatingLog.FilesHoldWholeRecords | a_cat/server/log/log.c:239-247 | no record is split across files |
| RotatingLog.OpenIff | a_cat/server/log/log.c:158-307 | after every run a file is open exactly if the last thing that happened was a write that did not complete its segment |
| RotatingLog.RestartKeepsOrderIff | a_cat/server/log/log.c:153-193 | for every log that tracks its history, whatever a new process goes on to write and close, the files read as a suffix of everything written before and after, exactly if file 0 was in use, or the file in use was not started and the three files have the same text read from file 0 on; and then the log tracks its history again |
| RotatingLog.FirstRestartIff | a_cat/server/log/log.c:16-17 | for every log of a first process the order survives the restart exactly if file 0 was in use, or the file in use was still empty, or it was full and the files have the same text in both orders |
| RotatingLog.SecondSegmentUnsafe | a_cat/server/log/log.c:16-17 | the restart with a started second file fails: after any full record and any short one, some continuation in a new process leaves the files out of order |
| OnlineList.Online.InsertLink | a_cat/server/work/work.c:55-59 | in place, a login becomes the head and the other nodes keep their order |
| OnlineList.Online.FindFd | a_cat/server/work/work.c:61-73 | the connection of the first user of that name, -1 if there is none |
| OnlineList.Online.GetOnline | a_cat/server/work/work.c:283-295 | the node of the first user of that name, agreeing with FindFd |
| OnlineList.Online.QuitUser | a_cat/server/work/work.c:594-621 | in place, exactly the first node of that name is unlinked, and the list stays acyclic with all other nodes in order |
| OnlineList.Online.MuteUser | a_cat/server/work/work.c:548-560 | in place, the first user of that name is muted and nothing else changes |
| OnlineList.ListRefinesStacks | a_cat/server/work/work.c:365-369 | after any run of logins, quits and mutes the users of every name are that name's open logins, latest first, each with its connection and whether it is muted (a login may speak, a mute silences the latest); a lookup gives the latest login of that name not cancelled by a later quit and -1 if there is none, and a user of that name is listed exactly if there is one |
| OnlineList.LatestFirst | a_cat/server/work/work.c:55-59 | after any run, logins labelled by increasing connections stand latest first across all names |
| OnlineList.LoginThenQuit | a_cat/server/work/work.c:594-619 | logging in and quitting restores the list |
| OnlineList.QuitsCommute | a_cat/server/work/work.c:598-619 | quits commute |

## Left out

- Sockets, epoll, accept, mmap, sqlite and terminal input and output: connections are reliable byte sequences, message records are atomic, files are sequences.
- Creation failures, and the two mutexes as objects: sections under `mutexPool` and `mutexBusy` are atomic steps, except that the manager's growing scan holds `mutexPool` over many steps, so that exiting threads, which take no lock, interleave with it.
- `threadPoolDestroy` after it sets the flag: it frees the pool without joining the workers. Shutdown is the flag alone.
- Pool tasks that do not return: `thread_read` may end its own thread, which bypasses the pool's counters. Tasks here return.
- Thread ids are never reused, and a thread's search for its own slot is one step: no other thread writes its id.
- Streams.Relay: a method has to end, so it asks for at least the announced bytes; RelayEndsIff shows that on a shorter stream the loop never ends, and RelayAccounting that every relay of a transfer gets its bytes. On a longer stream `remain_size` can turn negative and the second receive then takes what there is; the bounds of the relay's buffer are not modelled.
- The relay's first receive waits for a full buffer or the end of the stream (MSG_WAITALL). The model lets it return any part of that, so what holds in every run holds for every fragmentation; being able to step, in the fairness results, is judged with the waiting.
- Writes are complete, the setup message arrives before any announcement, the receiver is online, and only one transfer is active: matching is by offset alone.
- Transfers through the bounded pool: relays and parked connections each occupy a worker there. Here every connection has its own server thread.
- The stack slot in which the client keeps the shared message lives as long as the message loop.
- The sender's wait for the transfer id and its joins on detached threads: the transfer starts after the id has arrived, and its end is a condition on the state.
- RotatingLog: the log is assumed initialised and the place flag not 1 at the time of the call. PRINT_LOG_TO_FILE and PRINT_LOG_TO_TERM are both 1 (a_cat/server/include/log.h:29 and 32), initialisation asks for 1 (a_cat/server/log/log.c:271) and printing to the terminal returns before the file branch if the flag is 1 (a_cat/server/log/log.c:228-232), as it is once a_cat/server/main/server.c:7 has set it. Failing file operations are left out as well.
- RotatingLog: a restart is judged by the text of the files, as a reader sees it; that the text is the same although a segment is missing in between counts as in order.
- OnlineList: each list operation is atomic although the original takes no lock; names are compared whole.
- The overflow of 32-bit sizes and offsets: a file has fewer bytes than that.
- Group chat, unmuting, text queries, menus, registration and passwords.
