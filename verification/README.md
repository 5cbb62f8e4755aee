# RoadRunner, modelled in Dafny

RoadRunner supervises a fixed pool of PHP worker processes and passes tasks to them over pipes or
sockets. This project models the supervision code and a few algorithms beside it, and proves what they
guarantee over all inputs, all interleavings and all runs.

`dafny verify dfyconfig.toml` checks the whole project.

## How the code is modelled

Concurrent code is a step system. Each goroutine or process is a small program with a program counter,
a step is one channel operation, one atomic load or store, or one locked section, and a run is any
interleaving of steps. An invariant is proved for every step and then, by induction, for every state
of every run. Fields that only record history are named as such and are read by no guard.

- `PoolModel.dfy`: `static_pool.go` with `worker.go` and `state.go`. A call of `Exec` is `Enter` to
  `TaskDone` (static_pool.go:134-167, 192-263, worker.go:158-191), a watcher is `LockForWait` to
  `EnqueueReplacement` (static_pool.go:267-287, 320-357, worker.go:97-121), `NewPool` is `BuildSpawn` to
  `BuildDone` (static_pool.go:57-87), `Destroy` is `FlagDestroy` to `GoNext` (static_pool.go:170-189), and
  `Stop`, `Kill`, `Remove` and the death of a process can strike any worker at any time
  (worker.go:124-153, static_pool.go:119-131). `Kill` and `markInvalid` store their state without the
  worker's mutex. `PoolFrames.dfy` says what each kind of step leaves alone; the other `Pool*.dfy` files
  hold one family of properties each.
- `Protocol.dfy`: the Go side of `worker.go` and `protocol.go` and the PHP side of `src/Worker.php`,
  joined by two FIFO queues of flagged frames, with one step per relay operation. An empty frame is
  received as nil or null. A task context may be any bytes, so its frame may decode to anything.
- `Rendezvous.dfy` (`socket_factory.go`) and `HotSwap.dfy` (`Reconfigure` in `server.go`) are step systems
  of the same kind.

Sequential code that changes things in place stays imperative: classes with fields for
`service/limit`, `service/reload` and `error_buffer.go`, nested maps on the heap for
`service/http/parse.go`, loops with invariants, and iteration over Go maps as a loop that picks the next
key freely. Each method is proved against a specification function, and the properties are lemmas about
those functions.

## What turned out false

- The dead-worker counter is not always non-negative: dropping a non-ready entry can come before its
  watcher counts it, and the next call is then told that all workers are dead (`CounterCanGoNegative`).
  `DeadEntriesAccounted` gives its value, and `AllDeadExactly` says that a call gets that answer exactly when
  it read a negative counter.
- `receive` returns null for more than the stop command: a task with an empty body does it too. The
  documented loop, which tests what it received for truth, is also left for the body "0", as PHP takes
  that for false (`FalsyBodyEndsLoop`). `NullExactly` and `LeavesExactly` say for every run exactly when
  null is returned and when that loop is left.
- The tree built from form keys can depend on Go's map order, or panic (`OrderCanPanic`).
  `OrderFreeExactly` gives the exact condition on the entries of one map, as uploads are walked, and
  `BothOrderFreeExactly` the exact condition on the two maps that form data is read from.
- Events of the error buffer do not always add up to what was written (`OutputCanBeLost`).
  `DeliveredExactly` gives the exact condition.
- A listener that keeps the slice it was given does not always keep its bytes (`KeepSlice`).
  `WriteWhileKept` says for any buffer, slice and write exactly when it does.
- `Destroy` does not always destroy all workers: a replacement whose watcher had looked at the flag before is
  listed after `Destroy` has taken its copy of the list, and never stopped (`DestroyCanMissWorker`).
  `DestroysEveryListed` says which workers it stops, and `OnlyReplacementsMissed` with `MissedWasUnderWay`
  exactly which it misses.
- Removal marks are not always deleted with their worker: `Remove` may store one after the watcher has
  detached the worker (`MarkCanBeLeftBehind`). `StaleExactly` and `MarkOffListExactly` say exactly when.
- `handleControl` documents an exception for a context that is not JSON, but compares the decoded value
  with `false`, and text that is not JSON decodes to null. The model follows the code: such text gives a
  null header (`InvalidJsonGoesOn`), and only the JSON text `false` throws (`ThrowsExactly`). No frame that
  is ever on its way to PHP does (`NothingThrows`).

## Model

| member | source | states |
|---|---|---|
| PoolOwnership.AlwaysOwned | static_pool.go:134-263 | in every state of every interleaving each worker has at most one holder: one slot of `free`, one call, or the creator that has not enqueued it yet |
| PoolOwnership.ExclusiveUse | static_pool.go:192-263 | `free` has no duplicates, no two calls hold the same worker, and no call holds a worker that is in `free` |
| PoolOwnership.GivenUpIsGone | static_pool.go:196-209 | discarding a worker and dropping it as non-ready both leave it without a holder |
| PoolOwnership.GoneForGood | static_pool.go:192-293 | a worker without a holder never gets one again in the rest of the run |
| PoolOwnership.GoneIsNotFree | static_pool.go:262 | a worker without a holder is not in `free` |
| PoolQueue.FirstInFirstOut | static_pool.go:67-262 | over every run the workers put into `free` are, in order, those that calls got out of it and then those in it |
| PoolQueue.GoneExactly | static_pool.go:192-293 | a worker is out of every hand, `free` included, exactly when some call has discarded it or dropped it as not ready: none is lost in any other way |
| PoolPopulation.SpliceOut | static_pool.go:326-332 | the detaching loop removes the first entry of the worker and says whether it found one |
| PoolPopulation.WithoutKeepsOrder | static_pool.go:328 | removing a worker leaves the rest of the list in order |
| PoolPopulation.AlwaysNewUnlisted | static_pool.go:267-287 | a worker its creator has not listed yet has no watcher yet |
| PoolPopulation.AlwaysListing | static_pool.go:281-285 | the list has no duplicates and holds exactly the workers with a watcher that has not detached them |
| PoolPopulation.DetachFindsWorker | static_pool.go:325-333 | the detaching step always finds its worker and deletes its removal mark |
| PoolPopulation.PopulationConserved | static_pool.go:320-357 | after a successful `NewPool`, listed workers, pending replacements, failed replacements and given up slots always add up to NumWorkers |
| PoolReplacement.ReplacedWhileLiving | static_pool.go:343-356 | until `Destroy` is called no slot is given up, so listed workers, pending and failed replacements alone add up to NumWorkers |
| PoolReplacement.NotReplacedOnceDestroyed | static_pool.go:343-347 | once `Destroy` has been called, a worker whose watcher has not looked at the flag yet, or that does not exist yet, is never replaced |
| PoolRemoval.AlwaysLocks | worker.go:97-187 | a call inside `Worker.Exec` holds that worker's mutex; once `Wait` is over the process has exited and the state is neither Ready nor Working |
| PoolRemoval.NeverActiveAfterWait | worker.go:97-191 | after `Wait` has returned no late `Stop`, `Kill`, `markInvalid` or task makes the worker Ready or Working again |
| PoolRemoval.MarkDeletedAfterWait | static_pool.go:320-333 | a removal mark is deleted only by the worker's own watcher after `Wait` |
| PoolRemoval.DoomedRun | static_pool.go:204-260 | from a mark on, tasks started plus the one possibly committed never exceed what they were |
| PoolRemoval.AtMostOneTaskAfterMark | static_pool.go:119-131 | once a removal mark is stored at most one more task starts on the worker, and none unless a call had already passed its look at the mark |
| PoolMarks.StaleExactly | static_pool.go:119-131 | in every run a worker off the list has a mark exactly when some `Remove` stored it after the watcher had detached the worker |
| PoolMarks.StaleForGood | static_pool.go:325-333 | such a mark stays for the rest of the run |
| PoolMarks.MarkOffListExactly | static_pool.go:129-131 | a marked worker is missing from the list exactly when its creator has not listed it yet or its mark was stored that late |
| PoolMarks.MarkCanBeLeftBehind | static_pool.go:125-130 | a run that leaves a mark behind for a worker on no list |
| PoolMarks.LateRemoveRefused | static_pool.go:120-123 | a `Remove` that begins after `Wait` stores no mark |
| PoolMarks.SecondRemoveRefused | static_pool.go:125-127 | while a worker is marked, up to its detaching, a further `Remove` does not get past its look at the marks |
| PoolAccounting.AlwaysCounting | static_pool.go:192-229 | `numDead` is registered deaths minus dropped entries, and dropped workers have no holder |
| PoolAccounting.CountedOnce | static_pool.go:335-336 | each worker is registered dead at most once and dropped at most once |
| PoolAccounting.DeadEntriesAccounted | static_pool.go:192-229 | `numDead` is the number of workers registered dead by their watcher and not dropped, minus those dropped ahead of their watcher; it covers the registered workers still in `free` when none was dropped ahead |
| PoolAccounting.CounterCanGoNegative | static_pool.go:198-201 | a run in which `numDead` is -1 and a call is told that all workers are dead, while every process is still running |
| PoolAllocation.HopelessExactly | static_pool.go:192-248 | in every run a call is bound for the answer that all workers are dead exactly from the step on in which it reads a negative counter |
| PoolAllocation.AllDeadExactly | static_pool.go:193-247 | a call that is over was told that all workers are dead exactly when it had read a negative `numDead`, that is, read it while more workers were dropped ahead of their watcher than were registered and not dropped |
| PoolJobs.AlwaysLimited | static_pool.go:251-263 | every holder that may still run or pass on a worker has it below MaxJobs, and no count exceeds MaxJobs |
| PoolJobs.AlwaysTally | worker.go:166-186 | the execution count of a worker is the number of tasks started on it, but for the one under way |
| PoolJobs.JobLimitHolds | static_pool.go:146-166 | with MaxJobs at least 1, workers in `free` are below the limit and no worker ever starts more tasks than it, whatever the outcomes |
| PoolRetry.AlwaysAttempts | static_pool.go:134-167 | the workers a call has tried before are gone, and every result it carries can be shown to the caller |
| PoolRetry.RetriesAreInvisible | static_pool.go:134-167 | `Exec` never returns the stop request, sends the same payload on each attempt, and never tries a worker twice |
| PoolRetry.SendsWhatItWasGiven | static_pool.go:134-167 | every attempt carries the payload the call was entered with |
| PoolAnswer.AnswerIsLastOutcome | static_pool.go:146-166 | a call answers with the outcome of its last exchange unless that was a stop request: the reply itself, the job error with its message, or the relay failure, each in both directions; every attempt before the last ended in a stop request; and it is told that the worker refused exactly when its last attempt came to no exchange |
| PoolAnswer.AlwaysTraced | static_pool.go:134-167 | in every state the exchanges of a call are as its position says, with the workers of its attempts and one admission for each |
| PoolCauses.ActsOnWhatItSaw | static_pool.go:192-263 | in every state a call is where it is on the grounds of what it saw when it looked |
| PoolCauses.StartsForCause | worker.go:158-171 | a task starts only on a worker that was ready and unmarked when the call looked, and ready again under its mutex, and only with a payload |
| PoolCauses.KeptForCause | static_pool.go:251-263 | a worker is dropped only if it was not ready, and given back only below the job limit and unmarked |
| PoolCauses.DiscardedForCause | static_pool.go:148-163 | a worker is discarded only if it was marked, refused, broken, asked for it or was at the job limit, and is made invalid first |
| PoolCauses.StoppedForCause | static_pool.go:213-214 | a call is told that the pool has been stopped only after `Destroy` has closed its channel |
| PoolStates.AlwaysStatesRight | worker.go:158-191 | in every state the value of a worker agrees with whoever holds its mutex: Working only while a call executes, after it Ready, or Errored if the relay failed, unless a store without the mutex has struck |
| PoolStops.StopIsFinal | worker.go:124-138 | once a `Stop` has the mutex of a worker, no task ever starts on it, it is never Ready or Working again, and the mutex is not given back before the process has exited |
| PoolStops.NoStopLost | worker.go:124-138 | while the process runs, every `Stop` ever called on the worker, by whomever, is on its way or has the mutex |
| PoolWait.LateCallsDoNothing | worker.go:124-153 | a `Stop` or `Kill` that comes after the process has exited does nothing |
| PoolWait.WaitDecides | worker.go:97-121 | when `Wait` returns the worker is Stopped if its process ended well or it was being stopped when `Wait` looked, and Errored otherwise |
| PoolDrain.AlwaysDraining | static_pool.go:134-176 | the wait group counts exactly the admissions calls still owe |
| PoolDrain.ClosedOnlyWhenDrained | static_pool.go:173-176 | when `Destroy` closes its channel no call owes an admission: each was never admitted or has returned, and none waits to retry after a stop request |
| PoolDrain.DestroySparesAdmittedTasks | static_pool.go:178-189 | `Destroy` never marks or stops a worker held by a call admitted before the closing |
| PoolDrain.NoAdmissionWhileDraining | static_pool.go:173-174 | while `Destroy` waits for the tasks no call is admitted |
| PoolShutdown.DestroysEveryListed | static_pool.go:178-188 | when the loop of `Destroy` is through, it has marked and stopped exactly the workers in the list it copied, each once and in order; before that, the start of that list |
| PoolShutdown.DestroyTouches | static_pool.go:181-184 | marking makes that worker Invalid, stopping calls `Stop` on it once, and neither changes another worker |
| PoolShutdown.OnlyReplacementsMissed | static_pool.go:179-186 | once `Destroy` has been called, a worker that was not listed then is listed later exactly when it was listed as a replacement in between |
| PoolShutdown.MissedWasUnderWay | static_pool.go:343-346 | the watcher that lists it had looked at the flag before `Destroy` was called |
| PoolShutdown.DestroyCanMissWorker | static_pool.go:343-346 | a run in which `Destroy` is through and a ready worker is listed that nobody called `Stop` on |
| PoolShutdown.CallCanSeeStop | static_pool.go:213-214 | a run in which a call is told that the pool has been stopped |
| Protocol.Always | worker.go:226-257 | the joint state of both programs and both queues, for every interleaving |
| Protocol.ReadyMeansInStep | worker.go:158-187 | a Ready, unlocked worker has empty queues and PHP at `receive` unless the process died, and the n-th result is the answer to the n-th request |
| Protocol.NothingMixedUp | src/Worker.php:52-135 | at all times tasks and results agree with requests and answers by number, no response is malformed, and PHP gets no frame it cannot use |
| Protocol.RefusedExactly | pipe_factory.go:48-68 | once the pids are exchanged, a worker is refused exactly when the script that answers is not the process that was started, and then never gets a request |
| Protocol.LeavesOnlyForStop | worker.go:124-138 | while the last request has a body other than "0", PHP is out of its loop only after `Stop` has sent its command |
| Protocol.StopEndsLoop | worker.go:132-136 | once `Stop` has sent its command, PHP is out of its loop or dead, or still has the command to take, after everything else |
| Protocol.NullExactly | src/Worker.php:52-74 | in every run, what PHP takes next makes `receive` return null exactly when it is the command of a `Stop` that was called or the empty body of the last request; no context does, whatever it decodes to |
| Protocol.LeavesExactly | src/Worker.php:22-74 | in every run, the documented loop is left in a step exactly when PHP takes the command of a `Stop` that was called, or the body of the last request and that is empty or "0" |
| Protocol.QueueFromGo | worker.go:226-240 | at any time what PHP has still to take is the pid command, the context or body of the last request, or the command of a `Stop` |
| Protocol.InvalidJsonGoesOn | src/Worker.php:155-176 | a fact about one frame: text that is not JSON goes on with a null header |
| Protocol.ThrowsExactly | src/Worker.php:149-158 | a fact about one frame, for `NothingThrows`: only the JSON text `false` in a control frame that is not raw throws |
| Protocol.NothingThrows | src/Worker.php:52-74 | no frame ever on its way to PHP makes `receive` throw or return an Error |
| Protocol.FalsyBodyEndsLoop | src/Worker.php:23-73 | for a missing, empty or "0" body, a run in which that request takes PHP out of the documented loop although nobody sent a stop command |
| Protocol.StopRequestRecognised | static_pool.go:159-163 | a fact about one answer: the pool's test holds exactly for an empty payload under the stop header |
| StateFilter.Filter.constructor | service/limit/state_filter.go:19-24 | a new filter reflects the empty history |
| StateFilter.Filter.Push | service/limit/state_filter.go:27-29 | the sample is added to the next round |
| StateFilter.Filter.DropMissing | service/limit/state_filter.go:33-37 | workers not pushed again are forgotten and nothing else |
| StateFilter.Filter.TakeNext | service/limit/state_filter.go:39-46 | unchanged workers keep their since, others get the time of this round, and `next` is emptied |
| StateFilter.Filter.Sync | service/limit/state_filter.go:32-47 | the pushed samples become the last round, and `prev` still reflects the whole history |
| StateFilter.Filter.Find | service/limit/state_filter.go:50-58 | returns, once each, exactly the workers the history selects |
| StateFilter.SyncReflects | service/limit/state_filter.go:32-47 | the incremental update keeps `prev` equal to the last round's workers with since the time of the first round of their longest trailing run |
| StateFilter.RunStartUnique | service/limit/state_filter.go:39-43 | the start of that run is unique |
| StateFilter.FindMatchesHistory | service/limit/state_filter.go:50-58 | the test on the stored record is the predicate on the history |
| LimitController.Controller.LoadWorkers | service/limit/controller.go:94-129 | skips invalid and unreadable workers, reports those over their age or memory limit whose removal the pool accepted, and makes the samples of the rest the next round |
| LimitController.Controller.Sift | service/limit/controller.go:60-78 | reports, once each, the found workers whose removal was accepted and that pass the event's test |
| LimitController.Controller.Control | service/limit/controller.go:54-92 | no worker is reported twice; age and memory reports happen exactly for workers over that limit, idle and exec reports exactly for workers that the history of passes shows in that state, with the same execution count, since a pass older than the limit; each only if the pool accepted the removal |
| LimitController.JudgedOnce | service/limit/controller.go:97-126 | a worker reported in the first loop is reported once and is not sampled |
| LimitController.JudgedRight | service/limit/controller.go:108-122 | age is reported exactly for workers past it, memory exactly for workers past it and within their age |
| LimitController.SampledWhenPushed | service/limit/controller.go:97-126 | exactly the workers that are not invalid, can be inspected and are below both limits are sampled |
| FormKeys.FetchIndexes | service/http/parse.go:115-147 | the scanning loop computes the fold of the per-character step |
| FormKeys.PrintScanRoundTrip | service/http/parse.go:115-147 | scanning a printed list of keys free of spaces and brackets gives the list back |
| FormKeys.ScanIsFaithful | service/http/parse.go:115-147 | for any input the keys hold exactly its other characters in order, and scanning, printing and scanning again changes nothing |
| FormKeys.TextAfterOpen | service/http/parse.go:128-142 | an opening bracket alone makes no key, and text after it is a key of its own |
| FormKeys.EmptyBrackets | service/http/parse.go:131-135 | empty brackets make an empty key |
| FormKeys.CloseAfterOther | service/http/parse.go:131-135 | any other closing bracket makes no key |
| FormKeys.TextAfterClose | service/http/parse.go:136-142 | text after a closing bracket is a key of its own |
| FormKeys.TextAfterText | service/http/parse.go:136-142 | text after text goes on with the same key |
| FormKeys.SpacesDoNotMatter | service/http/parse.go:125-127 | spaces do not matter, wherever they are |
| FormKeys.TextBracketsText | service/http/parse_test.go:11 | `a[b]c` has three keys |
| FormTree.MountPutsLeaf | service/http/parse.go:40-60 | mounting puts one leaf at the path given by the keys, a list leaf for a trailing empty key, and panics for a missing value |
| FormTree.PutPanicsExactly | service/http/parse.go:53-56 | a mount panics exactly when a leaf sits on the way to its path |
| FormTree.PutReadsBack | service/http/parse.go:40-60 | the mounted leaf is readable at its path |
| FormTree.PutKeepsApart | service/http/parse.go:40-60 | a mount changes nothing at paths apart from its own |
| FormTree.PutAddsOnPath | service/http/parse.go:40-60 | a mount adds nodes only on the way to its path and a leaf only at it |
| FormTree.PutsCommute | service/http/parse.go:40-60 | mounts at paths that are apart commute, panics included |
| FormTree.PushPutsItem | service/http/parse.go:32-37 | a push mounts its item, panics if it needs a value and has none, or does nothing beyond MaxLevel |
| FormTree.OrderDoesNotMatter | service/http/parse.go:17-19 | compatible entries give the same result in every order, from any tree |
| FormTree.ParseIsOrderFree | service/http/parse.go:14-60 | compatible entries of which none is bare never panic, give the same tree in every order, and each leaf path reads its own value |
| FormTree.ParsedHoldsValues | service/http/parse.go:40-60 | the tree of compatible entries holds for each, at its keys, the last value of a data entry or the first file, or the list of all values if the name ends in empty brackets |
| FormTree.TooDeepIsIgnored | service/http/parse.go:34-36 | entries with more than 127 keys change nothing |
| FormTree.OrderFreeExactly | service/http/parse.go:63-112 | for one map, every order succeeds with the same tree exactly when the entries are pairwise compatible and none is bare (in need of a value and without one) |
| FormTree.PrefixPanics | service/http/parse.go:53-56 | whatever is there already and whatever comes between, an entry whose leaf path is a proper prefix of a later one makes the walk panic |
| FormTree.OrderCanPanic | service/http/parse.go:17-19 | the keys `a` and `a[b]` parse in one order and panic in the other |
| FormTree.ParsesExactly | service/http/parse.go:14-60 | a walk succeeds exactly when no entry is bare and no leaf path is a proper prefix of a later one |
| FormTree.BarePanics | service/http/parse.go:41-45 | an entry in need of a value and without one makes the walk panic |
| FormOrder.PutAbsorbs | service/http/parse.go:40-60 | a mount at a prefix of an earlier path makes the earlier mount as if it had not been |
| FormOrder.OnlyUncoveredMatter | service/http/parse.go:16-26 | post form entries that the multipart form overwrites have no influence on the tree |
| FormOrder.BothOrderFreeExactly | service/http/parse.go:14-29 | every order of the two maps, walked one after the other, succeeds with the same tree exactly when no entry is bare, the multipart entries are compatible, no post entry is in the way of a multipart entry, and post entries disturb each other only where a multipart entry overwrites them |
| FormOrder.MultiHolds | service/http/parse.go:22-26 | the tree of settled forms holds the value of every multipart entry in that sense |
| FormOrder.PostHolds | service/http/parse.go:16-20 | and that of every post entry that no multipart entry overwrites |
| FormTree.DepthLimited | service/http/parse.go:7-37 | whatever is pushed, the tree is never deeper than MaxLevel, 127 |
| FormTreeHeap.Dir.constructor | service/http/parse.go:15 | a new map is the empty tree |
| FormTreeHeap.Dir.Push | service/http/parse.go:32-37 | pushing in place is the push of the tree value; a panic on a leaf leaves the tree as it was |
| FormTreeHeap.Dir.Mount | service/http/parse.go:40-60 | mounting in place is the mount of the tree value and keeps the maps a tree |
| FormTreeHeap.Dir.SetLeaf | service/http/parse.go:43-49 | one entry of one map is replaced |
| FormTreeHeap.Dir.AddBranch | service/http/parse.go:58 | a fresh empty map is put under a missing key |
| FormTreeHeap.Dir.MountBelow | service/http/parse.go:53-59 | mounting in a subtree changes only that subtree |
| FormTreeHeap.Dir.PushForm | service/http/parse.go:17-19 | walking a map in any order pushes each of its entries once, up to a panic |
| FormTreeHeap.ParseData | service/http/parse.go:14-29 | the two loops build the tree of some pair of walks, or panic as it does; for settled forms they succeed with the tree of every other pair too, and it holds the value of every entry that is not overwritten |
| FormTreeHeap.ParseUploads | service/http/parse.go:63-81 | the same for the one map of uploads and compatible entries, with the first file of each |
| Reload.Watcher.FindRemoved | service/reload/watcher.go:331-336 | collects exactly the stored paths that are gone |
| Reload.Watcher.Compare | service/reload/watcher.go:338-365 | collects the created files, takes changed ones over, and sends one event per changed time and per changed mode |
| Reload.Watcher.CompareOne | service/reload/watcher.go:349-364 | the events and the stored entry of one compared file |
| Reload.Watcher.MatchRenames | service/reload/watcher.go:367-386 | sends one event per pair of a removed and a created entry of the same file, touching only such paths |
| Reload.Watcher.MatchOne | service/reload/watcher.go:370-385 | the inner loop for one removed path |
| Reload.Watcher.SendCreates | service/reload/watcher.go:389-396 | stores and announces each created file once |
| Reload.Watcher.SendRemoves | service/reload/watcher.go:397-404 | forgets and announces each removed path once |
| Reload.Watcher.PollEvents | service/reload/watcher.go:323-405 | the stored snapshot and the multiset of events are functions of the two snapshots, in any iteration order |
| Reload.EventNamesChange | service/reload/watcher.go:327-404 | an event is sent exactly for created, removed and changed paths, with the right info |
| Reload.EventCounts | service/reload/watcher.go:331-404 | how many events a path gets: one if removed; one for a changed time and one for a changed mode; one if created and one more for every removed path of the same file |
| Reload.SilentExactly | service/reload/watcher.go:327-404 | no event exactly when every stored path is present and every file found was stored with equal time and mode |
| Reload.SameEventsInAnyOrder | service/reload/watcher.go:332-404 | the multiset of events does not depend on the iteration order |
| Reload.SnapshotConverges | service/reload/watcher.go:323-405 | which paths are stored, that stored files agree with what was found, and that polling the same snapshot again changes and emits nothing |
| ErrBuffer.Buffer.constructor | error_buffer.go:29-35 | a new buffer has seen no operation |
| ErrBuffer.Buffer.Write | error_buffer.go:92-99 | the write is the next operation and returns the length written; it goes to the buffer's memory behind its end, or to a new memory if it does not fit; and what each slice given before reads then |
| ErrBuffer.Buffer.WriteWhileKept | error_buffer.go:46-47 | for any buffer, any slice given before and any write, the slice reads the same exactly when the write does not reach into it or repeats the bytes there |
| ErrBuffer.PatchedSame | error_buffer.go:94 | written bytes leave a window of memory as it was exactly when they agree with it where they overlap |
| ErrBuffer.Buffer.Listen | error_buffer.go:74-78 | the listener change is the next operation |
| ErrBuffer.Buffer.TimerFlush | error_buffer.go:42-52 | the timer branch is the flush operation; a listener is given the slice of the buffer's own memory that reads the pending bytes then |
| ErrBuffer.Buffer.StopFlush | error_buffer.go:53-65 | the stop branch is the stop operation, with such a slice |
| ErrBuffer.Buffer.Len | error_buffer.go:82-88 | the length of what was written since the last timer flush that met a listener |
| ErrBuffer.Buffer.Text | error_buffer.go:102-107 | exactly what was written since the last timer flush that met a listener |
| ErrBuffer.StreamIsCut | error_buffer.go:37-66 | the stream is the pieces taken by flushes in order without gaps and the pending bytes; events are the non-empty pieces that met a listener |
| ErrBuffer.WindowsInOrder | error_buffer.go:44-51 | each piece is a non-empty window of the stream and the next one starts where it ends |
| ErrBuffer.HeardAndLost | error_buffer.go:44-62 | the bytes in events and the bytes flushed with no listener add up to the bytes flushed |
| ErrBuffer.DeliveredExactly | error_buffer.go:37-66 | after a stop flush the events concatenate to everything written exactly when a listener was there at every flush with something to deliver |
| ErrBuffer.ListenerHearsAll | error_buffer.go:74-78 | every piece is heard exactly when a listener is there at every flush with something to deliver |
| ErrBuffer.EarlyListenerHearsAll | error_buffer.go:37-78 | if someone starts listening before anything written was flushed, and nobody stops listening, the events concatenate to everything written once the buffer is closed |
| ErrBuffer.KeepSlice | error_buffer.go:46-47 | an example: the first slice of a new buffer starts where the memory does, so the next write that fits is found in it |
| ErrBuffer.KeepLaterSlice | error_buffer.go:45-50 | an example of the other kind: a slice given after an unheard flush survives a write that fits |
| ErrBuffer.OutputCanBeLost | error_buffer.go:44-51 | output flushed before anyone listens is not delivered although a listener comes before the stop |
| ErrBuffer.BufferHoldsRest | error_buffer.go:82-107 | the buffer is the stream since the last timer flush that met a listener |
| Rendezvous.Always | socket_factory.go:84-139 | channels carry only relays that reported the channel's pid, and a relay has one holder |
| Rendezvous.RelayStays | socket_factory.go:99-117 | a worker that got a relay keeps it for the rest of the run |
| Rendezvous.RelaysReachTheirWorkers | socket_factory.go:43-139 | no relay is given to two workers, then or later, and a worker gets only a relay that reported its own pid |
| Rendezvous.MapExactly | socket_factory.go:99-139 | a pid is in the map exactly when its channel was asked for and not cleaned up since |
| HotSwap.Always | server.go:148-199 | installed pools form a line without repetition, and the log shows each teardown as far as it is |
| HotSwap.SwapIsClean | server.go:148-199 | nothing happens twice, the current pool and watcher are untouched, and a replaced pool is destroyed and its watcher detached only after its successor is installed |
| HotSwap.NothingLeaks | server.go:187-196 | once all teardowns are over every pool but the current one is destroyed and every watcher but the current one detached |
| HotSwap.NewPoolIsWatched | server.go:176-183 | after a reconfiguration the current pool has a watcher, attached to it, exactly when the server has a controller |

## Left out

- Process spawning, signals, pipes, sockets, JSON encoding and the framing of relays: relays are reliable FIFO queues, timers and the death of a process are steps that can happen at any time.
- Protocol.RefusedExactly: a pid exchange that fails on the relay, after which the worker is killed too, has no step.
- Liveness of the pool: a blocked `p.free <- w`, and the retry that needs `tmu` while `Destroy` waits for it, are states without a next step for that goroutine.
- The goroutine that closes the relay after the death of a process (worker.go:202-221): its effect is that relay operations fail, which they may at any time.
- Events thrown to listeners of the pool and the server.
- PoolModel: 64-bit wrap-around of the loop counter in `allocateWorker` and of the counters is not modelled, and a second `Destroy`, which panics in the source, has no step; the two loads of the state in `Remove` are one step.
- Protocol: `Stop` and `Exec` are serialised by the worker's mutex, and `Kill` is the death of the process; their races over the worker state are in the pool model.
- FormTreeHeap.Dir.Push: which maps on its way a push has made before it panics for a missing value is not stated.
- FormKeys.FetchIndexes: strings are sequences of characters, so invalid UTF-8 in a key is not modelled.
- LimitController.Controller.Control: what the pool answers to `Remove` and what is read of each worker are inputs, ages are whole nanoseconds compared without rounding, overflow of the memory limit is ignored, and the goroutine that kills a stuck worker is not modelled.
- ErrBuffer.Buffer.Write: how much room a grown memory has to spare is an input, and the signal to the flush loop, on which a write after the stop blocks, is not modelled; neither is the time between flushes.
- HotSwap.SwapIsClean: `Stop`, `Attach`, `Start` and the failure of a pool overlapping a reconfiguration, and a server that is not started, are outside the model.
- Rendezvous.Always: an accept loop stuck on a channel whose worker is gone, and connections whose pid exchange fails, are not modelled.
- Reload.Watcher.PollEvents: `os.SameFile` is equality of an id, and events do not carry the service name.
- The file walking of the reload watcher, the service container, the HTTP, TLS and FastCGI servers, uploads, headers, gzip, static, metrics, rpc, the command line and configuration loading, and the PHP clients above `Worker`.
