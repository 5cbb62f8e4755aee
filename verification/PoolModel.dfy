/**
 The worker pool as a step system.

 Every goroutine that touches a pool is a small program with a program counter:
 the callers of `Exec`, one watcher per worker, `NewPool`, `Destroy`, and the
 callers of `Remove`, `Stop` and `Kill`.  A step is one channel operation, one
 atomic load or store, or one locked section; a run is any interleaving of steps.

 Some fields are history: `counted`, `dropped` and `admissions` in `Pool`, `starts` in
 `Worker`, and `attempts` and `early` in `Call`.  Steps write them, and no guard reads them.
 */
module PoolModel {
  import opened Basics

  type WorkerId = nat
  type CallId = nat

  /** A nil byte slice is None. */
  datatype Payload = Payload(context: Option<string>, body: Option<string>)

  const STOP_REQUEST: string := "{\"stop\":true}"

  /** The response by which a worker asks to be replaced. */
  predicate IsStopRequest(rsp: Payload) {
    rsp.body.None? && rsp.context == Some(STOP_REQUEST)
  }

  // ---------------------------------------------------------------- workers

  datatype Value = Ready | Working | Invalid | Stopping | Stopped | Errored

  datatype Lock = Unlocked | ByCall(call: CallId) | ByWatcher | ByStop

  /** Program counter of `watchWorker`. */
  datatype Watch =
    | NotStarted
    | Waiting
    | Setting(final: Value)          // inside Wait, holding the worker's mutex
    | Waited
    | Detached
    | Counted
    | Replacing
    | HasSpawned(spawned: WorkerId)
    | HasListed(listed: WorkerId)
    | Failed
    | GaveUp
    | Finished

  datatype Worker = Worker(
    value: Value,
    numExecs: nat,
    lock: Lock,
    exited: bool,                    // waitDone is closed
    success: bool,                   // exit status of the process
    watch: Watch,
    stopCalls: nat,                  // Stop entered, waitDone not looked at yet
    stopsPassed: nat,                // Stop past its look at waitDone, waiting for the mutex
    killsPassed: nat,                // Kill past its look at waitDone
    removesSeen: nat,                // Remove past its look at the state
    removesPassed: nat,              // Remove past its look at the removal map
    starts: nat)                     // tasks ever started here

  function NewWorker(): Worker {
    Worker(Ready, 0, Unlocked, false, false, NotStarted, 0, 0, 0, 0, 0, 0)
  }

  // ---------------------------------------------------------------- calls

  datatype Outcome = Reply(rsp: Payload) | JobError(message: string) | RelayError

  datatype Reason = AllDead | PoolStopped | AllocateTimeout | WorkerRefused | WorkerBroken

  datatype Result = Response(rsp: Payload) | SoftError(message: string) | Failure(reason: Reason)

  /** What a call does once `discardWorker` has returned. */
  datatype After = Continue(i: int) | Retry | Answer(result: Result)

  /** Program counter of `StaticPool.Exec` with `allocateWorker`, `Worker.Exec`,
      `release` and `discardWorker` inlined. */
  datatype CallPc =
    | Entering
    | Admitted
    | Looping(i: int)
    | Received(i: int, w: WorkerId)
    | Dropping(i: int, w: WorkerId)
    | Checking(i: int, w: WorkerId)
    | Allocated(w: WorkerId)
    | Locked(w: WorkerId)
    | Running(w: WorkerId)
    | Ending(w: WorkerId, outcome: Outcome)
    | Registering(w: WorkerId, outcome: Outcome)
    | Releasing(w: WorkerId, result: Result)
    | ReleaseChecking(w: WorkerId, result: Result)
    | Enqueueing(w: WorkerId, result: Result)
    | Invalidating(w: WorkerId, after: After)
    | Destroying(w: WorkerId, after: After)
    | Leaving(result: Result)
    | Returned(result: Result)

  datatype Attempt = Attempt(w: WorkerId, rqs: Option<Payload>)

  datatype Call = Call(
    rqs: Option<Payload>,
    pc: CallPc,
    depth: nat,                      // nested Exec frames that still owe tasks.Done
    attempts: seq<Attempt>,          // every w.Exec made by this call
    early: bool)                     // first admitted before the destroy channel closed

  // ---------------------------------------------------------------- the pool

  datatype Builder =
    | Building(i: nat)
    | BuildSpawned(i: nat, w: WorkerId)
    | BuildListed(i: nat, w: WorkerId)
    | Built
    | Aborted(i: nat)

  datatype Destroyer =
    | Off
    | Flagged
    | Draining
    | Closed
    | Marking(rest: seq<WorkerId>)
    | Going(w: WorkerId, rest: seq<WorkerId>)

  datatype Pool = Pool(
    numWorkers: nat,
    maxJobs: int,
    workers: map<WorkerId, Worker>,
    list: seq<WorkerId>,
    free: seq<WorkerId>,
    numDead: int,
    marks: set<WorkerId>,
    inDestroy: bool,
    destroyClosed: bool,
    tmu: bool,
    tasks: int,
    calls: map<CallId, Call>,
    builder: Builder,
    destroyer: Destroyer,
    counted: set<WorkerId>,
    dropped: set<WorkerId>,
    admissions: set<(CallId, nat)>)

  predicate Init(s: Pool) {
    && s.numWorkers > 0
    && s == Pool(s.numWorkers, s.maxJobs, map[], [], [], 0, {}, false, false, false, 0, map[],
                 Building(0), Off, {}, {}, {})
  }

  function SetWorker(s: Pool, w: WorkerId, r: Worker): Pool {
    s.(workers := s.workers[w := r])
  }

  function GoTo(s: Pool, t: CallId, pc: CallPc): Pool
    requires t in s.calls
  {
    s.(calls := s.calls[t := s.calls[t].(pc := pc)])
  }

  /** Call t goes to pc and worker w becomes r, in one step. */
  function GoToWith(s: Pool, t: CallId, pc: CallPc, w: WorkerId, r: Worker): Pool
    requires t in s.calls
  {
    s.(workers := s.workers[w := r], calls := s.calls[t := s.calls[t].(pc := pc)])
  }

  // ---------------------------------------------------------------- steps of a call

  predicate Enter(s: Pool, s': Pool, t: CallId, rqs: Option<Payload>) {
    && s.builder.Built?
    && t !in s.calls
    && s' == s.(calls := s.calls[t := Call(rqs, Entering, 0, [], false)])
  }

  predicate Admit(s: Pool, s': Pool, t: CallId) {
    && t in s.calls && s.calls[t].pc.Entering?
    && !s.tmu
    && var c := s.calls[t];
       s' == s.(tasks := s.tasks + 1,
                admissions := s.admissions + {(t, c.depth)},
                calls := s.calls[t := c.(pc := Admitted, depth := c.depth + 1,
                                         early := if c.depth == 0 then !s.destroyClosed else c.early)])
  }

  predicate LoadDead(s: Pool, s': Pool, t: CallId) {
    && t in s.calls && s.calls[t].pc.Admitted?
    && s' == GoTo(s, t, Looping(s.numDead))
  }

  /** The loop test fails: the counter is negative. */
  predicate LoopExit(s: Pool, s': Pool, t: CallId) {
    && t in s.calls && s.calls[t].pc.Looping? && s.calls[t].pc.i < 0
    && s' == GoTo(s, t, Leaving(Failure(AllDead)))
  }

  predicate Receive(s: Pool, s': Pool, t: CallId) {
    && t in s.calls && s.calls[t].pc.Looping? && s.calls[t].pc.i >= 0
    && |s.free| > 0
    && s' == GoTo(s.(free := s.free[1..]), t, Received(s.calls[t].pc.i, s.free[0]))
  }

  predicate SeeStopped(s: Pool, s': Pool, t: CallId) {
    && t in s.calls && s.calls[t].pc.Looping? && s.calls[t].pc.i >= 0
    && s.destroyClosed
    && s' == GoTo(s, t, Leaving(Failure(PoolStopped)))
  }

  predicate TimeOut(s: Pool, s': Pool, t: CallId) {
    && t in s.calls && s.calls[t].pc.Looping? && s.calls[t].pc.i >= 0
    && s' == GoTo(s, t, Leaving(Failure(AllocateTimeout)))
  }

  predicate LoadValue(s: Pool, s': Pool, t: CallId) {
    && t in s.calls && s.calls[t].pc.Received?
    && var Received(i, w) := s.calls[t].pc;
       w in s.workers
       && s' == GoTo(s, t, if s.workers[w].value != Ready then Dropping(i, w) else Checking(i, w))
  }

  predicate DropDead(s: Pool, s': Pool, t: CallId) {
    && t in s.calls && s.calls[t].pc.Dropping?
    && var Dropping(i, w) := s.calls[t].pc;
       s' == GoTo(s.(numDead := s.numDead - 1, dropped := s.dropped + {w}), t, Looping(i + 1))
  }

  predicate LoadMark(s: Pool, s': Pool, t: CallId) {
    && t in s.calls && s.calls[t].pc.Checking?
    && var Checking(i, w) := s.calls[t].pc;
       s' == GoTo(s, t, if w in s.marks then Invalidating(w, Continue(i + 2)) else Allocated(w))
  }

  predicate Invalidate(s: Pool, s': Pool, t: CallId) {
    && t in s.calls && s.calls[t].pc.Invalidating?
    && var Invalidating(w, a) := s.calls[t].pc;
       w in s.workers
       && s' == GoToWith(s, t, Destroying(w, a), w, s.workers[w].(value := Invalid))
  }

  function Resume(a: After): CallPc {
    match a
    case Continue(i) => Looping(i)
    case Retry => Entering
    case Answer(r) => Leaving(r)
  }

  /** `go destroyWorker(w)`; the goroutine's own call of Stop starts here. */
  predicate GoDestroy(s: Pool, s': Pool, t: CallId) {
    && t in s.calls && s.calls[t].pc.Destroying?
    && var Destroying(w, a) := s.calls[t].pc;
       w in s.workers
       && s' == GoToWith(s, t, Resume(a), w, s.workers[w].(stopCalls := s.workers[w].stopCalls + 1))
  }

  /** `Worker.Exec` takes the mutex, looks at its argument and its state, and refuses. */
  predicate RefuseTask(s: Pool, s': Pool, t: CallId) {
    && t in s.calls && s.calls[t].pc.Allocated?
    && var c := s.calls[t];
       var w := c.pc.w;
       w in s.workers
       && s.workers[w].lock.Unlocked?
       && (c.rqs.None? || s.workers[w].value != Ready)
       && s' == s.(calls := s.calls[t := c.(attempts := c.attempts + [Attempt(w, c.rqs)],
                                            pc := Invalidating(w, Answer(Failure(WorkerRefused))))])
  }

  /** `Worker.Exec` takes the mutex, looks at its argument and its state, and goes on. */
  predicate LockWorker(s: Pool, s': Pool, t: CallId) {
    && t in s.calls && s.calls[t].pc.Allocated?
    && var c := s.calls[t];
       var w := c.pc.w;
       w in s.workers
       && s.workers[w].lock.Unlocked?
       && c.rqs.Some? && s.workers[w].value == Ready
       && s' == s.(workers := s.workers[w := s.workers[w].(lock := ByCall(t))],
                   calls := s.calls[t := c.(attempts := c.attempts + [Attempt(w, c.rqs)], pc := Locked(w))])
  }

  predicate SetWorking(s: Pool, s': Pool, t: CallId) {
    && t in s.calls && s.calls[t].pc.Locked?
    && var w := s.calls[t].pc.w;
       w in s.workers
       && var r := s.workers[w];
          s' == GoToWith(s, t, Running(w), w, r.(value := Working, starts := r.starts + 1))
  }

  /** The payload exchange over the relay ends in some outcome. */
  predicate Exchange(s: Pool, s': Pool, t: CallId, o: Outcome) {
    && t in s.calls && s.calls[t].pc.Running?
    && s' == GoTo(s, t, Ending(s.calls[t].pc.w, o))
  }

  predicate SetEnd(s: Pool, s': Pool, t: CallId) {
    && t in s.calls && s.calls[t].pc.Ending?
    && var Ending(w, o) := s.calls[t].pc;
       w in s.workers
       && s' == GoToWith(s, t, Registering(w, o), w, s.workers[w].(value := if o.RelayError? then Errored else Ready))
  }

  /** Where `StaticPool.Exec` goes with the outcome of `Worker.Exec`. */
  function Dispatch(w: WorkerId, o: Outcome): CallPc {
    match o
    case RelayError => Invalidating(w, Answer(Failure(WorkerBroken)))
    case JobError(m) => Releasing(w, SoftError(m))
    case Reply(rsp) => if IsStopRequest(rsp) then Invalidating(w, Retry) else Releasing(w, Response(rsp))
  }

  predicate RegisterExec(s: Pool, s': Pool, t: CallId) {
    && t in s.calls && s.calls[t].pc.Registering?
    && var Registering(w, o) := s.calls[t].pc;
       w in s.workers
       && var r := s.workers[w];
          s' == GoToWith(s, t, Dispatch(w, o), w, r.(numExecs := r.numExecs + 1, lock := Unlocked))
  }

  predicate CheckJobs(s: Pool, s': Pool, t: CallId) {
    && t in s.calls && s.calls[t].pc.Releasing?
    && var Releasing(w, r) := s.calls[t].pc;
       w in s.workers
       && s' == GoTo(s, t, if s.maxJobs != 0 && s.workers[w].numExecs >= s.maxJobs
                           then Invalidating(w, Answer(r)) else ReleaseChecking(w, r))
  }

  predicate CheckRemoved(s: Pool, s': Pool, t: CallId) {
    && t in s.calls && s.calls[t].pc.ReleaseChecking?
    && var ReleaseChecking(w, r) := s.calls[t].pc;
       s' == GoTo(s, t, if w in s.marks then Invalidating(w, Answer(r)) else Enqueueing(w, r))
  }

  predicate Enqueue(s: Pool, s': Pool, t: CallId) {
    && t in s.calls && s.calls[t].pc.Enqueueing?
    && |s.free| < s.numWorkers
    && var Enqueueing(w, r) := s.calls[t].pc;
       s' == GoTo(s.(free := s.free + [w]), t, Leaving(r))
  }

  /** One deferred `tasks.Done`. */
  predicate TaskDone(s: Pool, s': Pool, t: CallId) {
    && t in s.calls && s.calls[t].pc.Leaving? && s.calls[t].depth > 0
    && var c := s.calls[t];
       s' == s.(tasks := s.tasks - 1,
                admissions := s.admissions - {(t, c.depth - 1)},
                calls := s.calls[t := c.(depth := c.depth - 1,
                                         pc := if c.depth == 1 then Returned(c.pc.result) else c.pc)])
  }

  // ---------------------------------------------------------------- steps of a watcher

  predicate LockForWait(s: Pool, s': Pool, w: WorkerId) {
    && w in s.workers
    && var r := s.workers[w];
       r.watch.Waiting? && r.exited && r.lock.Unlocked?
       && s' == SetWorker(s, w, r.(lock := ByWatcher,
                                   watch := Setting(if r.success || r.value == Stopping then Stopped else Errored)))
  }

  predicate SetFinal(s: Pool, s': Pool, w: WorkerId) {
    && w in s.workers
    && var r := s.workers[w];
       r.watch.Setting?
       && s' == SetWorker(s, w, r.(value := r.watch.final, lock := Unlocked, watch := Waited))
  }

  /** The list without the first occurrence of w. */
  function Without(list: seq<WorkerId>, w: WorkerId): seq<WorkerId> {
    if list == [] then []
    else if list[0] == w then list[1..]
    else [list[0]] + Without(list[1..], w)
  }

  /** The removal mark goes only when the worker is found in the list. */
  predicate Detach(s: Pool, s': Pool, w: WorkerId) {
    && w in s.workers && s.workers[w].watch.Waited?
    && s' == SetWorker(s, w, s.workers[w].(watch := Detached))
             .(list := Without(s.list, w), marks := if w in s.list then s.marks - {w} else s.marks)
  }

  predicate CountDead(s: Pool, s': Pool, w: WorkerId) {
    && w in s.workers && s.workers[w].watch.Detached?
    && s' == SetWorker(s, w, s.workers[w].(watch := Counted))
             .(numDead := s.numDead + 1, counted := s.counted + {w})
  }

  predicate CheckDestroyed(s: Pool, s': Pool, w: WorkerId) {
    && w in s.workers && s.workers[w].watch.Counted?
    && s' == SetWorker(s, w, s.workers[w].(watch := if s.inDestroy then GaveUp else Replacing))
  }

  predicate SpawnReplacement(s: Pool, s': Pool, w: WorkerId, nw: WorkerId) {
    && w in s.workers && s.workers[w].watch.Replacing?
    && nw !in s.workers
    && s' == SetWorker(SetWorker(s, nw, NewWorker()), w, s.workers[w].(watch := HasSpawned(nw)))
  }

  predicate SpawnFails(s: Pool, s': Pool, w: WorkerId) {
    && w in s.workers && s.workers[w].watch.Replacing?
    && s' == SetWorker(s, w, s.workers[w].(watch := Failed))
  }

  predicate ListReplacement(s: Pool, s': Pool, w: WorkerId) {
    && w in s.workers && s.workers[w].watch.HasSpawned?
    && var nw := s.workers[w].watch.spawned;
       nw in s.workers
       && s' == SetWorker(SetWorker(s, nw, s.workers[nw].(watch := Waiting)),
                          w, s.workers[w].(watch := HasListed(nw)))
                .(list := s.list + [nw])
  }

  predicate EnqueueReplacement(s: Pool, s': Pool, w: WorkerId) {
    && w in s.workers && s.workers[w].watch.HasListed?
    && |s.free| < s.numWorkers
    && s' == SetWorker(s, w, s.workers[w].(watch := Finished))
             .(free := s.free + [s.workers[w].watch.listed])
  }

  // ---------------------------------------------------------------- steps of NewPool

  predicate BuildSpawn(s: Pool, s': Pool, nw: WorkerId) {
    && s.builder.Building? && s.builder.i < s.numWorkers
    && nw !in s.workers
    && s' == SetWorker(s, nw, NewWorker()).(builder := BuildSpawned(s.builder.i, nw))
  }

  predicate BuildFails(s: Pool, s': Pool) {
    && s.builder.Building? && s.builder.i < s.numWorkers
    && s' == s.(builder := Aborted(s.builder.i))
  }

  predicate BuildList(s: Pool, s': Pool) {
    && s.builder.BuildSpawned?
    && var BuildSpawned(i, w) := s.builder;
       w in s.workers
       && s' == SetWorker(s, w, s.workers[w].(watch := Waiting))
                .(list := s.list + [w], builder := BuildListed(i, w))
  }

  predicate BuildEnqueue(s: Pool, s': Pool) {
    && s.builder.BuildListed?
    && |s.free| < s.numWorkers
    && s' == s.(free := s.free + [s.builder.w], builder := Building(s.builder.i + 1))
  }

  predicate BuildDone(s: Pool, s': Pool) {
    && s.builder == Building(s.numWorkers)
    && s' == s.(builder := Built)
  }

  // ---------------------------------------------------------------- steps on one worker

  predicate ProcessExits(s: Pool, s': Pool, w: WorkerId, success: bool) {
    && w in s.workers && !s.workers[w].exited
    && s' == SetWorker(s, w, s.workers[w].(exited := true, success := success))
  }

  predicate CallStop(s: Pool, s': Pool, w: WorkerId) {
    && w in s.workers
    && s' == SetWorker(s, w, s.workers[w].(stopCalls := s.workers[w].stopCalls + 1))
  }

  predicate StopLooks(s: Pool, s': Pool, w: WorkerId) {
    && w in s.workers && s.workers[w].stopCalls > 0
    && var r := s.workers[w];
       s' == SetWorker(s, w, r.(stopCalls := r.stopCalls - 1,
                                stopsPassed := r.stopsPassed + if r.exited then 0 else 1))
  }

  predicate StopLocks(s: Pool, s': Pool, w: WorkerId) {
    && w in s.workers && s.workers[w].stopsPassed > 0 && s.workers[w].lock.Unlocked?
    && var r := s.workers[w];
       s' == SetWorker(s, w, r.(stopsPassed := r.stopsPassed - 1, lock := ByStop, value := Stopping))
  }

  predicate StopReturns(s: Pool, s': Pool, w: WorkerId) {
    && w in s.workers && s.workers[w].lock.ByStop? && s.workers[w].exited
    && s' == SetWorker(s, w, s.workers[w].(lock := Unlocked))
  }

  predicate CallKill(s: Pool, s': Pool, w: WorkerId) {
    && w in s.workers && !s.workers[w].exited
    && s' == SetWorker(s, w, s.workers[w].(killsPassed := s.workers[w].killsPassed + 1))
  }

  /** Kill stores its state without the mutex. */
  predicate KillStores(s: Pool, s': Pool, w: WorkerId) {
    && w in s.workers && s.workers[w].killsPassed > 0
    && var r := s.workers[w];
       s' == SetWorker(s, w, r.(killsPassed := r.killsPassed - 1, value := Stopping))
  }

  predicate RemoveLooks(s: Pool, s': Pool, w: WorkerId) {
    && w in s.workers && s.workers[w].value in {Ready, Working}
    && s' == SetWorker(s, w, s.workers[w].(removesSeen := s.workers[w].removesSeen + 1))
  }

  predicate RemoveLoads(s: Pool, s': Pool, w: WorkerId) {
    && w in s.workers && s.workers[w].removesSeen > 0
    && var r := s.workers[w];
       s' == SetWorker(s, w, r.(removesSeen := r.removesSeen - 1,
                                removesPassed := r.removesPassed + if w in s.marks then 0 else 1))
  }

  predicate RemoveStores(s: Pool, s': Pool, w: WorkerId) {
    && w in s.workers && s.workers[w].removesPassed > 0
    && s' == SetWorker(s, w, s.workers[w].(removesPassed := s.workers[w].removesPassed - 1))
             .(marks := s.marks + {w})
  }

  // ---------------------------------------------------------------- steps of Destroy

  predicate FlagDestroy(s: Pool, s': Pool) {
    && (s.builder.Built? || s.builder.Aborted?)
    && s.destroyer.Off?
    && s' == s.(inDestroy := true, destroyer := Flagged)
  }

  predicate LockTasks(s: Pool, s': Pool) {
    && s.destroyer.Flagged? && !s.tmu
    && s' == s.(tmu := true, destroyer := Draining)
  }

  predicate CloseDestroy(s: Pool, s': Pool) {
    && s.destroyer.Draining? && s.tasks == 0
    && s' == s.(destroyClosed := true, tmu := false, destroyer := Closed)
  }

  predicate SnapshotList(s: Pool, s': Pool) {
    && s.destroyer.Closed?
    && s' == s.(destroyer := Marking(s.list))
  }

  predicate MarkNext(s: Pool, s': Pool) {
    && s.destroyer.Marking? && s.destroyer.rest != []
    && var w := s.destroyer.rest[0];
       w in s.workers
       && s' == SetWorker(s, w, s.workers[w].(value := Invalid)).(destroyer := Going(w, s.destroyer.rest[1..]))
  }

  predicate GoNext(s: Pool, s': Pool) {
    && s.destroyer.Going?
    && var Going(w, rest) := s.destroyer;
       w in s.workers
       && s' == SetWorker(s, w, s.workers[w].(stopCalls := s.workers[w].stopCalls + 1))
                .(destroyer := Marking(rest))
  }

  // ---------------------------------------------------------------- runs

  /** What a call of Exec can do. */
  datatype CallAct =
    | DoEnter(rqs: Option<Payload>) | DoAdmit | DoLoadDead | DoLoopExit | DoReceive | DoSeeStopped | DoTimeOut
    | DoLoadValue | DoDropDead | DoLoadMark | DoRefuseTask | DoLockWorker | DoSetWorking | DoExchange(outcome: Outcome)
    | DoSetEnd | DoRegisterExec | DoCheckJobs | DoCheckRemoved | DoEnqueue | DoInvalidate | DoGoDestroy
    | DoTaskDone

  predicate CallStep(s: Pool, s': Pool, t: CallId, p: CallAct) {
    match p
    case DoEnter(rqs) => Enter(s, s', t, rqs)
    case DoAdmit => Admit(s, s', t)
    case DoLoadDead => LoadDead(s, s', t)
    case DoLoopExit => LoopExit(s, s', t)
    case DoReceive => Receive(s, s', t)
    case DoSeeStopped => SeeStopped(s, s', t)
    case DoTimeOut => TimeOut(s, s', t)
    case DoLoadValue => LoadValue(s, s', t)
    case DoDropDead => DropDead(s, s', t)
    case DoLoadMark => LoadMark(s, s', t)
    case DoRefuseTask => RefuseTask(s, s', t)
    case DoLockWorker => LockWorker(s, s', t)
    case DoSetWorking => SetWorking(s, s', t)
    case DoExchange(outcome) => Exchange(s, s', t, outcome)
    case DoSetEnd => SetEnd(s, s', t)
    case DoRegisterExec => RegisterExec(s, s', t)
    case DoCheckJobs => CheckJobs(s, s', t)
    case DoCheckRemoved => CheckRemoved(s, s', t)
    case DoEnqueue => Enqueue(s, s', t)
    case DoInvalidate => Invalidate(s, s', t)
    case DoGoDestroy => GoDestroy(s, s', t)
    case DoTaskDone => TaskDone(s, s', t)
  }

  /** What the watcher of a worker can do. */
  datatype WatchAct =
    | DoLockForWait | DoSetFinal | DoDetach | DoCountDead | DoCheckDestroyed
    | DoSpawnReplacement(nw: WorkerId) | DoSpawnFails | DoListReplacement | DoEnqueueReplacement

  predicate WatchStep(s: Pool, s': Pool, w: WorkerId, p: WatchAct) {
    match p
    case DoLockForWait => LockForWait(s, s', w)
    case DoSetFinal => SetFinal(s, s', w)
    case DoDetach => Detach(s, s', w)
    case DoCountDead => CountDead(s, s', w)
    case DoCheckDestroyed => CheckDestroyed(s, s', w)
    case DoSpawnReplacement(nw) => SpawnReplacement(s, s', w, nw)
    case DoSpawnFails => SpawnFails(s, s', w)
    case DoListReplacement => ListReplacement(s, s', w)
    case DoEnqueueReplacement => EnqueueReplacement(s, s', w)
  }

  /** What the process of a worker, or a caller of Stop, Kill or Remove on it, can do. */
  datatype WorkerAct =
    | DoProcessExits(success: bool) | DoCallStop | DoStopLooks | DoStopLocks | DoStopReturns | DoCallKill
    | DoKillStores | DoRemoveLooks | DoRemoveLoads | DoRemoveStores

  predicate WorkerStep(s: Pool, s': Pool, w: WorkerId, p: WorkerAct) {
    match p
    case DoProcessExits(success) => ProcessExits(s, s', w, success)
    case DoCallStop => CallStop(s, s', w)
    case DoStopLooks => StopLooks(s, s', w)
    case DoStopLocks => StopLocks(s, s', w)
    case DoStopReturns => StopReturns(s, s', w)
    case DoCallKill => CallKill(s, s', w)
    case DoKillStores => KillStores(s, s', w)
    case DoRemoveLooks => RemoveLooks(s, s', w)
    case DoRemoveLoads => RemoveLoads(s, s', w)
    case DoRemoveStores => RemoveStores(s, s', w)
  }

  /** What NewPool can do. */
  datatype BuildAct =
    | DoBuildSpawn(nw: WorkerId) | DoBuildFails | DoBuildList | DoBuildEnqueue | DoBuildDone

  predicate BuildStep(s: Pool, s': Pool, p: BuildAct) {
    match p
    case DoBuildSpawn(nw) => BuildSpawn(s, s', nw)
    case DoBuildFails => BuildFails(s, s')
    case DoBuildList => BuildList(s, s')
    case DoBuildEnqueue => BuildEnqueue(s, s')
    case DoBuildDone => BuildDone(s, s')
  }

  /** What Destroy can do. */
  datatype DestroyAct =
    | DoFlagDestroy | DoLockTasks | DoCloseDestroy | DoSnapshotList | DoMarkNext | DoGoNext

  predicate DestroyStep(s: Pool, s': Pool, p: DestroyAct) {
    match p
    case DoFlagDestroy => FlagDestroy(s, s')
    case DoLockTasks => LockTasks(s, s')
    case DoCloseDestroy => CloseDestroy(s, s')
    case DoSnapshotList => SnapshotList(s, s')
    case DoMarkNext => MarkNext(s, s')
    case DoGoNext => GoNext(s, s')
  }

  datatype Step =
    | OfCall(t: CallId, call: CallAct)
    | OfWatcher(w: WorkerId, watch: WatchAct)
    | OfWorker(w: WorkerId, act: WorkerAct)
    | OfBuilder(build: BuildAct)
    | OfDestroy(destroy: DestroyAct)

  predicate Does(s: Pool, s': Pool, step: Step) {
    match step
    case OfCall(t, p) => CallStep(s, s', t, p)
    case OfWatcher(w, p) => WatchStep(s, s', w, p)
    case OfWorker(w, p) => WorkerStep(s, s', w, p)
    case OfBuilder(p) => BuildStep(s, s', p)
    case OfDestroy(p) => DestroyStep(s, s', p)
  }

  ghost predicate Next(s: Pool, s': Pool) {
    exists step :: Does(s, s', step)
  }

  ghost predicate StepAt(r: seq<Pool>, i: nat) {
    i + 1 < |r| ==> Next(r[i], r[i + 1])
  }

  /** A run from the initial state. */
  ghost predicate Run(r: seq<Pool>) {
    && |r| > 0
    && Init(r[0])
    && forall i: nat :: StepAt(r, i)
  }

  lemma RunStep(r: seq<Pool>, i: nat)
    requires Run(r) && i + 1 < |r|
    ensures Next(r[i], r[i + 1])
  {
    assert StepAt(r, i);
  }
}
