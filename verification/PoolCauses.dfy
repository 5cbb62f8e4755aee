/**
 Why a call keeps, drops, refuses or discards a worker: what it saw when it looked.
 */
module PoolCauses {
  import opened Basics
  import opened PoolModel
  import opened PoolFrames

  /** What a call can see of a worker. */
  datatype Look =
    | IsReady(w: WorkerId)           // the state of a worker it has just received
    | NotReady(w: WorkerId)
    | Unmarked(w: WorkerId)          // the removal map, before a task
    | Marked(w: WorkerId)
    | Accepts(w: WorkerId)           // the state and the payload, under the worker's mutex
    | Refuses(w: WorkerId)
    | HasRoom(w: WorkerId)           // the execution count, after a task
    | StillUnmarked(w: WorkerId)     // the removal map, after a task
    | NotWanted(w: WorkerId)         // one of the last two says no
    | MadeInvalid(w: WorkerId)       // the state of a worker it has marked itself
    | DestroyClosed

  /** Call t leaves the given position in this step. */
  predicate Leaves(s: Pool, s': Pool, t: CallId, pc: CallPc) {
    t in s.calls && s.calls[t].pc == pc && t in s'.calls && s'.calls[t].pc != pc
  }

  predicate AtLimit(s: Pool, w: WorkerId) {
    s.maxJobs != 0 && w in s.workers && s.workers[w].numExecs >= s.maxJobs
  }

  /** Worker w takes the payload of call t. */
  predicate Willing(s: Pool, t: CallId, w: WorkerId) {
    t in s.calls && s.calls[t].rqs.Some? && w in s.workers && s.workers[w].value == Ready
  }

  /** In this step call t sees what `look` says, and it is so in the state it looks at. */
  ghost predicate Sees(s: Pool, s': Pool, t: CallId, look: Look) {
    && t in s.calls && Leaves(s, s', t, s.calls[t].pc)
    && var pc := s.calls[t].pc;
       match look
       case IsReady(w) => pc.Received? && pc.w == w && w in s.workers && s.workers[w].value == Ready
       case NotReady(w) => pc.Received? && pc.w == w && w in s.workers && s.workers[w].value != Ready
       case Unmarked(w) => pc.Checking? && pc.w == w && w !in s.marks
       case Marked(w) => pc.Checking? && pc.w == w && w in s.marks
       case Accepts(w) => pc.Allocated? && pc.w == w && Willing(s, t, w)
       case Refuses(w) => pc.Allocated? && pc.w == w && !Willing(s, t, w)
       case HasRoom(w) => pc.Releasing? && pc.w == w && !AtLimit(s, w)
       case StillUnmarked(w) => pc.ReleaseChecking? && pc.w == w && w !in s.marks
       case NotWanted(w) =>
         (pc.Releasing? && pc.w == w && AtLimit(s, w)) || (pc.ReleaseChecking? && pc.w == w && w in s.marks)
       case MadeInvalid(w) => pc.Invalidating? && pc.w == w && w in s'.workers && s'.workers[w].value == Invalid
       case DestroyClosed => pc.Looping? && s.destroyClosed
  }

  /** What a call must have seen to be where it is. */
  function Grounds(pc: CallPc): set<Look> {
    match pc
    case Dropping(_, w) => {NotReady(w)}
    case Checking(_, w) => {IsReady(w)}
    case Allocated(w) => {IsReady(w), Unmarked(w)}
    case Locked(w) => {IsReady(w), Unmarked(w), Accepts(w)}
    case Running(w) => {IsReady(w), Unmarked(w), Accepts(w)}
    case Ending(w, _) => {IsReady(w), Unmarked(w), Accepts(w)}
    case Registering(w, _) => {IsReady(w), Unmarked(w), Accepts(w)}
    case Releasing(w, _) => {IsReady(w), Unmarked(w), Accepts(w)}
    case ReleaseChecking(w, _) => {Accepts(w), HasRoom(w)}
    case Enqueueing(w, _) => {Accepts(w), HasRoom(w), StillUnmarked(w)}
    case Invalidating(w, a) => GroundsAfter(w, a)
    case Destroying(w, a) => GroundsAfter(w, a) + {MadeInvalid(w)}
    case Leaving(r) => GroundsOf(r)
    case Returned(r) => GroundsOf(r)
    case _ => {}
  }

  function GroundsAfter(w: WorkerId, a: After): set<Look> {
    match a
    case Continue(_) => {IsReady(w), Marked(w)}
    case Retry => {Accepts(w)}
    case Answer(r) =>
      if r == Failure(WorkerRefused) then {IsReady(w), Unmarked(w), Refuses(w)}
      else if r == Failure(WorkerBroken) then {Accepts(w)}
      else {Accepts(w), NotWanted(w)} + GroundsOf(r)
  }

  function GroundsOf(r: Result): set<Look> {
    if r == Failure(PoolStopped) then {DestroyClosed} else {}
  }

  // ---------------------------------------------------------------- one step

  /** The grounds after a step were there before, or are seen in it. */
  ghost predicate Founded(s: Pool, s': Pool, t: CallId) {
    && t in s'.calls
    && forall look :: look in Grounds(s'.calls[t].pc) ==>
         (t in s.calls && look in Grounds(s.calls[t].pc)) || Sees(s, s', t, look)
  }

  lemma SeekFounded(s: Pool, s': Pool, t: CallId, p: CallAct)
    requires CallStep(s, s', t, p)
    requires p.DoEnter? || p.DoAdmit? || p.DoLoadDead? || p.DoReceive? || p.DoLoadValue? || p.DoDropDead?
             || p.DoLoadMark? || p.DoLoopExit? || p.DoSeeStopped? || p.DoTimeOut?
    ensures Founded(s, s', t)
  {
  }

  lemma TryFounded(s: Pool, s': Pool, t: CallId, p: CallAct)
    requires CallStep(s, s', t, p) && (p.DoRefuseTask? || p.DoLockWorker? || p.DoSetWorking? || p.DoExchange?)
    ensures Founded(s, s', t)
  {
  }

  lemma EndFounded(s: Pool, s': Pool, t: CallId, p: CallAct)
    requires CallStep(s, s', t, p) && (p.DoSetEnd? || p.DoRegisterExec?)
    ensures Founded(s, s', t)
  {
  }

  lemma ReleaseFounded(s: Pool, s': Pool, t: CallId, p: CallAct)
    requires CallStep(s, s', t, p) && (p.DoCheckJobs? || p.DoCheckRemoved? || p.DoEnqueue? || p.DoTaskDone?)
    requires t in s.calls && Plain(s.calls[t].pc)
    ensures Founded(s, s', t) && Plain(s'.calls[t].pc)
  {
    if p.DoCheckJobs? {
      JobsFounded(s, s', t);
    } else if p.DoTaskDone? {
      DoneFounded(s, s', t);
    }
  }

  lemma JobsFounded(s: Pool, s': Pool, t: CallId)
    requires CheckJobs(s, s', t) && Plain(s.calls[t].pc)
    ensures Founded(s, s', t) && Plain(s'.calls[t].pc)
  {
  }

  lemma DoneFounded(s: Pool, s': Pool, t: CallId)
    requires TaskDone(s, s', t)
    ensures Founded(s, s', t) && Plain(s'.calls[t].pc)
  {
  }

  /** A result that is carried back with a worker is a response or a job error. */
  predicate Plain(pc: CallPc) {
    match pc
    case Releasing(_, r) => !r.Failure?
    case ReleaseChecking(_, r) => !r.Failure?
    case Enqueueing(_, r) => !r.Failure?
    case Invalidating(_, a) => a.Answer? && a.result.Failure? ==> a.result.reason in {WorkerRefused, WorkerBroken}
    case Destroying(_, a) => a.Answer? && a.result.Failure? ==> a.result.reason in {WorkerRefused, WorkerBroken}
    case _ => true
  }

  lemma DiscardFounded(s: Pool, s': Pool, t: CallId, p: CallAct)
    requires CallStep(s, s', t, p) && (p.DoInvalidate? || p.DoGoDestroy?)
    requires t in s.calls && Plain(s.calls[t].pc)
    ensures Founded(s, s', t) && Plain(s'.calls[t].pc)
  {
  }

  lemma MovesPlain(s: Pool, s': Pool, t: CallId, p: CallAct)
    requires CallStep(s, s', t, p) && (t in s.calls ==> Plain(s.calls[t].pc))
    requires !p.DoCheckJobs? && !p.DoCheckRemoved? && !p.DoEnqueue? && !p.DoTaskDone?
    requires !p.DoInvalidate? && !p.DoGoDestroy?
    ensures t in s'.calls && Plain(s'.calls[t].pc)
  {
    if OnWorker(p) {
      OnWorkerPlain(s, s', t, p);
    }
  }

  lemma OnWorkerPlain(s: Pool, s': Pool, t: CallId, p: CallAct)
    requires CallStep(s, s', t, p) && OnWorker(p) && !p.DoInvalidate? && !p.DoGoDestroy?
    ensures t in s'.calls && Plain(s'.calls[t].pc)
  {
  }

  lemma CallFounded(s: Pool, s': Pool, t: CallId, p: CallAct)
    requires CallStep(s, s', t, p) && (t in s.calls ==> Plain(s.calls[t].pc))
    ensures Founded(s, s', t) && Plain(s'.calls[t].pc)
  {
    if p.DoCheckJobs? || p.DoCheckRemoved? || p.DoEnqueue? || p.DoTaskDone? {
      ReleaseFounded(s, s', t, p);
    } else if p.DoInvalidate? || p.DoGoDestroy? {
      DiscardFounded(s, s', t, p);
    } else {
      MovesPlain(s, s', t, p);
      if p.DoRefuseTask? || p.DoLockWorker? || p.DoSetWorking? || p.DoExchange? {
        TryFounded(s, s', t, p);
      } else if p.DoSetEnd? || p.DoRegisterExec? {
        EndFounded(s, s', t, p);
      } else {
        SeekFounded(s, s', t, p);
      }
    }
  }

  // ---------------------------------------------------------------- over whole runs

  ghost predicate SeesAt(r: seq<Pool>, i: nat, t: CallId, look: Look) {
    i + 1 < |r| && Sees(r[i], r[i + 1], t, look)
  }

  /** Some time before state j, call t saw it. */
  ghost predicate HasSeen(r: seq<Pool>, j: nat, t: CallId, look: Look) {
    exists i: nat :: i < j && SeesAt(r, i, t, look)
  }

  lemma SeenMore(r: seq<Pool>, j: nat, t: CallId, look: Look)
    ensures HasSeen(r, j + 1, t, look) <==> HasSeen(r, j, t, look) || SeesAt(r, j, t, look)
  {
  }

  lemma StepFounded(s: Pool, s': Pool, t: CallId)
    requires Next(s, s') && t in s'.calls && (t in s.calls ==> Plain(s.calls[t].pc))
    ensures Founded(s, s', t) && Plain(s'.calls[t].pc)
  {
    var step :| Does(s, s', step);
    if step.OfCall? && step.t == t {
      CallFounded(s, s', t, step.call);
    } else {
      OthersWait(s, s', step, t);
    }
  }

  /** A call is where it is on the grounds of what it saw. */
  lemma {:induction false} ActsOnWhatItSaw(r: seq<Pool>, j: nat, t: CallId)
    requires Run(r) && j < |r| && t in r[j].calls
    ensures Plain(r[j].calls[t].pc)
    ensures forall look :: look in Grounds(r[j].calls[t].pc) ==> HasSeen(r, j, t, look)
  {
    if j > 0 {
      RunStep(r, j - 1);
      if t in r[j - 1].calls {
        ActsOnWhatItSaw(r, j - 1, t);
      }
      StepFounded(r[j - 1], r[j], t);
      forall look | look in Grounds(r[j].calls[t].pc)
        ensures HasSeen(r, j, t, look)
      {
        SeenMore(r, j - 1, t, look);
      }
    }
  }

  /** A task starts only on a worker that was ready and unmarked when the call looked at it, and ready again
      under its mutex, and only with a payload. */
  lemma StartsForCause(r: seq<Pool>, j: nat, t: CallId)
    requires Run(r) && j + 1 < |r| && SetWorking(r[j], r[j + 1], t)
    ensures var w := r[j].calls[t].pc.w;
            HasSeen(r, j, t, IsReady(w)) && HasSeen(r, j, t, Unmarked(w)) && HasSeen(r, j, t, Accepts(w))
  {
    ActsOnWhatItSaw(r, j, t);
  }

  /** A worker is dropped only if it was not ready, and given back only below the job limit and unmarked. */
  lemma KeptForCause(r: seq<Pool>, j: nat, t: CallId)
    requires Run(r) && j + 1 < |r|
    ensures DropDead(r[j], r[j + 1], t) ==> HasSeen(r, j, t, NotReady(r[j].calls[t].pc.w))
    ensures Enqueue(r[j], r[j + 1], t) ==>
              var w := r[j].calls[t].pc.w; HasSeen(r, j, t, HasRoom(w)) && HasSeen(r, j, t, StillUnmarked(w))
  {
    if t in r[j].calls {
      ActsOnWhatItSaw(r, j, t);
    }
  }

  /** A worker is discarded only for a cause: it was marked before its task, it refused it, its relay failed,
      it asked to be replaced, or after its task it was at the job limit or marked; and it was made invalid
      first. */
  lemma DiscardedForCause(r: seq<Pool>, j: nat, t: CallId)
    requires Run(r) && j + 1 < |r| && GoDestroy(r[j], r[j + 1], t)
    ensures HasSeen(r, j, t, MadeInvalid(r[j].calls[t].pc.w))
    ensures var Destroying(w, after) := r[j].calls[t].pc;
            match after
            case Continue(_) => HasSeen(r, j, t, Marked(w))
            case Retry => HasSeen(r, j, t, Accepts(w))
            case Answer(Failure(reason)) =>
              (reason == WorkerRefused && HasSeen(r, j, t, Refuses(w)))
              || (reason == WorkerBroken && HasSeen(r, j, t, Accepts(w)))
            case Answer(_) => HasSeen(r, j, t, NotWanted(w))
  {
    ActsOnWhatItSaw(r, j, t);
  }

  /** A call is told that the pool has been stopped only after Destroy has closed its channel. */
  lemma StoppedForCause(r: seq<Pool>, j: nat, t: CallId)
    requires Run(r) && j < |r| && t in r[j].calls && r[j].calls[t].pc == Returned(Failure(PoolStopped))
    ensures HasSeen(r, j, t, DestroyClosed)
  {
    ActsOnWhatItSaw(r, j, t);
  }
}
