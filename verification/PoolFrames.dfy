/**
 What each kind of step leaves alone.  The invariants are proved from these frames
 instead of from the whole step relation.
 */
module PoolFrames {
  import opened PoolModel

  ghost predicate SameWatches(s: Pool, s': Pool) {
    && s'.workers.Keys == s.workers.Keys
    && forall w :: w in s.workers ==> s'.workers[w].watch == s.workers[w].watch
  }

  /** A call changes its own record, the free channel, the counters and one worker, but no watcher. */
  ghost predicate CallTouches(s: Pool, s': Pool, t: CallId) {
    && t in s'.calls
    && s'.calls == s.calls[t := s'.calls[t]]
    && SameWatches(s, s')
    && s' == s.(calls := s'.calls, workers := s'.workers, free := s'.free, numDead := s'.numDead,
                dropped := s'.dropped, tasks := s'.tasks, admissions := s'.admissions)
  }

  /** The acts of a call that change a worker. */
  predicate OnWorker(p: CallAct) {
    p.DoLockWorker? || p.DoSetWorking? || p.DoSetEnd? || p.DoRegisterExec? || p.DoInvalidate? || p.DoGoDestroy?
  }

  /** The acts of a call that change one of the pool's counters or the free channel. */
  predicate OnPool(p: CallAct) {
    p.DoEnter? || p.DoAdmit? || p.DoReceive? || p.DoDropDead? || p.DoEnqueue? || p.DoTaskDone?
  }

  lemma CallOnPool(s: Pool, s': Pool, t: CallId, p: CallAct)
    requires CallStep(s, s', t, p) && OnPool(p)
    ensures CallTouches(s, s', t) && s'.workers == s.workers
    ensures s'.free == s.free || p.DoReceive? || p.DoEnqueue?
  {
  }

  /** The remaining acts only move the call. */
  lemma CallMoves(s: Pool, s': Pool, t: CallId, p: CallAct)
    requires CallStep(s, s', t, p) && !OnWorker(p) && !OnPool(p)
    ensures CallTouches(s, s', t) && s' == s.(calls := s'.calls)
  {
  }

  lemma CallOffWorker(s: Pool, s': Pool, t: CallId, p: CallAct)
    requires CallStep(s, s', t, p) && !OnWorker(p)
    ensures CallTouches(s, s', t) && s'.workers == s.workers
    ensures s'.free == s.free || p.DoReceive? || p.DoEnqueue?
  {
    if OnPool(p) {
      CallOnPool(s, s', t, p);
    } else {
      CallMoves(s, s', t, p);
    }
  }

  lemma CallOnWorker(s: Pool, s': Pool, t: CallId, p: CallAct)
    requires CallStep(s, s', t, p) && OnWorker(p)
    ensures CallTouches(s, s', t) && t in s.calls
    ensures s' == s.(workers := s'.workers, calls := s'.calls)
    ensures var w := s.calls[t].pc.w; w in s.workers && s'.workers == s.workers[w := s'.workers[w]]
  {
  }

  lemma CallFrame(s: Pool, s': Pool, t: CallId, p: CallAct)
    requires CallStep(s, s', t, p)
    ensures CallTouches(s, s', t)
    ensures s'.free == s.free || p.DoReceive? || p.DoEnqueue?
  {
    if OnWorker(p) {
      CallOnWorker(s, s', t, p);
    } else {
      CallOffWorker(s, s', t, p);
    }
  }

  /** A step on one worker changes that worker, but not its watcher, and may add a mark for it. */
  lemma WorkerFrame(s: Pool, s': Pool, w: WorkerId, p: WorkerAct)
    requires WorkerStep(s, s', w, p)
    ensures w in s.workers && w in s'.workers
    ensures s' == s.(workers := s.workers[w := s'.workers[w]], marks := s'.marks)
    ensures s'.workers[w].watch == s.workers[w].watch
    ensures s'.marks == if p.DoRemoveStores? then s.marks + {w} else s.marks
  {
  }

  lemma DestroyFrame(s: Pool, s': Pool, p: DestroyAct)
    requires DestroyStep(s, s', p)
    ensures SameWatches(s, s')
    ensures s' == s.(workers := s'.workers, destroyer := s'.destroyer, inDestroy := s'.inDestroy,
                     destroyClosed := s'.destroyClosed, tmu := s'.tmu)
  {
  }

  /** Only watchers and NewPool change watchers, the list and the builder. */
  lemma QuietFrame(s: Pool, s': Pool, step: Step)
    requires Does(s, s', step) && !step.OfWatcher? && !step.OfBuilder?
    ensures SameWatches(s, s')
    ensures s'.list == s.list && s'.builder == s.builder && s'.counted == s.counted
    ensures s'.marks >= s.marks && s'.numWorkers == s.numWorkers
  {
    match step
    case OfCall(t, p) => CallFrame(s, s', t, p);
    case OfWorker(w, p) => WorkerFrame(s, s', w, p);
    case OfDestroy(p) => DestroyFrame(s, s', p);
  }

  /** A watcher changes its own worker and, when it lists a replacement, that one. */
  lemma WatchFrame(s: Pool, s': Pool, w: WorkerId, p: WatchAct)
    requires WatchStep(s, s', w, p)
    ensures w in s.workers && w in s'.workers && s.workers.Keys <= s'.workers.Keys
    ensures s'.calls == s.calls && s'.builder == s.builder
    ensures forall v :: v in s.workers && v != w && s.workers[w].watch != HasSpawned(v)
                        ==> s'.workers[v] == s.workers[v]
    ensures forall v :: v in s'.workers && v !in s.workers ==> p == DoSpawnReplacement(v)
  {
  }

  /** No task starts or ends. */
  ghost predicate SameExecs(s: Pool, s': Pool) {
    && s'.calls == s.calls && s'.tasks == s.tasks && s'.admissions == s.admissions && s'.dropped == s.dropped
    && s'.maxJobs == s.maxJobs && s'.numWorkers == s.numWorkers
    && forall w :: w in s.workers ==>
         && w in s'.workers
         && s'.workers[w].starts == s.workers[w].starts && s'.workers[w].numExecs == s.workers[w].numExecs
  }

  lemma WatchExecs(s: Pool, s': Pool, w: WorkerId, p: WatchAct)
    requires WatchStep(s, s', w, p)
    ensures SameExecs(s, s')
  {
  }

  lemma WorkerExecs(s: Pool, s': Pool, w: WorkerId, p: WorkerAct)
    requires WorkerStep(s, s', w, p)
    ensures SameExecs(s, s')
  {
  }

  lemma BuildExecs(s: Pool, s': Pool, p: BuildAct)
    requires BuildStep(s, s', p)
    ensures SameExecs(s, s')
  {
  }

  lemma DestroyExecs(s: Pool, s': Pool, p: DestroyAct)
    requires DestroyStep(s, s', p)
    ensures SameExecs(s, s')
  {
  }

  /** Only calls start and end tasks. */
  lemma OtherExecs(s: Pool, s': Pool, step: Step)
    requires Does(s, s', step) && !step.OfCall?
    ensures SameExecs(s, s')
  {
    match step
    case OfWatcher(w, p) => WatchExecs(s, s', w, p);
    case OfWorker(w, p) => WorkerExecs(s, s', w, p);
    case OfBuilder(p) => BuildExecs(s, s', p);
    case OfDestroy(p) => DestroyExecs(s, s', p);
  }

  /** A call moves only in its own steps. */
  lemma OthersWait(s: Pool, s': Pool, step: Step, t: CallId)
    requires Does(s, s', step) && !(step.OfCall? && step.t == t)
    ensures t in s'.calls <==> t in s.calls
    ensures t in s.calls ==> s'.calls[t] == s.calls[t]
  {
    if step.OfCall? {
      CallFrame(s, s', step.t, step.call);
    } else {
      OtherExecs(s, s', step);
    }
  }

  lemma StepConfig(s: Pool, s': Pool)
    requires Next(s, s')
    ensures s'.maxJobs == s.maxJobs && s'.numWorkers == s.numWorkers
  {
    var step :| Does(s, s', step);
    if step.OfCall? {
      CallFrame(s, s', step.t, step.call);
    } else {
      OtherExecs(s, s', step);
    }
  }
}
