/**
 `MaxJobs`: the pool never lets a worker run more tasks than its limit.
 */
module PoolJobs {
  import opened PoolModel
  import opened PoolFrames
  import opened PoolOwnership
  import opened PoolRemoval

  /** Holders that may still run a task on their worker or pass it on. */
  predicate MayPassOn(s: Pool, h: Holder) {
    h.Task? ==> h.call in s.calls && var pc := s.calls[h.call].pc;
      !pc.Releasing? && !pc.Invalidating? && !pc.Destroying?
  }

  ghost predicate Limited(s: Pool) {
    && (forall w :: w in s.workers ==> s.workers[w].numExecs <= s.maxJobs)
    && (forall h, w :: Holds(s, h, w) && MayPassOn(s, h) ==> w in s.workers && s.workers[w].numExecs < s.maxJobs)
  }

  /** Where a holder of s' had its worker in s. */
  ghost predicate ComesFrom(s: Pool, s': Pool) {
    forall h, w :: Holds(s', h, w) && MayPassOn(s', h) ==>
      if w in s.workers then exists k :: Holds(s, k, w) && MayPassOn(s, k)
      else w in s'.workers && s'.workers[w].numExecs == 0
  }

  ghost predicate ExecsKept(s: Pool, s': Pool) {
    && s'.maxJobs == s.maxJobs
    && forall w :: w in s'.workers ==>
         s'.workers[w].numExecs == if w in s.workers then s.workers[w].numExecs else 0
  }

  lemma KeepsLimit(s: Pool, s': Pool)
    requires s.maxJobs >= 1 && Limited(s) && ComesFrom(s, s') && ExecsKept(s, s')
    requires HeldExist(s')
    ensures Limited(s')
  {
  }

  lemma RegisterLimited(s: Pool, s': Pool, t: CallId)
    requires Owned(s) && Limited(s) && RegisterExec(s, s', t)
    ensures Limited(s')
  {
    var w := s.calls[t].pc.w;
    assert Holds(s, Task(t), w) && MayPassOn(s, Task(t));
    assert !MayPassOn(s', Task(t));
    QuietCall(s, s', t, DoRegisterExec);
    forall h, v | Holds(s', h, v) && MayPassOn(s', h)
      ensures v in s'.workers && s'.workers[v].numExecs < s'.maxJobs
    {
      assert Holds(s, h, v) && h != Task(t) && MayPassOn(s, h);
      assert v != w;
    }
  }

  lemma CheckJobsLimited(s: Pool, s': Pool, t: CallId)
    requires Owned(s) && Limited(s) && s.maxJobs >= 1 && CheckJobs(s, s', t)
    ensures Limited(s')
  {
    QuietCall(s, s', t, DoCheckJobs);
    forall h, v | Holds(s', h, v) && MayPassOn(s', h)
      ensures v in s'.workers && s'.workers[v].numExecs < s'.maxJobs
    {
      assert h != Task(t) ==> Holds(s, h, v) && MayPassOn(s, h);
    }
  }

  lemma ReceiveLimited(s: Pool, s': Pool, t: CallId)
    requires Limited(s) && Receive(s, s', t)
    ensures Limited(s')
  {
    forall h, w | Holds(s', h, w) && MayPassOn(s', h)
      ensures w in s'.workers && s'.workers[w].numExecs < s'.maxJobs
    {
      var k := if h.Slot? then Slot(h.index + 1) else if h == Task(t) then Slot(0) else h;
      assert Holds(s, k, w) && MayPassOn(s, k);
    }
  }

  lemma EnqueueLimited(s: Pool, s': Pool, t: CallId)
    requires Limited(s) && Enqueue(s, s', t)
    ensures Limited(s')
  {
    forall h, w | Holds(s', h, w) && MayPassOn(s', h)
      ensures w in s'.workers && s'.workers[w].numExecs < s'.maxJobs
    {
      var k := if h == Slot(|s.free|) then Task(t) else h;
      assert Holds(s, k, w) && MayPassOn(s, k);
    }
  }

  lemma CallKeepsExecs(s: Pool, s': Pool, t: CallId, p: CallAct)
    requires CallStep(s, s', t, p) && !p.DoRegisterExec?
    ensures ExecsKept(s, s')
  {
  }

  /** The other acts of a call take it nowhere nearer to passing its worker on. */
  lemma CallComesFrom(s: Pool, s': Pool, t: CallId, p: CallAct)
    requires CallStep(s, s', t, p) && !p.DoCheckJobs? && !p.DoReceive? && !p.DoEnqueue?
    requires Held(s'.calls[t].pc).Some? && MayPassOn(s', Task(t))
    ensures t in s.calls && MayPassOn(s, Task(t))
  {
  }

  lemma QuietLimited(s: Pool, s': Pool, t: CallId, p: CallAct)
    requires s.maxJobs >= 1 && Owned(s) && Limited(s) && CallStep(s, s', t, p)
    requires !p.DoRegisterExec? && !p.DoCheckJobs? && !p.DoReceive? && !p.DoEnqueue?
    ensures Limited(s')
  {
    CallFrame(s, s', t, p);
    QuietCall(s, s', t, p);
    CallKeepsExecs(s, s', t, p);
    forall h, w | Holds(s', h, w) && MayPassOn(s', h)
      ensures Holds(s, h, w) && MayPassOn(s, h)
    {
      if h == Task(t) {
        CallComesFrom(s, s', t, p);
      }
    }
    KeepsLimit(s, s');
  }

  lemma CallLimited(s: Pool, s': Pool, t: CallId, p: CallAct)
    requires s.maxJobs >= 1 && Owned(s) && Limited(s) && CallStep(s, s', t, p)
    ensures Limited(s')
  {
    if p.DoRegisterExec? {
      RegisterLimited(s, s', t);
    } else if p.DoCheckJobs? {
      CheckJobsLimited(s, s', t);
    } else if p.DoReceive? {
      ReceiveLimited(s, s', t);
    } else if p.DoEnqueue? {
      EnqueueLimited(s, s', t);
    } else {
      QuietLimited(s, s', t, p);
    }
  }

  lemma WatchLimited(s: Pool, s': Pool, w: WorkerId, p: WatchAct)
    requires s.maxJobs >= 1 && Limited(s) && WatchStep(s, s', w, p)
    ensures Limited(s')
  {
    WatchExecs(s, s', w, p);
    WatchFrame(s, s', w, p);
    forall h, v | Holds(s', h, v) && MayPassOn(s', h)
      ensures v in s'.workers && s'.workers[v].numExecs < s'.maxJobs
    {
      WatchHolds(s, s', w, p, h, v);
    }
  }

  /** Where a holder after a watcher's step had its worker before it. */
  lemma WatchHolds(s: Pool, s': Pool, w: WorkerId, p: WatchAct, h: Holder, v: WorkerId)
    requires WatchStep(s, s', w, p) && Holds(s', h, v) && MayPassOn(s', h)
    ensures if p.DoSpawnReplacement? && h == Watcher(w) then v in s'.workers && s'.workers[v].numExecs == 0
            else exists k :: Holds(s, k, v) && MayPassOn(s, k)
  {
    var k := if p.DoEnqueueReplacement? && h == Slot(|s.free|) then Watcher(w) else h;
    assert (p.DoSpawnReplacement? && h == Watcher(w)) || (Holds(s, k, v) && MayPassOn(s, k));
  }

  lemma BuildLimited(s: Pool, s': Pool, p: BuildAct)
    requires s.maxJobs >= 1 && Limited(s) && BuildStep(s, s', p)
    ensures Limited(s')
  {
    BuildExecs(s, s', p);
    forall h, v | Holds(s', h, v) && MayPassOn(s', h)
      ensures v in s'.workers && s'.workers[v].numExecs < s'.maxJobs
    {
      var k := if p.DoBuildEnqueue? && h == Slot(|s.free|) then NewPool else h;
      assert (p.DoBuildSpawn? && h == NewPool) || (Holds(s, k, v) && MayPassOn(s, k));
    }
  }

  lemma WorkerLimited(s: Pool, s': Pool, w: WorkerId, p: WorkerAct)
    requires Limited(s) && WorkerStep(s, s', w, p)
    ensures Limited(s')
  {
    QuietWorker(s, s', w, p);
    WorkerExecs(s, s', w, p);
    WorkerFrame(s, s', w, p);
  }

  lemma DestroyLimited(s: Pool, s': Pool, p: DestroyAct)
    requires Limited(s) && DestroyStep(s, s', p)
    ensures Limited(s')
  {
    QuietDestroy(s, s', p);
    DestroyExecs(s, s', p);
    DestroyFrame(s, s', p);
  }

  lemma StepLimited(s: Pool, s': Pool)
    requires s.maxJobs >= 1 && Owned(s) && Limited(s) && Next(s, s')
    ensures Limited(s')
  {
    var step :| Does(s, s', step);
    match step
    case OfCall(t, p) => CallLimited(s, s', t, p);
    case OfWatcher(w, p) => WatchLimited(s, s', w, p);
    case OfWorker(w, p) => WorkerLimited(s, s', w, p);
    case OfBuilder(p) => BuildLimited(s, s', p);
    case OfDestroy(p) => DestroyLimited(s, s', p);
  }

  lemma {:induction false} AlwaysLimited(r: seq<Pool>, i: nat)
    requires Run(r) && i < |r| && r[0].maxJobs >= 1
    ensures r[i].maxJobs == r[0].maxJobs
    ensures Limited(r[i])
  {
    if i > 0 {
      AlwaysLimited(r, i - 1);
      AlwaysOwned(r, i - 1);
      RunStep(r, i - 1);
      StepConfig(r[i - 1], r[i]);
      StepLimited(r[i - 1], r[i]);
    }
  }

  // ---------------------------------------------------------------- executions are tasks

  /** The worker that has the mutex held by a call is the one that call is executing on, and a
      started task is either registered or under way. */
  predicate Tallied(s: Pool, w: WorkerId)
    requires w in s.workers
  {
    var r := s.workers[w];
    if r.lock.ByCall? then
      && r.lock.call in s.calls
      && InExec(s.calls[r.lock.call].pc) && s.calls[r.lock.call].pc.w == w
      && r.starts == r.numExecs + if s.calls[r.lock.call].pc.Locked? then 0 else 1
    else
      r.starts == r.numExecs
  }

  ghost predicate Tally(s: Pool) {
    forall w :: w in s.workers ==> Tallied(s, w)
  }

  lemma CallOnWorkerTally(s: Pool, s': Pool, t: CallId, p: CallAct, v: WorkerId)
    requires Tally(s) && Locks(s) && CallStep(s, s', t, p) && OnWorker(p) && v in s.workers
    ensures v in s'.workers && Tallied(s', v)
  {
    CallOnWorker(s, s', t, p);
    assert Tallied(s, v) && Tallied(s, s.calls[t].pc.w);
    if v == s.calls[t].pc.w {
      TouchedTally(s, s', t, p);
    }
  }

  lemma TouchedTally(s: Pool, s': Pool, t: CallId, p: CallAct)
    requires CallStep(s, s', t, p) && OnWorker(p) && s.calls[t].pc.w in s.workers && Tallied(s, s.calls[t].pc.w)
    requires InExec(s.calls[t].pc) ==> s.workers[s.calls[t].pc.w].lock == ByCall(t)
    ensures s.calls[t].pc.w in s'.workers && Tallied(s', s.calls[t].pc.w)
  {
    if p.DoRegisterExec? {
      RegisterTally(s, s', t);
    } else if p.DoInvalidate? || p.DoGoDestroy? {
      GivingUpTally(s, s', t, p);
    }
  }

  lemma RegisterTally(s: Pool, s': Pool, t: CallId)
    requires RegisterExec(s, s', t) && Tallied(s, s.calls[t].pc.w) && s.workers[s.calls[t].pc.w].lock == ByCall(t)
    ensures s.calls[t].pc.w in s'.workers && Tallied(s', s.calls[t].pc.w)
  {
  }

  lemma GivingUpTally(s: Pool, s': Pool, t: CallId, p: CallAct)
    requires CallStep(s, s', t, p) && (p.DoInvalidate? || p.DoGoDestroy?)
    requires s.calls[t].pc.w in s.workers && Tallied(s, s.calls[t].pc.w)
    ensures s.calls[t].pc.w in s'.workers && Tallied(s', s.calls[t].pc.w)
  {
  }

  lemma CallOffWorkerTally(s: Pool, s': Pool, t: CallId, p: CallAct, v: WorkerId)
    requires Tally(s) && CallStep(s, s', t, p) && !OnWorker(p) && v in s.workers
    ensures v in s'.workers && Tallied(s', v)
  {
    CallOffWorker(s, s', t, p);
    assert Tallied(s, v);
  }

  lemma WatchTally(s: Pool, s': Pool, w: WorkerId, p: WatchAct, v: WorkerId)
    requires Tally(s) && Locks(s) && WatchStep(s, s', w, p) && v in s'.workers
    ensures Tallied(s', v)
  {
    WatchFrame(s, s', w, p);
    if v in s.workers {
      assert Tallied(s, v);
      WatchExecs(s, s', w, p);
      WatchKeepsCallLock(s, s', w, p, v);
    }
  }

  lemma WatchKeepsCallLock(s: Pool, s': Pool, w: WorkerId, p: WatchAct, v: WorkerId)
    requires Locks(s) && WatchStep(s, s', w, p) && v in s.workers
    ensures v in s'.workers
    ensures s'.workers[v].lock == s.workers[v].lock || (!s'.workers[v].lock.ByCall? && !s.workers[v].lock.ByCall?)
  {
    assert WorkerLocks(s.workers[v]);
  }

  lemma WorkerTally(s: Pool, s': Pool, w: WorkerId, p: WorkerAct, v: WorkerId)
    requires Tally(s) && WorkerStep(s, s', w, p) && v in s'.workers
    ensures Tallied(s', v)
  {
    WorkerFrame(s, s', w, p);
    assert Tallied(s, v);
  }

  lemma BuildTally(s: Pool, s': Pool, p: BuildAct, v: WorkerId)
    requires Tally(s) && BuildStep(s, s', p) && v in s'.workers
    ensures Tallied(s', v)
  {
    if v in s.workers {
      assert Tallied(s, v);
    }
  }

  lemma DestroyTally(s: Pool, s': Pool, p: DestroyAct, v: WorkerId)
    requires Tally(s) && DestroyStep(s, s', p) && v in s'.workers
    ensures Tallied(s', v)
  {
    assert v in s.workers && Tallied(s, v);
  }

  lemma StepTally(s: Pool, s': Pool)
    requires Tally(s) && Locks(s) && Next(s, s')
    ensures Tally(s')
  {
    var step :| Does(s, s', step);
    forall v | v in s'.workers
      ensures Tallied(s', v)
    {
      match step
      case OfCall(t, p) =>
        CallFrame(s, s', t, p);
        if OnWorker(p) {
          CallOnWorkerTally(s, s', t, p, v);
        } else {
          CallOffWorkerTally(s, s', t, p, v);
        }
      case OfWatcher(w, p) => WatchTally(s, s', w, p, v);
      case OfWorker(w, p) => WorkerTally(s, s', w, p, v);
      case OfBuilder(p) => BuildTally(s, s', p, v);
      case OfDestroy(p) => DestroyTally(s, s', p, v);
    }
  }

  lemma {:induction false} AlwaysTally(r: seq<Pool>, i: nat)
    requires Run(r) && i < |r|
    ensures Tally(r[i])
  {
    if i > 0 {
      AlwaysTally(r, i - 1);
      AlwaysLocks(r, i - 1);
      RunStep(r, i - 1);
      StepTally(r[i - 1], r[i]);
    }
  }

  /** With a job limit of at least one, a worker in the free channel is below the limit, no count
      ever exceeds it, and no more tasks than the limit are ever started on one worker, whatever the
      tasks end in. */
  lemma JobLimitHolds(r: seq<Pool>, i: nat)
    requires Run(r) && i < |r| && r[0].maxJobs >= 1
    ensures forall w :: w in r[i].workers ==>
              r[i].workers[w].numExecs <= r[0].maxJobs && r[i].workers[w].starts <= r[0].maxJobs
    ensures forall w :: w in r[i].free ==> w in r[i].workers && r[i].workers[w].numExecs < r[0].maxJobs
  {
    AlwaysLimited(r, i);
    AlwaysTally(r, i);
    var s := r[i];
    forall w | w in s.workers
      ensures s.workers[w].starts <= s.maxJobs
    {
      assert Tallied(s, w);
      if s.workers[w].lock.ByCall? {
        assert Holds(s, Task(s.workers[w].lock.call), w) && MayPassOn(s, Task(s.workers[w].lock.call));
      }
    }
    forall w | w in s.free
      ensures w in s.workers && s.workers[w].numExecs < s.maxJobs
    {
      var k :| 0 <= k < |s.free| && s.free[k] == w;
      assert Holds(s, Slot(k), w) && MayPassOn(s, Slot(k));
    }
  }
}
