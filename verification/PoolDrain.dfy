/**
 `Destroy` drains: it waits for the admitted tasks before it touches a worker.
 */
module PoolDrain {
  import opened Basics
  import opened PoolModel
  import opened PoolFrames
  import opened PoolOwnership

  /** A call that owes no tasks.Done has not been admitted or has returned. */
  predicate Settled(c: Call) {
    if c.depth == 0 then c.pc.Entering? || c.pc.Returned? else !c.pc.Returned?
  }

  /** The wait group counts exactly the admissions that calls still owe. */
  ghost predicate Admissions(s: Pool) {
    && s.tasks == |s.admissions|
    && (forall t, k: nat :: (t, k) in s.admissions <==> t in s.calls && k < s.calls[t].depth)
    && (forall t :: t in s.calls ==> Settled(s.calls[t]))
  }

  ghost predicate Draining(s: Pool) {
    && Admissions(s)
    && (s.destroyClosed <==> s.destroyer.Closed? || s.destroyer.Marking? || s.destroyer.Going?)
    && (s.tmu <==> s.destroyer.Draining?)
    && (s.destroyClosed ==> forall t :: t in s.calls && s.calls[t].depth > 0 ==> !s.calls[t].early)
  }

  lemma AdmitDrains(s: Pool, s': Pool, t: CallId)
    requires Draining(s) && Admit(s, s', t)
    ensures Draining(s')
  {
    assert (t, s.calls[t].depth) !in s.admissions;
  }

  lemma DoneDrains(s: Pool, s': Pool, t: CallId)
    requires Draining(s) && TaskDone(s, s', t)
    ensures Draining(s')
  {
    assert (t, s.calls[t].depth - 1) in s.admissions;
  }

  ghost predicate SameDepth(s: Pool, s': Pool, t: CallId) {
    && s'.tasks == s.tasks && s'.admissions == s.admissions
    && t in s'.calls && Settled(s'.calls[t])
    && s'.calls[t].depth == (if t in s.calls then s.calls[t].depth else 0)
    && (t in s.calls ==> s'.calls[t].early == s.calls[t].early)
  }

  lemma OnWorkerKeepsDepth(s: Pool, s': Pool, t: CallId, p: CallAct)
    requires CallStep(s, s', t, p) && OnWorker(p) && (t in s.calls ==> Settled(s.calls[t]))
    ensures SameDepth(s, s', t)
  {
  }

  lemma OffWorkerKeepsDepth(s: Pool, s': Pool, t: CallId, p: CallAct)
    requires CallStep(s, s', t, p) && !OnWorker(p) && !p.DoAdmit? && !p.DoTaskDone?
    requires t in s.calls ==> Settled(s.calls[t])
    ensures SameDepth(s, s', t)
  {
  }

  lemma CallDrains(s: Pool, s': Pool, t: CallId, p: CallAct)
    requires Draining(s) && CallStep(s, s', t, p)
    ensures Draining(s')
  {
    if p.DoAdmit? {
      AdmitDrains(s, s', t);
    } else if p.DoTaskDone? {
      DoneDrains(s, s', t);
    } else {
      CallFrame(s, s', t, p);
      if OnWorker(p) {
        OnWorkerKeepsDepth(s, s', t, p);
      } else {
        OffWorkerKeepsDepth(s, s', t, p);
      }
      SameDepthDrains(s, s', t);
    }
  }

  lemma SameDepthDrains(s: Pool, s': Pool, t: CallId)
    requires Draining(s) && CallTouches(s, s', t) && SameDepth(s, s', t)
    ensures Draining(s')
  {
  }

  /** With no admission outstanding every call is out. */
  lemma EmptyGroup(s: Pool, t: CallId)
    requires Admissions(s) && s.tasks == 0 && t in s.calls
    ensures s.calls[t].depth == 0
  {
    assert (t, 0) !in s.admissions;
  }

  lemma DestroyDrains(s: Pool, s': Pool, p: DestroyAct)
    requires Draining(s) && DestroyStep(s, s', p)
    ensures Draining(s')
  {
    DestroyFrame(s, s', p);
    if p.DoCloseDestroy? {
      forall t | t in s.calls
        ensures s.calls[t].depth == 0
      {
        EmptyGroup(s, t);
      }
    }
  }

  lemma OtherDrains(s: Pool, s': Pool, step: Step)
    requires Draining(s) && Does(s, s', step) && !step.OfCall? && !step.OfDestroy?
    ensures Draining(s')
  {
    OtherExecs(s, s', step);
    OtherKeepsDestroy(s, s', step);
  }

  lemma OtherKeepsDestroy(s: Pool, s': Pool, step: Step)
    requires Does(s, s', step) && !step.OfCall? && !step.OfDestroy?
    ensures SameDestroy(s, s')
  {
    match step
    case OfWatcher(w, p) => WatchKeepsDestroy(s, s', w, p);
    case OfWorker(w, p) => WorkerFrame(s, s', w, p);
    case OfBuilder(p) => BuildKeepsDestroy(s, s', p);
  }

  predicate SameDestroy(s: Pool, s': Pool) {
    s'.destroyer == s.destroyer && s'.destroyClosed == s.destroyClosed && s'.tmu == s.tmu
  }

  lemma WatchKeepsDestroy(s: Pool, s': Pool, w: WorkerId, p: WatchAct)
    requires WatchStep(s, s', w, p)
    ensures SameDestroy(s, s')
  {
  }

  lemma BuildKeepsDestroy(s: Pool, s': Pool, p: BuildAct)
    requires BuildStep(s, s', p)
    ensures SameDestroy(s, s')
  {
  }

  lemma StepDrains(s: Pool, s': Pool)
    requires Draining(s) && Next(s, s')
    ensures Draining(s')
  {
    var step :| Does(s, s', step);
    if step.OfCall? {
      CallDrains(s, s', step.t, step.call);
    } else if step.OfDestroy? {
      DestroyDrains(s, s', step.destroy);
    } else {
      OtherDrains(s, s', step);
    }
  }

  lemma {:induction false} AlwaysDraining(r: seq<Pool>, i: nat)
    requires Run(r) && i < |r|
    ensures Draining(r[i])
  {
    if i > 0 {
      AlwaysDraining(r, i - 1);
      RunStep(r, i - 1);
      StepDrains(r[i - 1], r[i]);
    }
  }

  /** When Destroy closes its channel, no call owes an admission: each was never admitted or has returned,
      and none is waiting to try again after a stop request. */
  lemma ClosedOnlyWhenDrained(r: seq<Pool>, i: nat)
    requires Run(r) && i + 1 < |r| && CloseDestroy(r[i], r[i + 1])
    ensures forall t :: t in r[i].calls ==>
              r[i].calls[t].depth == 0 && (r[i].calls[t].pc.Entering? || r[i].calls[t].pc.Returned?)
  {
    AlwaysDraining(r, i);
    forall t | t in r[i].calls
      ensures r[i].calls[t].depth == 0 && (r[i].calls[t].pc.Entering? || r[i].calls[t].pc.Returned?)
    {
      EmptyGroup(r[i], t);
    }
  }

  /** Destroy never marks or stops a worker that a call admitted before the closing still holds. */
  lemma DestroySparesAdmittedTasks(r: seq<Pool>, i: nat, t: CallId, w: WorkerId)
    requires Run(r) && i + 1 < |r|
    requires MarkNext(r[i], r[i + 1]) || GoNext(r[i], r[i + 1])
    requires t in r[i].calls && Held(r[i].calls[t].pc) == Some(w)
    ensures !r[i].calls[t].early
  {
    AlwaysDraining(r, i);
    assert Settled(r[i].calls[t]);
  }

  /** Nobody is admitted while Destroy waits, and it starts waiting only once. */
  lemma DrainingStep(s: Pool, s': Pool)
    requires Draining(s) && Next(s, s') && s'.destroyer.Draining?
    ensures s.destroyer.Draining? ==> s'.tasks <= s.tasks
    ensures s.destroyer.Draining? || s.destroyer.Flagged?
  {
    var step :| Does(s, s', step);
    match step
    case OfCall(t, p) =>
      CallFrame(s, s', t, p);
      TasksInCall(s, s', t, p);
    case OfDestroy(p) => DestroyFrame(s, s', p);
    case _ =>
      OtherExecs(s, s', step);
      OtherKeepsDestroy(s, s', step);
  }

  lemma TasksInCall(s: Pool, s': Pool, t: CallId, p: CallAct)
    requires CallStep(s, s', t, p) && s.tmu
    ensures s'.tasks <= s.tasks
  {
    if OnWorker(p) {
      CallOnWorker(s, s', t, p);
    } else if !OnPool(p) {
      CallMoves(s, s', t, p);
    }
  }

  lemma FlaggedBefore(s: Pool, s': Pool)
    requires Next(s, s') && s'.destroyer.Flagged?
    ensures s.destroyer.Flagged? || s.destroyer.Off?
  {
    var step :| Does(s, s', step);
    match step
    case OfCall(t, p) => CallFrame(s, s', t, p);
    case OfDestroy(p) =>
    case _ => OtherKeepsDestroy(s, s', step);
  }

  lemma {:induction false} NotYetDraining(r: seq<Pool>, i: nat, j: nat)
    requires Run(r) && i <= j < |r| && (r[j].destroyer.Flagged? || r[j].destroyer.Off?)
    ensures !r[i].destroyer.Draining?
    decreases j
  {
    if i < j {
      RunStep(r, j - 1);
      OffBefore(r[j - 1], r[j]);
      NotYetDraining(r, i, j - 1);
    }
  }

  lemma OffBefore(s: Pool, s': Pool)
    requires Next(s, s') && (s'.destroyer.Flagged? || s'.destroyer.Off?)
    ensures s.destroyer.Flagged? || s.destroyer.Off?
  {
    if s'.destroyer.Flagged? {
      FlaggedBefore(s, s');
    } else {
      var step :| Does(s, s', step);
      match step
      case OfCall(t, p) => CallFrame(s, s', t, p);
      case OfDestroy(p) =>
      case _ => OtherKeepsDestroy(s, s', step);
    }
  }

  /** From the moment Destroy waits for the tasks until it is through with that, no call is admitted: the
      number of tasks only falls. */
  lemma {:induction false} NoAdmissionWhileDraining(r: seq<Pool>, i: nat, j: nat)
    requires Run(r) && i <= j < |r| && r[i].destroyer.Draining? && r[j].destroyer.Draining?
    ensures r[j].tasks <= r[i].tasks
    decreases j
  {
    if i < j {
      RunStep(r, j - 1);
      AlwaysDraining(r, j - 1);
      DrainingStep(r[j - 1], r[j]);
      if r[j - 1].destroyer.Draining? {
        NoAdmissionWhileDraining(r, i, j - 1);
      } else {
        NotYetDraining(r, i, j - 1);
      }
    }
  }
}
