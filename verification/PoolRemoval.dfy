/**
 Removal marks: what `Remove` guarantees about later tasks, and why a worker whose
 `Wait` has returned can never run again whatever `Stop`, `Kill` and `markInvalid` do late.
 */
module PoolRemoval {
  import opened PoolModel
  import opened PoolFrames
  import opened PoolOwnership
  import opened PoolPopulation

  /** The call is inside `Worker.Exec`, between taking the mutex and giving it back. */
  predicate InExec(pc: CallPc) {
    pc.Locked? || pc.Running? || pc.Ending? || pc.Registering?
  }

  /** `Wait` has returned to the watcher. */
  predicate WaitOver(watch: Watch) {
    !watch.NotStarted? && !watch.Waiting? && !watch.Setting?
  }

  // ---------------------------------------------------------------- the mutex

  predicate WorkerLocks(r: Worker) {
    && (r.watch.Setting? ==> r.lock == ByWatcher && r.watch.final in {Stopped, Errored})
    && (r.watch.Setting? || WaitOver(r.watch) ==> r.exited)
    && (WaitOver(r.watch) ==> r.value !in {Ready, Working} && !r.lock.ByCall?)
  }

  ghost predicate Locks(s: Pool) {
    && (forall w :: w in s.workers ==> WorkerLocks(s.workers[w]))
    && (forall t :: t in s.calls && InExec(s.calls[t].pc) ==>
          s.calls[t].pc.w in s.workers && s.workers[s.calls[t].pc.w].lock == ByCall(t))
  }

  /** A worker step keeps the mutex with a call that has it. */
  lemma WorkerStepLocks(s: Pool, s': Pool, w: WorkerId, p: WorkerAct)
    requires Locks(s) && WorkerStep(s, s', w, p)
    ensures Locks(s')
  {
    WorkerFrame(s, s', w, p);
    assert WorkerLocks(s.workers[w]);
    assert s.workers[w].lock.ByCall? ==> s'.workers[w].lock == s.workers[w].lock;
  }

  /** Away from its worker a call neither enters nor leaves `Worker.Exec`. */
  lemma OffWorkerInExec(s: Pool, s': Pool, t: CallId, p: CallAct)
    requires CallStep(s, s', t, p) && !OnWorker(p)
    ensures t in s'.calls
    ensures InExec(s'.calls[t].pc) ==> t in s.calls && InExec(s.calls[t].pc) && s.calls[t].pc.w == s'.calls[t].pc.w
  {
    if OnPool(p) {
      OnPoolNotInExec(s, s', t, p);
    }
  }

  lemma OnPoolNotInExec(s: Pool, s': Pool, t: CallId, p: CallAct)
    requires CallStep(s, s', t, p) && OnPool(p)
    ensures t in s'.calls && !InExec(s'.calls[t].pc)
  {
  }

  lemma CallOffWorkerLocks(s: Pool, s': Pool, t: CallId, p: CallAct)
    requires Locks(s) && CallStep(s, s', t, p) && !OnWorker(p)
    ensures Locks(s')
  {
    CallOffWorker(s, s', t, p);
    OffWorkerInExec(s, s', t, p);
  }

  /** What a call does to the mutex of its worker. */
  lemma TouchedLocks(s: Pool, s': Pool, t: CallId, p: CallAct, r: Worker, r': Worker)
    requires CallStep(s, s', t, p) && OnWorker(p)
    requires t in s.calls && s.calls[t].pc.w in s.workers && r == s.workers[s.calls[t].pc.w]
    requires s.calls[t].pc.w in s'.workers && r' == s'.workers[s.calls[t].pc.w]
    requires WorkerLocks(r) && (InExec(s.calls[t].pc) ==> r.lock == ByCall(t))
    ensures WorkerLocks(r')
    ensures r'.lock == r.lock || r.lock in {Unlocked, ByCall(t)}
    ensures t in s'.calls
    ensures InExec(s'.calls[t].pc) ==> s'.calls[t].pc.w == s.calls[t].pc.w && r'.lock == ByCall(t)
  {
    if p.DoRegisterExec? {
      DispatchLeaves(s.calls[t].pc.w, s.calls[t].pc.outcome);
    } else if p.DoGoDestroy? {
      ResumeLeaves(s.calls[t].pc.after);
    }
  }

  lemma DispatchLeaves(w: WorkerId, o: Outcome)
    ensures !InExec(Dispatch(w, o))
  {
  }

  lemma ResumeLeaves(a: After)
    ensures !InExec(Resume(a))
  {
  }

  lemma CallOnWorkerLocks(s: Pool, s': Pool, t: CallId, p: CallAct)
    requires Locks(s) && CallStep(s, s', t, p) && OnWorker(p)
    ensures Locks(s')
  {
    CallOnWorker(s, s', t, p);
    var w := s.calls[t].pc.w;
    assert WorkerLocks(s.workers[w]);
    TouchedLocks(s, s', t, p, s.workers[w], s'.workers[w]);
    LocksFrame(s, s', t, w);
  }

  /** A change of one call and of its worker keeps the mutexes if it keeps theirs. */
  lemma LocksFrame(s: Pool, s': Pool, t: CallId, w: WorkerId)
    requires Locks(s) && w in s.workers && w in s'.workers && t in s'.calls
    requires s'.workers == s.workers[w := s'.workers[w]] && s'.calls == s.calls[t := s'.calls[t]]
    requires WorkerLocks(s'.workers[w])
    requires s'.workers[w].lock == s.workers[w].lock || s.workers[w].lock in {Unlocked, ByCall(t)}
    requires InExec(s'.calls[t].pc) ==> s'.calls[t].pc.w == w && s'.workers[w].lock == ByCall(t)
    ensures Locks(s')
  {
  }

  lemma WatchStepLocks(s: Pool, s': Pool, w: WorkerId, p: WatchAct)
    requires Locks(s) && WatchStep(s, s', w, p)
    ensures Locks(s')
  {
    forall v | v in s'.workers
      ensures WorkerLocks(s'.workers[v])
    {
      if v in s.workers {
        assert WorkerLocks(s.workers[v]);
      }
    }
    forall t | t in s'.calls && InExec(s'.calls[t].pc)
      ensures s'.calls[t].pc.w in s'.workers && s'.workers[s'.calls[t].pc.w].lock == ByCall(t)
    {
      assert WorkerLocks(s.workers[w]);
    }
  }

  lemma BuildStepLocks(s: Pool, s': Pool, p: BuildAct)
    requires Locks(s) && BuildStep(s, s', p)
    ensures Locks(s')
  {
  }

  lemma DestroyStepLocks(s: Pool, s': Pool, p: DestroyAct)
    requires Locks(s) && DestroyStep(s, s', p)
    ensures Locks(s')
  {
  }

  lemma StepLocks(s: Pool, s': Pool)
    requires Locks(s) && Next(s, s')
    ensures Locks(s')
  {
    var step :| Does(s, s', step);
    match step
    case OfCall(t, p) =>
      if OnWorker(p) {
        CallOnWorkerLocks(s, s', t, p);
      } else {
        CallOffWorkerLocks(s, s', t, p);
      }
    case OfWatcher(w, p) => WatchStepLocks(s, s', w, p);
    case OfWorker(w, p) => WorkerStepLocks(s, s', w, p);
    case OfBuilder(p) => BuildStepLocks(s, s', p);
    case OfDestroy(p) => DestroyStepLocks(s, s', p);
  }

  lemma {:induction false} AlwaysLocks(r: seq<Pool>, i: nat)
    requires Run(r) && i < |r|
    ensures Locks(r[i])
  {
    if i > 0 {
      AlwaysLocks(r, i - 1);
      RunStep(r, i - 1);
      StepLocks(r[i - 1], r[i]);
    }
  }

  // ---------------------------------------------------------------- after Wait

  lemma WatchWaitOver(s: Pool, s': Pool, x: WorkerId, p: WatchAct, w: WorkerId)
    requires WatchStep(s, s', x, p) && NewUnlisted(s)
    requires w in s.workers && WaitOver(s.workers[w].watch)
    ensures w in s'.workers && WaitOver(s'.workers[w].watch)
  {
    WatchFrame(s, s', x, p);
  }

  lemma BuildWaitOver(s: Pool, s': Pool, p: BuildAct, w: WorkerId)
    requires BuildStep(s, s', p) && NewUnlisted(s)
    requires w in s.workers && WaitOver(s.workers[w].watch)
    ensures w in s'.workers && WaitOver(s'.workers[w].watch)
  {
  }

  lemma WaitOverStep(s: Pool, s': Pool, w: WorkerId)
    requires Next(s, s') && NewUnlisted(s)
    requires w in s.workers && WaitOver(s.workers[w].watch)
    ensures w in s'.workers && WaitOver(s'.workers[w].watch)
  {
    var step :| Does(s, s', step);
    if step.OfWatcher? {
      WatchWaitOver(s, s', step.w, step.watch, w);
    } else if step.OfBuilder? {
      BuildWaitOver(s, s', step.build, w);
    } else {
      QuietFrame(s, s', step);
    }
  }

  /** Once Wait has returned for w, no later Stop, Kill, markInvalid or task makes w Ready or Working. */
  lemma {:induction false} NeverActiveAfterWait(r: seq<Pool>, i: nat, j: nat, w: WorkerId)
    requires Run(r) && i <= j < |r|
    requires w in r[i].workers && WaitOver(r[i].workers[w].watch)
    ensures w in r[j].workers && WaitOver(r[j].workers[w].watch)
    ensures r[j].workers[w].value !in {Ready, Working}
    decreases j
  {
    if i < j {
      NeverActiveAfterWait(r, i, j - 1, w);
      RunStep(r, j - 1);
      AlwaysNewUnlisted(r, j - 1);
      WaitOverStep(r[j - 1], r[j], w);
    }
    AlwaysLocks(r, j);
    assert WorkerLocks(r[j].workers[w]);
  }

  /** A removal mark disappears only in the detaching step of its own watcher, after Wait. */
  lemma MarkDeletedAfterWait(s: Pool, s': Pool, w: WorkerId)
    requires Next(s, s') && w in s.marks && w !in s'.marks
    ensures w in s.workers && s.workers[w].watch.Waited? && Detach(s, s', w)
  {
    var step :| Does(s, s', step);
    if step.OfWatcher? {
      WatchMarks(s, s', step.w, step.watch);
    } else if step.OfBuilder? {
      BuildMarks(s, s', step.build);
    } else {
      QuietFrame(s, s', step);
    }
  }

  lemma WatchMarks(s: Pool, s': Pool, x: WorkerId, p: WatchAct)
    requires WatchStep(s, s', x, p)
    ensures s'.marks == if p.DoDetach? && x in s.list then s.marks - {x} else s.marks
  {
  }

  lemma BuildMarks(s: Pool, s': Pool, p: BuildAct)
    requires BuildStep(s, s', p)
    ensures s'.marks == s.marks
  {
  }

  // ---------------------------------------------------------------- after a mark

  /** w is marked for removal, or its process has been waited for. */
  predicate Doomed(s: Pool, w: WorkerId) {
    w in s.workers && (w in s.marks || WaitOver(s.workers[w].watch))
  }

  /** Some call has passed its look at the removal map for w and not started its task yet. */
  predicate Committed(s: Pool, w: WorkerId, t: CallId) {
    && t in s.calls && w in s.workers
    && (s.calls[t].pc == Locked(w) || (s.calls[t].pc == Allocated(w) && !WaitOver(s.workers[w].watch)))
  }

  ghost function Pending(s: Pool, w: WorkerId): nat {
    if exists t :: Committed(s, w, t) then 1 else 0
  }

  lemma DoomedStep(s: Pool, s': Pool, w: WorkerId)
    requires Owned(s) && NewUnlisted(s) && Next(s, s') && Doomed(s, w)
    ensures Doomed(s', w)
  {
    if WaitOver(s.workers[w].watch) {
      WaitOverStep(s, s', w);
    } else {
      StepOwned(s, s');
      if w !in s'.marks {
        MarkDeletedAfterWait(s, s', w);
      }
    }
  }

  /** A committed call that starts its task uses its commitment up. */
  lemma StartSpends(s: Pool, s': Pool, t: CallId, w: WorkerId)
    requires Owned(s) && SetWorking(s, s', t) && s.calls[t].pc.w == w
    ensures s'.workers[w].starts == s.workers[w].starts + 1
    ensures Pending(s, w) == 1 && Pending(s', w) == 0
  {
    assert Committed(s, w, t) && Holds(s, Task(t), w);
    forall u | u in s'.calls
      ensures !Committed(s', w, u)
    {
      if u != t {
        assert !Holds(s, Task(u), w);
      }
    }
  }

  /** On a doomed worker no call becomes committed. */
  lemma CallNeverCommits(s: Pool, s': Pool, t: CallId, p: CallAct, w: WorkerId)
    requires Locks(s) && Doomed(s, w) && CallStep(s, s', t, p)
    requires Committed(s', w, t)
    ensures Committed(s, w, t)
  {
    CommitActs(s, s', t, p);
    assert WorkerLocks(s.workers[w]);
  }

  lemma CommitActs(s: Pool, s': Pool, t: CallId, p: CallAct)
    requires CallStep(s, s', t, p) && t in s'.calls
    ensures s'.calls[t].pc.Allocated? ==> p.DoLoadMark?
    ensures s'.calls[t].pc.Locked? ==> p.DoLockWorker?
  {
  }

  lemma CallPending(s: Pool, s': Pool, t: CallId, p: CallAct, w: WorkerId)
    requires Owned(s) && Locks(s) && Doomed(s, w) && CallStep(s, s', t, p)
    ensures w in s'.workers
    ensures s'.workers[w].starts + Pending(s', w) <= s.workers[w].starts + Pending(s, w)
  {
    CallFrame(s, s', t, p);
    if p.DoSetWorking? && s.calls[t].pc.w == w {
      StartSpends(s, s', t, w);
    } else {
      StartsKept(s, s', t, p, w);
      if u :| Committed(s', w, u) {
        if u == t {
          CallNeverCommits(s, s', t, p, w);
        }
        assert Committed(s, w, u);
      }
    }
  }

  lemma StartsKept(s: Pool, s': Pool, t: CallId, p: CallAct, w: WorkerId)
    requires CallStep(s, s', t, p) && w in s.workers
    requires p.DoSetWorking? ==> s.calls[t].pc.w != w
    ensures w in s'.workers && s'.workers[w].starts == s.workers[w].starts
  {
    if OnWorker(p) {
      CallOnWorker(s, s', t, p);
      if w == s.calls[t].pc.w {
        TouchedStarts(s, s', t, p);
      }
    } else {
      CallOffWorker(s, s', t, p);
    }
  }

  lemma TouchedStarts(s: Pool, s': Pool, t: CallId, p: CallAct)
    requires CallStep(s, s', t, p) && OnWorker(p) && !p.DoSetWorking?
    ensures var w := s.calls[t].pc.w;
            w in s.workers && w in s'.workers && s'.workers[w].starts == s.workers[w].starts
  {
  }

  lemma PendingStep(s: Pool, s': Pool, w: WorkerId)
    requires Owned(s) && Locks(s) && NewUnlisted(s) && Doomed(s, w) && Next(s, s')
    ensures w in s'.workers
    ensures s'.workers[w].starts + Pending(s', w) <= s.workers[w].starts + Pending(s, w)
  {
    var step :| Does(s, s', step);
    if step.OfCall? {
      CallPending(s, s', step.t, step.call, w);
    } else {
      OtherExecs(s, s', step);
      if u :| Committed(s', w, u) {
        if WaitOver(s.workers[w].watch) {
          WaitOverStep(s, s', w);
        }
        assert Committed(s, w, u);
      }
    }
  }

  lemma {:induction false} DoomedRun(r: seq<Pool>, i: nat, j: nat, w: WorkerId)
    requires Run(r) && i <= j < |r| && Doomed(r[i], w)
    ensures Doomed(r[j], w)
    ensures r[j].workers[w].starts + Pending(r[j], w) <= r[i].workers[w].starts + Pending(r[i], w)
    decreases j
  {
    if i < j {
      DoomedRun(r, i, j - 1, w);
      RunStep(r, j - 1);
      AlwaysOwned(r, j - 1);
      AlwaysLocks(r, j - 1);
      AlwaysNewUnlisted(r, j - 1);
      DoomedStep(r[j - 1], r[j], w);
      PendingStep(r[j - 1], r[j], w);
    }
  }

  /** Once a removal mark for w is stored, at most one more task ever starts on w, and none starts
      unless a call had already passed its look at the removal map with w in hand. */
  lemma AtMostOneTaskAfterMark(r: seq<Pool>, i: nat, j: nat, w: WorkerId)
    requires Run(r) && i <= j < |r| && w in r[i].workers && w in r[i].marks
    ensures w in r[j].workers
    ensures r[j].workers[w].starts <= r[i].workers[w].starts + 1
    ensures (forall t :: !Committed(r[i], w, t)) ==> r[j].workers[w].starts == r[i].workers[w].starts
  {
    DoomedRun(r, i, j, w);
    StartsGrow(r, i, j, w);
  }

  lemma {:induction false} StartsGrow(r: seq<Pool>, i: nat, j: nat, w: WorkerId)
    requires Run(r) && i <= j < |r| && w in r[i].workers
    ensures w in r[j].workers && r[i].workers[w].starts <= r[j].workers[w].starts
    decreases j
  {
    if i < j {
      StartsGrow(r, i, j - 1, w);
      RunStep(r, j - 1);
      StartsGrowStep(r[j - 1], r[j], w);
    }
  }

  lemma StartsGrowStep(s: Pool, s': Pool, w: WorkerId)
    requires Next(s, s') && w in s.workers
    ensures w in s'.workers && s.workers[w].starts <= s'.workers[w].starts
  {
    var step :| Does(s, s', step);
    if !step.OfCall? {
      OtherExecs(s, s', step);
    } else if !step.call.DoSetWorking? {
      StartsKept(s, s', step.t, step.call, w);
    }
  }
}
