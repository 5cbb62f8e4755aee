/**
 `Stop`: a worker that it has got hold of never runs a task again, and no call of it is lost.
 */
module PoolStops {
  import opened PoolModel
  import opened PoolFrames
  import opened PoolOwnership
  import opened PoolRemoval
  import opened PoolStates

  // ---------------------------------------------------------------- Stop is final

  /** A Stop has had the mutex of w: it still has it, or the process has exited. */
  predicate Ceased(s: Pool, w: WorkerId) {
    && w in s.workers
    && s.workers[w].value !in {Ready, Working}
    && (s.workers[w].lock.ByStop? || (s.workers[w].exited && !s.workers[w].lock.ByCall?))
  }

  lemma CallCeased(s: Pool, s': Pool, t: CallId, p: CallAct, w: WorkerId)
    requires CallStep(s, s', t, p) && Locks(s) && Ceased(s, w)
    ensures Ceased(s', w) && s'.workers[w].starts == s.workers[w].starts
  {
    if OnWorker(p) {
      CallOnWorker(s, s', t, p);
      if w == s.calls[t].pc.w {
        OwnCeased(s, s', t, p);
      }
    } else {
      CallOffWorker(s, s', t, p);
    }
  }

  lemma OwnCeased(s: Pool, s': Pool, t: CallId, p: CallAct)
    requires CallStep(s, s', t, p) && OnWorker(p) && Ceased(s, s.calls[t].pc.w)
    requires InExec(s.calls[t].pc) ==> s.workers[s.calls[t].pc.w].lock == ByCall(t)
    ensures Ceased(s', s.calls[t].pc.w)
    ensures s'.workers[s.calls[t].pc.w].starts == s.workers[s.calls[t].pc.w].starts
  {
  }

  lemma WatchCeased(s: Pool, s': Pool, x: WorkerId, p: WatchAct, w: WorkerId)
    requires WatchStep(s, s', x, p) && Locks(s) && Ceased(s, w)
    ensures Ceased(s', w)
  {
    WatchFrame(s, s', x, p);
    assert WorkerLocks(s.workers[w]);
    if w == x {
      OwnWatchCeased(s, s', x, p);
    } else if p.DoListReplacement? {
      ListReplacementCeased(s, s', x, w);
    }
  }

  lemma OwnWatchCeased(s: Pool, s': Pool, x: WorkerId, p: WatchAct)
    requires WatchStep(s, s', x, p) && x in s.workers && WorkerLocks(s.workers[x]) && Ceased(s, x)
    ensures Ceased(s', x)
  {
  }

  lemma ListReplacementCeased(s: Pool, s': Pool, x: WorkerId, w: WorkerId)
    requires ListReplacement(s, s', x) && Ceased(s, w) && w != x
    ensures Ceased(s', w)
  {
  }

  lemma WorkerCeased(s: Pool, s': Pool, v: WorkerId, p: WorkerAct, w: WorkerId)
    requires WorkerStep(s, s', v, p) && Ceased(s, w)
    ensures Ceased(s', w) && s'.workers[w].starts == s.workers[w].starts
  {
    WorkerFrame(s, s', v, p);
  }

  lemma BuildCeased(s: Pool, s': Pool, p: BuildAct, w: WorkerId)
    requires BuildStep(s, s', p) && Ceased(s, w)
    ensures Ceased(s', w) && s'.workers[w].starts == s.workers[w].starts
  {
  }

  lemma DestroyCeased(s: Pool, s': Pool, p: DestroyAct, w: WorkerId)
    requires DestroyStep(s, s', p) && Ceased(s, w)
    ensures Ceased(s', w) && s'.workers[w].starts == s.workers[w].starts
  {
  }

  lemma StepCeased(s: Pool, s': Pool, w: WorkerId)
    requires Next(s, s') && Locks(s) && Ceased(s, w)
    ensures Ceased(s', w) && s'.workers[w].starts == s.workers[w].starts
  {
    var step :| Does(s, s', step);
    match step
    case OfCall(t, p) => CallCeased(s, s', t, p, w);
    case OfWatcher(x, p) =>
      WatchCeased(s, s', x, p, w);
      WatchExecs(s, s', x, p);
    case OfWorker(v, p) => WorkerCeased(s, s', v, p, w);
    case OfBuilder(p) => BuildCeased(s, s', p, w);
    case OfDestroy(p) => DestroyCeased(s, s', p, w);
  }

  lemma {:induction false} CeasedRun(r: seq<Pool>, i: nat, j: nat, w: WorkerId)
    requires Run(r) && i <= j < |r| && Ceased(r[i], w)
    ensures Ceased(r[j], w) && r[j].workers[w].starts == r[i].workers[w].starts
    decreases j
  {
    if i < j {
      CeasedRun(r, i, j - 1, w);
      AlwaysLocks(r, j - 1);
      RunStep(r, j - 1);
      StepCeased(r[j - 1], r[j], w);
    }
  }

  /** Once a Stop has taken the mutex of a worker, no task ever starts on it again, it is never Ready or
      Working again, and the mutex is not given back before the process has exited. */
  lemma StopIsFinal(r: seq<Pool>, i: nat, j: nat, w: WorkerId)
    requires Run(r) && i <= j < |r| && w in r[i].workers && r[i].workers[w].lock.ByStop?
    ensures w in r[j].workers && r[j].workers[w].starts == r[i].workers[w].starts
    ensures r[j].workers[w].value !in {Ready, Working}
    ensures r[j].workers[w].lock.ByStop? || r[j].workers[w].exited
  {
    AlwaysStatesRight(r, i);
    assert StateRight(r[i], w);
    CeasedRun(r, i, j, w);
  }

  // ---------------------------------------------------------------- no Stop is lost

  /** Someone calls Stop on w: whoever, a discarding call, or Destroy. */
  ghost predicate CallsStop(s: Pool, s': Pool, w: WorkerId) {
    || CallStop(s, s', w)
    || (exists t :: Discards(s, s', t, w))
    || (GoNext(s, s') && s.destroyer.w == w)
  }

  predicate Discards(s: Pool, s': Pool, t: CallId, w: WorkerId) {
    GoDestroy(s, s', t) && s.calls[t].pc.w == w
  }

  /** How often Stop has been called on w. */
  ghost function StopsCalled(r: seq<Pool>, j: nat, w: WorkerId): nat
    requires j < |r|
  {
    if j == 0 then 0 else StopsCalled(r, j - 1, w) + if CallsStop(r[j - 1], r[j], w) then 1 else 0
  }

  /** Calls of Stop that are still on their way or have the mutex. */
  function StopsOpen(r: Worker): nat {
    r.stopCalls + r.stopsPassed + if r.lock.ByStop? then 1 else 0
  }

  lemma CallingAdds(s: Pool, s': Pool, w: WorkerId)
    requires CallsStop(s, s', w)
    ensures w in s.workers && w in s'.workers
    ensures s'.workers[w].stopCalls == s.workers[w].stopCalls + 1
    ensures s'.workers[w].stopsPassed == s.workers[w].stopsPassed && s'.workers[w].lock == s.workers[w].lock
  {
  }

  /** What a step does to the open Stops of w while its process runs. */
  ghost predicate StopsKept(s: Pool, s': Pool, w: WorkerId)
    requires w in s'.workers
  {
    (if w in s.workers then StopsOpen(s.workers[w]) else 0) + (if CallsStop(s, s', w) then 1 else 0)
    == StopsOpen(s'.workers[w])
  }

  lemma NoneCalled(s: Pool, s': Pool, w: WorkerId)
    requires w in s.workers && w in s'.workers ==> s'.workers[w].stopCalls <= s.workers[w].stopCalls
    ensures !CallsStop(s, s', w)
  {
    if CallsStop(s, s', w) {
      CallingAdds(s, s', w);
    }
  }

  lemma CallStops(s: Pool, s': Pool, t: CallId, p: CallAct, w: WorkerId)
    requires CallStep(s, s', t, p) && Locks(s) && w in s.workers
    ensures w in s'.workers && StopsKept(s, s', w)
  {
    if p.DoGoDestroy? && s.calls[t].pc.w == w {
      assert Discards(s, s', t, w);
      CallingAdds(s, s', w);
    } else {
      if OnWorker(p) {
        CallOnWorker(s, s', t, p);
        if w == s.calls[t].pc.w {
          OwnStops(s, s', t, p);
        }
      } else {
        CallOffWorker(s, s', t, p);
      }
      NoneCalled(s, s', w);
    }
  }

  lemma OwnStops(s: Pool, s': Pool, t: CallId, p: CallAct)
    requires CallStep(s, s', t, p) && OnWorker(p) && !p.DoGoDestroy? && s.calls[t].pc.w in s.workers
    requires InExec(s.calls[t].pc) ==> s.workers[s.calls[t].pc.w].lock == ByCall(t)
    ensures s.calls[t].pc.w in s'.workers
    ensures var r, r' := s.workers[s.calls[t].pc.w], s'.workers[s.calls[t].pc.w];
            r'.stopCalls == r.stopCalls && StopsOpen(r') == StopsOpen(r)
  {
    if p.DoLockWorker? || p.DoRegisterExec? {
      LockingStops(s, s', t, p);
    }
  }

  lemma LockingStops(s: Pool, s': Pool, t: CallId, p: CallAct)
    requires CallStep(s, s', t, p) && (p.DoLockWorker? || p.DoRegisterExec?) && s.calls[t].pc.w in s.workers
    requires InExec(s.calls[t].pc) ==> s.workers[s.calls[t].pc.w].lock == ByCall(t)
    ensures s.calls[t].pc.w in s'.workers
    ensures var r, r' := s.workers[s.calls[t].pc.w], s'.workers[s.calls[t].pc.w];
            r'.stopCalls == r.stopCalls && StopsOpen(r') == StopsOpen(r)
  {
  }

  lemma WatchStops(s: Pool, s': Pool, x: WorkerId, p: WatchAct, w: WorkerId)
    requires WatchStep(s, s', x, p) && Locks(s) && w in s'.workers
    ensures StopsKept(s, s', w)
  {
    WatchFrame(s, s', x, p);
    if w !in s.workers {
      SpawnStops(s, s', x, w);
    } else {
      assert WorkerLocks(s.workers[w]);
      if w == x {
        OwnWatchStops(s, s', x, p);
      } else if p.DoListReplacement? {
        ListReplacementStops(s, s', x, w);
      }
    }
    NoneCalled(s, s', w);
  }

  lemma OwnWatchStops(s: Pool, s': Pool, x: WorkerId, p: WatchAct)
    requires WatchStep(s, s', x, p) && x in s.workers && WorkerLocks(s.workers[x])
    ensures x in s'.workers && s'.workers[x].stopCalls == s.workers[x].stopCalls
    ensures StopsOpen(s'.workers[x]) == StopsOpen(s.workers[x])
  {
  }

  lemma ListReplacementStops(s: Pool, s': Pool, x: WorkerId, w: WorkerId)
    requires ListReplacement(s, s', x) && w in s.workers && w != x
    ensures w in s'.workers && s'.workers[w].stopCalls == s.workers[w].stopCalls
    ensures StopsOpen(s'.workers[w]) == StopsOpen(s.workers[w])
  {
  }

  lemma SpawnStops(s: Pool, s': Pool, x: WorkerId, nw: WorkerId)
    requires SpawnReplacement(s, s', x, nw)
    ensures nw in s'.workers && StopsOpen(s'.workers[nw]) == 0
  {
  }

  lemma WorkerStops(s: Pool, s': Pool, v: WorkerId, p: WorkerAct, w: WorkerId)
    requires WorkerStep(s, s', v, p) && w in s'.workers && !s'.workers[w].exited
    ensures StopsKept(s, s', w)
  {
    WorkerFrame(s, s', v, p);
    if p.DoCallStop? && v == w {
      CallingAdds(s, s', w);
    } else {
      NoneCalled(s, s', w);
    }
  }

  lemma BuildStops(s: Pool, s': Pool, p: BuildAct, w: WorkerId)
    requires BuildStep(s, s', p) && w in s'.workers
    ensures StopsKept(s, s', w)
  {
    NoneCalled(s, s', w);
  }

  lemma DestroyStops(s: Pool, s': Pool, p: DestroyAct, w: WorkerId)
    requires DestroyStep(s, s', p) && w in s'.workers
    ensures StopsKept(s, s', w)
  {
    DestroyFrame(s, s', p);
    if p.DoGoNext? && s.destroyer.w == w {
      CallingAdds(s, s', w);
    } else {
      NoneCalled(s, s', w);
    }
  }

  lemma StepStops(s: Pool, s': Pool, w: WorkerId)
    requires Next(s, s') && Locks(s) && w in s'.workers && !s'.workers[w].exited
    ensures StopsKept(s, s', w)
  {
    var step :| Does(s, s', step);
    match step
    case OfCall(t, p) =>
      CallFrame(s, s', t, p);
      CallStops(s, s', t, p, w);
    case OfWatcher(x, p) => WatchStops(s, s', x, p, w);
    case OfWorker(v, p) => WorkerStops(s, s', v, p, w);
    case OfBuilder(p) => BuildStops(s, s', p, w);
    case OfDestroy(p) => DestroyStops(s, s', p, w);
  }

  /** A process that runs after a step ran before it. */
  predicate StillRan(s: Pool, s': Pool, w: WorkerId)
    requires w in s.workers
  {
    w in s'.workers && (s.workers[w].exited ==> s'.workers[w].exited)
  }

  lemma WatchExited(s: Pool, s': Pool, x: WorkerId, p: WatchAct, w: WorkerId)
    requires WatchStep(s, s', x, p) && w in s.workers
    ensures StillRan(s, s', w)
  {
    WatchFrame(s, s', x, p);
  }

  lemma BuildExited(s: Pool, s': Pool, p: BuildAct, w: WorkerId)
    requires BuildStep(s, s', p) && w in s.workers
    ensures StillRan(s, s', w)
  {
  }

  lemma DestroyExited(s: Pool, s': Pool, p: DestroyAct, w: WorkerId)
    requires DestroyStep(s, s', p) && w in s.workers
    ensures StillRan(s, s', w)
  {
  }

  lemma ExitedStays(s: Pool, s': Pool, w: WorkerId)
    requires Next(s, s') && w in s.workers
    ensures StillRan(s, s', w)
  {
    var step :| Does(s, s', step);
    match step
    case OfCall(t, p) => CallExited(s, s', t, p, w);
    case OfWatcher(x, p) => WatchExited(s, s', x, p, w);
    case OfWorker(v, p) => WorkerFrame(s, s', v, p);
    case OfBuilder(p) => BuildExited(s, s', p, w);
    case OfDestroy(p) => DestroyExited(s, s', p, w);
  }

  lemma CallExited(s: Pool, s': Pool, t: CallId, p: CallAct, w: WorkerId)
    requires CallStep(s, s', t, p) && w in s.workers
    ensures w in s'.workers && s'.workers[w].exited == s.workers[w].exited
  {
    if OnWorker(p) {
      CallOnWorker(s, s', t, p);
    } else {
      CallOffWorker(s, s', t, p);
    }
  }

  lemma {:induction false} NoStopBefore(r: seq<Pool>, j: nat, w: WorkerId)
    requires Run(r) && j < |r| && w !in r[j].workers
    ensures StopsCalled(r, j, w) == 0
  {
    if j > 0 {
      AlwaysOwned(r, j - 1);
      RunStep(r, j - 1);
      StepOwned(r[j - 1], r[j]);
      NoStopBefore(r, j - 1, w);
      NoneCalled(r[j - 1], r[j], w);
    }
  }

  lemma StopsInStep(r: seq<Pool>, j: nat, w: WorkerId)
    requires Run(r) && j + 1 < |r| && w in r[j + 1].workers && !r[j + 1].workers[w].exited
    ensures w in r[j].workers ==> !r[j].workers[w].exited
    ensures StopsOpen(r[j + 1].workers[w]) == (if w in r[j].workers then StopsOpen(r[j].workers[w]) else 0)
                                              + StopsCalled(r, j + 1, w) - StopsCalled(r, j, w)
  {
    RunStep(r, j);
    AlwaysLocks(r, j);
    StepStops(r[j], r[j + 1], w);
    if w in r[j].workers {
      ExitedStays(r[j], r[j + 1], w);
    }
  }

  /** While the process of a worker runs, every Stop ever called on it is still on its way or has the mutex:
      discarding a worker and destroying the pool call it once each, and none is lost. */
  lemma {:induction false} NoStopLost(r: seq<Pool>, j: nat, w: WorkerId)
    requires Run(r) && j < |r| && w in r[j].workers && !r[j].workers[w].exited
    ensures StopsOpen(r[j].workers[w]) == StopsCalled(r, j, w)
  {
    if j > 0 {
      StopsInStep(r, j - 1, w);
      if w in r[j - 1].workers {
        NoStopLost(r, j - 1, w);
      } else {
        NoStopBefore(r, j - 1, w);
      }
    }
  }
}
