/**
 What the state of a worker says about who has its mutex.
 */
module PoolStates {
  import opened PoolModel
  import opened PoolFrames
  import opened PoolRemoval
  import opened PoolJobs

  // ---------------------------------------------------------------- the state under the mutex

  /** The state that an execution leaves behind. */
  predicate LeftBehind(o: Outcome, value: Value) {
    if o.RelayError? then value == Errored else value == Ready
  }

  /** A store without the mutex has struck. */
  predicate Struck(value: Value) {
    value == Invalid || value == Stopping
  }

  predicate StateOfCall(pc: CallPc, value: Value) {
    match pc
    case Running(_) => value == Working || Struck(value)
    case Ending(_, _) => value == Working || Struck(value)
    case Registering(_, o) => LeftBehind(o, value) || Struck(value)
    case _ => true
  }

  predicate Executes(pc: CallPc) {
    pc.Running? || pc.Ending?
  }

  /** The state of a worker agrees with whoever holds its mutex. */
  predicate StateRight(s: Pool, w: WorkerId)
    requires w in s.workers
  {
    var r := s.workers[w];
    && (r.lock.ByStop? ==> Struck(r.value))
    && (r.lock.ByCall? ==> r.lock.call in s.calls && StateOfCall(s.calls[r.lock.call].pc, r.value))
    && (r.value == Working ==> r.lock.ByCall? && r.lock.call in s.calls && Executes(s.calls[r.lock.call].pc))
  }

  ghost predicate StatesRight(s: Pool) {
    forall w :: w in s.workers ==> StateRight(s, w)
  }

  /** The step of a call on its own worker. */
  lemma OwnState(s: Pool, s': Pool, t: CallId, p: CallAct)
    requires CallStep(s, s', t, p) && OnWorker(p) && !p.DoInvalidate? && !p.DoGoDestroy?
    requires s.calls[t].pc.w in s.workers && StateRight(s, s.calls[t].pc.w)
    requires InExec(s.calls[t].pc) ==> s.workers[s.calls[t].pc.w].lock == ByCall(t)
    ensures s.calls[t].pc.w in s'.workers && StateRight(s', s.calls[t].pc.w)
  {
  }

  lemma DiscardState(s: Pool, s': Pool, t: CallId, p: CallAct)
    requires CallStep(s, s', t, p) && (p.DoInvalidate? || p.DoGoDestroy?)
    requires s.calls[t].pc.w in s.workers && StateRight(s, s.calls[t].pc.w)
    requires s.workers[s.calls[t].pc.w].lock != ByCall(t)
    ensures s.calls[t].pc.w in s'.workers && StateRight(s', s.calls[t].pc.w)
  {
  }

  /** Away from its worker a call executes only in the exchange. */
  lemma OffWorkerState(s: Pool, s': Pool, t: CallId, p: CallAct)
    requires CallStep(s, s', t, p) && !OnWorker(p) && t in s.calls && InExec(s.calls[t].pc)
    ensures t in s'.calls && Executes(s'.calls[t].pc) && Executes(s.calls[t].pc)
  {
  }

  lemma OffWorkerStates(s: Pool, s': Pool, t: CallId, p: CallAct, v: WorkerId)
    requires CallStep(s, s', t, p) && !OnWorker(p) && v in s.workers && Tallied(s, v) && StateRight(s, v)
    ensures v in s'.workers && StateRight(s', v)
  {
    CallOffWorker(s, s', t, p);
    if t in s.calls && InExec(s.calls[t].pc) {
      OffWorkerState(s, s', t, p);
    }
  }

  lemma OnWorkerStates(s: Pool, s': Pool, t: CallId, p: CallAct, v: WorkerId)
    requires CallStep(s, s', t, p) && OnWorker(p) && v in s.workers && Locks(s) && Tally(s) && StatesRight(s)
    ensures v in s'.workers && StateRight(s', v)
  {
    CallOnWorker(s, s', t, p);
    var w := s.calls[t].pc.w;
    assert StateRight(s, v) && StateRight(s, w) && Tallied(s, v) && Tallied(s, w);
    if v == w {
      if p.DoInvalidate? || p.DoGoDestroy? {
        DiscardState(s, s', t, p);
      } else {
        OwnState(s, s', t, p);
      }
    }
  }

  lemma WatchStates(s: Pool, s': Pool, x: WorkerId, p: WatchAct, v: WorkerId)
    requires WatchStep(s, s', x, p) && v in s'.workers && Locks(s) && StatesRight(s)
    ensures StateRight(s', v)
  {
    WatchFrame(s, s', x, p);
    if v in s.workers {
      assert StateRight(s, v) && WorkerLocks(s.workers[v]);
      if v == x {
        OwnWatchState(s, s', x, p);
      } else if p.DoListReplacement? {
        ListReplacementState(s, s', x, v);
      }
    } else {
      SpawnState(s, s', x, v);
    }
  }

  lemma OwnWatchState(s: Pool, s': Pool, x: WorkerId, p: WatchAct)
    requires WatchStep(s, s', x, p) && x in s.workers && WorkerLocks(s.workers[x]) && StateRight(s, x)
    ensures x in s'.workers && StateRight(s', x)
  {
  }

  lemma ListReplacementState(s: Pool, s': Pool, x: WorkerId, v: WorkerId)
    requires ListReplacement(s, s', x) && v in s.workers && StateRight(s, v) && v != x
    ensures v in s'.workers && StateRight(s', v)
  {
  }

  lemma SpawnState(s: Pool, s': Pool, x: WorkerId, nw: WorkerId)
    requires SpawnReplacement(s, s', x, nw)
    ensures nw in s'.workers && StateRight(s', nw)
  {
  }

  lemma WorkerStates(s: Pool, s': Pool, w: WorkerId, p: WorkerAct, v: WorkerId)
    requires WorkerStep(s, s', w, p) && v in s'.workers && StatesRight(s)
    ensures StateRight(s', v)
  {
    WorkerFrame(s, s', w, p);
    assert StateRight(s, v);
  }

  lemma BuildStates(s: Pool, s': Pool, p: BuildAct, v: WorkerId)
    requires BuildStep(s, s', p) && v in s'.workers && StatesRight(s)
    ensures StateRight(s', v)
  {
    assert v in s.workers ==> StateRight(s, v);
  }

  lemma DestroyStates(s: Pool, s': Pool, p: DestroyAct, v: WorkerId)
    requires DestroyStep(s, s', p) && v in s'.workers && StatesRight(s)
    ensures StateRight(s', v)
  {
    DestroyFrame(s, s', p);
    assert StateRight(s, v);
  }

  lemma StepStates(s: Pool, s': Pool)
    requires Next(s, s') && Locks(s) && Tally(s) && StatesRight(s)
    ensures StatesRight(s')
  {
    var step :| Does(s, s', step);
    forall v | v in s'.workers
      ensures StateRight(s', v)
    {
      match step
      case OfCall(t, p) =>
        CallFrame(s, s', t, p);
        assert StateRight(s, v) && Tallied(s, v);
        if OnWorker(p) {
          OnWorkerStates(s, s', t, p, v);
        } else {
          OffWorkerStates(s, s', t, p, v);
        }
      case OfWatcher(x, p) => WatchStates(s, s', x, p, v);
      case OfWorker(w, p) => WorkerStates(s, s', w, p, v);
      case OfBuilder(p) => BuildStates(s, s', p, v);
      case OfDestroy(p) => DestroyStates(s, s', p, v);
    }
  }

  /** A worker is Working only while a call executes on it; while one does it is Working, unless Kill,
      Destroy or a discarding call has struck; after the execution it is Ready, or Errored if the relay
      failed, with the same exception; and while a Stop has it, it is neither Ready nor Working. */
  lemma {:induction false} AlwaysStatesRight(r: seq<Pool>, i: nat)
    requires Run(r) && i < |r|
    ensures StatesRight(r[i])
  {
    if i > 0 {
      AlwaysStatesRight(r, i - 1);
      AlwaysLocks(r, i - 1);
      AlwaysTally(r, i - 1);
      RunStep(r, i - 1);
      StepStates(r[i - 1], r[i]);
    }
  }
}
