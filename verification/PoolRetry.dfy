/**
 Stop-request retries: what one call of `Exec` sends to whom, and what it can return.
 */
module PoolRetry {
  import opened Basics
  import opened PoolModel
  import opened PoolFrames
  import opened PoolOwnership

  // ---------------------------------------------------------------- results

  predicate Presentable(result: Result) {
    result.Response? ==> !IsStopRequest(result.rsp)
  }

  /** Every result a call carries can be shown to the caller. */
  predicate Carries(pc: CallPc) {
    match pc
    case Releasing(_, r) => Presentable(r)
    case ReleaseChecking(_, r) => Presentable(r)
    case Enqueueing(_, r) => Presentable(r)
    case Invalidating(_, a) => a.Answer? ==> Presentable(a.result)
    case Destroying(_, a) => a.Answer? ==> Presentable(a.result)
    case Leaving(r) => Presentable(r)
    case Returned(r) => Presentable(r)
    case _ => true
  }

  // ---------------------------------------------------------------- attempts

  /** The call is dealing with a worker it has called Exec on, or is on its way out. */
  predicate Tried(pc: CallPc) {
    || pc.Locked? || pc.Running? || pc.Ending? || pc.Registering?
    || pc.Releasing? || pc.ReleaseChecking? || pc.Enqueueing?
    || ((pc.Invalidating? || pc.Destroying?) && !pc.after.Continue?)
  }

  predicate Over(pc: CallPc) {
    pc.Leaving? || pc.Returned?
  }

  /** Each worker the call has tried before is gone, and each attempt carried the call's payload. */
  ghost predicate AttemptsOf(s: Pool, c: Call) {
    && (forall k :: 0 <= k < |c.attempts| ==> c.attempts[k].rqs == c.rqs && c.attempts[k].w in s.workers)
    && (forall j, k :: 0 <= j < k < |c.attempts| ==> c.attempts[j].w != c.attempts[k].w)
    && (forall k :: 0 <= k < |c.attempts| - 1 ==> Gone(s, c.attempts[k].w))
    && (|c.attempts| > 0 && !Over(c.pc) ==>
          var w := c.attempts[|c.attempts| - 1].w;
          if Tried(c.pc) then Held(c.pc) == Some(w) else Gone(s, w))
    && (|c.attempts| == 0 ==> !Tried(c.pc))
  }

  ghost predicate Attempts(s: Pool) {
    forall t :: t in s.calls ==> Carries(s.calls[t].pc) && AttemptsOf(s, s.calls[t])
  }

  /** Gone workers stay gone, so a call that does not move keeps its attempts. */
  lemma UnmovedAttempts(s: Pool, s': Pool, c: Call)
    requires Owned(s) && Next(s, s') && AttemptsOf(s, c)
    ensures AttemptsOf(s', c)
  {
    StepOwned(s, s');
    forall k | 0 <= k < |c.attempts| && Gone(s, c.attempts[k].w)
      ensures Gone(s', c.attempts[k].w)
    {
      GoneStep(s, s', c.attempts[k].w);
    }
  }

  /** A call that tries its worker has not tried it before: it holds it now. */
  lemma FreshAttempt(s: Pool, t: CallId, c: Call)
    requires t in s.calls && c == s.calls[t] && c.pc.Allocated? && AttemptsOf(s, c)
    ensures forall k :: 0 <= k < |c.attempts| ==> c.attempts[k].w != c.pc.w
  {
    assert Holds(s, Task(t), c.pc.w);
  }

  lemma TryAttempts(s: Pool, s': Pool, t: CallId)
    requires Owned(s) && Next(s, s') && t in s.calls && AttemptsOf(s, s.calls[t])
    requires LockWorker(s, s', t) || RefuseTask(s, s', t)
    ensures AttemptsOf(s', s'.calls[t])
  {
    FreshAttempt(s, t, s.calls[t]);
    UnmovedAttempts(s, s', s.calls[t]);
    AddAttempt(s', s.calls[t], s'.calls[t]);
  }

  lemma AddAttempt(s': Pool, c: Call, c': Call)
    requires AttemptsOf(s', c) && c.pc.Allocated? && c.pc.w in s'.workers
    requires forall k :: 0 <= k < |c.attempts| ==> c.attempts[k].w != c.pc.w
    requires c'.attempts == c.attempts + [Attempt(c.pc.w, c.rqs)] && c'.rqs == c.rqs
    requires Tried(c'.pc) && Held(c'.pc) == Some(c.pc.w)
    ensures AttemptsOf(s', c')
  {
  }

  lemma GiveUpAttempts(s: Pool, s': Pool, t: CallId)
    requires Owned(s) && GoDestroy(s, s', t) && AttemptsOf(s, s.calls[t])
    ensures AttemptsOf(s', s'.calls[t])
  {
    var c, c' := s.calls[t], s'.calls[t];
    assert Does(s, s', OfCall(t, DoGoDestroy));
    UnmovedAttempts(s, s', c);
    QuietCall(s, s', t, DoGoDestroy);
    assert Holds(s, Task(t), c.pc.w);
    assert !Holds(s', Task(t), c.pc.w);
    assert Gone(s', c.pc.w);
  }

  /** The call keeps its attempts, and whether the last one is still in hand. */
  predicate SameTries(c: Call, c': Call) {
    && c'.attempts == c.attempts && c'.rqs == c.rqs
    && (Over(c'.pc) || (Tried(c'.pc) == Tried(c.pc) && (Tried(c.pc) ==> Held(c'.pc) == Held(c.pc))))
    && (Over(c.pc) ==> Over(c'.pc))
  }

  lemma OnWorkerSameTries(s: Pool, s': Pool, t: CallId, p: CallAct)
    requires CallStep(s, s', t, p) && t in s.calls
    requires p.DoSetWorking? || p.DoSetEnd? || p.DoRegisterExec? || p.DoInvalidate?
    ensures SameTries(s.calls[t], s'.calls[t])
  {
    if p.DoRegisterExec? {
      RegisterSameTries(s, s', t);
    }
  }

  lemma RegisterSameTries(s: Pool, s': Pool, t: CallId)
    requires RegisterExec(s, s', t)
    ensures SameTries(s.calls[t], s'.calls[t])
  {
  }

  predicate Leaves(p: CallAct) {
    p.DoLoopExit? || p.DoSeeStopped? || p.DoTimeOut? || p.DoEnqueue? || p.DoTaskDone? || p.DoCheckJobs?
  }

  lemma LeavingSameTries(s: Pool, s': Pool, t: CallId, p: CallAct)
    requires CallStep(s, s', t, p) && t in s.calls && Leaves(p)
    ensures SameTries(s.calls[t], s'.calls[t])
  {
    if p.DoLoopExit? || p.DoSeeStopped? || p.DoTimeOut? {
      FailingSameTries(s, s', t, p);
    } else if p.DoTaskDone? {
      DoneSameTries(s, s', t);
    }
  }

  lemma FailingSameTries(s: Pool, s': Pool, t: CallId, p: CallAct)
    requires CallStep(s, s', t, p) && t in s.calls && (p.DoLoopExit? || p.DoSeeStopped? || p.DoTimeOut?)
    ensures SameTries(s.calls[t], s'.calls[t])
  {
  }

  lemma DoneSameTries(s: Pool, s': Pool, t: CallId)
    requires TaskDone(s, s', t)
    ensures SameTries(s.calls[t], s'.calls[t])
  {
  }

  predicate Allocates(p: CallAct) {
    p.DoAdmit? || p.DoLoadDead? || p.DoReceive?
  }

  lemma AllocatingSameTries(s: Pool, s': Pool, t: CallId, p: CallAct)
    requires CallStep(s, s', t, p) && t in s.calls && Allocates(p)
    ensures SameTries(s.calls[t], s'.calls[t])
  {
    if p.DoReceive? {
      ReceiveSameTries(s, s', t);
    }
  }

  lemma ReceiveSameTries(s: Pool, s': Pool, t: CallId)
    requires Receive(s, s', t)
    ensures SameTries(s.calls[t], s'.calls[t])
  {
  }

  lemma OffWorkerSameTries(s: Pool, s': Pool, t: CallId, p: CallAct)
    requires CallStep(s, s', t, p) && t in s.calls && (p.DoExchange? || p.DoCheckRemoved?)
    ensures SameTries(s.calls[t], s'.calls[t])
  {
  }

  lemma ReceivedSameTries(s: Pool, s': Pool, t: CallId, p: CallAct)
    requires CallStep(s, s', t, p) && t in s.calls && (p.DoLoadValue? || p.DoDropDead? || p.DoLoadMark?)
    ensures SameTries(s.calls[t], s'.calls[t])
  {
  }

  lemma SameTriesAttempts(s: Pool, s': Pool, c: Call, c': Call)
    requires Owned(s) && Next(s, s') && AttemptsOf(s, c) && SameTries(c, c')
    ensures AttemptsOf(s', c')
  {
    UnmovedAttempts(s, s', c);
  }

  lemma MovesSameTries(s: Pool, s': Pool, t: CallId, p: CallAct)
    requires CallStep(s, s', t, p) && t in s.calls && !p.DoLockWorker? && !p.DoRefuseTask? && !p.DoGoDestroy?
    ensures t in s'.calls && SameTries(s.calls[t], s'.calls[t])
  {
    if OnWorker(p) {
      OnWorkerSameTries(s, s', t, p);
    } else if Leaves(p) {
      LeavingSameTries(s, s', t, p);
    } else if Allocates(p) {
      AllocatingSameTries(s, s', t, p);
    } else if p.DoLoadValue? || p.DoDropDead? || p.DoLoadMark? {
      ReceivedSameTries(s, s', t, p);
    } else {
      OffWorkerSameTries(s, s', t, p);
    }
  }

  lemma CallAttempts(s: Pool, s': Pool, t: CallId, p: CallAct)
    requires Owned(s) && CallStep(s, s', t, p) && t in s.calls && AttemptsOf(s, s.calls[t])
    ensures t in s'.calls && AttemptsOf(s', s'.calls[t])
  {
    assert Does(s, s', OfCall(t, p));
    if p.DoLockWorker? || p.DoRefuseTask? {
      TryAttempts(s, s', t);
    } else if p.DoGoDestroy? {
      GiveUpAttempts(s, s', t);
    } else {
      MovesSameTries(s, s', t, p);
      SameTriesAttempts(s, s', s.calls[t], s'.calls[t]);
    }
  }

  lemma EnterAttempts(s: Pool, s': Pool, t: CallId, p: CallAct)
    requires CallStep(s, s', t, p) && t !in s.calls
    ensures t in s'.calls && AttemptsOf(s', s'.calls[t])
  {
  }

  lemma OnWorkerCarries(s: Pool, s': Pool, t: CallId, p: CallAct)
    requires CallStep(s, s', t, p) && OnWorker(p) && Carries(s.calls[t].pc)
    ensures Carries(s'.calls[t].pc)
  {
    if p.DoRegisterExec? {
      DispatchCarries(s.calls[t].pc.w, s.calls[t].pc.outcome);
    } else if p.DoGoDestroy? {
      ResumeCarries(s.calls[t].pc.w, s.calls[t].pc.after);
    }
  }

  lemma DispatchCarries(w: WorkerId, o: Outcome)
    ensures Carries(Dispatch(w, o))
  {
  }

  lemma ResumeCarries(w: WorkerId, a: After)
    requires Carries(Destroying(w, a))
    ensures Carries(Resume(a))
  {
  }

  lemma CallCarries(s: Pool, s': Pool, t: CallId, p: CallAct)
    requires CallStep(s, s', t, p) && (t in s.calls ==> Carries(s.calls[t].pc))
    ensures t in s'.calls && Carries(s'.calls[t].pc)
  {
    if OnWorker(p) {
      OnWorkerCarries(s, s', t, p);
    }
  }

  lemma StepAttempts(s: Pool, s': Pool)
    requires Owned(s) && Attempts(s) && Next(s, s')
    ensures Attempts(s')
  {
    var step :| Does(s, s', step);
    forall u | u in s'.calls
      ensures Carries(s'.calls[u].pc) && AttemptsOf(s', s'.calls[u])
    {
      if step.OfCall? {
        CallFrame(s, s', step.t, step.call);
      } else {
        OtherExecs(s, s', step);
      }
      if step.OfCall? && u == step.t {
        CallCarries(s, s', u, step.call);
        if u in s.calls {
          CallAttempts(s, s', u, step.call);
        } else {
          EnterAttempts(s, s', u, step.call);
        }
      } else {
        UnmovedAttempts(s, s', s.calls[u]);
      }
    }
  }

  lemma {:induction false} AlwaysAttempts(r: seq<Pool>, i: nat)
    requires Run(r) && i < |r|
    ensures Attempts(r[i])
  {
    if i > 0 {
      AlwaysAttempts(r, i - 1);
      AlwaysOwned(r, i - 1);
      RunStep(r, i - 1);
      StepAttempts(r[i - 1], r[i]);
    }
  }

  lemma CallKeepsPayload(s: Pool, s': Pool, t: CallId, p: CallAct)
    requires CallStep(s, s', t, p) && t in s.calls
    ensures t in s'.calls && s'.calls[t].rqs == s.calls[t].rqs
  {
    if OnWorker(p) {
      OnWorkerKeepsPayload(s, s', t, p);
    }
  }

  lemma OnWorkerKeepsPayload(s: Pool, s': Pool, t: CallId, p: CallAct)
    requires CallStep(s, s', t, p) && OnWorker(p)
    ensures t in s.calls && t in s'.calls && s'.calls[t].rqs == s.calls[t].rqs
  {
  }

  lemma StepKeepsPayload(s: Pool, s': Pool, t: CallId)
    requires Next(s, s') && t in s.calls
    ensures t in s'.calls && s'.calls[t].rqs == s.calls[t].rqs
  {
    var step :| Does(s, s', step);
    if step.OfCall? && step.t == t {
      CallKeepsPayload(s, s', t, step.call);
    } else {
      OthersWait(s, s', step, t);
    }
  }

  lemma {:induction false} PayloadKept(r: seq<Pool>, i: nat, j: nat, t: CallId)
    requires Run(r) && i <= j < |r| && t in r[i].calls
    ensures t in r[j].calls && r[j].calls[t].rqs == r[i].calls[t].rqs
    decreases j
  {
    if i < j {
      PayloadKept(r, i, j - 1, t);
      RunStep(r, j - 1);
      StepKeepsPayload(r[j - 1], r[j], t);
    }
  }

  /** However often workers ask to be replaced, a call never returns the stop request to its caller,
      sends the same payload every time, and never tries a worker twice. */
  lemma RetriesAreInvisible(r: seq<Pool>, i: nat, t: CallId)
    requires Run(r) && i < |r| && t in r[i].calls
    ensures var c := r[i].calls[t];
            && (c.pc.Returned? && c.pc.result.Response? ==> !IsStopRequest(c.pc.result.rsp))
            && (forall k :: 0 <= k < |c.attempts| ==> c.attempts[k].rqs == c.rqs)
            && (forall j, k :: 0 <= j < k < |c.attempts| ==> c.attempts[j].w != c.attempts[k].w)
  {
    AlwaysAttempts(r, i);
    assert Carries(r[i].calls[t].pc) && AttemptsOf(r[i], r[i].calls[t]);
  }

  /** That payload is the one the call was entered with. */
  lemma SendsWhatItWasGiven(r: seq<Pool>, i: nat, j: nat, t: CallId, rqs: Option<Payload>)
    requires Run(r) && i < j < |r| && Enter(r[i], r[i + 1], t, rqs)
    ensures t in r[j].calls
    ensures var attempts := r[j].calls[t].attempts; forall k :: 0 <= k < |attempts| ==> attempts[k].rqs == rqs
  {
    PayloadKept(r, i + 1, j, t);
    RetriesAreInvisible(r, j, t);
  }
}
