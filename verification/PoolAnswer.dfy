/**
 What a call of `Exec` answers its caller with, read off the exchanges it made over the run.
 */
module PoolAnswer {
  import opened Basics
  import opened PoolModel
  import opened PoolFrames

  /** One payload exchange: the worker it was made with, and how it ended. */
  datatype Trial = Trial(w: WorkerId, outcome: Outcome)

  /** The exchange that call t ends in this step, if any. */
  ghost function Ended(s: Pool, s': Pool, t: CallId): seq<Trial> {
    if exists o :: Exchange(s, s', t, o)
    then var o :| Exchange(s, s', t, o); [Trial(s.calls[t].pc.w, o)]
    else []
  }

  /** The exchanges that call t has made up to state j of the run, in order. */
  ghost function Trials(r: seq<Pool>, j: nat, t: CallId): seq<Trial>
    requires j < |r|
  {
    if j == 0 then [] else Trials(r, j - 1, t) + Ended(r[j - 1], r[j], t)
  }

  // ---------------------------------------------------------------- what belongs to an outcome

  predicate AsksToStop(o: Outcome) {
    o.Reply? && IsStopRequest(o.rsp)
  }

  /** Every exchange ended in a request to be replaced. */
  predicate AllStops(trials: seq<Trial>) {
    forall k :: 0 <= k < |trials| ==> AsksToStop(trials[k].outcome)
  }

  /** The result that the caller is to see for an outcome. */
  predicate Answers(result: Result, o: Outcome) {
    match o
    case Reply(rsp) => result == Response(rsp) && !IsStopRequest(rsp)
    case JobError(m) => result == SoftError(m)
    case RelayError => result == Failure(WorkerBroken)
  }

  /** The last exchange decides the result. */
  predicate Decided(result: Result, trials: seq<Trial>) {
    && trials != [] && AllStops(trials[..|trials| - 1])
    && Answers(result, trials[|trials| - 1].outcome)
  }

  predicate Unallocated(result: Result) {
    result in {Failure(AllDead), Failure(PoolStopped), Failure(AllocateTimeout)}
  }

  /** A call that is over: its last exchange decided, or the last worker refused, or there was none. */
  predicate Concluded(result: Result, attempts: nat, trials: seq<Trial>) {
    || (attempts == |trials| && Decided(result, trials))
    || (attempts == |trials| + 1 && AllStops(trials) && result == Failure(WorkerRefused))
    || (attempts == |trials| && AllStops(trials) && Unallocated(result))
  }

  /** The result is known and the worker not given back yet. */
  predicate Carrying(result: Result, attempts: nat, trials: seq<Trial>) {
    Concluded(result, attempts, trials) && !Unallocated(result)
  }

  /** The exchanges so far, as the position of the call says.  Every attempt has its own admission. */
  predicate Traced(c: Call, trials: seq<Trial>) {
    var n, m := |trials|, |c.attempts|;
    match c.pc
    case Entering => AllStops(trials) && m == n && c.depth == n
    case Admitted => AllStops(trials) && m == n && c.depth == n + 1
    case Looping(_) => AllStops(trials) && m == n && c.depth == n + 1
    case Received(_, _) => AllStops(trials) && m == n && c.depth == n + 1
    case Dropping(_, _) => AllStops(trials) && m == n && c.depth == n + 1
    case Checking(_, _) => AllStops(trials) && m == n && c.depth == n + 1
    case Allocated(_) => AllStops(trials) && m == n && c.depth == n + 1
    case Locked(w) => AllStops(trials) && m == n + 1 == c.depth && c.attempts[n].w == w
    case Running(w) => AllStops(trials) && m == n + 1 == c.depth && c.attempts[n].w == w
    case Ending(w, o) => m == n == c.depth > 0 && AllStops(trials[..n - 1]) && trials[n - 1] == Trial(w, o)
    case Registering(w, o) => m == n == c.depth > 0 && AllStops(trials[..n - 1]) && trials[n - 1] == Trial(w, o)
    case Releasing(_, r) => m == c.depth && Carrying(r, m, trials)
    case ReleaseChecking(_, r) => m == c.depth && Carrying(r, m, trials)
    case Enqueueing(_, r) => m == c.depth && Carrying(r, m, trials)
    case Invalidating(_, a) => TracedAfter(a, m, c.depth, trials)
    case Destroying(_, a) => TracedAfter(a, m, c.depth, trials)
    case Leaving(r) => Concluded(r, m, trials)
    case Returned(r) => Concluded(r, m, trials)
  }

  predicate TracedAfter(a: After, m: nat, depth: nat, trials: seq<Trial>) {
    match a
    case Continue(_) => AllStops(trials) && m == |trials| && depth == |trials| + 1
    case Retry => AllStops(trials) && m == |trials| == depth
    case Answer(r) => m == depth && Carrying(r, m, trials)
  }

  /** The exchanges were made with the workers of the attempts. */
  predicate Matched(c: Call, trials: seq<Trial>) {
    |trials| <= |c.attempts| && forall k :: 0 <= k < |trials| ==> trials[k].w == c.attempts[k].w
  }

  // ---------------------------------------------------------------- one step

  lemma EndedByExchange(s: Pool, s': Pool, t: CallId, o: Outcome)
    requires Exchange(s, s', t, o)
    ensures Ended(s, s', t) == [Trial(s.calls[t].pc.w, o)]
  {
    forall o' | Exchange(s, s', t, o')
      ensures o' == o
    {
      assert s'.calls[t].pc.outcome == o';
    }
  }

  lemma NothingEnded(s: Pool, s': Pool, t: CallId)
    requires t in s.calls && t in s'.calls ==> !s.calls[t].pc.Running? || !s'.calls[t].pc.Ending?
    ensures Ended(s, s', t) == []
  {
  }

  /** Steps of a call that take it nearer to a worker. */
  predicate Seeks(p: CallAct) {
    p.DoAdmit? || p.DoLoadDead? || p.DoReceive? || p.DoLoadValue? || p.DoDropDead? || p.DoLoadMark?
  }

  lemma SeekTraced(s: Pool, s': Pool, t: CallId, p: CallAct, trials: seq<Trial>)
    requires CallStep(s, s', t, p) && Seeks(p) && t in s.calls && Traced(s.calls[t], trials)
    ensures t in s'.calls && Traced(s'.calls[t], trials) && s'.calls[t].attempts == s.calls[t].attempts
    ensures !s'.calls[t].pc.Ending?
  {
  }

  lemma GiveUpTraced(s: Pool, s': Pool, t: CallId, p: CallAct, trials: seq<Trial>)
    requires CallStep(s, s', t, p) && (p.DoLoopExit? || p.DoSeeStopped? || p.DoTimeOut?)
    requires t in s.calls && Traced(s.calls[t], trials)
    ensures t in s'.calls && Traced(s'.calls[t], trials) && s'.calls[t].attempts == s.calls[t].attempts
    ensures !s'.calls[t].pc.Ending?
  {
  }

  lemma TryTraced(s: Pool, s': Pool, t: CallId, p: CallAct, trials: seq<Trial>)
    requires CallStep(s, s', t, p) && (p.DoRefuseTask? || p.DoLockWorker? || p.DoSetWorking?)
    requires t in s.calls && Traced(s.calls[t], trials)
    ensures t in s'.calls && Traced(s'.calls[t], trials) && s.calls[t].attempts <= s'.calls[t].attempts
    ensures !s'.calls[t].pc.Ending?
  {
  }

  lemma ExchangeTraced(s: Pool, s': Pool, t: CallId, o: Outcome, trials: seq<Trial>)
    requires Exchange(s, s', t, o) && Traced(s.calls[t], trials)
    ensures var c, c' := s.calls[t], s'.calls[t];
            Traced(c', trials + [Trial(c.pc.w, o)]) && c'.attempts == c.attempts && |c.attempts| == |trials| + 1
            && c.attempts[|trials|].w == c.pc.w
  {
    assert (trials + [Trial(s.calls[t].pc.w, o)])[..|trials|] == trials;
  }

  /** The end of an exchange decides where the call goes. */
  lemma RegisterTraced(s: Pool, s': Pool, t: CallId, trials: seq<Trial>)
    requires RegisterExec(s, s', t) && Traced(s.calls[t], trials)
    ensures Traced(s'.calls[t], trials) && s'.calls[t].attempts == s.calls[t].attempts
    ensures !s'.calls[t].pc.Ending?
  {
    var Registering(w, o) := s.calls[t].pc;
    var n := |trials|;
    assert AsksToStop(o) ==> AllStops(trials);
  }

  lemma SetEndTraced(s: Pool, s': Pool, t: CallId, trials: seq<Trial>)
    requires SetEnd(s, s', t) && Traced(s.calls[t], trials)
    ensures Traced(s'.calls[t], trials) && s'.calls[t].attempts == s.calls[t].attempts
    ensures !s'.calls[t].pc.Ending?
  {
  }

  /** Steps that only carry a result on. */
  predicate Carries(p: CallAct) {
    p.DoCheckJobs? || p.DoCheckRemoved? || p.DoEnqueue? || p.DoInvalidate? || p.DoTaskDone?
  }

  lemma CarryTraced(s: Pool, s': Pool, t: CallId, p: CallAct, trials: seq<Trial>)
    requires CallStep(s, s', t, p) && Carries(p) && t in s.calls && Traced(s.calls[t], trials)
    ensures t in s'.calls && Traced(s'.calls[t], trials) && s'.calls[t].attempts == s.calls[t].attempts
    ensures !s'.calls[t].pc.Ending?
  {
    if p.DoTaskDone? {
      DoneTraced(s, s', t, trials);
    } else if p.DoInvalidate? {
      InvalidateTraced(s, s', t, trials);
    }
  }

  lemma DoneTraced(s: Pool, s': Pool, t: CallId, trials: seq<Trial>)
    requires TaskDone(s, s', t) && Traced(s.calls[t], trials)
    ensures Traced(s'.calls[t], trials) && s'.calls[t].attempts == s.calls[t].attempts
    ensures !s'.calls[t].pc.Ending?
  {
  }

  lemma InvalidateTraced(s: Pool, s': Pool, t: CallId, trials: seq<Trial>)
    requires Invalidate(s, s', t) && Traced(s.calls[t], trials)
    ensures Traced(s'.calls[t], trials) && s'.calls[t].attempts == s.calls[t].attempts
    ensures !s'.calls[t].pc.Ending?
  {
  }

  lemma GoDestroyTraced(s: Pool, s': Pool, t: CallId, trials: seq<Trial>)
    requires GoDestroy(s, s', t) && Traced(s.calls[t], trials)
    ensures Traced(s'.calls[t], trials) && s'.calls[t].attempts == s.calls[t].attempts
    ensures !s'.calls[t].pc.Ending?
  {
  }

  lemma MoveTraced(s: Pool, s': Pool, t: CallId, p: CallAct, trials: seq<Trial>)
    requires CallStep(s, s', t, p) && t in s.calls && !p.DoExchange? && Traced(s.calls[t], trials)
    ensures t in s'.calls && Traced(s'.calls[t], trials) && s.calls[t].attempts <= s'.calls[t].attempts
    ensures !s'.calls[t].pc.Ending?
  {
    if Seeks(p) {
      SeekTraced(s, s', t, p, trials);
    } else if p.DoLoopExit? || p.DoSeeStopped? || p.DoTimeOut? {
      GiveUpTraced(s, s', t, p, trials);
    } else if p.DoRefuseTask? || p.DoLockWorker? || p.DoSetWorking? {
      TryTraced(s, s', t, p, trials);
    } else if Carries(p) {
      CarryTraced(s, s', t, p, trials);
    } else if p.DoSetEnd? {
      SetEndTraced(s, s', t, trials);
    } else if p.DoRegisterExec? {
      RegisterTraced(s, s', t, trials);
    } else {
      GoDestroyTraced(s, s', t, trials);
    }
  }

  lemma OwnStepTraced(s: Pool, s': Pool, t: CallId, p: CallAct, trials: seq<Trial>)
    requires CallStep(s, s', t, p) && t in s.calls && Traced(s.calls[t], trials) && Matched(s.calls[t], trials)
    ensures t in s'.calls
    ensures Traced(s'.calls[t], trials + Ended(s, s', t)) && Matched(s'.calls[t], trials + Ended(s, s', t))
  {
    if p.DoExchange? {
      EndedByExchange(s, s', t, p.outcome);
      ExchangeTraced(s, s', t, p.outcome, trials);
    } else {
      MoveTraced(s, s', t, p, trials);
      NothingEnded(s, s', t);
      assert trials + [] == trials;
    }
  }

  lemma EnterTraced(s: Pool, s': Pool, t: CallId, p: CallAct)
    requires CallStep(s, s', t, p) && t !in s.calls
    ensures t in s'.calls && Traced(s'.calls[t], []) && Ended(s, s', t) == []
  {
  }

  /** Call t is untouched, or takes a step of its own. */
  lemma StepTraced(s: Pool, s': Pool, t: CallId, trials: seq<Trial>)
    requires Next(s, s')
    requires if t in s.calls then Traced(s.calls[t], trials) && Matched(s.calls[t], trials) else trials == []
    ensures var more := trials + Ended(s, s', t);
            if t in s'.calls then Traced(s'.calls[t], more) && Matched(s'.calls[t], more) else more == []
  {
    var step :| Does(s, s', step);
    if step.OfCall? && step.t == t {
      if t in s.calls {
        OwnStepTraced(s, s', t, step.call, trials);
      } else {
        EnterTraced(s, s', t, step.call);
      }
    } else {
      OthersWait(s, s', step, t);
      NothingEnded(s, s', t);
      assert trials + [] == trials;
    }
  }

  // ---------------------------------------------------------------- over whole runs

  lemma {:induction false} AlwaysTraced(r: seq<Pool>, j: nat, t: CallId)
    requires Run(r) && j < |r|
    ensures if t in r[j].calls then Traced(r[j].calls[t], Trials(r, j, t)) && Matched(r[j].calls[t], Trials(r, j, t))
            else Trials(r, j, t) == []
  {
    if j > 0 {
      AlwaysTraced(r, j - 1, t);
      RunStep(r, j - 1);
      StepTraced(r[j - 1], r[j], t, Trials(r, j - 1, t));
    }
  }

  /** The call answers with the outcome of its last exchange, unless that was a request to be replaced:
      the reply itself, the job error with its own message, or the failure of the relay.  A request to be
      replaced is followed by another attempt, so all exchanges but the last end in one.  And the caller is
      told that the worker refused exactly when the last attempt came to no exchange. */
  lemma AnswerIsLastOutcome(r: seq<Pool>, j: nat, t: CallId)
    requires Run(r) && j < |r| && t in r[j].calls && r[j].calls[t].pc.Returned?
    ensures var result, attempts, trials := r[j].calls[t].pc.result, r[j].calls[t].attempts, Trials(r, j, t);
            && (forall rsp :: result == Response(rsp) <==>
                  trials != [] && trials[|trials| - 1].outcome == Reply(rsp) && !IsStopRequest(rsp))
            && (forall m :: result == SoftError(m) <==> trials != [] && trials[|trials| - 1].outcome == JobError(m))
            && (result == Failure(WorkerBroken) <==> trials != [] && trials[|trials| - 1].outcome.RelayError?)
            && (result == Failure(WorkerRefused) <==> |attempts| == |trials| + 1)
            && |trials| <= |attempts| <= |trials| + 1
            && (forall k :: 0 <= k < |trials| ==> trials[k].w == attempts[k].w)
            && (forall k :: 0 <= k < |attempts| - 1 ==>
                  k < |trials| && trials[k].outcome.Reply? && IsStopRequest(trials[k].outcome.rsp))
  {
    AlwaysTraced(r, j, t);
    ConcludedExactly(r[j].calls[t].pc.result, |r[j].calls[t].attempts|, Trials(r, j, t));
  }

  lemma ConcludedExactly(result: Result, m: nat, trials: seq<Trial>)
    requires Concluded(result, m, trials)
    ensures forall rsp :: result == Response(rsp) <==>
              trials != [] && trials[|trials| - 1].outcome == Reply(rsp) && !IsStopRequest(rsp)
    ensures forall e :: result == SoftError(e) <==> trials != [] && trials[|trials| - 1].outcome == JobError(e)
    ensures result == Failure(WorkerBroken) <==> trials != [] && trials[|trials| - 1].outcome.RelayError?
    ensures result == Failure(WorkerRefused) <==> m == |trials| + 1
    ensures |trials| <= m <= |trials| + 1
    ensures forall k :: 0 <= k < m - 1 ==> AsksToStop(trials[k].outcome)
  {
  }
}
