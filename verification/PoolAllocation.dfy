/**
 Allocation gives up with "all workers are dead" exactly when it read a negative dead-worker counter.
 */
module PoolAllocation {
  import opened PoolModel
  import opened PoolFrames
  import opened PoolAccounting

  predicate TellsDead(result: Result) {
    result == Failure(AllDead)
  }

  /** The call is about to be told, or has been told, that all workers are dead. */
  predicate Hopeless(pc: CallPc) {
    match pc
    case Looping(i) => i < 0
    case Leaving(r) => TellsDead(r)
    case Returned(r) => TellsDead(r)
    case _ => false
  }

  /** What `discardWorker` comes back to is not a hopeless allocation. */
  predicate Hopeful(a: After) {
    match a
    case Continue(i) => i >= 0
    case Retry => true
    case Answer(r) => !TellsDead(r)
  }

  /** Past its loop test an allocation has an index of at least zero, and nothing that is done with a worker
      ends in the answer that all are dead. */
  predicate Indexed(pc: CallPc) {
    match pc
    case Received(i, _) => i >= 0
    case Dropping(i, _) => i >= 0
    case Checking(i, _) => i >= 0
    case Releasing(_, r) => !TellsDead(r)
    case ReleaseChecking(_, r) => !TellsDead(r)
    case Enqueueing(_, r) => !TellsDead(r)
    case Invalidating(_, a) => Hopeful(a)
    case Destroying(_, a) => Hopeful(a)
    case _ => true
  }

  /** Where the call goes from an indexed position. */
  ghost predicate GoesOn(s: Pool, s': Pool, t: CallId, p: CallAct) {
    && t in s'.calls && Indexed(s'.calls[t].pc)
    && (Hopeless(s'.calls[t].pc) <==>
          || (t in s.calls && Hopeless(s.calls[t].pc))
          || (p.DoLoadDead? && s.numDead < 0))
  }

  lemma OnWorkerGoesOn(s: Pool, s': Pool, t: CallId, p: CallAct)
    requires CallStep(s, s', t, p) && OnWorker(p) && Indexed(s.calls[t].pc)
    ensures GoesOn(s, s', t, p)
  {
  }

  lemma OnPoolGoesOn(s: Pool, s': Pool, t: CallId, p: CallAct)
    requires CallStep(s, s', t, p) && OnPool(p) && (t in s.calls ==> Indexed(s.calls[t].pc))
    ensures GoesOn(s, s', t, p)
  {
  }

  lemma MovesGoOn(s: Pool, s': Pool, t: CallId, p: CallAct)
    requires CallStep(s, s', t, p) && !OnWorker(p) && !OnPool(p) && Indexed(s.calls[t].pc)
    ensures GoesOn(s, s', t, p)
  {
  }

  lemma CallGoesOn(s: Pool, s': Pool, t: CallId, p: CallAct)
    requires CallStep(s, s', t, p) && (t in s.calls ==> Indexed(s.calls[t].pc))
    ensures GoesOn(s, s', t, p)
  {
    if OnWorker(p) {
      OnWorkerGoesOn(s, s', t, p);
    } else if OnPool(p) {
      OnPoolGoesOn(s, s', t, p);
    } else {
      MovesGoOn(s, s', t, p);
    }
  }

  /** Call t reads a negative counter in step i of the run. */
  ghost predicate ReadsNegative(r: seq<Pool>, i: nat, t: CallId) {
    i + 1 < |r| && LoadDead(r[i], r[i + 1], t) && r[i].numDead < 0
  }

  ghost predicate HasReadNegative(r: seq<Pool>, j: nat, t: CallId) {
    exists i: nat :: i < j && ReadsNegative(r, i, t)
  }

  lemma ReadsMore(r: seq<Pool>, j: nat, t: CallId)
    ensures HasReadNegative(r, j + 1, t) <==> HasReadNegative(r, j, t) || ReadsNegative(r, j, t)
  {
  }

  /** In one step a call becomes hopeless exactly by reading a negative counter, and stays so. */
  lemma HopelessStep(s: Pool, s': Pool, t: CallId)
    requires Next(s, s') && (t in s.calls ==> Indexed(s.calls[t].pc))
    ensures t in s.calls ==> t in s'.calls
    ensures t in s'.calls ==> Indexed(s'.calls[t].pc)
    ensures t in s'.calls && Hopeless(s'.calls[t].pc) <==>
              || (t in s.calls && Hopeless(s.calls[t].pc))
              || (LoadDead(s, s', t) && s.numDead < 0)
  {
    if LoadDead(s, s', t) {
      CallGoesOn(s, s', t, DoLoadDead);
    } else {
      var step :| Does(s, s', step);
      if step.OfCall? && step.t == t {
        CallGoesOn(s, s', t, step.call);
      } else {
        OthersWait(s, s', step, t);
      }
    }
  }

  lemma {:induction false} HopelessExactly(r: seq<Pool>, j: nat, t: CallId)
    requires Run(r) && j < |r|
    ensures t in r[j].calls ==> Indexed(r[j].calls[t].pc)
    ensures t in r[j].calls && Hopeless(r[j].calls[t].pc) <==> HasReadNegative(r, j, t)
  {
    if j > 0 {
      HopelessExactly(r, j - 1, t);
      RunStep(r, j - 1);
      HopelessStep(r[j - 1], r[j], t);
      ReadsMore(r, j - 1, t);
    }
  }

  /** Call t reads the counter in step i, while more workers are dropped ahead of their watcher than are
      registered dead and not dropped. */
  ghost predicate ReadsOutnumbered(r: seq<Pool>, i: nat, t: CallId) {
    i + 1 < |r| && LoadDead(r[i], r[i + 1], t) && |Awaited(r[i])| < |DroppedEarly(r[i])|
  }

  lemma NegativeWhenOutnumbered(r: seq<Pool>, i: nat, t: CallId)
    requires Run(r)
    ensures ReadsNegative(r, i, t) <==> ReadsOutnumbered(r, i, t)
  {
    if i < |r| {
      DeadEntriesAccounted(r, i);
    }
  }

  /** A call that is over was told that all workers are dead exactly when it had read a negative counter,
      which is when early drops outnumbered the workers waiting to be dropped. */
  lemma AllDeadExactly(r: seq<Pool>, j: nat, t: CallId)
    requires Run(r) && j < |r| && t in r[j].calls
    requires r[j].calls[t].pc.Leaving? || r[j].calls[t].pc.Returned?
    ensures r[j].calls[t].pc.result == Failure(AllDead) <==> HasReadNegative(r, j, t)
    ensures r[j].calls[t].pc.result == Failure(AllDead) <==> exists i: nat :: i < j && ReadsOutnumbered(r, i, t)
  {
    HopelessExactly(r, j, t);
    forall i: nat
      ensures ReadsNegative(r, i, t) <==> ReadsOutnumbered(r, i, t)
    {
      NegativeWhenOutnumbered(r, i, t);
    }
  }
}
