/**
 The free channel over whole runs: first in, first out, and no worker is lost on the way.
 */
module PoolQueue {
  import opened Basics
  import opened PoolModel
  import opened PoolFrames
  import opened PoolOwnership
  import opened PoolPopulation

  // ---------------------------------------------------------------- first in, first out

  /** Call t puts its worker into the channel, a watcher its replacement, or NewPool its new worker. */
  ghost predicate Puts(s: Pool, s': Pool, w: WorkerId) {
    || (exists t :: PutsBack(s, s', t, w))
    || (exists x :: PutsReplacement(s, s', x, w))
    || (BuildEnqueue(s, s') && s.builder.w == w)
  }

  predicate PutsBack(s: Pool, s': Pool, t: CallId, w: WorkerId) {
    Enqueue(s, s', t) && s.calls[t].pc.w == w
  }

  predicate PutsReplacement(s: Pool, s': Pool, x: WorkerId, w: WorkerId) {
    EnqueueReplacement(s, s', x) && s.workers[x].watch.listed == w
  }

  /** Call t gets the worker w. */
  predicate Gets(s: Pool, s': Pool, t: CallId, w: WorkerId) {
    && t in s.calls && t in s'.calls
    && s.calls[t].pc.Looping? && s'.calls[t].pc.Received? && s'.calls[t].pc.w == w
  }

  ghost predicate Taken(s: Pool, s': Pool, w: WorkerId) {
    exists t :: Gets(s, s', t, w)
  }

  ghost function PutNow(s: Pool, s': Pool): seq<WorkerId> {
    if exists w :: Puts(s, s', w) then var w :| Puts(s, s', w); [w] else []
  }

  ghost function TakenNow(s: Pool, s': Pool): seq<WorkerId> {
    if exists w :: Taken(s, s', w) then var w :| Taken(s, s', w); [w] else []
  }

  /** The workers put into the channel so far, in order. */
  ghost function PutSoFar(r: seq<Pool>, j: nat): seq<WorkerId>
    requires j < |r|
  {
    if j == 0 then [] else PutSoFar(r, j - 1) + PutNow(r[j - 1], r[j])
  }

  /** The workers that calls got out of it so far, in order. */
  ghost function TakenSoFar(r: seq<Pool>, j: nat): seq<WorkerId>
    requires j < |r|
  {
    if j == 0 then [] else TakenSoFar(r, j - 1) + TakenNow(r[j - 1], r[j])
  }

  /** What a put does to the channel. */
  lemma PutAppends(s: Pool, s': Pool, w: WorkerId)
    requires Puts(s, s', w)
    ensures s'.free == s.free + [w] && forall v :: !Taken(s, s', v)
  {
  }

  lemma PutNowIs(s: Pool, s': Pool, w: WorkerId)
    requires Puts(s, s', w)
    ensures PutNow(s, s') == [w] && TakenNow(s, s') == []
  {
    PutAppends(s, s', w);
    forall v | Puts(s, s', v)
      ensures v == w
    {
      PutAppends(s, s', v);
      assert s'.free[|s.free|] == v;
    }
  }

  lemma NonePut(s: Pool, s': Pool)
    requires |s'.free| <= |s.free|
    ensures PutNow(s, s') == []
  {
    forall w
      ensures !Puts(s, s', w)
    {
      if Puts(s, s', w) {
        PutAppends(s, s', w);
      }
    }
  }

  lemma ReceiveTakes(s: Pool, s': Pool, t: CallId)
    requires Receive(s, s', t)
    ensures TakenNow(s, s') == [s.free[0]] && PutNow(s, s') == [] && s.free == [s.free[0]] + s'.free
  {
    NonePut(s, s');
    assert Gets(s, s', t, s.free[0]) && Taken(s, s', s.free[0]);
    forall w | Taken(s, s', w)
      ensures w == s.free[0]
    {
      var u :| Gets(s, s', u, w);
      assert u == t;
    }
  }

  lemma NoneTaken(s: Pool, s': Pool)
    requires forall t :: t in s'.calls && s'.calls[t].pc.Received? ==> t in s.calls && s.calls[t].pc.Received?
    ensures TakenNow(s, s') == []
  {
  }

  /** Only a receive brings a call to a worker it has just got. */
  lemma OnlyReceiveGets(s: Pool, s': Pool, t: CallId, p: CallAct)
    requires CallStep(s, s', t, p) && !p.DoReceive?
    ensures t in s'.calls && !s'.calls[t].pc.Received?
  {
    if OnWorker(p) {
      OnWorkerGetsNone(s, s', t, p);
    }
  }

  lemma OnWorkerGetsNone(s: Pool, s': Pool, t: CallId, p: CallAct)
    requires CallStep(s, s', t, p) && OnWorker(p)
    ensures t in s'.calls && !s'.calls[t].pc.Received?
  {
  }

  lemma CallQueues(s: Pool, s': Pool, t: CallId, p: CallAct)
    requires CallStep(s, s', t, p)
    ensures s.free + PutNow(s, s') == TakenNow(s, s') + s'.free
  {
    if p.DoReceive? {
      ReceiveTakes(s, s', t);
    } else {
      CallFrame(s, s', t, p);
      OnlyReceiveGets(s, s', t, p);
      if p.DoEnqueue? {
        assert PutsBack(s, s', t, s.calls[t].pc.w);
        PutNowIs(s, s', s.calls[t].pc.w);
        PutAppends(s, s', s.calls[t].pc.w);
      } else {
        NonePut(s, s');
        NoneTaken(s, s');
      }
    }
  }

  lemma WatchKeepsFree(s: Pool, s': Pool, x: WorkerId, p: WatchAct)
    requires WatchStep(s, s', x, p) && !p.DoEnqueueReplacement?
    ensures s'.free == s.free && s'.calls == s.calls
  {
  }

  lemma WatchQueues(s: Pool, s': Pool, x: WorkerId, p: WatchAct)
    requires WatchStep(s, s', x, p)
    ensures s.free + PutNow(s, s') == TakenNow(s, s') + s'.free
  {
    if p.DoEnqueueReplacement? {
      assert PutsReplacement(s, s', x, s.workers[x].watch.listed);
      PutNowIs(s, s', s.workers[x].watch.listed);
      PutAppends(s, s', s.workers[x].watch.listed);
    } else {
      WatchKeepsFree(s, s', x, p);
      NonePut(s, s');
      NoneTaken(s, s');
    }
  }

  lemma BuildQueues(s: Pool, s': Pool, p: BuildAct)
    requires BuildStep(s, s', p)
    ensures s.free + PutNow(s, s') == TakenNow(s, s') + s'.free
  {
    if p.DoBuildEnqueue? {
      assert Puts(s, s', s.builder.w);
      PutNowIs(s, s', s.builder.w);
      PutAppends(s, s', s.builder.w);
    } else {
      NonePut(s, s');
      NoneTaken(s, s');
    }
  }

  lemma StepQueues(s: Pool, s': Pool)
    requires Next(s, s')
    ensures s.free + PutNow(s, s') == TakenNow(s, s') + s'.free
  {
    var step :| Does(s, s', step);
    match step
    case OfCall(t, p) => CallQueues(s, s', t, p);
    case OfWatcher(x, p) => WatchQueues(s, s', x, p);
    case OfBuilder(p) => BuildQueues(s, s', p);
    case OfWorker(w, p) =>
      WorkerFrame(s, s', w, p);
      NonePut(s, s');
      NoneTaken(s, s');
    case OfDestroy(p) =>
      DestroyFrame(s, s', p);
      NonePut(s, s');
      NoneTaken(s, s');
  }

  /** The workers put into the channel are, in order, those that calls got out of it and then those in it. */
  lemma {:induction false} FirstInFirstOut(r: seq<Pool>, j: nat)
    requires Run(r) && j < |r|
    ensures PutSoFar(r, j) == TakenSoFar(r, j) + r[j].free
  {
    if j > 0 {
      FirstInFirstOut(r, j - 1);
      RunStep(r, j - 1);
      StepQueues(r[j - 1], r[j]);
      QueueGrows(TakenSoFar(r, j - 1), r[j - 1].free, PutNow(r[j - 1], r[j]), TakenNow(r[j - 1], r[j]), r[j].free);
    }
  }

  lemma QueueGrows(taken: seq<WorkerId>, free: seq<WorkerId>, put: seq<WorkerId>, took: seq<WorkerId>,
                   free': seq<WorkerId>)
    requires free + put == took + free'
    ensures taken + free + put == taken + took + free'
  {
    assert taken + free + put == taken + (free + put);
    assert taken + took + free' == taken + (took + free');
  }

  // ---------------------------------------------------------------- no worker is lost

  /** Some call discards w, or drops it as not ready. */
  ghost predicate GivesUp(s: Pool, s': Pool, w: WorkerId) {
    exists t :: GivesUpBy(s, s', t, w)
  }

  predicate GivesUpBy(s: Pool, s': Pool, t: CallId, w: WorkerId) {
    (GoDestroy(s, s', t) || DropDead(s, s', t)) && s.calls[t].pc.w == w
  }

  ghost predicate IsHeld(s: Pool, w: WorkerId) {
    exists h :: Holds(s, h, w)
  }

  lemma CallHolds(s: Pool, s': Pool, t: CallId, p: CallAct, h: Holder, w: WorkerId)
    requires CallStep(s, s', t, p) && Holds(s, h, w)
    ensures IsHeld(s', w) || GivesUp(s, s', w)
  {
    CallFrame(s, s', t, p);
    if p.DoReceive? {
      var h' := if h == Slot(0) then Task(t) else if h.Slot? then Slot(h.index - 1) else h;
      assert Holds(s', h', w);
    } else if p.DoEnqueue? {
      var h' := if h == Task(t) then Slot(|s.free|) else h;
      assert Holds(s', h', w);
    } else if h == Task(t) {
      TaskHolds(s, s', t, p, w);
    } else {
      assert Holds(s', h, w);
    }
  }

  /** A call lets go of its worker only by enqueueing it or giving it up. */
  lemma TaskHolds(s: Pool, s': Pool, t: CallId, p: CallAct, w: WorkerId)
    requires CallStep(s, s', t, p) && !p.DoEnqueue? && Holds(s, Task(t), w)
    ensures IsHeld(s', w) || GivesUp(s, s', w)
  {
    if p.DoGoDestroy? || p.DoDropDead? {
      assert GivesUpBy(s, s', t, w);
    } else {
      StillHolds(s, s', t, p);
      assert Holds(s', Task(t), w);
    }
  }

  lemma StillHolds(s: Pool, s': Pool, t: CallId, p: CallAct)
    requires CallStep(s, s', t, p) && !p.DoEnqueue? && !p.DoGoDestroy? && !p.DoDropDead?
    requires t in s.calls && Held(s.calls[t].pc).Some?
    ensures t in s'.calls && Held(s'.calls[t].pc) == Held(s.calls[t].pc)
  {
    if OnWorker(p) {
      OnWorkerHolds(s, s', t, p);
    }
  }

  lemma OnWorkerHolds(s: Pool, s': Pool, t: CallId, p: CallAct)
    requires CallStep(s, s', t, p) && OnWorker(p) && !p.DoGoDestroy?
    ensures t in s.calls && t in s'.calls && Held(s'.calls[t].pc) == Held(s.calls[t].pc)
  {
  }

  lemma WatchHoldsOn(s: Pool, s': Pool, x: WorkerId, p: WatchAct, h: Holder, w: WorkerId)
    requires WatchStep(s, s', x, p) && NewUnlisted(s) && Holds(s, h, w)
    ensures IsHeld(s', w)
  {
    var h' := if p.DoEnqueueReplacement? && h == Watcher(x) then Slot(|s.free|) else h;
    assert Holds(s', h', w);
  }

  lemma BuildHoldsOn(s: Pool, s': Pool, p: BuildAct, h: Holder, w: WorkerId)
    requires BuildStep(s, s', p) && NewUnlisted(s) && Holds(s, h, w)
    ensures IsHeld(s', w)
  {
    var h' := if p.DoBuildEnqueue? && h == NewPool then Slot(|s.free|) else h;
    assert Holds(s', h', w);
  }

  lemma DestroyHoldsOn(s: Pool, s': Pool, p: DestroyAct, h: Holder, w: WorkerId)
    requires DestroyStep(s, s', p) && Holds(s, h, w)
    ensures IsHeld(s', w)
  {
    DestroyFrame(s, s', p);
    assert Holds(s', h, w);
  }

  lemma WorkerHoldsOn(s: Pool, s': Pool, v: WorkerId, p: WorkerAct, h: Holder, w: WorkerId)
    requires WorkerStep(s, s', v, p) && Holds(s, h, w)
    ensures IsHeld(s', w)
  {
    WorkerFrame(s, s', v, p);
    assert Holds(s', h, w);
  }

  lemma StepHoldsOn(s: Pool, s': Pool, w: WorkerId)
    requires Next(s, s') && NewUnlisted(s) && IsHeld(s, w)
    ensures IsHeld(s', w) || GivesUp(s, s', w)
  {
    var h :| Holds(s, h, w);
    var step :| Does(s, s', step);
    match step
    case OfCall(t, p) => CallHolds(s, s', t, p, h, w);
    case OfWatcher(x, p) => WatchHoldsOn(s, s', x, p, h, w);
    case OfWorker(v, p) => WorkerHoldsOn(s, s', v, p, h, w);
    case OfBuilder(p) => BuildHoldsOn(s, s', p, h, w);
    case OfDestroy(p) => DestroyHoldsOn(s, s', p, h, w);
  }

  /** A new worker is with its creator. */
  lemma NewIsHeld(s: Pool, s': Pool, w: WorkerId)
    requires Next(s, s') && w !in s.workers && w in s'.workers
    ensures IsHeld(s', w)
  {
    var step :| Does(s, s', step);
    match step
    case OfWatcher(x, p) =>
      WatchFrame(s, s', x, p);
      SpawnIsHeld(s, s', x, w);
    case OfBuilder(p) => assert Holds(s', NewPool, w);
    case _ => QuietFrame(s, s', step);
  }

  lemma SpawnIsHeld(s: Pool, s': Pool, x: WorkerId, nw: WorkerId)
    requires SpawnReplacement(s, s', x, nw)
    ensures IsHeld(s', nw)
  {
    assert Holds(s', Watcher(x), nw);
  }

  ghost predicate GivesUpAt(r: seq<Pool>, i: nat, w: WorkerId) {
    i + 1 < |r| && GivesUp(r[i], r[i + 1], w)
  }

  ghost predicate HasGivenUp(r: seq<Pool>, j: nat, w: WorkerId) {
    exists i: nat :: i < j && GivesUpAt(r, i, w)
  }

  lemma GivenUpMore(r: seq<Pool>, j: nat, w: WorkerId)
    ensures HasGivenUp(r, j + 1, w) <==> HasGivenUp(r, j, w) || GivesUpAt(r, j, w)
  {
  }

  lemma GoneUnlessHeld(s: Pool, w: WorkerId)
    requires w in s.workers
    ensures Gone(s, w) <==> !IsHeld(s, w)
  {
  }

  lemma GivingUpIsGone(r: seq<Pool>, i: nat, w: WorkerId)
    requires Run(r) && i + 1 < |r| && GivesUpAt(r, i, w)
    ensures Gone(r[i + 1], w)
  {
    var t :| GivesUpBy(r[i], r[i + 1], t, w);
    GivenUpIsGone(r, i, t);
  }

  lemma GoneInStep(r: seq<Pool>, j: nat, w: WorkerId)
    requires Run(r) && j + 1 < |r| && w in r[j + 1].workers
    ensures Gone(r[j + 1], w) <==> (w in r[j].workers && Gone(r[j], w)) || GivesUpAt(r, j, w)
  {
    RunStep(r, j);
    AlwaysOwned(r, j);
    AlwaysNewUnlisted(r, j);
    GoneUnlessHeld(r[j + 1], w);
    if GivesUpAt(r, j, w) {
      GivingUpIsGone(r, j, w);
    } else if w !in r[j].workers {
      NewIsHeld(r[j], r[j + 1], w);
    } else {
      GoneUnlessHeld(r[j], w);
      if IsHeld(r[j], w) {
        StepHoldsOn(r[j], r[j + 1], w);
      } else {
        GoneStep(r[j], r[j + 1], w);
      }
    }
  }

  lemma AbsentNeverGivenUp(s: Pool, s': Pool, w: WorkerId)
    requires Owned(s) && GivesUp(s, s', w)
    ensures w in s.workers
  {
    var t :| GivesUpBy(s, s', t, w);
    assert Holds(s, Task(t), w);
  }

  /** A worker is out of every hand, the channel included, exactly when some call has discarded it or dropped
      it as not ready: no worker is lost in any other way. */
  lemma {:induction false} GoneExactly(r: seq<Pool>, j: nat, w: WorkerId)
    requires Run(r) && j < |r|
    ensures w in r[j].workers && Gone(r[j], w) <==> HasGivenUp(r, j, w)
  {
    if j > 0 {
      GoneExactly(r, j - 1, w);
      GivenUpMore(r, j - 1, w);
      AlwaysOwned(r, j - 1);
      RunStep(r, j - 1);
      StepOwned(r[j - 1], r[j]);
      if w in r[j].workers {
        GoneInStep(r, j - 1, w);
      } else if GivesUpAt(r, j - 1, w) {
        AbsentNeverGivenUp(r[j - 1], r[j], w);
      }
    }
  }
}
