/**
 Who may touch a worker: in every interleaving a worker has at most one holder,
 and a worker without a holder never gets one again.
 */
module PoolOwnership {
  import opened Basics
  import opened PoolModel
  import opened PoolFrames

  /** A place a worker can be: a slot of the free channel, an Exec call, or a creator that has
      not put its new worker into the channel yet. */
  datatype Holder = Slot(index: nat) | Task(call: CallId) | Watcher(of: WorkerId) | NewPool

  /** The worker a call holds. */
  function Held(pc: CallPc): Option<WorkerId> {
    if pc.Entering? || pc.Admitted? || pc.Looping? || pc.Leaving? || pc.Returned? then None else Some(pc.w)
  }

  predicate Holds(s: Pool, h: Holder, w: WorkerId) {
    match h
    case Slot(i) => i < |s.free| && s.free[i] == w
    case Task(t) => t in s.calls && Held(s.calls[t].pc) == Some(w)
    case Watcher(x) => x in s.workers && (s.workers[x].watch == HasSpawned(w) || s.workers[x].watch == HasListed(w))
    case NewPool => (s.builder.BuildSpawned? || s.builder.BuildListed?) && s.builder.w == w
  }

  ghost predicate HeldExist(s: Pool) {
    forall h, w :: Holds(s, h, w) ==> w in s.workers
  }

  ghost predicate UniqueHolder(s: Pool) {
    forall h, k, w :: Holds(s, h, w) && Holds(s, k, w) ==> h == k
  }

  ghost predicate Owned(s: Pool) {
    HeldExist(s) && UniqueHolder(s)
  }

  /** Nobody holds w: it was discarded or dropped. */
  ghost predicate Gone(s: Pool, w: WorkerId) {
    w in s.workers && forall h :: !Holds(s, h, w)
  }

  // ---------------------------------------------------------------- how a step moves workers

  /** No worker gains a holder. */
  ghost predicate Shrinks(s: Pool, s': Pool) {
    && s.workers.Keys <= s'.workers.Keys
    && forall h, w :: Holds(s', h, w) ==> Holds(s, h, w)
  }

  /** Every holder in s' comes from one in s, or holds a worker that did not exist. */
  ghost predicate Moves(s: Pool, s': Pool) {
    && s.workers.Keys <= s'.workers.Keys
    && forall h, w :: Holds(s', h, w) && w in s.workers ==> exists k :: Holds(s, k, w)
  }

  /** Only a receive gives a call a worker. */
  lemma CallKeepsHold(s: Pool, s': Pool, t: CallId, p: CallAct)
    requires CallStep(s, s', t, p) && !p.DoReceive?
    requires Held(s'.calls[t].pc).Some?
    ensures t in s.calls && Held(s.calls[t].pc) == Held(s'.calls[t].pc)
  {
    if OnWorker(p) {
      KeepsHoldOnWorker(s, s', t, p);
    }
  }

  lemma KeepsHoldOnWorker(s: Pool, s': Pool, t: CallId, p: CallAct)
    requires CallStep(s, s', t, p) && OnWorker(p)
    requires Held(s'.calls[t].pc).Some?
    ensures t in s.calls && Held(s.calls[t].pc) == Held(s'.calls[t].pc)
  {
    if p.DoRegisterExec? || p.DoGoDestroy? {
      KeepsHoldAtTurns(s, s', t, p);
    }
  }

  lemma KeepsHoldAtTurns(s: Pool, s': Pool, t: CallId, p: CallAct)
    requires CallStep(s, s', t, p) && (p.DoRegisterExec? || p.DoGoDestroy?)
    requires Held(s'.calls[t].pc).Some?
    ensures t in s.calls && Held(s.calls[t].pc) == Held(s'.calls[t].pc)
  {
  }

  lemma QuietCall(s: Pool, s': Pool, t: CallId, p: CallAct)
    requires CallStep(s, s', t, p) && !p.DoReceive? && !p.DoEnqueue?
    ensures Shrinks(s, s')
  {
    CallFrame(s, s', t, p);
    forall h, w | Holds(s', h, w)
      ensures Holds(s, h, w)
    {
      if h == Task(t) {
        CallKeepsHold(s, s', t, p);
      }
    }
  }

  lemma ReceiveOwned(s: Pool, s': Pool, t: CallId)
    requires Owned(s) && Receive(s, s', t)
    ensures Owned(s') && Moves(s, s')
  {
    forall h, w | Holds(s', h, w)
      ensures Holds(s, if h.Slot? then Slot(h.index + 1) else if h == Task(t) then Slot(0) else h, w)
    {
    }
  }

  lemma EnqueueOwned(s: Pool, s': Pool, t: CallId)
    requires Owned(s) && Enqueue(s, s', t)
    ensures Owned(s') && Moves(s, s')
  {
    forall h, w | Holds(s', h, w)
      ensures Holds(s, if h == Slot(|s.free|) then Task(t) else h, w)
    {
    }
  }

  lemma SpawnOwned(s: Pool, s': Pool, w: WorkerId, nw: WorkerId)
    requires Owned(s) && SpawnReplacement(s, s', w, nw)
    ensures Owned(s') && Moves(s, s')
  {
    forall h, v | Holds(s', h, v)
      ensures if h == Watcher(w) then v == nw else Holds(s, h, v)
    {
    }
  }

  lemma EnqueueReplacementOwned(s: Pool, s': Pool, w: WorkerId)
    requires Owned(s) && EnqueueReplacement(s, s', w)
    ensures Owned(s') && Moves(s, s')
  {
    forall h, v | Holds(s', h, v)
      ensures Holds(s, if h == Slot(|s.free|) then Watcher(w) else h, v)
    {
    }
  }

  lemma QuietWatch(s: Pool, s': Pool, w: WorkerId, p: WatchAct)
    requires WatchStep(s, s', w, p) && !p.DoSpawnReplacement? && !p.DoEnqueueReplacement?
    ensures Shrinks(s, s')
  {
  }

  lemma WatchOwned(s: Pool, s': Pool, w: WorkerId, p: WatchAct)
    requires Owned(s) && WatchStep(s, s', w, p)
    ensures Owned(s') && Moves(s, s')
  {
    if p.DoSpawnReplacement? {
      SpawnOwned(s, s', w, p.nw);
    } else if p.DoEnqueueReplacement? {
      EnqueueReplacementOwned(s, s', w);
    } else {
      QuietWatch(s, s', w, p);
    }
  }

  lemma BuildOwned(s: Pool, s': Pool, p: BuildAct)
    requires Owned(s) && BuildStep(s, s', p)
    ensures Owned(s') && Moves(s, s')
  {
    forall h, v | Holds(s', h, v)
      ensures if p.DoBuildSpawn? && h == NewPool then v == p.nw
              else Holds(s, if p.DoBuildEnqueue? && h == Slot(|s.free|) then NewPool else h, v)
    {
    }
  }

  lemma CallOwned(s: Pool, s': Pool, t: CallId, p: CallAct)
    requires Owned(s) && CallStep(s, s', t, p)
    ensures Owned(s') && Moves(s, s')
  {
    if p.DoReceive? {
      ReceiveOwned(s, s', t);
    } else if p.DoEnqueue? {
      EnqueueOwned(s, s', t);
    } else {
      QuietCall(s, s', t, p);
    }
  }

  lemma QuietWorker(s: Pool, s': Pool, w: WorkerId, p: WorkerAct)
    requires WorkerStep(s, s', w, p)
    ensures Shrinks(s, s')
  {
    WorkerFrame(s, s', w, p);
  }

  lemma QuietDestroy(s: Pool, s': Pool, p: DestroyAct)
    requires DestroyStep(s, s', p)
    ensures Shrinks(s, s')
  {
  }

  lemma StepOwned(s: Pool, s': Pool)
    requires Owned(s) && Next(s, s')
    ensures Owned(s') && Moves(s, s')
  {
    var step :| Does(s, s', step);
    match step
    case OfCall(t, p) =>
      CallOwned(s, s', t, p);
    case OfWatcher(w, p) => WatchOwned(s, s', w, p);
    case OfWorker(w, p) => QuietWorker(s, s', w, p);
    case OfBuilder(p) => BuildOwned(s, s', p);
    case OfDestroy(p) => QuietDestroy(s, s', p);
  }

  // ---------------------------------------------------------------- over whole runs

  /** In every reachable state a worker is in at most one place. */
  lemma {:induction false} AlwaysOwned(r: seq<Pool>, i: nat)
    requires Run(r) && i < |r|
    ensures Owned(r[i])
  {
    if i > 0 {
      AlwaysOwned(r, i - 1);
      RunStep(r, i - 1);
      StepOwned(r[i - 1], r[i]);
    }
  }

  /** The free channel has no duplicates, no two calls hold the same worker, and no call holds a
      worker that sits in the channel. */
  lemma ExclusiveUse(r: seq<Pool>, i: nat)
    requires Run(r) && i < |r|
    ensures Distinct(r[i].free)
    ensures forall t, u, w :: t in r[i].calls && u in r[i].calls && t != u && Held(r[i].calls[t].pc) == Some(w)
                              ==> Held(r[i].calls[u].pc) != Some(w)
    ensures forall t, w :: t in r[i].calls && Held(r[i].calls[t].pc) == Some(w) ==> w !in r[i].free
  {
    AlwaysOwned(r, i);
    var s := r[i];
    forall a, b | 0 <= a < b < |s.free|
      ensures s.free[a] != s.free[b]
    {
      assert Holds(s, Slot(a), s.free[a]) && Holds(s, Slot(b), s.free[b]);
    }
    forall t, u, w | t in s.calls && u in s.calls && t != u && Held(s.calls[t].pc) == Some(w)
      ensures Held(s.calls[u].pc) != Some(w)
    {
      assert Holds(s, Task(t), w) && Task(t) != Task(u);
      assert !Holds(s, Task(u), w);
    }
    forall t, w | t in s.calls && Held(s.calls[t].pc) == Some(w)
      ensures w !in s.free
    {
      assert Holds(s, Task(t), w);
      if a :| 0 <= a < |s.free| && s.free[a] == w {
        assert Holds(s, Slot(a), w);
      }
    }
  }

  /** A discarded or dropped worker is never held again: no later call gets it, and it is in no
      later free channel. */
  lemma {:induction false} GoneForGood(r: seq<Pool>, i: nat, j: nat, w: WorkerId)
    requires Run(r) && i <= j < |r| && Gone(r[i], w)
    ensures Gone(r[j], w)
    decreases j
  {
    if i < j {
      GoneForGood(r, i, j - 1, w);
      AlwaysOwned(r, j - 1);
      RunStep(r, j - 1);
      GoneStep(r[j - 1], r[j], w);
    }
  }

  lemma GoneStep(s: Pool, s': Pool, w: WorkerId)
    requires Owned(s) && Next(s, s') && Gone(s, w)
    ensures Gone(s', w)
  {
    StepOwned(s, s');
  }

  lemma GoneIsNotFree(s: Pool, w: WorkerId)
    requires Gone(s, w)
    ensures w !in s.free
  {
    if a :| 0 <= a < |s.free| && s.free[a] == w {
      assert Holds(s, Slot(a), w);
    }
  }

  /** Both ways of giving a worker up leave it without a holder. */
  lemma GivenUpIsGone(r: seq<Pool>, i: nat, t: CallId)
    requires Run(r) && i + 1 < |r|
    requires GoDestroy(r[i], r[i + 1], t) || DropDead(r[i], r[i + 1], t)
    ensures Gone(r[i + 1], r[i].calls[t].pc.w)
  {
    AlwaysOwned(r, i);
    var w := r[i].calls[t].pc.w;
    assert Holds(r[i], Task(t), w);
    QuietCall(r[i], r[i + 1], t, if r[i].calls[t].pc.Dropping? then DoDropDead else DoGoDestroy);
    assert !Holds(r[i + 1], Task(t), w);
  }
}
