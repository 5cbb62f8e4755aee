/**
 The dead-worker counter `numDead`.
 */
module PoolAccounting {
  import opened Basics
  import opened PoolModel
  import opened PoolFrames
  import opened PoolOwnership
  import opened PoolPopulation

  /** The watcher has registered its worker as dead. */
  predicate PastCount(watch: Watch) {
    watch.Counted? || watch.Replacing? || watch.HasSpawned? || watch.HasListed? || watch.Failed? || watch.GaveUp?
    || watch.Finished?
  }

  ghost predicate Counting(s: Pool) {
    && s.numDead == |s.counted| - |s.dropped|
    && CountedRight(s)
    && (forall w :: w in s.dropped ==> Gone(s, w))
  }

  lemma DroppedStayGone(s: Pool, s': Pool)
    requires Owned(s) && Next(s, s') && forall w :: w in s.dropped ==> Gone(s, w)
    ensures forall w :: w in s.dropped ==> Gone(s', w)
  {
    forall w | w in s.dropped
      ensures Gone(s', w)
    {
      GoneStep(s, s', w);
    }
  }

  lemma DropCounts(s: Pool, s': Pool, t: CallId)
    requires Owned(s) && Counting(s) && DropDead(s, s', t)
    ensures Counting(s')
  {
    var w := s.calls[t].pc.w;
    assert Holds(s, Task(t), w);
    assert !Gone(s, w);
    assert Does(s, s', OfCall(t, DoDropDead));
    DroppedStayGone(s, s');
    DroppedIsGone(s, s', t);
    QuietFrame(s, s', OfCall(t, DoDropDead));
  }

  lemma DroppedIsGone(s: Pool, s': Pool, t: CallId)
    requires Owned(s) && DropDead(s, s', t)
    ensures Gone(s', s.calls[t].pc.w)
  {
    var w := s.calls[t].pc.w;
    assert Holds(s, Task(t), w);
    QuietCall(s, s', t, DoDropDead);
    forall h
      ensures !Holds(s', h, w)
    {
      assert h != Task(t) ==> !Holds(s, h, w);
    }
  }

  lemma QuietCounts(s: Pool, s': Pool, step: Step)
    requires Owned(s) && Counting(s) && Does(s, s', step) && !step.OfWatcher? && !step.OfBuilder?
    requires s'.numDead == s.numDead && s'.dropped == s.dropped
    ensures Counting(s')
  {
    QuietFrame(s, s', step);
    assert Next(s, s');
    DroppedStayGone(s, s');
  }

  lemma CallKeepsCounter(s: Pool, s': Pool, t: CallId, p: CallAct)
    requires CallStep(s, s', t, p) && !p.DoDropDead?
    ensures s'.numDead == s.numDead && s'.dropped == s.dropped
  {
    if OnWorker(p) {
      CallOnWorker(s, s', t, p);
    } else if !OnPool(p) {
      CallMoves(s, s', t, p);
    }
  }

  ghost predicate CountedRight(s: Pool) {
    && (forall v :: v in s.counted ==> v in s.workers)
    && (forall v :: v in s.workers ==> (v in s.counted <==> PastCount(s.workers[v].watch)))
  }

  lemma CountDeadCounted(s: Pool, s': Pool, w: WorkerId)
    requires CountedRight(s) && CountDead(s, s', w)
    ensures CountedRight(s') && s'.numDead - |s'.counted| == s.numDead - |s.counted|
  {
  }

  lemma WatchCounted(s: Pool, s': Pool, w: WorkerId, p: WatchAct)
    requires NewUnlisted(s) && CountedRight(s) && WatchStep(s, s', w, p)
    ensures CountedRight(s')
    ensures s'.dropped == s.dropped && s'.numDead - |s'.counted| == s.numDead - |s.counted|
  {
    if p.DoCountDead? {
      CountDeadCounted(s, s', w);
    } else {
      WatchKeepsCounted(s, s', w, p);
    }
  }

  lemma WatchKeepsCounted(s: Pool, s': Pool, w: WorkerId, p: WatchAct)
    requires NewUnlisted(s) && WatchStep(s, s', w, p) && !p.DoCountDead?
    ensures s'.dropped == s.dropped && s'.counted == s.counted && s'.numDead == s.numDead
    ensures s.workers.Keys <= s'.workers.Keys
    ensures forall v :: v in s'.workers ==>
              (PastCount(s'.workers[v].watch) <==> v in s.workers && PastCount(s.workers[v].watch))
  {
    if p.DoListReplacement? {
      ListKeepsCounted(s, s', w);
    } else if p.DoSpawnReplacement? {
      SpawnKeepsCounted(s, s', w, p.nw);
    } else {
      OwnKeepsCounted(s, s', w, p);
    }
  }

  /** A step that changes only the watcher's own worker. */
  lemma OwnKeepsCounted(s: Pool, s': Pool, w: WorkerId, p: WatchAct)
    requires WatchStep(s, s', w, p) && !p.DoCountDead? && !p.DoListReplacement? && !p.DoSpawnReplacement?
    ensures s'.dropped == s.dropped && s'.counted == s.counted && s'.numDead == s.numDead
    ensures s'.workers.Keys == s.workers.Keys
    ensures forall v :: v in s.workers ==> PastCount(s'.workers[v].watch) == PastCount(s.workers[v].watch)
  {
    assert w in s.workers && s'.workers == s.workers[w := s'.workers[w]];
    assert PastCount(s'.workers[w].watch) == PastCount(s.workers[w].watch);
  }

  lemma SpawnKeepsCounted(s: Pool, s': Pool, w: WorkerId, nw: WorkerId)
    requires SpawnReplacement(s, s', w, nw)
    ensures s'.dropped == s.dropped && s'.counted == s.counted && s'.numDead == s.numDead
    ensures s.workers.Keys <= s'.workers.Keys
    ensures forall v :: v in s'.workers ==>
              (PastCount(s'.workers[v].watch) <==> v in s.workers && PastCount(s.workers[v].watch))
  {
  }

  lemma ListKeepsCounted(s: Pool, s': Pool, w: WorkerId)
    requires NewUnlisted(s) && ListReplacement(s, s', w)
    ensures s'.dropped == s.dropped && s'.counted == s.counted && s'.numDead == s.numDead
    ensures s'.workers.Keys == s.workers.Keys
    ensures forall v :: v in s.workers ==> PastCount(s'.workers[v].watch) == PastCount(s.workers[v].watch)
  {
  }

  lemma BuildCounted(s: Pool, s': Pool, p: BuildAct)
    requires NewUnlisted(s) && CountedRight(s) && BuildStep(s, s', p)
    ensures CountedRight(s')
    ensures s'.dropped == s.dropped && s'.numDead == s.numDead && s'.counted == s.counted
  {
  }

  lemma StepCounts(s: Pool, s': Pool)
    requires Owned(s) && NewUnlisted(s) && Counting(s) && Next(s, s')
    ensures Counting(s')
  {
    var step :| Does(s, s', step);
    match step
    case OfCall(t, p) =>
      if p.DoDropDead? {
        DropCounts(s, s', t);
      } else {
        CallKeepsCounter(s, s', t, p);
        QuietCounts(s, s', step);
      }
    case OfWatcher(w, p) =>
      WatchCounted(s, s', w, p);
      DroppedStayGone(s, s');
    case OfBuilder(p) =>
      BuildCounted(s, s', p);
      DroppedStayGone(s, s');
    case OfWorker(w, p) =>
      WorkerFrame(s, s', w, p);
      QuietCounts(s, s', step);
    case OfDestroy(p) =>
      DestroyFrame(s, s', p);
      QuietCounts(s, s', step);
  }

  lemma {:induction false} AlwaysCounting(r: seq<Pool>, i: nat)
    requires Run(r) && i < |r|
    ensures Counting(r[i])
  {
    if i > 0 {
      AlwaysCounting(r, i - 1);
      AlwaysOwned(r, i - 1);
      AlwaysNewUnlisted(r, i - 1);
      RunStep(r, i - 1);
      StepCounts(r[i - 1], r[i]);
    }
  }

  /** Registered dead workers that are still in the free channel. */
  ghost function StaleEntries(s: Pool): set<WorkerId> {
    set w | w in s.free && w in s.counted
  }

  /** Workers whose watcher has registered them dead and whose entry no allocation has dropped. */
  ghost function Awaited(s: Pool): set<WorkerId> {
    set w | w in s.workers && PastCount(s.workers[w].watch) && w !in s.dropped
  }

  /** Workers dropped by an allocation ahead of their watcher. */
  ghost function DroppedEarly(s: Pool): set<WorkerId> {
    set w | w in s.workers && w in s.dropped && !PastCount(s.workers[w].watch)
  }

  /** `numDead` is the number of workers registered dead by their watchers and not dropped, minus the
      number of those dropped ahead of their watcher.  When there are none of the latter it covers the
      registered workers still in the channel. */
  lemma DeadEntriesAccounted(r: seq<Pool>, i: nat)
    requires Run(r) && i < |r|
    ensures r[i].numDead == |Awaited(r[i])| - |DroppedEarly(r[i])|
    ensures DroppedEarly(r[i]) == {} ==> |StaleEntries(r[i])| <= r[i].numDead
  {
    AlwaysCounting(r, i);
    CountsAreWatches(r[i]);
    SizeDifference(r[i].counted, r[i].dropped);
    StaleAwaited(r[i]);
  }

  lemma CountsAreWatches(s: Pool)
    requires Counting(s)
    ensures s.counted - s.dropped == Awaited(s) && s.dropped - s.counted == DroppedEarly(s)
  {
    assert forall w :: w in s.dropped ==> Gone(s, w) && w in s.workers;
  }

  /** A registered worker in the channel has not been dropped. */
  lemma StaleAwaited(s: Pool)
    requires Counting(s)
    ensures |StaleEntries(s)| <= |Awaited(s)|
  {
    forall w | w in StaleEntries(s)
      ensures w in Awaited(s)
    {
      if w in s.dropped {
        GoneIsNotFree(s, w);
      }
    }
    SubsetSize(StaleEntries(s), Awaited(s));
  }

  lemma SizeDifference(a: set<WorkerId>, b: set<WorkerId>)
    ensures |a| - |b| == |a - b| - |b - a|
  {
    assert a == a * b + (a - b);
    assert b == a * b + (b - a);
  }

  lemma {:induction false} SubsetSize(a: set<WorkerId>, b: set<WorkerId>)
    requires a <= b
    ensures |a| <= |b|
  {
    if a != {} {
      var x :| x in a;
      SubsetSize(a - {x}, b - {x});
    }
  }

  /** Each death is registered once and each entry dropped once. */
  lemma CountedOnce(r: seq<Pool>, i: nat)
    requires Run(r) && i + 1 < |r|
    ensures forall w :: CountDead(r[i], r[i + 1], w) ==> w !in r[i].counted
    ensures forall t :: DropDead(r[i], r[i + 1], t) ==> r[i].calls[t].pc.w !in r[i].dropped
  {
    AlwaysCounting(r, i);
    forall t | DropDead(r[i], r[i + 1], t)
      ensures r[i].calls[t].pc.w !in r[i].dropped
    {
      assert Holds(r[i], Task(t), r[i].calls[t].pc.w);
    }
  }

  // ---------------------------------------------------------------- the counter can go negative

  ghost predicate Reachable(s: Pool) {
    exists r :: Run(r) && r[|r| - 1] == s
  }

  lemma Reach(s: Pool, s': Pool, step: Step)
    requires Reachable(s) && Does(s, s', step)
    ensures Reachable(s')
  {
    var r :| Run(r) && r[|r| - 1] == s;
    var longer := r + [s'];
    forall i: nat
      ensures StepAt(longer, i)
    {
      if i + 1 < |r| {
        RunStep(r, i);
      } else if i + 1 == |r| {
        assert Next(s, s');
      }
    }
    assert Run(longer);
  }

  /** A pool of one worker, in the given phase of its construction. */
  function SmallPool(builder: Builder, free: seq<WorkerId>, watch: Watch): Pool {
    Pool(1, 0, map[0 := NewWorker().(watch := watch)], if watch.Waiting? then [0] else [], free, 0, {},
         false, false, false, 0, map[], builder, Off, {}, {}, {})
  }

  lemma SpawnedPool()
    ensures Reachable(SmallPool(BuildSpawned(0, 0), [], NotStarted))
  {
    var s0 := Pool(1, 0, map[], [], [], 0, {}, false, false, false, 0, map[], Building(0), Off, {}, {}, {});
    assert Run([s0]) && [s0][|[s0]| - 1] == s0;
    var s1 := SmallPool(BuildSpawned(0, 0), [], NotStarted);
    assert BuildSpawn(s0, s1, 0);
    Reach(s0, s1, OfBuilder(DoBuildSpawn(0)));
  }

  lemma OneWorkerPool() returns (s: Pool)
    ensures Reachable(s) && s == SmallPool(Built, [0], Waiting)
  {
    SpawnedPool();
    var s1, s2 := SmallPool(BuildSpawned(0, 0), [], NotStarted), SmallPool(BuildListed(0, 0), [], Waiting);
    assert BuildList(s1, s2);
    Reach(s1, s2, OfBuilder(DoBuildList));
    var s3 := SmallPool(Building(1), [0], Waiting);
    assert BuildEnqueue(s2, s3);
    Reach(s2, s3, OfBuilder(DoBuildEnqueue));
    s := SmallPool(Built, [0], Waiting);
    Reach(s3, s, OfBuilder(DoBuildDone));
  }

  /** A Kill has stored its state on the only worker, whose process is still running. */
  lemma KilledPool() returns (s: Pool)
    ensures Reachable(s) && s.numDead == 0 && s.free == [0] && s.calls == map[] && !s.tmu && s.builder.Built?
    ensures s.workers.Keys == {0} && s.workers[0].value == Stopping && !s.workers[0].exited
  {
    var s0 := OneWorkerPool();
    var s1 := SetWorker(s0, 0, s0.workers[0].(killsPassed := 1));
    Reach(s0, s1, OfWorker(0, DoCallKill));
    s := SetWorker(s1, 0, s1.workers[0].(killsPassed := 0, value := Stopping));
    Reach(s1, s, OfWorker(0, DoKillStores));
  }

  /** A call has been admitted to that pool and is about to allocate. */
  lemma AllocatingPool() returns (s: Pool)
    ensures Reachable(s) && s.numDead == 0 && s.free == [0] && !s.tmu && s.builder.Built?
    ensures s.workers.Keys == {0} && s.workers[0].value == Stopping && !s.workers[0].exited
    ensures s.calls.Keys == {0} && s.calls[0].pc == Looping(0)
  {
    var s0 := KilledPool();
    var s1 := s0.(calls := s0.calls[0 := Call(None, Entering, 0, [], false)]);
    Reach(s0, s1, OfCall(0, DoEnter(None)));
    var s2 := s1.(tasks := s1.tasks + 1, admissions := s1.admissions + {(0, 0)},
                  calls := s1.calls[0 := s1.calls[0].(pc := Admitted, depth := 1, early := !s1.destroyClosed)]);
    Reach(s1, s2, OfCall(0, DoAdmit));
    s := GoTo(s2, 0, Looping(0));
    Reach(s2, s, OfCall(0, DoLoadDead));
  }

  /** The call has received the only worker and seen that it is not ready. */
  lemma DroppingPool() returns (s: Pool)
    ensures Reachable(s) && s.numDead == 0 && s.builder.Built? && !s.tmu && s.calls.Keys == {0}
    ensures s.calls[0].pc == Dropping(0, 0)
    ensures forall w :: w in s.workers ==> !s.workers[w].exited
  {
    var s3 := AllocatingPool();
    var s4 := GoTo(s3.(free := []), 0, Received(0, 0));
    Reach(s3, s4, OfCall(0, DoReceive));
    s := GoTo(s4, 0, Dropping(0, 0));
    Reach(s4, s, OfCall(0, DoLoadValue));
  }

  /** Until a watcher has registered it, dropping a worker takes the counter below zero: here while
      every process of the pool is still running. */
  lemma NegativePool() returns (s: Pool)
    ensures Reachable(s) && s.numDead == -1 && s.builder.Built? && !s.tmu && s.calls.Keys == {0}
    ensures forall w :: w in s.workers ==> !s.workers[w].exited
  {
    var s5 := DroppingPool();
    s := GoTo(s5.(numDead := -1, dropped := s5.dropped + {0}), 0, Looping(1));
    Reach(s5, s, OfCall(0, DoDropDead));
  }

  /** So the counter is negative in some run, and the next call is told that all workers are dead
      although no process has exited. */
  lemma CounterCanGoNegative()
    ensures exists s :: Reachable(s) && s.numDead == -1 && 1 in s.calls && s.calls[1].pc == Leaving(Failure(AllDead))
                        && forall w :: w in s.workers ==> !s.workers[w].exited
  {
    var s0 := NegativePool();
    var s1 := s0.(calls := s0.calls[1 := Call(None, Entering, 0, [], false)]);
    Reach(s0, s1, OfCall(1, DoEnter(None)));
    var s2 := s1.(tasks := s1.tasks + 1, admissions := s1.admissions + {(1, 0)},
                  calls := s1.calls[1 := s1.calls[1].(pc := Admitted, depth := 1, early := !s1.destroyClosed)]);
    Reach(s1, s2, OfCall(1, DoAdmit));
    var s3 := GoTo(s2, 1, Looping(-1));
    Reach(s2, s3, OfCall(1, DoLoadDead));
    var s4 := GoTo(s3, 1, Leaving(Failure(AllDead)));
    Reach(s3, s4, OfCall(1, DoLoopExit));
  }
}
