/**
 Removal marks that are never deleted: `Remove` looks at the worker and at its marks before it stores one,
 and the watcher of the worker may have detached it in between.
 */
module PoolMarks {
  import opened Basics
  import opened PoolModel
  import opened PoolFrames
  import opened PoolOwnership
  import opened PoolPopulation
  import opened PoolRemoval
  import opened PoolAccounting

  /** The watcher has taken its worker off the list. */
  predicate OffList(watch: Watch) {
    WaitOver(watch) && !watch.Waited?
  }

  predicate StaleMark(s: Pool, w: WorkerId) {
    w in s.workers && w in s.marks && OffList(s.workers[w].watch)
  }

  /** A mark is stored for a worker that is off the list. */
  predicate StoresLate(s: Pool, s': Pool, w: WorkerId) {
    RemoveStores(s, s', w) && OffList(s.workers[w].watch)
  }

  // ---------------------------------------------------------------- one step

  /** A watcher's step changes whether a worker is off the list only by detaching it. */
  lemma WatchOffList(s: Pool, s': Pool, x: WorkerId, p: WatchAct, w: WorkerId)
    requires WatchStep(s, s', x, p) && NewUnlisted(s) && w in s.workers
    ensures w in s'.workers
    ensures OffList(s'.workers[w].watch) <==> OffList(s.workers[w].watch) || (p.DoDetach? && x == w)
  {
    WatchFrame(s, s', x, p);
    if w == x {
      OwnOffList(s, s', x, p);
    } else if p.DoListReplacement? {
      ListReplacementOffList(s, s', x, w);
    }
  }

  lemma OwnOffList(s: Pool, s': Pool, x: WorkerId, p: WatchAct)
    requires WatchStep(s, s', x, p)
    ensures x in s.workers && x in s'.workers
    ensures OffList(s'.workers[x].watch) <==> OffList(s.workers[x].watch) || p.DoDetach?
  {
  }

  lemma ListReplacementOffList(s: Pool, s': Pool, x: WorkerId, w: WorkerId)
    requires ListReplacement(s, s', x) && NewUnlisted(s) && w in s.workers && w != x
    ensures w in s'.workers && OffList(s'.workers[w].watch) == OffList(s.workers[w].watch)
  {
  }

  lemma WatchStale(s: Pool, s': Pool, x: WorkerId, p: WatchAct, w: WorkerId)
    requires WatchStep(s, s', x, p) && NewUnlisted(s) && Listing(s)
    ensures StaleMark(s', w) <==> StaleMark(s, w)
  {
    WatchMarks(s, s', x, p);
    WatchFrame(s, s', x, p);
    if w in s.workers {
      WatchOffList(s, s', x, p, w);
      assert p.DoDetach? && x == w ==> w in s.list;
    } else if w in s'.workers {
      assert p == DoSpawnReplacement(w);
      SpawnedOnList(s, s', x, w);
    }
  }

  lemma SpawnedOnList(s: Pool, s': Pool, x: WorkerId, nw: WorkerId)
    requires SpawnReplacement(s, s', x, nw)
    ensures nw in s'.workers && !OffList(s'.workers[nw].watch)
  {
  }

  lemma BuildStale(s: Pool, s': Pool, p: BuildAct, w: WorkerId)
    requires BuildStep(s, s', p) && NewUnlisted(s)
    ensures StaleMark(s', w) <==> StaleMark(s, w)
  {
    BuildMarks(s, s', p);
  }

  /** Steps that change no watcher and store no mark for w. */
  lemma QuietStale(s: Pool, s': Pool, step: Step, w: WorkerId)
    requires Does(s, s', step) && !step.OfWatcher? && !step.OfBuilder? && !RemoveStores(s, s', w)
    ensures StaleMark(s', w) <==> StaleMark(s, w)
  {
    QuietFrame(s, s', step);
    match step
    case OfCall(t, p) => CallFrame(s, s', t, p);
    case OfWorker(v, p) => WorkerFrame(s, s', v, p);
    case OfDestroy(p) => DestroyFrame(s, s', p);
  }

  lemma StaleStep(s: Pool, s': Pool, w: WorkerId)
    requires Next(s, s') && NewUnlisted(s) && Listing(s)
    ensures StaleMark(s', w) <==> StaleMark(s, w) || StoresLate(s, s', w)
  {
    if !RemoveStores(s, s', w) {
      var step :| Does(s, s', step);
      match step
      case OfWatcher(x, p) => WatchStale(s, s', x, p, w);
      case OfBuilder(p) => BuildStale(s, s', p, w);
      case _ => QuietStale(s, s', step, w);
    }
  }

  // ---------------------------------------------------------------- over whole runs

  ghost predicate HasStoredLate(r: seq<Pool>, j: nat, w: WorkerId) {
    exists i: nat :: i < j && LateAt(r, i, w)
  }

  ghost predicate LateAt(r: seq<Pool>, i: nat, w: WorkerId) {
    i + 1 < |r| && StoresLate(r[i], r[i + 1], w)
  }

  lemma LateMore(r: seq<Pool>, j: nat, w: WorkerId)
    ensures HasStoredLate(r, j + 1, w) <==> HasStoredLate(r, j, w) || LateAt(r, j, w)
  {
  }

  /** A worker that is off the list has a mark exactly when some Remove stored it after the detaching. */
  lemma {:induction false} StaleExactly(r: seq<Pool>, j: nat, w: WorkerId)
    requires Run(r) && j < |r|
    ensures StaleMark(r[j], w) <==> HasStoredLate(r, j, w)
  {
    if j > 0 {
      StaleExactly(r, j - 1, w);
      RunStep(r, j - 1);
      AlwaysNewUnlisted(r, j - 1);
      AlwaysListing(r, j - 1);
      StaleStep(r[j - 1], r[j], w);
      LateMore(r, j - 1, w);
    }
  }

  /** Such a mark stays for the rest of the run. */
  lemma StaleForGood(r: seq<Pool>, i: nat, j: nat, w: WorkerId)
    requires Run(r) && i <= j < |r| && StaleMark(r[i], w)
    ensures StaleMark(r[j], w)
  {
    StaleExactly(r, i, w);
    StaleExactly(r, j, w);
  }

  // ---------------------------------------------------------------- which marks are off the list

  ghost predicate MarkedExist(s: Pool) {
    forall w :: w in s.marks ==> w in s.workers
  }

  lemma MarkedStep(s: Pool, s': Pool)
    requires Owned(s) && MarkedExist(s) && Next(s, s')
    ensures MarkedExist(s')
  {
    StepOwned(s, s');
    var step :| Does(s, s', step);
    match step
    case OfWatcher(x, p) => WatchMarks(s, s', x, p);
    case OfBuilder(p) => BuildMarks(s, s', p);
    case OfCall(t, p) => CallFrame(s, s', t, p);
    case OfWorker(v, p) => WorkerFrame(s, s', v, p);
    case OfDestroy(p) => DestroyFrame(s, s', p);
  }

  lemma {:induction false} AlwaysMarkedExist(r: seq<Pool>, i: nat)
    requires Run(r) && i < |r|
    ensures MarkedExist(r[i])
  {
    if i > 0 {
      AlwaysMarkedExist(r, i - 1);
      AlwaysOwned(r, i - 1);
      RunStep(r, i - 1);
      MarkedStep(r[i - 1], r[i]);
    }
  }

  /** A marked worker is missing from the list exactly when its creator has not listed it yet, or a Remove
      stored the mark after its watcher had detached it. */
  lemma MarkOffListExactly(r: seq<Pool>, j: nat, w: WorkerId)
    requires Run(r) && j < |r| && w in r[j].marks
    ensures w in r[j].workers
    ensures w !in r[j].list <==> r[j].workers[w].watch.NotStarted? || HasStoredLate(r, j, w)
  {
    AlwaysMarkedExist(r, j);
    AlwaysListing(r, j);
    StaleExactly(r, j, w);
  }

  // ---------------------------------------------------------------- what Remove looks at

  /** What the fields of Remove on w are after a step that is no step of Remove on w. */
  predicate SameRemoves(s: Pool, s': Pool, w: WorkerId)
    requires w in s.workers
  {
    && w in s'.workers
    && s'.workers[w].removesSeen == s.workers[w].removesSeen
    && s'.workers[w].removesPassed == s.workers[w].removesPassed
  }

  lemma CallRemoves(s: Pool, s': Pool, t: CallId, p: CallAct, w: WorkerId)
    requires CallStep(s, s', t, p) && w in s.workers
    ensures SameRemoves(s, s', w)
  {
    if OnWorker(p) {
      CallOnWorker(s, s', t, p);
      if w == s.calls[t].pc.w {
        OwnRemoves(s, s', t, p);
      }
    } else {
      CallOffWorker(s, s', t, p);
    }
  }

  lemma OwnRemoves(s: Pool, s': Pool, t: CallId, p: CallAct)
    requires CallStep(s, s', t, p) && OnWorker(p) && s.calls[t].pc.w in s.workers
    ensures SameRemoves(s, s', s.calls[t].pc.w)
  {
  }

  lemma WatchRemoves(s: Pool, s': Pool, x: WorkerId, p: WatchAct, w: WorkerId)
    requires WatchStep(s, s', x, p) && w in s.workers
    ensures SameRemoves(s, s', w)
  {
    WatchFrame(s, s', x, p);
  }

  lemma BuildRemoves(s: Pool, s': Pool, p: BuildAct, w: WorkerId)
    requires BuildStep(s, s', p) && w in s.workers
    ensures SameRemoves(s, s', w)
  {
  }

  lemma DestroyRemoves(s: Pool, s': Pool, p: DestroyAct, w: WorkerId)
    requires DestroyStep(s, s', p) && w in s.workers
    ensures SameRemoves(s, s', w)
  {
  }

  lemma OtherRemoves(s: Pool, s': Pool, step: Step, w: WorkerId)
    requires Does(s, s', step) && w in s.workers && !step.OfWorker?
    ensures SameRemoves(s, s', w)
  {
    match step
    case OfCall(t, p) => CallRemoves(s, s', t, p, w);
    case OfWatcher(x, p) => WatchRemoves(s, s', x, p, w);
    case OfBuilder(p) => BuildRemoves(s, s', p, w);
    case OfDestroy(p) => DestroyRemoves(s, s', p, w);
  }

  /** Wait is over for w and no Remove on it is under way. */
  predicate Unremovable(s: Pool, w: WorkerId) {
    w in s.workers && WaitOver(s.workers[w].watch) && s.workers[w].removesSeen == 0 && s.workers[w].removesPassed == 0
  }

  lemma StepUnremovable(s: Pool, s': Pool, w: WorkerId)
    requires Next(s, s') && NewUnlisted(s) && Locks(s) && Unremovable(s, w)
    ensures Unremovable(s', w) && (w in s'.marks ==> w in s.marks)
  {
    WaitOverStep(s, s', w);
    assert WorkerLocks(s.workers[w]);
    var step :| Does(s, s', step);
    if step.OfWorker? {
      WorkerFrame(s, s', step.w, step.act);
    } else {
      OtherRemoves(s, s', step, w);
      OtherMarks(s, s', step);
    }
  }

  lemma OtherMarks(s: Pool, s': Pool, step: Step)
    requires Does(s, s', step) && !step.OfWorker?
    ensures s'.marks <= s.marks
  {
    match step
    case OfCall(t, p) => CallFrame(s, s', t, p);
    case OfWatcher(x, p) => WatchMarks(s, s', x, p);
    case OfBuilder(p) => BuildMarks(s, s', p);
    case OfDestroy(p) => DestroyFrame(s, s', p);
  }

  /** A Remove that begins after Wait is refused: it stores no mark. */
  lemma {:induction false} LateRemoveRefused(r: seq<Pool>, i: nat, j: nat, w: WorkerId)
    requires Run(r) && i <= j < |r| && Unremovable(r[i], w)
    ensures Unremovable(r[j], w) && (w in r[j].marks ==> w in r[i].marks)
    decreases j
  {
    if i < j {
      LateRemoveRefused(r, i, j - 1, w);
      AlwaysNewUnlisted(r, j - 1);
      AlwaysLocks(r, j - 1);
      RunStep(r, j - 1);
      StepUnremovable(r[j - 1], r[j], w);
    }
  }

  /** w is marked and no Remove on it is past its look at the marks, or it is off the list. */
  predicate RemovedOnce(s: Pool, w: WorkerId) {
    w in s.workers && (OffList(s.workers[w].watch) || (w in s.marks && s.workers[w].removesPassed == 0))
  }

  lemma OffListStays(s: Pool, s': Pool, w: WorkerId)
    requires Next(s, s') && NewUnlisted(s) && w in s.workers && OffList(s.workers[w].watch)
    ensures w in s'.workers && OffList(s'.workers[w].watch)
  {
    var step :| Does(s, s', step);
    match step
    case OfWatcher(x, p) => WatchOffList(s, s', x, p, w);
    case OfBuilder(p) =>
    case _ => QuietFrame(s, s', step);
  }

  lemma StepRemovedOnce(s: Pool, s': Pool, w: WorkerId)
    requires Next(s, s') && NewUnlisted(s) && RemovedOnce(s, w)
    ensures RemovedOnce(s', w)
  {
    if OffList(s.workers[w].watch) {
      OffListStays(s, s', w);
    } else if w !in s'.marks {
      MarkDeletedAfterWait(s, s', w);
    } else {
      MarkedPassesNone(s, s', w);
    }
  }

  lemma MarkedPassesNone(s: Pool, s': Pool, w: WorkerId)
    requires Next(s, s') && w in s.workers && w in s.marks && s.workers[w].removesPassed == 0
    ensures w in s'.workers && s'.workers[w].removesPassed == 0
  {
    var step :| Does(s, s', step);
    if step.OfWorker? {
      WorkerFrame(s, s', step.w, step.act);
    } else {
      OtherRemoves(s, s', step, w);
    }
  }

  /** While a worker is marked, up to its detaching, a further Remove does not get past its look at the
      marks. */
  lemma {:induction false} SecondRemoveRefused(r: seq<Pool>, i: nat, j: nat, w: WorkerId)
    requires Run(r) && i <= j < |r| && RemovedOnce(r[i], w)
    ensures RemovedOnce(r[j], w)
    decreases j
  {
    if i < j {
      SecondRemoveRefused(r, i, j - 1, w);
      AlwaysNewUnlisted(r, j - 1);
      RunStep(r, j - 1);
      StepRemovedOnce(r[j - 1], r[j], w);
    }
  }

  // ---------------------------------------------------------------- a late mark

  /** A Remove has passed both of its looks at the only worker. */
  lemma RemovingPool() returns (s: Pool)
    ensures Reachable(s) && s.list == [0] && 0 in s.workers
    ensures s.workers[0] == NewWorker().(watch := Waiting, removesPassed := 1)
  {
    var s0 := OneWorkerPool();
    var s1 := SetWorker(s0, 0, s0.workers[0].(removesSeen := 1));
    Reach(s0, s1, OfWorker(0, DoRemoveLooks));
    s := SetWorker(s1, 0, s1.workers[0].(removesSeen := 0, removesPassed := 1));
    Reach(s1, s, OfWorker(0, DoRemoveLoads));
  }

  /** Then its process dies, and Wait returns to its watcher. */
  lemma WaitedPool() returns (s: Pool)
    ensures Reachable(s) && s.list == [0] && 0 in s.workers
    ensures s.workers[0].watch.Waited? && s.workers[0].removesPassed == 1
  {
    var s0 := RemovingPool();
    var s1 := SetWorker(s0, 0, s0.workers[0].(exited := true, success := true));
    Reach(s0, s1, OfWorker(0, DoProcessExits(true)));
    var s2 := SetWorker(s1, 0, s1.workers[0].(lock := ByWatcher, watch := Setting(Stopped)));
    Reach(s1, s2, OfWatcher(0, DoLockForWait));
    s := SetWorker(s2, 0, s2.workers[0].(value := Stopped, lock := Unlocked, watch := Waited));
    Reach(s2, s, OfWatcher(0, DoSetFinal));
  }

  /** So a mark can be left behind for a worker that is on no list any more. */
  lemma MarkCanBeLeftBehind()
    ensures exists s, w :: Reachable(s) && StaleMark(s, w) && w !in s.list
  {
    var s0 := WaitedPool();
    var s1 := SetWorker(s0, 0, s0.workers[0].(watch := Detached)).(list := [], marks := s0.marks - {0});
    Reach(s0, s1, OfWatcher(0, DoDetach));
    var s2 := SetWorker(s1, 0, s1.workers[0].(removesPassed := 0)).(marks := s1.marks + {0});
    Reach(s1, s2, OfWorker(0, DoRemoveStores));
    assert StaleMark(s2, 0);
  }
}
