/**
 `Destroy` marks and stops every worker that is in the list when it takes its copy of it, and which
 workers it misses.
 */
module PoolShutdown {
  import opened Basics
  import opened PoolModel
  import opened PoolFrames
  import opened PoolOwnership
  import opened PoolPopulation
  import opened PoolReplacement
  import opened PoolAccounting

  // ---------------------------------------------------------------- what the loop of Destroy does

  /** The worker that Destroy marks in this step, if any. */
  ghost function Marks(s: Pool, s': Pool): seq<WorkerId> {
    if MarkNext(s, s') then [s.destroyer.rest[0]] else []
  }

  /** The worker that Destroy stops in this step, if any. */
  ghost function Stops(s: Pool, s': Pool): seq<WorkerId> {
    if GoNext(s, s') then [s.destroyer.w] else []
  }

  /** The workers marked between two states of the run, in order. */
  ghost function MarkedIn(r: seq<Pool>, i: nat, j: nat): seq<WorkerId>
    requires i <= j < |r|
    decreases j
  {
    if i == j then [] else MarkedIn(r, i, j - 1) + Marks(r[j - 1], r[j])
  }

  /** The workers stopped between two states of the run, in order. */
  ghost function StoppedIn(r: seq<Pool>, i: nat, j: nat): seq<WorkerId>
    requires i <= j < |r|
    decreases j
  {
    if i == j then [] else StoppedIn(r, i, j - 1) + Stops(r[j - 1], r[j])
  }

  /** How far the loop is with the given list. */
  predicate Along(d: Destroyer, list: seq<WorkerId>, marked: seq<WorkerId>, stopped: seq<WorkerId>) {
    match d
    case Marking(rest) => list == marked + rest && stopped == marked
    case Going(w, rest) => list == marked + rest && marked == stopped + [w]
    case _ => false
  }

  lemma MarkAlong(s: Pool, s': Pool, list: seq<WorkerId>, marked: seq<WorkerId>, stopped: seq<WorkerId>)
    requires MarkNext(s, s') && Along(s.destroyer, list, marked, stopped)
    ensures Along(s'.destroyer, list, marked + Marks(s, s'), stopped + Stops(s, s'))
  {
    var rest := s.destroyer.rest;
    assert marked + [rest[0]] + rest[1..] == marked + rest;
    assert stopped + [] == stopped;
  }

  lemma GoAlong(s: Pool, s': Pool, list: seq<WorkerId>, marked: seq<WorkerId>, stopped: seq<WorkerId>)
    requires GoNext(s, s') && Along(s.destroyer, list, marked, stopped)
    ensures Along(s'.destroyer, list, marked + Marks(s, s'), stopped + Stops(s, s'))
  {
    assert marked + [] == marked;
  }

  lemma OthersAlong(s: Pool, s': Pool, step: Step)
    requires Does(s, s', step) && !step.OfDestroy?
    ensures s'.destroyer == s.destroyer
  {
    match step
    case OfCall(t, p) => CallFrame(s, s', t, p);
    case OfWatcher(w, p) => WatchKeepsFlag(s, s', w, p);
    case OfWorker(w, p) => WorkerFrame(s, s', w, p);
    case OfBuilder(p) =>
  }

  lemma StepAlong(s: Pool, s': Pool, list: seq<WorkerId>, marked: seq<WorkerId>, stopped: seq<WorkerId>)
    requires Next(s, s') && Along(s.destroyer, list, marked, stopped)
    ensures Along(s'.destroyer, list, marked + Marks(s, s'), stopped + Stops(s, s'))
  {
    if MarkNext(s, s') {
      MarkAlong(s, s', list, marked, stopped);
    } else if GoNext(s, s') {
      GoAlong(s, s', list, marked, stopped);
    } else {
      var step :| Does(s, s', step);
      if !step.OfDestroy? {
        OthersAlong(s, s', step);
      }
      assert marked + [] == marked && stopped + [] == stopped;
    }
  }

  lemma {:induction false} RunAlong(r: seq<Pool>, i: nat, j: nat)
    requires Run(r) && i < j < |r| && SnapshotList(r[i], r[i + 1])
    ensures Along(r[j].destroyer, r[i].list, MarkedIn(r, i + 1, j), StoppedIn(r, i + 1, j))
    decreases j
  {
    if i + 1 < j {
      RunAlong(r, i, j - 1);
      RunStep(r, j - 1);
      StepAlong(r[j - 1], r[j], r[i].list, MarkedIn(r, i + 1, j - 1), StoppedIn(r, i + 1, j - 1));
    } else {
      assert [] + r[i].list == r[i].list;
    }
  }

  /** When the loop of Destroy is through, it has marked and stopped exactly the workers that were in the
      list when it took its copy, each once and in the order of the list; and at any time before, those
      marked are the start of that list, and those stopped are the same up to the one at hand. */
  lemma DestroysEveryListed(r: seq<Pool>, i: nat, j: nat)
    requires Run(r) && i < j < |r| && SnapshotList(r[i], r[i + 1])
    ensures MarkedIn(r, i + 1, j) <= r[i].list && StoppedIn(r, i + 1, j) <= MarkedIn(r, i + 1, j)
    ensures |MarkedIn(r, i + 1, j)| <= |StoppedIn(r, i + 1, j)| + 1
    ensures r[j].destroyer == Marking([]) <==>
              MarkedIn(r, i + 1, j) == r[i].list && StoppedIn(r, i + 1, j) == r[i].list
    ensures Distinct(r[i].list)
  {
    RunAlong(r, i, j);
    AlwaysListing(r, i);
  }

  /** Marking a worker sets its state to Invalid and changes no other worker; stopping it makes one more
      call of Stop on it and changes no other worker. */
  lemma DestroyTouches(s: Pool, s': Pool, w: WorkerId)
    requires w in s.workers
    ensures Marks(s, s') == [w] ==> s'.workers == s.workers[w := s.workers[w].(value := Invalid)]
    ensures Stops(s, s') == [w] ==>
              s'.workers == s.workers[w := s.workers[w].(stopCalls := s.workers[w].stopCalls + 1)]
  {
  }

  // ---------------------------------------------------------------- what it misses

  /** A watcher lists w as a replacement in this step. */
  ghost predicate Lists(s: Pool, s': Pool, w: WorkerId) {
    exists x :: ListsFor(s, s', x, w)
  }

  predicate ListsFor(s: Pool, s': Pool, x: WorkerId, w: WorkerId) {
    ListReplacement(s, s', x) && s.workers[x].watch.spawned == w
  }

  lemma WatchList(s: Pool, s': Pool, x: WorkerId, p: WatchAct, w: WorkerId)
    requires WatchStep(s, s', x, p) && Listing(s) && w in s'.list
    ensures w in s.list || Lists(s, s', w)
  {
    if p.DoDetach? {
      WithoutElements(s.list, x);
    } else if p.DoListReplacement? {
      assert w !in s.list ==> ListsFor(s, s', x, w);
    } else {
      WatchSameEnlisted(s, s', x, p);
    }
  }

  lemma StepList(s: Pool, s': Pool, w: WorkerId)
    requires Next(s, s') && Listing(s) && (s.builder.Built? || s.builder.Aborted?) && w in s'.list
    ensures w in s.list || Lists(s, s', w)
  {
    var step :| Does(s, s', step);
    match step
    case OfWatcher(x, p) => WatchList(s, s', x, p, w);
    case OfBuilder(p) =>
    case _ => QuietFrame(s, s', step);
  }

  /** NewPool is over when Destroy is called, and stays so. */
  predicate BuilderRests(s: Pool) {
    !s.destroyer.Off? ==> s.builder.Built? || s.builder.Aborted?
  }

  lemma StepBuilderRests(s: Pool, s': Pool)
    requires Next(s, s') && BuilderRests(s)
    ensures BuilderRests(s')
  {
    var step :| Does(s, s', step);
    match step
    case OfDestroy(p) => DestroyFrame(s, s', p);
    case OfWatcher(w, p) =>
      WatchFrame(s, s', w, p);
      WatchKeepsFlag(s, s', w, p);
    case OfBuilder(p) => OthersAlong(s, s', step);
    case _ =>
      QuietFrame(s, s', step);
      OthersAlong(s, s', step);
  }

  lemma {:induction false} AlwaysBuilderRests(r: seq<Pool>, i: nat)
    requires Run(r) && i < |r|
    ensures BuilderRests(r[i])
  {
    if i > 0 {
      AlwaysBuilderRests(r, i - 1);
      RunStep(r, i - 1);
      StepBuilderRests(r[i - 1], r[i]);
    }
  }

  ghost predicate ListsAt(r: seq<Pool>, k: nat, w: WorkerId) {
    k + 1 < |r| && Lists(r[k], r[k + 1], w)
  }

  ghost predicate ListedSince(r: seq<Pool>, i: nat, j: nat, w: WorkerId) {
    exists k :: i <= k < j && ListsAt(r, k, w)
  }

  lemma ListedMore(r: seq<Pool>, i: nat, j: nat, w: WorkerId)
    requires i <= j
    ensures ListedSince(r, i, j + 1, w) <==> ListedSince(r, i, j, w) || ListsAt(r, j, w)
  {
  }

  /** In one step a worker gets into the list exactly by being listed as a replacement. */
  lemma ListStep(r: seq<Pool>, j: nat, w: WorkerId)
    requires Run(r) && j + 1 < |r| && !r[j].destroyer.Off? && w in r[j + 1].list
    ensures w !in r[j].list <==> ListsAt(r, j, w)
  {
    AlwaysBuilderRests(r, j);
    AlwaysListing(r, j);
    RunStep(r, j);
    StepList(r[j], r[j + 1], w);
    if w in r[j].list {
      ListedIsNotNew(r, j, w);
    }
  }

  /** Once Destroy has been called, a worker that was not in the list then is there later exactly when it
      was listed as a replacement in between. */
  lemma {:induction false} OnlyReplacementsMissed(r: seq<Pool>, i: nat, j: nat, w: WorkerId)
    requires Run(r) && i <= j < |r| && r[i].inDestroy && w in r[j].list
    ensures w !in r[i].list <==> ListedSince(r, i, j, w)
    decreases j
  {
    if i < j {
      NoneDestroyedBefore(r, i, j - 1);
      ListStep(r, j - 1, w);
      ListedMore(r, i, j - 1, w);
      if w in r[j - 1].list {
        OnlyReplacementsMissed(r, i, j - 1, w);
      } else {
        ListsUnwatched(r, j - 1, w);
        UnwatchedBefore(r, i, j - 1, w);
        AlwaysListing(r, i);
      }
    }
  }

  lemma NoneDestroyedBefore(r: seq<Pool>, i: nat, j: nat)
    requires Run(r) && i <= j < |r| && r[i].inDestroy
    ensures !r[j].destroyer.Off?
  {
    FlagRun(r, i, j);
    AlwaysLiving(r, j);
  }

  lemma {:induction false} FlagRun(r: seq<Pool>, i: nat, j: nat)
    requires Run(r) && i <= j < |r| && r[i].inDestroy
    ensures r[j].inDestroy
    decreases j
  {
    if i < j {
      FlagRun(r, i, j - 1);
      RunStep(r, j - 1);
      FlagStays(r[j - 1], r[j]);
    }
  }

  /** A listed worker is not about to be listed. */
  lemma ListedIsNotNew(r: seq<Pool>, j: nat, w: WorkerId)
    requires Run(r) && j + 1 < |r| && w in r[j].list
    ensures !ListsAt(r, j, w)
  {
    AlwaysListing(r, j);
    AlwaysNewUnlisted(r, j);
  }

  /** The worker does not exist yet or has no watcher yet. */
  predicate Unwatched(s: Pool, w: WorkerId) {
    w in s.workers ==> s.workers[w].watch.NotStarted?
  }

  lemma ListsUnwatched(r: seq<Pool>, j: nat, w: WorkerId)
    requires Run(r) && j < |r| && ListsAt(r, j, w)
    ensures Unwatched(r[j], w)
  {
    AlwaysNewUnlisted(r, j);
  }

  lemma WatchUnwatched(s: Pool, s': Pool, x: WorkerId, p: WatchAct, w: WorkerId)
    requires WatchStep(s, s', x, p) && Unwatched(s', w)
    ensures Unwatched(s, w)
  {
    WatchFrame(s, s', x, p);
  }

  lemma BuildUnwatched(s: Pool, s': Pool, p: BuildAct, w: WorkerId)
    requires BuildStep(s, s', p) && Unwatched(s', w)
    ensures Unwatched(s, w)
  {
  }

  lemma StepUnwatched(s: Pool, s': Pool, w: WorkerId)
    requires Next(s, s') && Unwatched(s', w)
    ensures Unwatched(s, w)
  {
    var step :| Does(s, s', step);
    match step
    case OfWatcher(x, p) => WatchUnwatched(s, s', x, p, w);
    case OfBuilder(p) => BuildUnwatched(s, s', p, w);
    case _ => QuietFrame(s, s', step);
  }

  lemma {:induction false} UnwatchedBefore(r: seq<Pool>, i: nat, j: nat, w: WorkerId)
    requires Run(r) && i <= j < |r| && Unwatched(r[j], w)
    ensures Unwatched(r[i], w)
    decreases j
  {
    if i < j {
      RunStep(r, j - 1);
      StepUnwatched(r[j - 1], r[j], w);
      UnwatchedBefore(r, i, j - 1, w);
    }
  }

  /** Such a replacement was under way when Destroy was called: the watcher that lists it had looked at the
      flag before. */
  lemma MissedWasUnderWay(r: seq<Pool>, i: nat, k: nat, x: WorkerId, w: WorkerId)
    requires Run(r) && i <= k && k + 1 < |r| && r[i].inDestroy && ListsFor(r[k], r[k + 1], x, w)
    ensures x in r[i].workers && !Unreplaced(r[i], x)
  {
    if Unreplaced(r[i], x) {
      NotReplacedOnceDestroyed(r, i, k, x);
    }
  }

  /** The process of the only worker has died, and Wait has returned to its watcher. */
  lemma DeadPool() returns (s: Pool)
    ensures Reachable(s) && s.list == [0] && 0 in s.workers && s.workers.Keys == {0} && s.workers[0].watch.Waited?
    ensures s.destroyer.Off? && !s.inDestroy && s.builder.Built? && !s.tmu && s.tasks == 0
  {
    var s0 := OneWorkerPool();
    var s1 := SetWorker(s0, 0, s0.workers[0].(exited := true, success := false));
    Reach(s0, s1, OfWorker(0, DoProcessExits(false)));
    var s2 := SetWorker(s1, 0, s1.workers[0].(lock := ByWatcher, watch := Setting(Errored)));
    Reach(s1, s2, OfWatcher(0, DoLockForWait));
    s := SetWorker(s2, 0, s2.workers[0].(value := Errored, lock := Unlocked, watch := Waited));
    Reach(s2, s, OfWatcher(0, DoSetFinal));
  }

  /** Its watcher has looked at the flag and is about to replace it. */
  lemma ReplacingPool() returns (s: Pool)
    ensures Reachable(s) && s.list == [] && s.workers.Keys == {0} && s.workers[0].watch.Replacing?
    ensures s.destroyer.Off? && s.builder.Built? && !s.tmu && s.tasks == 0
  {
    var s0 := DeadPool();
    var s1 := SetWorker(s0, 0, s0.workers[0].(watch := Detached)).(list := [], marks := s0.marks - {0});
    Reach(s0, s1, OfWatcher(0, DoDetach));
    var s2 := SetWorker(s1, 0, s1.workers[0].(watch := Counted))
              .(numDead := s1.numDead + 1, counted := s1.counted + {0});
    Reach(s1, s2, OfWatcher(0, DoCountDead));
    s := SetWorker(s2, 0, s2.workers[0].(watch := Replacing));
    Reach(s2, s, OfWatcher(0, DoCheckDestroyed));
  }

  /** Destroy runs over a pool without tasks up to the closing of its channel. */
  lemma ClosedPool(s: Pool) returns (s': Pool)
    requires Reachable(s) && s.destroyer.Off? && s.builder.Built? && !s.tmu && s.tasks == 0
    ensures Reachable(s') && s' == s.(inDestroy := true, destroyClosed := true, destroyer := Closed)
  {
    var s1 := s.(inDestroy := true, destroyer := Flagged);
    Reach(s, s1, OfDestroy(DoFlagDestroy));
    var s2 := s1.(tmu := true, destroyer := Draining);
    Reach(s1, s2, OfDestroy(DoLockTasks));
    s' := s2.(destroyClosed := true, tmu := false, destroyer := Closed);
    Reach(s2, s', OfDestroy(DoCloseDestroy));
  }

  /** The loop of Destroy is through, and w is a ready worker in the list that nobody has called Stop on. */
  predicate Missed(s: Pool, w: WorkerId) {
    && s.destroyer == Marking([]) && w in s.list && w in s.workers
    && s.workers[w] == NewWorker().(watch := Waiting)
  }

  /** So Destroy can be through while a ready worker is in the list that it never stopped. */
  lemma DestroyCanMissWorker()
    ensures exists s, w :: Reachable(s) && Missed(s, w)
  {
    var s0 := ReplacingPool();
    var s1 := ClosedPool(s0);
    var s2 := s1.(destroyer := Marking([]));
    Reach(s1, s2, OfDestroy(DoSnapshotList));
    var s3 := SetWorker(SetWorker(s2, 1, NewWorker()), 0, s2.workers[0].(watch := HasSpawned(1)));
    Reach(s2, s3, OfWatcher(0, DoSpawnReplacement(1)));
    var s4 := SetWorker(SetWorker(s3, 1, s3.workers[1].(watch := Waiting)), 0, s3.workers[0].(watch := HasListed(1)))
              .(list := s3.list + [1]);
    Reach(s3, s4, OfWatcher(0, DoListReplacement));
    assert Missed(s4, 1);
  }

  /** A call that comes after the closing can be told that the pool has been stopped. */
  lemma CallCanSeeStop()
    ensures exists s :: Reachable(s) && 0 in s.calls && s.calls[0].pc == Leaving(Failure(PoolStopped))
  {
    var s0 := OneWorkerPool();
    var s1 := ClosedPool(s0);
    var s2 := s1.(calls := s1.calls[0 := Call(None, Entering, 0, [], false)]);
    Reach(s1, s2, OfCall(0, DoEnter(None)));
    var s3 := s2.(tasks := 1, admissions := {(0, 0)},
                  calls := s2.calls[0 := Call(None, Admitted, 1, [], false)]);
    Reach(s2, s3, OfCall(0, DoAdmit));
    var s4 := GoTo(s3, 0, Looping(0));
    Reach(s3, s4, OfCall(0, DoLoadDead));
    var s5 := GoTo(s4, 0, Leaving(Failure(PoolStopped)));
    Reach(s4, s5, OfCall(0, DoSeeStopped));
  }
}
