/**
 Dead workers are replaced while the pool lives, and not once it is being destroyed.
 */
module PoolReplacement {
  import opened PoolModel
  import opened PoolFrames
  import opened PoolOwnership
  import opened PoolPopulation

  // ---------------------------------------------------------------- while the pool lives

  /** The flag says that Destroy has been called, and no watcher has given up before that. */
  ghost predicate Living(s: Pool) {
    && (s.inDestroy <==> !s.destroyer.Off?)
    && (forall w :: w in s.workers && s.workers[w].watch.GaveUp? ==> s.inDestroy)
  }

  lemma WatchLiving(s: Pool, s': Pool, w: WorkerId, p: WatchAct)
    requires Living(s) && WatchStep(s, s', w, p)
    ensures Living(s')
  {
    WatchFrame(s, s', w, p);
    WatchKeepsFlag(s, s', w, p);
    forall v | v in s'.workers && s'.workers[v].watch.GaveUp?
      ensures s'.inDestroy
    {
      WatchGivesUp(s, s', w, p, v);
    }
  }

  lemma WatchKeepsFlag(s: Pool, s': Pool, w: WorkerId, p: WatchAct)
    requires WatchStep(s, s', w, p)
    ensures s'.inDestroy == s.inDestroy && s'.destroyer == s.destroyer
  {
  }

  lemma WatchGivesUp(s: Pool, s': Pool, w: WorkerId, p: WatchAct, v: WorkerId)
    requires WatchStep(s, s', w, p) && v in s'.workers && s'.workers[v].watch.GaveUp?
    ensures s.inDestroy || (v in s.workers && s.workers[v].watch.GaveUp?)
  {
  }

  lemma BuildLiving(s: Pool, s': Pool, p: BuildAct)
    requires Living(s) && BuildStep(s, s', p)
    ensures Living(s')
  {
  }

  lemma DestroyLiving(s: Pool, s': Pool, p: DestroyAct)
    requires Living(s) && DestroyStep(s, s', p)
    ensures Living(s')
  {
    DestroyFrame(s, s', p);
  }

  lemma StepLiving(s: Pool, s': Pool)
    requires Living(s) && Next(s, s')
    ensures Living(s')
  {
    var step :| Does(s, s', step);
    match step
    case OfCall(t, p) => CallFrame(s, s', t, p);
    case OfWatcher(w, p) => WatchLiving(s, s', w, p);
    case OfWorker(w, p) => WorkerFrame(s, s', w, p);
    case OfBuilder(p) => BuildLiving(s, s', p);
    case OfDestroy(p) => DestroyLiving(s, s', p);
  }

  lemma {:induction false} AlwaysLiving(r: seq<Pool>, i: nat)
    requires Run(r) && i < |r|
    ensures Living(r[i])
  {
    if i > 0 {
      AlwaysLiving(r, i - 1);
      RunStep(r, i - 1);
      StepLiving(r[i - 1], r[i]);
    }
  }

  /** Until Destroy is called no slot is given up: the workers in the list, the replacements under way and
      the replacements that failed add up to NumWorkers. */
  lemma ReplacedWhileLiving(r: seq<Pool>, i: nat)
    requires Run(r) && i < |r| && r[i].builder.Built? && r[i].destroyer.Off?
    ensures With(r[i], Surrendered) == {}
    ensures |r[i].list| + |With(r[i], InFlight)| + |With(r[i], Lost)| == r[i].numWorkers
  {
    AlwaysLiving(r, i);
    PopulationConserved(r, i);
  }

  // ---------------------------------------------------------------- once it is being destroyed

  /** The watcher of w has not looked yet whether the pool is being destroyed. */
  predicate Undecided(s: Pool, w: WorkerId) {
    w in s.workers ==>
      var watch := s.workers[w].watch;
      watch.NotStarted? || watch.Waiting? || watch.Setting? || watch.Waited? || watch.Detached? || watch.Counted?
  }

  /** The worker will not be replaced. */
  predicate Unreplaced(s: Pool, w: WorkerId) {
    Undecided(s, w) || (w in s.workers && s.workers[w].watch.GaveUp?)
  }

  lemma WatchUnreplaced(s: Pool, s': Pool, x: WorkerId, p: WatchAct, w: WorkerId)
    requires WatchStep(s, s', x, p) && s.inDestroy && NewUnlisted(s) && Unreplaced(s, w)
    ensures Unreplaced(s', w)
  {
    WatchFrame(s, s', x, p);
    if x == w {
      OwnUnreplaced(s, s', w, p);
    } else if p.DoListReplacement? {
      ListedUnreplaced(s, s', x, w);
    } else if p.DoSpawnReplacement? {
      SpawnedUnreplaced(s, s', x, p.nw, w);
    }
  }

  lemma OwnUnreplaced(s: Pool, s': Pool, w: WorkerId, p: WatchAct)
    requires WatchStep(s, s', w, p) && s.inDestroy && Unreplaced(s, w)
    ensures Unreplaced(s', w)
  {
  }

  lemma ListedUnreplaced(s: Pool, s': Pool, x: WorkerId, w: WorkerId)
    requires ListReplacement(s, s', x) && Unreplaced(s, w) && x != w
    ensures Unreplaced(s', w)
  {
  }

  lemma SpawnedUnreplaced(s: Pool, s': Pool, x: WorkerId, nw: WorkerId, w: WorkerId)
    requires SpawnReplacement(s, s', x, nw) && Unreplaced(s, w) && x != w
    ensures Unreplaced(s', w)
  {
  }

  lemma BuildUnreplaced(s: Pool, s': Pool, p: BuildAct, w: WorkerId)
    requires BuildStep(s, s', p) && Unreplaced(s, w)
    ensures Unreplaced(s', w)
  {
  }

  lemma StepUnreplaced(s: Pool, s': Pool, w: WorkerId)
    requires Next(s, s') && s.inDestroy && NewUnlisted(s) && Unreplaced(s, w)
    ensures Unreplaced(s', w)
  {
    var step :| Does(s, s', step);
    match step
    case OfWatcher(x, p) => WatchUnreplaced(s, s', x, p, w);
    case OfBuilder(p) => BuildUnreplaced(s, s', p, w);
    case _ => QuietFrame(s, s', step);
  }

  lemma FlagStays(s: Pool, s': Pool)
    requires Next(s, s') && s.inDestroy
    ensures s'.inDestroy
  {
    var step :| Does(s, s', step);
    match step
    case OfCall(t, p) => CallFrame(s, s', t, p);
    case OfWatcher(w, p) => WatchKeepsFlag(s, s', w, p);
    case OfWorker(w, p) => WorkerFrame(s, s', w, p);
    case OfBuilder(p) =>
    case OfDestroy(p) => DestroyFrame(s, s', p);
  }

  /** Once Destroy has been called, a worker whose watcher has not looked at the flag yet, or that does not
      even exist yet, is never replaced. */
  lemma {:induction false} NotReplacedOnceDestroyed(r: seq<Pool>, i: nat, j: nat, w: WorkerId)
    requires Run(r) && i <= j < |r| && r[i].inDestroy && Unreplaced(r[i], w)
    ensures r[j].inDestroy && Unreplaced(r[j], w)
    decreases j
  {
    if i < j {
      NotReplacedOnceDestroyed(r, i, j - 1, w);
      AlwaysNewUnlisted(r, j - 1);
      RunStep(r, j - 1);
      StepUnreplaced(r[j - 1], r[j], w);
      FlagStays(r[j - 1], r[j]);
    }
  }
}
