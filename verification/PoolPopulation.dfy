/**
 The worker list: which workers it holds, and that no worker slot is ever lost.
 */
module PoolPopulation {
  import opened Basics
  import opened PoolModel
  import opened PoolFrames
  import opened PoolOwnership

  // ---------------------------------------------------------------- workers not listed yet

  /** A worker that its creator has not listed yet has no watcher yet. */
  ghost predicate NewUnlisted(s: Pool) {
    && (forall x, w :: x in s.workers && s.workers[x].watch == HasSpawned(w) ==>
          w in s.workers && s.workers[w].watch.NotStarted?)
    && (s.builder.BuildSpawned? ==> s.builder.w in s.workers && s.workers[s.builder.w].watch.NotStarted?)
  }

  /** Two creators never have the same new worker. */
  lemma SpawnedApart(s: Pool, x: WorkerId, w: WorkerId)
    requires Owned(s) && x in s.workers && s.workers[x].watch == HasSpawned(w)
    ensures s.builder.BuildSpawned? ==> s.builder.w != w
    ensures forall y :: y in s.workers && y != x ==> s.workers[y].watch != HasSpawned(w)
  {
    assert Holds(s, Watcher(x), w);
    assert !Holds(s, NewPool, w);
    forall y | y in s.workers && y != x
      ensures s.workers[y].watch != HasSpawned(w)
    {
      assert !Holds(s, Watcher(y), w);
    }
  }

  lemma ListReplacementNewUnlisted(s: Pool, s': Pool, w: WorkerId)
    requires NewUnlisted(s) && Owned(s) && ListReplacement(s, s', w)
    ensures NewUnlisted(s')
  {
    SpawnedApart(s, w, s.workers[w].watch.spawned);
  }

  lemma WatchNewUnlisted(s: Pool, s': Pool, w: WorkerId, p: WatchAct)
    requires NewUnlisted(s) && Owned(s) && WatchStep(s, s', w, p)
    ensures NewUnlisted(s')
  {
    if p.DoListReplacement? {
      ListReplacementNewUnlisted(s, s', w);
    } else {
      WatchKeepsNewUnlisted(s, s', w, p);
    }
  }

  lemma WatchKeepsNewUnlisted(s: Pool, s': Pool, w: WorkerId, p: WatchAct)
    requires NewUnlisted(s) && WatchStep(s, s', w, p) && !p.DoListReplacement?
    ensures NewUnlisted(s')
  {
  }

  lemma BuildNewUnlisted(s: Pool, s': Pool, p: BuildAct)
    requires NewUnlisted(s) && Owned(s) && BuildStep(s, s', p)
    ensures NewUnlisted(s')
  {
    if p.DoBuildList? {
      forall x, v | x in s.workers && s.workers[x].watch == HasSpawned(v)
        ensures v != s.builder.w
      {
        SpawnedApart(s, x, v);
      }
    }
  }

  lemma StepNewUnlisted(s: Pool, s': Pool)
    requires NewUnlisted(s) && Owned(s) && Next(s, s')
    ensures NewUnlisted(s')
  {
    var step :| Does(s, s', step);
    if step.OfWatcher? {
      WatchNewUnlisted(s, s', step.w, step.watch);
    } else if step.OfBuilder? {
      BuildNewUnlisted(s, s', step.build);
    } else {
      QuietNewUnlisted(s, s', step);
    }
  }

  lemma QuietNewUnlisted(s: Pool, s': Pool, step: Step)
    requires NewUnlisted(s) && Does(s, s', step) && !step.OfWatcher? && !step.OfBuilder?
    ensures NewUnlisted(s')
  {
    QuietFrame(s, s', step);
  }

  lemma {:induction false} AlwaysNewUnlisted(r: seq<Pool>, i: nat)
    requires Run(r) && i < |r|
    ensures NewUnlisted(r[i])
  {
    if i > 0 {
      AlwaysNewUnlisted(r, i - 1);
      AlwaysOwned(r, i - 1);
      RunStep(r, i - 1);
      StepNewUnlisted(r[i - 1], r[i]);
    }
  }

  // ---------------------------------------------------------------- the list

  /** Removing a listed worker takes out exactly its first entry and keeps the order of the rest. */
  lemma {:induction false} WithoutKeepsOrder(list: seq<WorkerId>, w: WorkerId, i: nat)
    requires i < |list| && list[i] == w && w !in list[..i]
    ensures Without(list, w) == list[..i] + list[i + 1..]
  {
    if i > 0 {
      assert list[0] in list[..i];
      assert list[1..][..i - 1] == list[1..i];
      WithoutKeepsOrder(list[1..], w, i - 1);
      assert list[..i] == [list[0]] + list[1..i];
      assert list[1..][i..] == list[i + 1..];
    }
  }

  lemma {:induction false} WithoutAbsent(list: seq<WorkerId>, w: WorkerId)
    requires w !in list
    ensures Without(list, w) == list
  {
    if list != [] {
      assert list[0] in list;
      WithoutAbsent(list[1..], w);
    }
  }

  /** The watcher's detaching loop. */
  method SpliceOut(list: seq<WorkerId>, w: WorkerId) returns (rest: seq<WorkerId>, found: bool)
    ensures rest == Without(list, w)
    ensures found <==> w in list
  {
    var i := 0;
    while i < |list|
      invariant 0 <= i <= |list|
      invariant w !in list[..i]
    {
      if list[i] == w {
        WithoutKeepsOrder(list, w, i);
        return list[..i] + list[i + 1..], true;
      }
      i := i + 1;
    }
    WithoutAbsent(list, w);
    rest, found := list, false;
  }

  lemma WithoutElements(list: seq<WorkerId>, w: WorkerId)
    requires Distinct(list) && w in list
    ensures Distinct(Without(list, w)) && |Without(list, w)| == |list| - 1
    ensures forall v :: v in Without(list, w) <==> v in list && v != w
  {
    var i :| 0 <= i < |list| && list[i] == w;
    WithoutKeepsOrder(list, w, i);
    SplicedElements(list, i);
  }

  lemma SplicedElements(list: seq<WorkerId>, i: nat)
    requires Distinct(list) && i < |list|
    ensures Distinct(list[..i] + list[i + 1..])
    ensures forall v :: v in list[..i] + list[i + 1..] <==> v in list && v != list[i]
  {
    var rest := list[..i] + list[i + 1..];
    assert list == list[..i] + [list[i]] + list[i + 1..];
    assert forall v :: v in list <==> v in list[..i] || v == list[i] || v in list[i + 1..];
  }

  predicate Enlisted(watch: Watch) {
    watch.Waiting? || watch.Setting? || watch.Waited?
  }

  /** The list holds, once each, the workers whose watcher has started and not detached them. */
  ghost predicate Listing(s: Pool) {
    && Distinct(s.list)
    && (forall w :: w in s.list ==> w in s.workers && Enlisted(s.workers[w].watch))
    && (forall w :: w in s.workers && Enlisted(s.workers[w].watch) ==> w in s.list)
  }

  lemma DetachListing(s: Pool, s': Pool, w: WorkerId)
    requires Listing(s) && Detach(s, s', w)
    ensures Listing(s')
    ensures |s'.list| == |s.list| - 1
  {
    WithoutElements(s.list, w);
  }

  lemma ListReplacementListing(s: Pool, s': Pool, w: WorkerId)
    requires Listing(s) && NewUnlisted(s) && ListReplacement(s, s', w)
    ensures Listing(s')
  {
    var nw := s.workers[w].watch.spawned;
    ListReplacementEnlists(s, s', w);
    AppendDistinct(s.list, nw);
    assert forall v :: v in s'.list <==> v in s.list || v == nw;
  }

  lemma ListReplacementEnlists(s: Pool, s': Pool, w: WorkerId)
    requires NewUnlisted(s) && ListReplacement(s, s', w)
    ensures var nw := s.workers[w].watch.spawned;
            && nw in s.workers && !Enlisted(s.workers[nw].watch) && s'.workers.Keys == s.workers.Keys
            && forall v :: v in s.workers ==>
                 (Enlisted(s'.workers[v].watch) <==> v == nw || Enlisted(s.workers[v].watch))
  {
  }

  lemma AppendDistinct(list: seq<WorkerId>, w: WorkerId)
    requires Distinct(list) && w !in list
    ensures Distinct(list + [w])
  {
  }

  lemma WatchListing(s: Pool, s': Pool, w: WorkerId, p: WatchAct)
    requires Listing(s) && NewUnlisted(s) && WatchStep(s, s', w, p)
    ensures Listing(s')
  {
    if p.DoDetach? {
      DetachListing(s, s', w);
    } else if p.DoListReplacement? {
      ListReplacementListing(s, s', w);
    } else {
      WatchSameListing(s, s', w, p);
    }
  }

  lemma WatchSameListing(s: Pool, s': Pool, w: WorkerId, p: WatchAct)
    requires Listing(s) && WatchStep(s, s', w, p) && !p.DoDetach? && !p.DoListReplacement?
    ensures Listing(s')
  {
    WatchSameEnlisted(s, s', w, p);
    ListingFrame(s, s');
  }

  lemma WatchSameEnlisted(s: Pool, s': Pool, w: WorkerId, p: WatchAct)
    requires WatchStep(s, s', w, p) && !p.DoDetach? && !p.DoListReplacement?
    ensures s'.list == s.list && s.workers.Keys <= s'.workers.Keys
    ensures forall v :: v in s'.workers ==>
              (Enlisted(s'.workers[v].watch) <==> v in s.workers && Enlisted(s.workers[v].watch))
  {
    if p.DoSpawnReplacement? {
      SpawnSameEnlisted(s, s', w, p.nw);
    } else {
      assert s'.workers.Keys == s.workers.Keys;
      assert Enlisted(s'.workers[w].watch) == Enlisted(s.workers[w].watch);
    }
  }

  lemma SpawnSameEnlisted(s: Pool, s': Pool, w: WorkerId, nw: WorkerId)
    requires SpawnReplacement(s, s', w, nw)
    ensures s'.list == s.list && s.workers.Keys <= s'.workers.Keys
    ensures forall v :: v in s'.workers ==>
              (Enlisted(s'.workers[v].watch) <==> v in s.workers && Enlisted(s.workers[v].watch))
  {
  }

  lemma ListingFrame(s: Pool, s': Pool)
    requires Listing(s) && s'.list == s.list && s.workers.Keys <= s'.workers.Keys
    requires forall v :: v in s'.workers ==>
               (Enlisted(s'.workers[v].watch) <==> v in s.workers && Enlisted(s.workers[v].watch))
    ensures Listing(s')
  {
  }

  lemma BuildListing(s: Pool, s': Pool, p: BuildAct)
    requires Listing(s) && NewUnlisted(s) && BuildStep(s, s', p)
    ensures Listing(s')
  {
  }

  lemma QuietListing(s: Pool, s': Pool, step: Step)
    requires Listing(s) && Does(s, s', step) && !step.OfWatcher? && !step.OfBuilder?
    ensures Listing(s')
  {
    QuietFrame(s, s', step);
  }

  lemma StepListing(s: Pool, s': Pool)
    requires Listing(s) && NewUnlisted(s) && Next(s, s')
    ensures Listing(s')
  {
    var step :| Does(s, s', step);
    if step.OfWatcher? {
      WatchListing(s, s', step.w, step.watch);
    } else if step.OfBuilder? {
      BuildListing(s, s', step.build);
    } else {
      QuietListing(s, s', step);
    }
  }

  lemma {:induction false} AlwaysListing(r: seq<Pool>, i: nat)
    requires Run(r) && i < |r|
    ensures Listing(r[i])
  {
    if i > 0 {
      AlwaysListing(r, i - 1);
      AlwaysNewUnlisted(r, i - 1);
      RunStep(r, i - 1);
      StepListing(r[i - 1], r[i]);
    }
  }

  // ---------------------------------------------------------------- conservation

  /** Where a worker slot is once its worker has been detached. */
  datatype Fate = Elsewhere | InFlight | Lost | Surrendered

  function FateOf(watch: Watch): Fate {
    match watch
    case Detached => InFlight
    case Counted => InFlight
    case Replacing => InFlight
    case HasSpawned(_) => InFlight
    case Failed => Lost
    case GaveUp => Surrendered
    case _ => Elsewhere
  }

  ghost function With(s: Pool, f: Fate): set<WorkerId> {
    set w | w in s.workers && FateOf(s.workers[w].watch) == f
  }

  /** Worker slots that NewPool has filled so far. */
  function BuiltSlots(s: Pool): nat {
    match s.builder
    case Building(i) => i
    case BuildSpawned(i, _) => i
    case BuildListed(i, _) => i + 1
    case Built => s.numWorkers
    case Aborted(i) => i
  }

  ghost predicate Conserved(s: Pool) {
    |s.list| + |With(s, InFlight)| + |With(s, Lost)| + |With(s, Surrendered)| == BuiltSlots(s)
  }

  /** Only the fate of w changes, and new workers have none. */
  ghost predicate OneFate(s: Pool, s': Pool, w: WorkerId) {
    && w in s.workers && s.workers.Keys <= s'.workers.Keys
    && forall v :: v in s'.workers && v != w ==>
         FateOf(s'.workers[v].watch) == if v in s.workers then FateOf(s.workers[v].watch) else Elsewhere
  }

  lemma OneFateCounts(s: Pool, s': Pool, w: WorkerId, f: Fate)
    requires OneFate(s, s', w) && f != Elsewhere
    ensures |With(s', f)| == |With(s, f)| - (if FateOf(s.workers[w].watch) == f then 1 else 0)
                                          + (if FateOf(s'.workers[w].watch) == f then 1 else 0)
  {
    WithSplit(s, w, f);
    WithSplit(s', w, f);
    OthersKeepFate(s, s', w, f);
  }

  lemma OthersKeepFate(s: Pool, s': Pool, w: WorkerId, f: Fate)
    requires OneFate(s, s', w) && f != Elsewhere
    ensures With(s', f) - {w} == With(s, f) - {w}
  {
    forall v
      ensures v in With(s', f) - {w} <==> v in With(s, f) - {w}
    {
      if v != w && v in s'.workers {
        assert FateOf(s'.workers[v].watch) == if v in s.workers then FateOf(s.workers[v].watch) else Elsewhere;
      }
    }
  }

  lemma WithSplit(s: Pool, w: WorkerId, f: Fate)
    requires w in s.workers
    ensures |With(s, f)| == |With(s, f) - {w}| + if FateOf(s.workers[w].watch) == f then 1 else 0
  {
    if FateOf(s.workers[w].watch) == f {
      assert With(s, f) == (With(s, f) - {w}) + {w};
    } else {
      assert With(s, f) == With(s, f) - {w};
    }
  }

  lemma WatchOneFate(s: Pool, s': Pool, w: WorkerId, p: WatchAct)
    requires NewUnlisted(s) && WatchStep(s, s', w, p)
    ensures OneFate(s, s', w)
  {
    WatchFrame(s, s', w, p);
  }

  /** What a watcher's step does to the list and to the fate of its own worker. */
  lemma WatchSlots(s: Pool, s': Pool, w: WorkerId, p: WatchAct)
    requires Listing(s) && NewUnlisted(s) && WatchStep(s, s', w, p)
    ensures w in s.workers && w in s'.workers && BuiltSlots(s') == BuiltSlots(s)
    ensures |s'.list| - |s.list| == (if FateOf(s.workers[w].watch) != Elsewhere then 1 else 0)
                                    - (if FateOf(s'.workers[w].watch) != Elsewhere then 1 else 0)
  {
    if p.DoDetach? {
      DetachListing(s, s', w);
    } else {
      WatchSlotsKept(s, s', w, p);
    }
  }

  lemma WatchSlotsKept(s: Pool, s': Pool, w: WorkerId, p: WatchAct)
    requires WatchStep(s, s', w, p) && !p.DoDetach?
    ensures w in s.workers && w in s'.workers && BuiltSlots(s') == BuiltSlots(s)
    ensures |s'.list| - |s.list| == (if FateOf(s.workers[w].watch) != Elsewhere then 1 else 0)
                                    - (if FateOf(s'.workers[w].watch) != Elsewhere then 1 else 0)
  {
    if p.DoListReplacement? {
      ListReplacementSlots(s, s', w);
    }
  }

  lemma ListReplacementSlots(s: Pool, s': Pool, w: WorkerId)
    requires ListReplacement(s, s', w)
    ensures w in s'.workers && BuiltSlots(s') == BuiltSlots(s) && |s'.list| == |s.list| + 1
    ensures FateOf(s.workers[w].watch) == InFlight && FateOf(s'.workers[w].watch) == Elsewhere
  {
  }

  lemma WatchConserves(s: Pool, s': Pool, w: WorkerId, p: WatchAct)
    requires Listing(s) && NewUnlisted(s) && Conserved(s) && WatchStep(s, s', w, p)
    ensures Conserved(s')
  {
    WatchOneFate(s, s', w, p);
    WatchSlots(s, s', w, p);
    OneFateCounts(s, s', w, InFlight);
    OneFateCounts(s, s', w, Lost);
    OneFateCounts(s, s', w, Surrendered);
  }

  lemma SameFates(s: Pool, s': Pool)
    requires forall v :: v in s'.workers ==>
               FateOf(s'.workers[v].watch) == if v in s.workers then FateOf(s.workers[v].watch) else Elsewhere
    requires s.workers.Keys <= s'.workers.Keys
    ensures forall f :: f != Elsewhere ==> With(s', f) == With(s, f)
  {
  }

  lemma BuildConserves(s: Pool, s': Pool, p: BuildAct)
    requires NewUnlisted(s) && Conserved(s) && BuildStep(s, s', p)
    ensures Conserved(s')
  {
    SameFates(s, s');
  }

  lemma QuietConserves(s: Pool, s': Pool)
    requires Conserved(s) && SameWatches(s, s')
    requires s'.list == s.list && s'.builder == s.builder && s'.numWorkers == s.numWorkers
    ensures Conserved(s')
  {
    SameFates(s, s');
  }

  lemma StepConserves(s: Pool, s': Pool)
    requires Listing(s) && NewUnlisted(s) && Conserved(s) && Next(s, s')
    ensures Conserved(s')
  {
    var step :| Does(s, s', step);
    if step.OfWatcher? {
      WatchConserves(s, s', step.w, step.watch);
    } else if step.OfBuilder? {
      BuildConserves(s, s', step.build);
    } else {
      QuietFrame(s, s', step);
      QuietConserves(s, s');
    }
  }

  lemma InitConserved(s: Pool)
    requires Init(s)
    ensures Conserved(s)
  {
    assert With(s, InFlight) == With(s, Lost) == With(s, Surrendered) == {};
  }

  lemma {:induction false} AlwaysConserved(r: seq<Pool>, i: nat)
    requires Run(r) && i < |r|
    ensures Conserved(r[i])
  {
    if i == 0 {
      InitConserved(r[0]);
    } else {
      AlwaysConserved(r, i - 1);
      AlwaysListing(r, i - 1);
      AlwaysNewUnlisted(r, i - 1);
      RunStep(r, i - 1);
      StepConserves(r[i - 1], r[i]);
    }
  }

  /** After a successful NewPool no worker slot is lost or invented: the listed workers, the
      watchers between detaching and listing a replacement, the failed replacements and the slots
      given up because the pool is being destroyed always add up to NumWorkers. */
  lemma PopulationConserved(r: seq<Pool>, i: nat)
    requires Run(r) && i < |r| && r[i].builder.Built?
    ensures |r[i].list| + |With(r[i], InFlight)| + |With(r[i], Lost)| + |With(r[i], Surrendered)| == r[i].numWorkers
    ensures Distinct(r[i].list)
  {
    AlwaysConserved(r, i);
    AlwaysListing(r, i);
  }

  /** The detaching step always finds its worker in the list, so it always deletes the mark. */
  lemma DetachFindsWorker(r: seq<Pool>, i: nat, w: WorkerId)
    requires Run(r) && i + 1 < |r| && Detach(r[i], r[i + 1], w)
    ensures w in r[i].list && w !in r[i + 1].list && w !in r[i + 1].marks
  {
    AlwaysListing(r, i);
    WithoutElements(r[i].list, w);
  }
}
