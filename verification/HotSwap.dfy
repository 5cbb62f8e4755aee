/**
 `Reconfigure`: replacing the pool of a started server while the old one is torn down in the
 background.
 */
module HotSwap {
  import opened Basics

  type PoolId = nat
  type WatcherId = nat

  /** Program counter of the one Reconfigure that holds `mup`. */
  datatype Reconfigure =
    | Out
    | In                                                       // the server was found started
    | Captured(previous: PoolId, watcher: Option<WatcherId>)
    | Constructed(pool: PoolId, previous: PoolId, watcher: Option<WatcherId>)
    | Installed(previous: PoolId, watcher: Option<WatcherId>)

  /** A teardown goroutine and how far it is. */
  datatype Phase = Pending | Detached | Over

  datatype Teardown = Teardown(pool: PoolId, watcher: Option<WatcherId>, phase: Phase)

  datatype Happening = Installs(pool: PoolId) | Detaches(watcher: WatcherId) | Destroys(pool: PoolId)

  datatype Server = Server(
    pool: PoolId,
    watcher: Option<WatcherId>,                                // pController
    controlled: bool,                                          // a controller is attached
    reconfigure: Reconfigure,
    teardowns: seq<Teardown>,
    pools: set<PoolId>,                                        // every pool ever constructed
    attached: map<WatcherId, PoolId>,                          // every watcher ever attached, with its pool
    log: seq<Happening>)

  /** A started server with its first pool.  A controller attached after the start has no watcher yet. */
  predicate Init(s: Server) {
    && s.reconfigure.Out? && s.teardowns == []
    && s.pools == {s.pool} && s.log == [Installs(s.pool)]
    && s.attached == (if s.watcher.Some? then map[s.watcher.value := s.pool] else map[])
    && (s.watcher.Some? ==> s.controlled)
  }

  datatype Act =
    | Enter | Differ | Capture | Construct(pool: PoolId) | ConstructFails
    | Install(watcher: WatcherId) | Leave
    | Detach(i: nat) | Destroy(i: nat)

  predicate Does(s: Server, s': Server, a: Act) {
    match a
    case Enter => s.reconfigure.Out? && s' == s.(reconfigure := In)
    case Differ => s.reconfigure.In? && s' == s.(reconfigure := Out)
    case Capture => s.reconfigure.In? && s' == s.(reconfigure := Captured(s.pool, s.watcher))
    case Construct(pool) =>
      && s.reconfigure.Captured? && pool !in s.pools
      && s' == s.(reconfigure := Constructed(pool, s.reconfigure.previous, s.reconfigure.watcher),
                  pools := s.pools + {pool})
    case ConstructFails => s.reconfigure.Captured? && s' == s.(reconfigure := Out)
    case Install(watcher) =>
      && s.reconfigure.Constructed?
      && watcher !in s.attached
      && var Constructed(pool, previous, old') := s.reconfigure;
         s' == s.(pool := pool, reconfigure := Installed(previous, old'),
                  watcher := if s.controlled then Some(watcher) else s.watcher,
                  attached := if s.controlled then s.attached[watcher := pool] else s.attached,
                  log := s.log + [Installs(pool)])
    case Leave =>
      && s.reconfigure.Installed?
      && s' == s.(reconfigure := Out,
                  teardowns := s.teardowns + [Teardown(s.reconfigure.previous, s.reconfigure.watcher, Pending)])
    case Detach(i) =>
      && i < |s.teardowns| && s.teardowns[i].phase.Pending?
      && var t := s.teardowns[i];
         s' == s.(teardowns := s.teardowns[i := t.(phase := Detached)],
                  log := if t.watcher.Some? then s.log + [Detaches(t.watcher.value)] else s.log)
    case Destroy(i) =>
      && i < |s.teardowns| && s.teardowns[i].phase.Detached?
      && var t := s.teardowns[i];
         s' == s.(teardowns := s.teardowns[i := t.(phase := Over)], log := s.log + [Destroys(t.pool)])
  }

  ghost predicate Next(s: Server, s': Server) {
    exists a :: Does(s, s', a)
  }

  ghost predicate StepAt(r: seq<Server>, i: nat) {
    i + 1 < |r| ==> Next(r[i], r[i + 1])
  }

  ghost predicate Run(r: seq<Server>) {
    |r| > 0 && Init(r[0]) && forall i: nat :: StepAt(r, i)
  }

  // ---------------------------------------------------------------- the line of pools

  /** An installed pool and the watcher it was given. */
  datatype Entry = Entry(pool: PoolId, watcher: Option<WatcherId>)

  function OfTeardowns(ts: seq<Teardown>): seq<Entry> {
    if ts == [] then [] else OfTeardowns(ts[..|ts| - 1]) + [Entry(ts[|ts| - 1].pool, ts[|ts| - 1].watcher)]
  }

  lemma {:induction false} TeardownAt(ts: seq<Teardown>, i: nat)
    ensures |OfTeardowns(ts)| == |ts|
    ensures i < |ts| ==> OfTeardowns(ts)[i] == Entry(ts[i].pool, ts[i].watcher)
  {
    if ts != [] {
      TeardownAt(ts[..|ts| - 1], i);
    }
  }

  lemma SameEntries(ts: seq<Teardown>, i: nat, phase: Phase)
    requires i < |ts|
    ensures OfTeardowns(ts[i := ts[i].(phase := phase)]) == OfTeardowns(ts)
  {
    var ts' := ts[i := ts[i].(phase := phase)];
    TeardownAt(ts, 0);
    TeardownAt(ts', 0);
    forall k | 0 <= k < |ts|
      ensures OfTeardowns(ts')[k] == OfTeardowns(ts)[k]
    {
      TeardownAt(ts, k);
      TeardownAt(ts', k);
    }
  }

  /** The installed pools in order of installation: those torn down or about to be, then the current one. */
  function Line(s: Server): (line: seq<Entry>)
    ensures line != []
  {
    OfTeardowns(s.teardowns)
    + (if s.reconfigure.Installed? then [Entry(s.reconfigure.previous, s.reconfigure.watcher)] else [])
    + [Entry(s.pool, s.watcher)]
  }

  /** No pool and no watcher is in the line twice. */
  predicate Apart(line: seq<Entry>) {
    forall i, j :: 0 <= i < j < |line| ==>
      line[i].pool != line[j].pool && (line[i].watcher.Some? ==> line[i].watcher != line[j].watcher)
  }

  predicate PoolInLine(line: seq<Entry>, p: PoolId) {
    exists i :: 0 <= i < |line| && line[i].pool == p
  }

  predicate WatcherInLine(line: seq<Entry>, w: WatcherId) {
    exists i :: 0 <= i < |line| && line[i].watcher == Some(w)
  }

  /** What a Reconfigure captured is still what it will replace, and its new pool is new. */
  ghost predicate Current(s: Server) {
    match s.reconfigure
    case Captured(previous, watcher) => previous == s.pool && watcher == s.watcher
    case Constructed(pool, previous, watcher) =>
      previous == s.pool && watcher == s.watcher && pool in s.pools && !PoolInLine(Line(s), pool)
    case _ => true
  }

  /** The line holds every pool constructed and every watcher attached, once. */
  ghost predicate Lined(s: Server) {
    && Apart(Line(s)) && Current(s)
    && (s.watcher.Some? ==> s.controlled)
    && (forall p :: p in s.pools ==> PoolInLine(Line(s), p) || (s.reconfigure.Constructed? && s.reconfigure.pool == p))
    && (forall p :: PoolInLine(Line(s), p) ==> p in s.pools)
    && (forall w :: w in s.attached <==> WatcherInLine(Line(s), w))
  }

  /** Only an installation changes the line, and it adds the new pool at the end. */
  lemma LineGrows(s: Server, s': Server, a: Act)
    requires Current(s) && Does(s, s', a)
    ensures Line(s') == if a.Install? then Line(s) + [Entry(s'.pool, s'.watcher)] else Line(s)
  {
    match a
    case Detach(i) => SameEntries(s.teardowns, i, Detached);
    case Destroy(i) => SameEntries(s.teardowns, i, Over);
    case Leave => assert s'.teardowns[..|s'.teardowns| - 1] == s.teardowns;
    case _ =>
  }

  lemma InstallLined(s: Server, s': Server, watcher: WatcherId)
    requires Lined(s) && Does(s, s', Install(watcher))
    ensures Lined(s')
  {
    LineGrows(s, s', Install(watcher));
    var line, line' := Line(s), Line(s');
    assert forall i :: 0 <= i < |line| ==> line'[i] == line[i];
    assert line'[|line|] == Entry(s'.pool, s'.watcher);
    assert forall w: WatcherId :: WatcherInLine(line, w) ==> w != watcher;
    assert forall p: PoolId :: PoolInLine(line', p) <==> PoolInLine(line, p) || p == s'.pool;
    assert forall w: WatcherId :: WatcherInLine(line', w) <==> WatcherInLine(line, w) || Some(w) == s'.watcher;
  }

  lemma StepLined(s: Server, s': Server, a: Act)
    requires Lined(s) && Does(s, s', a)
    ensures Lined(s')
  {
    if a.Install? {
      InstallLined(s, s', a.watcher);
    } else {
      LineGrows(s, s', a);
    }
  }

  // ---------------------------------------------------------------- what has happened to it

  /** The log shows a teardown as far as its phase says. */
  predicate Logged(t: Teardown, log: seq<Happening>) {
    && (Destroys(t.pool) in log <==> t.phase.Over?)
    && (t.watcher.Some? ==> (Detaches(t.watcher.value) in log <==> !t.phase.Pending?))
  }

  predicate TearsPool(ts: seq<Teardown>, p: PoolId) {
    exists i :: 0 <= i < |ts| && ts[i].pool == p
  }

  predicate TearsWatcher(ts: seq<Teardown>, w: WatcherId) {
    exists i :: 0 <= i < |ts| && ts[i].watcher == Some(w)
  }

  /** Installations are logged, teardowns are logged as far as they are, nothing else is, and nothing is
      logged twice. */
  ghost predicate LogRight(s: Server) {
    && Distinct(s.log)
    && (forall p: PoolId :: Installs(p) in s.log <==> PoolInLine(Line(s), p))
    && (forall i :: 0 <= i < |s.teardowns| ==> Logged(s.teardowns[i], s.log))
    && (forall p: PoolId :: Destroys(p) in s.log ==> TearsPool(s.teardowns, p))
    && (forall w: WatcherId :: Detaches(w) in s.log ==> TearsWatcher(s.teardowns, w))
  }

  /** The event is the destruction of an entry's pool or the detaching of its watcher. */
  predicate Ends(h: Happening, e: Entry) {
    h == Destroys(e.pool) || (e.watcher.Some? && h == Detaches(e.watcher.value))
  }

  /** The event is the destruction of a pool that has a watcher. */
  predicate DestroysWatched(h: Happening, e: Entry) {
    e.watcher.Some? && h == Destroys(e.pool)
  }

  /** An entry is ended only after its successor was installed, and its watcher goes before it. */
  ghost predicate InOrder(line: seq<Entry>, log: seq<Happening>) {
    && (forall k, i :: 0 <= k < |log| && 0 <= i < |line| - 1 && Ends(log[k], line[i]) ==>
          Installs(line[i + 1].pool) in log[..k])
    && (forall k, i :: 0 <= k < |log| && 0 <= i < |line| && DestroysWatched(log[k], line[i]) ==>
          Detaches(line[i].watcher.value) in log[..k])
  }

  ghost predicate Inv(s: Server) {
    Lined(s) && LogRight(s) && InOrder(Line(s), s.log)
  }

  lemma LineOfTeardowns(s: Server, i: nat)
    requires i < |s.teardowns|
    ensures i + 1 < |Line(s)| && Line(s)[i] == Entry(s.teardowns[i].pool, s.teardowns[i].watcher)
  {
    TeardownAt(s.teardowns, i);
  }

  lemma TeardownsApart(s: Server, i: nat, j: nat)
    requires Apart(Line(s)) && i < |s.teardowns| && j < |s.teardowns| && i != j
    ensures s.teardowns[i].pool != s.teardowns[j].pool
    ensures s.teardowns[i].watcher.Some? ==> s.teardowns[i].watcher != s.teardowns[j].watcher
  {
    LineOfTeardowns(s, i);
    LineOfTeardowns(s, j);
  }

  /** The current pool has not been ended. */
  lemma CurrentLives(s: Server)
    requires Apart(Line(s)) && LogRight(s)
    ensures Destroys(s.pool) !in s.log
    ensures s.watcher.Some? ==> Detaches(s.watcher.value) !in s.log
  {
    forall i | 0 <= i < |s.teardowns|
      ensures s.teardowns[i].pool != s.pool
      ensures s.watcher.Some? ==> s.teardowns[i].watcher != s.watcher
    {
      LineOfTeardowns(s, i);
      assert Line(s)[|Line(s)| - 1] == Entry(s.pool, s.watcher);
    }
  }

  lemma SameTears(ts: seq<Teardown>, i: nat, phase: Phase)
    requires i < |ts|
    ensures forall p: PoolId :: TearsPool(ts[i := ts[i].(phase := phase)], p) <==> TearsPool(ts, p)
    ensures forall w: WatcherId :: TearsWatcher(ts[i := ts[i].(phase := phase)], w) <==> TearsWatcher(ts, w)
  {
    var ts' := ts[i := ts[i].(phase := phase)];
    assert forall k :: 0 <= k < |ts| ==> ts'[k].pool == ts[k].pool && ts'[k].watcher == ts[k].watcher;
  }

  /** A new event about a teardown keeps the log right if the teardowns are then logged as far as they are. */
  lemma EndLogged(s: Server, s': Server, h: Happening)
    requires LogRight(s) && s'.log == s.log + [h] && h !in s.log && Line(s') == Line(s)
    requires forall p: PoolId :: TearsPool(s.teardowns, p) <==> TearsPool(s'.teardowns, p)
    requires forall w: WatcherId :: TearsWatcher(s.teardowns, w) <==> TearsWatcher(s'.teardowns, w)
    requires match h
             case Installs(_) => false
             case Destroys(p) => TearsPool(s.teardowns, p)
             case Detaches(w) => TearsWatcher(s.teardowns, w)
    requires forall j :: 0 <= j < |s'.teardowns| ==> Logged(s'.teardowns[j], s'.log)
    ensures LogRight(s')
  {
  }

  lemma OtherStaysLogged(t: Teardown, log: seq<Happening>, h: Happening)
    requires Logged(t, log) && h != Destroys(t.pool) && (t.watcher.Some? ==> h != Detaches(t.watcher.value))
    ensures Logged(t, log + [h])
  {
  }

  lemma DestroyLogged(s: Server, s': Server, i: nat)
    requires Lined(s) && LogRight(s) && Does(s, s', Destroy(i))
    ensures LogRight(s')
  {
    LineGrows(s, s', Destroy(i));
    SameTears(s.teardowns, i, Over);
    var h := Destroys(s.teardowns[i].pool);
    assert Logged(s.teardowns[i], s.log);
    assert TearsPool(s.teardowns, s.teardowns[i].pool);
    forall j | 0 <= j < |s'.teardowns|
      ensures Logged(s'.teardowns[j], s'.log)
    {
      if j != i {
        TeardownsApart(s, i, j);
        OtherStaysLogged(s.teardowns[j], s.log, h);
      }
    }
    EndLogged(s, s', h);
  }

  lemma DetachLogged(s: Server, s': Server, i: nat)
    requires Lined(s) && LogRight(s) && Does(s, s', Detach(i))
    ensures LogRight(s')
  {
    LineGrows(s, s', Detach(i));
    SameTears(s.teardowns, i, Detached);
    var t := s.teardowns[i];
    assert Logged(t, s.log);
    if t.watcher.Some? {
      var h := Detaches(t.watcher.value);
      assert TearsWatcher(s.teardowns, t.watcher.value);
      forall j | 0 <= j < |s'.teardowns|
        ensures Logged(s'.teardowns[j], s'.log)
      {
        if j != i {
          TeardownsApart(s, i, j);
          OtherStaysLogged(s.teardowns[j], s.log, h);
        }
      }
      EndLogged(s, s', h);
    }
  }

  lemma PoolsInLonger(line: seq<Entry>, e: Entry, p: PoolId)
    ensures PoolInLine(line + [e], p) <==> PoolInLine(line, p) || p == e.pool
  {
    assert (line + [e])[|line|] == e;
    if i :| 0 <= i < |line| && line[i].pool == p {
      assert (line + [e])[i] == line[i];
    }
  }

  lemma LoggedInstall(t: Teardown, log: seq<Happening>, p: PoolId)
    requires Logged(t, log)
    ensures Logged(t, log + [Installs(p)])
  {
  }

  lemma InstallsLogged(s: Server, s': Server, watcher: WatcherId)
    requires Lined(s) && LogRight(s) && Does(s, s', Install(watcher))
    ensures Distinct(s'.log)
    ensures forall p: PoolId :: Installs(p) in s'.log <==> PoolInLine(Line(s'), p)
  {
    LineGrows(s, s', Install(watcher));
    forall p: PoolId
      ensures PoolInLine(Line(s'), p) <==> PoolInLine(Line(s), p) || p == s'.pool
    {
      PoolsInLonger(Line(s), Entry(s'.pool, s'.watcher), p);
    }
    assert Installs(s'.pool) !in s.log;
  }

  lemma InstallLogged(s: Server, s': Server, watcher: WatcherId)
    requires Lined(s) && LogRight(s) && Does(s, s', Install(watcher))
    ensures LogRight(s')
  {
    InstallsLogged(s, s', watcher);
    forall i | 0 <= i < |s.teardowns|
      ensures Logged(s.teardowns[i], s'.log)
    {
      LoggedInstall(s.teardowns[i], s.log, s'.pool);
    }
  }

  /** The pool that has just been replaced joins the teardowns untouched. */
  lemma LeaveLogged(s: Server, s': Server)
    requires Lined(s) && LogRight(s) && Does(s, s', Leave)
    ensures LogRight(s')
  {
    LineGrows(s, s', Leave);
    var n := |s.teardowns|;
    assert forall i :: 0 <= i < n ==> s'.teardowns[i] == s.teardowns[i];
    LineOfTeardowns(s', n);
    forall i | 0 <= i < n
      ensures s.teardowns[i].pool != s'.teardowns[n].pool
      ensures s.teardowns[i].watcher.Some? ==> s.teardowns[i].watcher != s'.teardowns[n].watcher
    {
      TeardownsApart(s', i, n);
    }
    assert forall p: PoolId :: TearsPool(s.teardowns, p) ==> TearsPool(s'.teardowns, p);
    assert forall w: WatcherId :: TearsWatcher(s.teardowns, w) ==> TearsWatcher(s'.teardowns, w);
    assert Logged(s'.teardowns[n], s'.log);
  }

  lemma StepLogged(s: Server, s': Server, a: Act)
    requires Lined(s) && LogRight(s) && Does(s, s', a)
    ensures LogRight(s')
  {
    match a
    case Detach(i) => DetachLogged(s, s', i);
    case Destroy(i) => DestroyLogged(s, s', i);
    case Install(w) => InstallLogged(s, s', w);
    case Leave => LeaveLogged(s, s');
    case _ => LineGrows(s, s', a);
  }

  /** A new event keeps the order if it comes after what it must come after. */
  lemma OrderGrows(line: seq<Entry>, log: seq<Happening>, h: Happening)
    requires InOrder(line, log)
    requires forall i :: 0 <= i < |line| - 1 && Ends(h, line[i]) ==> Installs(line[i + 1].pool) in log
    requires forall i :: 0 <= i < |line| && DestroysWatched(h, line[i]) ==>
               Detaches(line[i].watcher.value) in log
    ensures InOrder(line, log + [h])
  {
    var log' := log + [h];
    assert forall k :: 0 <= k <= |log| ==> log'[..k] == log[..k];
    assert log[..|log|] == log;
  }

  lemma EndInOrder(s: Server, s': Server, a: Act, j: nat)
    requires Inv(s) && (a == Detach(j) || a == Destroy(j)) && Does(s, s', a)
    ensures InOrder(Line(s'), s'.log)
  {
    LineGrows(s, s', a);
    var line, t := Line(s), s.teardowns[j];
    LineOfTeardowns(s, j);
    assert Logged(t, s.log);
    forall i | 0 <= i < |line| && (line[i].pool == t.pool || (t.watcher.Some? && line[i].watcher == t.watcher))
      ensures i == j
    {
    }
    assert PoolInLine(line, line[j + 1].pool);
    if |s'.log| > |s.log| {
      OrderGrows(line, s.log, s'.log[|s.log|]);
    }
  }

  lemma InstallInOrder(s: Server, s': Server, watcher: WatcherId)
    requires Inv(s) && Does(s, s', Install(watcher))
    ensures InOrder(Line(s'), s'.log)
  {
    LineGrows(s, s', Install(watcher));
    CurrentLives(s);
    NewUnended(s, s', watcher);
    LongerInOrder(Line(s), s.log, Entry(s'.pool, s'.watcher));
  }

  /** A new entry at the end keeps the order while it and the one before it have not been ended. */
  lemma LongerInOrder(line: seq<Entry>, log: seq<Happening>, e: Entry)
    requires InOrder(line, log) && line != []
    requires forall k :: 0 <= k < |log| ==> !Ends(log[k], line[|line| - 1]) && !Ends(log[k], e)
    ensures InOrder(line + [e], log + [Installs(e.pool)])
  {
    OrderGrows(line, log, Installs(e.pool));
    var line', log' := line + [e], log + [Installs(e.pool)];
    assert forall i :: 0 <= i < |line| ==> line'[i] == line[i];
    assert forall k :: 0 <= k < |log'| ==> !Ends(log'[k], line[|line| - 1]) && !Ends(log'[k], e);
  }

  lemma NewUnended(s: Server, s': Server, watcher: WatcherId)
    requires Lined(s) && LogRight(s) && Does(s, s', Install(watcher))
    ensures Destroys(s'.pool) !in s.log
    ensures s'.watcher.Some? ==> Detaches(s'.watcher.value) !in s.log
  {
    StepLined(s, s', Install(watcher));
    InstallLogged(s, s', watcher);
    CurrentLives(s');
  }

  lemma StepInv(s: Server, s': Server, a: Act)
    requires Inv(s) && Does(s, s', a)
    ensures Inv(s')
  {
    StepLined(s, s', a);
    StepLogged(s, s', a);
    match a
    case Detach(i) => EndInOrder(s, s', a, i);
    case Destroy(i) => EndInOrder(s, s', a, i);
    case Install(w) => InstallInOrder(s, s', w);
    case _ => LineGrows(s, s', a);
  }

  lemma LineOfOne(e: Entry)
    ensures PoolInLine([e], e.pool) && (e.watcher.Some? ==> WatcherInLine([e], e.watcher.value))
  {
    assert [e][0] == e;
  }

  lemma InitLined(s: Server)
    requires Init(s)
    ensures Lined(s)
  {
    assert Line(s) == [Entry(s.pool, s.watcher)];
    LineOfOne(Entry(s.pool, s.watcher));
  }

  lemma InitInv(s: Server)
    requires Init(s)
    ensures Inv(s)
  {
    InitLined(s);
    assert Line(s) == [Entry(s.pool, s.watcher)];
    LineOfOne(Entry(s.pool, s.watcher));
  }

  lemma {:induction false} Always(r: seq<Server>, i: nat)
    requires Run(r) && i < |r|
    ensures Inv(r[i])
  {
    if i == 0 {
      InitInv(r[0]);
    } else {
      Always(r, i - 1);
      assert StepAt(r, i - 1);
      var a :| Does(r[i - 1], r[i], a);
      StepInv(r[i - 1], r[i], a);
    }
  }

  // ---------------------------------------------------------------- who watches which pool

  /** Every watcher is attached to the pool it stands with, and every pool but the first has one exactly
      when a controller is attached. */
  ghost predicate Watched(s: Server) {
    && (forall i :: 0 <= i < |Line(s)| && Line(s)[i].watcher.Some? ==>
          Line(s)[i].watcher.value in s.attached && s.attached[Line(s)[i].watcher.value] == Line(s)[i].pool)
    && (forall i :: 0 < i < |Line(s)| ==> (Line(s)[i].watcher.Some? <==> s.controlled))
  }

  lemma StepWatched(s: Server, s': Server, a: Act)
    requires Lined(s) && Watched(s) && Does(s, s', a)
    ensures Watched(s') && s'.controlled == s.controlled
  {
    LineGrows(s, s', a);
    var line, line' := Line(s), Line(s');
    assert forall i :: 0 <= i < |line| ==> line'[i] == line[i];
    assert forall i :: 0 <= i < |line| && line[i].watcher.Some? ==> WatcherInLine(line, line[i].watcher.value);
  }

  lemma {:induction false} AlwaysWatched(r: seq<Server>, i: nat)
    requires Run(r) && i < |r|
    ensures Watched(r[i]) && r[i].controlled == r[0].controlled
  {
    if i > 0 {
      AlwaysWatched(r, i - 1);
      Always(r, i - 1);
      assert StepAt(r, i - 1);
      var a :| Does(r[i - 1], r[i], a);
      StepWatched(r[i - 1], r[i], a);
    }
  }

  /** After a reconfiguration the current pool has a watcher of its own exactly when the server has a
      controller, and that watcher is attached to it. */
  lemma NewPoolIsWatched(r: seq<Server>, i: nat)
    requires Run(r) && i < |r| && |Line(r[i])| > 1
    ensures r[i].watcher.Some? <==> r[0].controlled
    ensures r[i].watcher.Some? ==>
              r[i].watcher.value in r[i].attached && r[i].attached[r[i].watcher.value] == r[i].pool
  {
    AlwaysWatched(r, i);
    assert Line(r[i])[|Line(r[i])| - 1] == Entry(r[i].pool, r[i].watcher);
  }

  // ---------------------------------------------------------------- what runs guarantee

  /** Over any chain of reconfigurations nothing happens twice, the current pool and its watcher are
      untouched, and a replaced pool is destroyed and its watcher detached only after its successor was
      installed, the watcher first. */
  lemma SwapIsClean(r: seq<Server>, i: nat)
    requires Run(r) && i < |r|
    ensures Distinct(r[i].log)
    ensures Destroys(r[i].pool) !in r[i].log
    ensures r[i].watcher.Some? ==> Detaches(r[i].watcher.value) !in r[i].log
    ensures InOrder(Line(r[i]), r[i].log)
  {
    Always(r, i);
    CurrentLives(r[i]);
  }

  /** Once no reconfiguration is under way and every teardown is over, every pool ever constructed except
      the current one has been destroyed, and every watcher except the current one detached. */
  lemma NothingLeaks(r: seq<Server>, i: nat)
    requires Run(r) && i < |r| && r[i].reconfigure.Out?
    requires forall k :: 0 <= k < |r[i].teardowns| ==> r[i].teardowns[k].phase.Over?
    ensures forall p :: p in r[i].pools && p != r[i].pool ==> Destroys(p) in r[i].log
    ensures forall w :: w in r[i].attached && Some(w) != r[i].watcher ==> Detaches(w) in r[i].log
  {
    Always(r, i);
    var s := r[i];
    var line := Line(s);
    TeardownAt(s.teardowns, 0);
    forall k | 0 <= k < |line| - 1
      ensures Destroys(line[k].pool) in s.log
      ensures line[k].watcher.Some? ==> Detaches(line[k].watcher.value) in s.log
    {
      LineOfTeardowns(s, k);
      assert Logged(s.teardowns[k], s.log);
    }
  }
}
