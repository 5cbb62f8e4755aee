/**
 The socket factory: the accept loop hands each connection to the worker whose process it came
 from, over one unbuffered channel per pid.
 */
module Rendezvous {

  type Pid = nat
  type RelayId = nat
  type ChanId = nat
  type WorkerId = nat

  /** Program counter of the accept loop. */
  datatype Listener = Accepting | Identified(relay: RelayId) | Offering(relay: RelayId, chan: ChanId)

  /** Program counter of `SpawnWorker` from `findRelay` on. */
  datatype Finder =
    | Starting
    | Waiting(chan: ChanId)
    | Found(relay: RelayId)          // the channel is still in the map
    | Ready(relay: RelayId)
    | Orphaned                       // the process is gone, the channel is still in the map
    | Failed

  datatype Worker = Worker(pid: Pid, finder: Finder)

  datatype Factory = Factory(
    relays: map<Pid, ChanId>,
    chans: map<ChanId, Pid>,         // every channel ever made, with the pid it was made for
    reported: map<RelayId, Pid>,     // every accepted connection, with the pid it reported
    listener: Listener,
    workers: map<WorkerId, Worker>)

  predicate Init(s: Factory) {
    s == Factory(map[], map[], map[], Accepting, map[])
  }

  /** The locked section of `relayChan`: the channel of a pid, made if there is none. */
  predicate TakesChan(s: Factory, s': Factory, pid: Pid, chan: ChanId) {
    if pid in s.relays then chan == s.relays[pid] && s'.relays == s.relays && s'.chans == s.chans
    else chan !in s.chans && s'.relays == s.relays[pid := chan] && s'.chans == s.chans[chan := pid]
  }

  function Moved(s: Factory, w: WorkerId, finder: Finder): map<WorkerId, Worker>
    requires w in s.workers
  {
    s.workers[w := s.workers[w].(finder := finder)]
  }

  datatype Act =
    | Accept(relay: RelayId, pid: Pid)      // Accept and a successful fetchPID
    | Offer(chan: ChanId)
    | Spawn(w: WorkerId, pid: Pid)
    | Ask(w: WorkerId, chan: ChanId)
    | HandOver(w: WorkerId)
    | CleanFound(w: WorkerId)
    | TimeOut(w: WorkerId)
    | SeeExit(w: WorkerId)
    | CleanOrphan(w: WorkerId)

  predicate Does(s: Factory, s': Factory, a: Act) {
    match a
    case Accept(relay, pid) =>
      && s.listener.Accepting? && relay !in s.reported
      && s' == s.(listener := Identified(relay), reported := s.reported[relay := pid])
    case Offer(chan) =>
      && s.listener.Identified? && s.listener.relay in s.reported
      && TakesChan(s, s', s.reported[s.listener.relay], chan)
      && s' == s.(relays := s'.relays, chans := s'.chans, listener := Offering(s.listener.relay, chan))
    case Spawn(w, pid) =>
      && w !in s.workers
      && s' == s.(workers := s.workers[w := Worker(pid, Starting)])
    case Ask(w, chan) =>
      && w in s.workers && s.workers[w].finder.Starting?
      && TakesChan(s, s', s.workers[w].pid, chan)
      && s' == s.(relays := s'.relays, chans := s'.chans, workers := Moved(s, w, Waiting(chan)))
    case HandOver(w) =>
      && w in s.workers && s.workers[w].finder.Waiting?
      && s.listener.Offering? && s.listener.chan == s.workers[w].finder.chan
      && s' == s.(listener := Accepting, workers := Moved(s, w, Found(s.listener.relay)))
    case CleanFound(w) =>
      && w in s.workers && s.workers[w].finder.Found?
      && s' == s.(relays := s.relays - {s.workers[w].pid}, workers := Moved(s, w, Ready(s.workers[w].finder.relay)))
    case TimeOut(w) =>
      && w in s.workers && s.workers[w].finder.Waiting?
      && s' == s.(workers := Moved(s, w, Failed))
    case SeeExit(w) =>
      && w in s.workers && s.workers[w].finder.Waiting?
      && s' == s.(workers := Moved(s, w, Orphaned))
    case CleanOrphan(w) =>
      && w in s.workers && s.workers[w].finder.Orphaned?
      && s' == s.(relays := s.relays - {s.workers[w].pid}, workers := Moved(s, w, Failed))
  }

  ghost predicate Next(s: Factory, s': Factory) {
    exists a :: Does(s, s', a)
  }

  ghost predicate StepAt(r: seq<Factory>, i: nat) {
    i + 1 < |r| ==> Next(r[i], r[i + 1])
  }

  ghost predicate Run(r: seq<Factory>) {
    |r| > 0 && Init(r[0]) && forall i: nat :: StepAt(r, i)
  }

  // ---------------------------------------------------------------- invariant

  predicate HasRelay(s: Factory, w: WorkerId, relay: RelayId) {
    w in s.workers && s.workers[w].finder in {Found(relay), Ready(relay)}
  }

  predicate ListenerHas(s: Factory, relay: RelayId) {
    !s.listener.Accepting? && s.listener.relay == relay
  }

  /** Channels carry only relays that reported the pid the channel was made for. */
  ghost predicate Matched(s: Factory) {
    && (forall p :: p in s.relays ==> s.relays[p] in s.chans && s.chans[s.relays[p]] == p)
    && (forall relay :: ListenerHas(s, relay) ==> relay in s.reported)
    && (s.listener.Offering? ==>
          s.listener.chan in s.chans && s.chans[s.listener.chan] == s.reported[s.listener.relay])
    && (forall w :: w in s.workers && s.workers[w].finder.Waiting? ==>
          s.workers[w].finder.chan in s.chans && s.chans[s.workers[w].finder.chan] == s.workers[w].pid)
    && (forall w, relay :: HasRelay(s, w, relay) ==> relay in s.reported && s.reported[relay] == s.workers[w].pid)
  }

  /** A relay is with the accept loop or with one worker. */
  ghost predicate OneHolder(s: Factory) {
    && (forall w, relay :: HasRelay(s, w, relay) ==> !ListenerHas(s, relay))
    && (forall v, w, relay :: HasRelay(s, v, relay) && HasRelay(s, w, relay) ==> v == w)
  }

  /** Making a channel leaves the others and their pids as they are. */
  lemma ChanMatched(s: Factory, s': Factory, a: Act)
    requires Matched(s) && Does(s, s', a) && (a.Offer? || a.Ask?)
    ensures Matched(s')
  {
    assert forall c :: c in s.chans ==> c in s'.chans && s'.chans[c] == s.chans[c];
    assert forall w, relay :: HasRelay(s', w, relay) ==> HasRelay(s, w, relay);
  }

  lemma StepMatched(s: Factory, s': Factory, a: Act)
    requires Matched(s) && Does(s, s', a)
    ensures Matched(s')
  {
    if a.Offer? || a.Ask? {
      ChanMatched(s, s', a);
    } else {
      OtherMatched(s, s', a);
    }
  }

  /** A worker that does not get a relay keeps what it had. */
  lemma FindersMatched(s: Factory, s': Factory, a: Act)
    requires Matched(s) && Does(s, s', a) && !a.Offer? && !a.Ask? && !a.HandOver? && !a.Accept?
    ensures Matched(s')
  {
    assert s'.chans == s.chans && s'.reported == s.reported && s'.listener == s.listener;
    assert forall w, relay :: HasRelay(s', w, relay) ==> HasRelay(s, w, relay) && s'.workers[w].pid == s.workers[w].pid;
  }

  lemma OtherMatched(s: Factory, s': Factory, a: Act)
    requires Matched(s) && Does(s, s', a) && !a.Offer? && !a.Ask?
    ensures Matched(s')
  {
    if !a.HandOver? && !a.Accept? {
      FindersMatched(s, s', a);
    }
  }

  lemma StepOneHolder(s: Factory, s': Factory, a: Act)
    requires Matched(s) && OneHolder(s) && Does(s, s', a)
    ensures OneHolder(s')
  {
    forall w, relay | HasRelay(s', w, relay)
      ensures HasRelay(s, w, relay) || (a == HandOver(w) && ListenerHas(s, relay))
    {
    }
  }

  lemma {:induction false} Always(r: seq<Factory>, i: nat)
    requires Run(r) && i < |r|
    ensures Matched(r[i]) && OneHolder(r[i])
  {
    if i > 0 {
      Always(r, i - 1);
      assert StepAt(r, i - 1);
      var a :| Does(r[i - 1], r[i], a);
      StepMatched(r[i - 1], r[i], a);
      StepOneHolder(r[i - 1], r[i], a);
    }
  }

  lemma RelayKept(s: Factory, s': Factory, a: Act, w: WorkerId, relay: RelayId)
    requires Does(s, s', a) && HasRelay(s, w, relay)
    ensures HasRelay(s', w, relay)
  {
  }

  lemma {:induction false} RelayStays(r: seq<Factory>, i: nat, j: nat, w: WorkerId, relay: RelayId)
    requires Run(r) && i <= j < |r| && HasRelay(r[i], w, relay)
    ensures HasRelay(r[j], w, relay)
    decreases j
  {
    if i < j {
      RelayStays(r, i, j - 1, w, relay);
      assert StepAt(r, j - 1);
      var a :| Does(r[j - 1], r[j], a);
      RelayKept(r[j - 1], r[j], a, w, relay);
    }
  }

  /** Under any interleaving of accepts, searches, cleanings and timeouts, a relay given to one worker
      is never given to another, then or later, and a worker is Ready only with a relay that reported
      the worker's own pid. */
  lemma RelaysReachTheirWorkers(r: seq<Factory>, i: nat, j: nat, v: WorkerId, w: WorkerId, relay: RelayId)
    requires Run(r) && i <= j < |r| && HasRelay(r[i], v, relay) && HasRelay(r[j], w, relay)
    ensures v == w
    ensures relay in r[j].reported && r[j].reported[relay] == r[j].workers[w].pid
  {
    RelayStays(r, i, j, v, relay);
    Always(r, j);
  }

  // ---------------------------------------------------------------- what the map holds

  /** Somebody asks for the channel of a pid: the accept loop or a search. */
  ghost predicate AsksFor(s: Factory, s': Factory, p: Pid) {
    || (exists chan :: Does(s, s', Offer(chan)) && s.listener.relay in s.reported && s.reported[s.listener.relay] == p)
    || (exists w, chan :: Does(s, s', Ask(w, chan)) && s.workers[w].pid == p)
  }

  /** A search that found its relay, or whose process is gone, cleans up. */
  ghost predicate CleansUp(s: Factory, s': Factory, p: Pid) {
    exists w :: CleansUpFor(s, s', w, p)
  }

  predicate CleansUpFor(s: Factory, s': Factory, w: WorkerId, p: Pid) {
    (Does(s, s', CleanFound(w)) || Does(s, s', CleanOrphan(w))) && s.workers[w].pid == p
  }

  /** The channel of p has been asked for since it was last cleaned up. */
  ghost predicate AskedSince(r: seq<Factory>, j: nat, p: Pid)
    requires j < |r|
  {
    j > 0 && (AsksFor(r[j - 1], r[j], p) || (AskedSince(r, j - 1, p) && !CleansUp(r[j - 1], r[j], p)))
  }

  lemma AskingAdds(s: Factory, s': Factory, p: Pid)
    requires AsksFor(s, s', p)
    ensures p in s'.relays && s.relays.Keys <= s'.relays.Keys
  {
  }

  lemma CleaningRemoves(s: Factory, s': Factory, p: Pid)
    requires CleansUp(s, s', p)
    ensures s'.relays == s.relays - {p}
  {
  }

  lemma MapStep(s: Factory, s': Factory, a: Act, p: Pid)
    requires Does(s, s', a)
    ensures p in s'.relays <==> AsksFor(s, s', p) || (p in s.relays && !CleansUp(s, s', p))
  {
    if AsksFor(s, s', p) {
      AskingAdds(s, s', p);
    } else if CleansUp(s, s', p) {
      CleaningRemoves(s, s', p);
    } else {
      match a
      case Offer(chan) => assert Does(s, s', Offer(chan));
      case Ask(w, chan) => assert Does(s, s', Ask(w, chan));
      case CleanFound(w) => assert !CleansUpFor(s, s', w, p);
      case CleanOrphan(w) => assert !CleansUpFor(s, s', w, p);
      case _ =>
    }
  }

  /** A pid is in the map exactly when its channel was asked for and not cleaned up since: a search that
      found its relay or lost its process leaves none behind, one that timed out does. */
  lemma {:induction false} MapExactly(r: seq<Factory>, j: nat, p: Pid)
    requires Run(r) && j < |r|
    ensures p in r[j].relays <==> AskedSince(r, j, p)
  {
    if j > 0 {
      MapExactly(r, j - 1, p);
      assert StepAt(r, j - 1);
      var a :| Does(r[j - 1], r[j], a);
      MapStep(r[j - 1], r[j], a, p);
    }
  }
}
