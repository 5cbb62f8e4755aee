/**
 The state filter of the limit service: two maps updated once per sampling pass, which must
 agree with what the whole history of passes says about each worker.
 */
module StateFilter {
  import opened Basics

  type WorkerId = nat

  datatype Sample = Sample(state: int, numExecs: int)

  datatype Record = Record(sample: Sample, since: int)

  /** One sampling pass: what was pushed, and the time given to sync. */
  datatype Round = Round(pushed: map<WorkerId, Sample>, time: int)

  // ---------------------------------------------------------------- the history

  /** w was pushed in round j of h with the given sample. */
  predicate PushedAs(h: seq<Round>, j: int, w: WorkerId, sample: Sample) {
    0 <= j < |h| && w in h[j].pushed && h[j].pushed[w] == sample
  }

  /** Round k starts the longest trailing run of rounds in which w was pushed with the same state and
      the same execution count as in the last round. */
  ghost predicate RunStartsAt(h: seq<Round>, w: WorkerId, k: nat) {
    && k < |h| && w in h[|h| - 1].pushed
    && var sample := h[|h| - 1].pushed[w];
       && (forall j :: k <= j < |h| ==> PushedAs(h, j, w, sample))
       && (k > 0 ==> !PushedAs(h, k - 1, w, sample))
  }

  /** What the history says the filter must hold. */
  ghost predicate Reflects(prev: map<WorkerId, Record>, h: seq<Round>) {
    if h == [] then prev == map[]
    else
      && prev.Keys == h[|h| - 1].pushed.Keys
      && forall w :: w in prev ==>
           && prev[w].sample == h[|h| - 1].pushed[w]
           && exists k: nat :: RunStartsAt(h, w, k) && prev[w].since == h[k].time
  }

  lemma RunStartUnique(h: seq<Round>, w: WorkerId, j: nat, k: nat)
    requires RunStartsAt(h, w, j) && RunStartsAt(h, w, k)
    ensures j == k
  {
    var sample := h[|h| - 1].pushed[w];
    assert j < k ==> PushedAs(h, k - 1, w, sample);
    assert k < j ==> PushedAs(h, j - 1, w, sample);
  }

  /** One sync pass, as a function of the two maps and the time. */
  function Synced(prev: map<WorkerId, Record>, next: map<WorkerId, Sample>, t: int): map<WorkerId, Record> {
    map w | w in next :: if w in prev && prev[w].sample == next[w] then prev[w] else Record(next[w], t)
  }

  /** The entries that sync forgets first have no influence on the rest. */
  function Kept(prev: map<WorkerId, Record>, next: map<WorkerId, Sample>): map<WorkerId, Record> {
    map w | w in prev && w in next :: prev[w]
  }

  lemma SyncedAfterDrop(prev: map<WorkerId, Record>, next: map<WorkerId, Sample>, t: int)
    ensures Synced(Kept(prev, next), next, t) == Synced(prev, next, t)
  {
  }

  /** A run that goes on keeps its start; any other starts with the new round. */
  lemma RunExtends(h: seq<Round>, round: Round, w: WorkerId, k: nat)
    requires w in round.pushed && RunStartsAt(h, w, k)
    ensures if h[|h| - 1].pushed[w] == round.pushed[w] then RunStartsAt(h + [round], w, k)
            else RunStartsAt(h + [round], w, |h|)
  {
    var h', sample := h + [round], round.pushed[w];
    forall j | 0 <= j < |h|
      ensures PushedAs(h', j, w, sample) == PushedAs(h, j, w, sample)
    {
    }
    if h[|h| - 1].pushed[w] != sample {
      assert !PushedAs(h, |h| - 1, w, sample);
    }
  }

  lemma RunBegins(h: seq<Round>, round: Round, w: WorkerId)
    requires w in round.pushed && (h != [] ==> w !in h[|h| - 1].pushed)
    ensures RunStartsAt(h + [round], w, |h|)
  {
  }

  /** The incremental update follows the history: the since of a kept entry and of a new one is the
      time of the first round of its trailing run. */
  lemma SyncReflects(prev: map<WorkerId, Record>, h: seq<Round>, round: Round)
    requires Reflects(prev, h)
    ensures Reflects(Synced(prev, round.pushed, round.time), h + [round])
  {
    var prev', h' := Synced(prev, round.pushed, round.time), h + [round];
    forall w | w in prev'
      ensures exists k: nat :: RunStartsAt(h', w, k) && prev'[w].since == h'[k].time
    {
      if h != [] && w in prev {
        var k: nat :| RunStartsAt(h, w, k) && prev[w].since == h[k].time;
        RunExtends(h, round, w, k);
        assert h'[k] == h[k];
      } else {
        RunBegins(h, round, w);
      }
    }
  }

  /** The history selects w: sampled in that state, unchanged since before the given time. */
  ghost predicate Selects(h: seq<Round>, w: WorkerId, state: int, before: int) {
    && h != [] && w in h[|h| - 1].pushed && h[|h| - 1].pushed[w].state == state
    && exists k: nat :: RunStartsAt(h, w, k) && h[k].time < before
  }

  lemma FindMatchesHistory(prev: map<WorkerId, Record>, h: seq<Round>, w: WorkerId, state: int, before: int)
    requires Reflects(prev, h)
    ensures w in prev && prev[w].sample.state == state && prev[w].since < before <==> Selects(h, w, state, before)
  {
    if w in prev {
      var k: nat :| RunStartsAt(h, w, k) && prev[w].since == h[k].time;
      if Selects(h, w, state, before) {
        var j: nat :| RunStartsAt(h, w, j) && h[j].time < before;
        RunStartUnique(h, w, j, k);
      }
    }
  }

  // ---------------------------------------------------------------- the filter

  class Filter {
    var prev: map<WorkerId, Record>
    var next: map<WorkerId, Sample>

    /** The rounds synced so far. */
    ghost var rounds: seq<Round>

    ghost predicate Valid()
      reads this
    {
      Reflects(prev, rounds)
    }

    constructor ()
      ensures Valid() && rounds == [] && next == map[]
    {
      prev, next, rounds := map[], map[], [];
    }

    /** Adds a sample to the round under way. */
    method Push(w: WorkerId, sample: Sample)
      modifies this`next
      ensures next == old(next)[w := sample]
    {
      next := next[w := sample];
    }

    /** Ends the round: its samples become the last round of the history. */
    method Sync(t: int)
      requires Valid()
      modifies this
      ensures Valid() && next == map[]
      ensures rounds == old(rounds) + [Round(old(next), t)]
      ensures prev == Synced(old(prev), old(next), t)
    {
      DropMissing();
      SyncedAfterDrop(old(prev), next, t);
      TakeNext(t);
      SyncReflects(old(prev), rounds, Round(old(next), t));
      rounds := rounds + [Round(old(next), t)];
    }

    /** The second loop of a sync takes the samples over and restarts the clock of changed ones. */
    method TakeNext(t: int)
      requires prev.Keys <= next.Keys
      modifies this`prev, this`next
      ensures next == map[] && prev == Synced(old(prev), old(next), t)
    {
      var todo := next.Keys;
      while todo != {}
        modifies this`prev, this`next
        invariant todo <= old(next).Keys
        invariant next == map w | w in todo :: old(next)[w]
        invariant prev == map w | w in old(next) && (w in old(prev) || w !in todo) ::
                            if w in todo then old(prev)[w] else Synced(old(prev), old(next), t)[w]
      {
        var w :| w in todo;
        var s := next[w];
        if w !in prev || prev[w].sample != s {
          prev := prev[w := Record(s, t)];
        }
        next := next - {w};
        todo := todo - {w};
      }
    }

    /** The first loop of a sync forgets the workers that have no sample in this round. */
    method DropMissing()
      modifies this`prev
      ensures prev == Kept(old(prev), next)
    {
      var todo := prev.Keys;
      while todo != {}
        modifies this`prev
        invariant todo <= old(prev).Keys
        invariant prev == map w | w in old(prev) && (w in todo || w in next) :: old(prev)[w]
      {
        var w :| w in todo;
        if w !in next {
          prev := prev - {w};
        }
        todo := todo - {w};
      }
    }

    /** The workers that the history shows unchanged in a state since before the given time. */
    method Find(state: int, before: int) returns (workers: seq<WorkerId>)
      requires Valid()
      ensures Distinct(workers)
      ensures forall w :: w in workers <==> Selects(rounds, w, state, before)
    {
      workers := [];
      var todo := prev.Keys;
      while todo != {}
        invariant todo <= prev.Keys
        invariant Distinct(workers)
        invariant forall w :: w in workers <==>
                    w in prev.Keys - todo && prev[w].sample.state == state && prev[w].since < before
      {
        var w :| w in todo;
        if prev[w].sample.state == state && prev[w].since < before {
          workers := workers + [w];
        }
        todo := todo - {w};
      }
      forall w
        ensures w in workers <==> Selects(rounds, w, state, before)
      {
        FindMatchesHistory(prev, rounds, w, state, before);
      }
    }
  }
}
