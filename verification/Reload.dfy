/**
 The reload differ: `pollEvents` compares a stored snapshot of files with a new one, edits the
 stored one in place and emits events.
 */
module Reload {

  /** The parts of os.FileInfo that are looked at; `id` is what os.SameFile compares. */
  datatype Info = Info(modTime: int, mode: int, isDir: bool, id: int)

  type Files = map<string, Info>

  datatype Event = Event(path: string, info: Info)

  // ---------------------------------------------------------------- what should happen

  predicate Removed(old': Files, new': Files, p: string) {
    p in old' && p !in new'
  }

  predicate Created(old': Files, new': Files, p: string) {
    p in new' && !new'[p].isDir && p !in old'
  }

  /** A stored file that is still there and not a directory now. */
  predicate Compared(old': Files, new': Files, p: string) {
    p in new' && !new'[p].isDir && p in old'
  }

  predicate Touched(old': Files, new': Files, p: string) {
    Compared(old', new', p) && (old'[p].modTime != new'[p].modTime || old'[p].mode != new'[p].mode)
  }

  /** The snapshot stored after a poll. */
  function Stored(old': Files, new': Files): Files {
    map p | p in new' && (p in old' || !new'[p].isDir) ::
      if Touched(old', new', p) || p !in old' then new'[p] else old'[p]
  }

  /** The removed paths that a created file is a renamed version of. */
  ghost function Origins(old': Files, new': Files, p: string): set<string>
    requires p in new'
  {
    set q | q in old' && q !in new' && old'[q].id == new'[p].id
  }

  /** How many events name the path p. */
  ghost function Count(old': Files, new': Files, p: string): nat {
    if Removed(old', new', p) then 1
    else if Created(old', new', p) then 1 + |Origins(old', new', p)|
    else if Compared(old', new', p) then Changes(old'[p], new'[p])
    else 0
  }

  /** A changed modification time and a changed mode count separately. */
  function Changes(before: Info, after: Info): nat {
    (if before.modTime != after.modTime then 1 else 0) + (if before.mode != after.mode then 1 else 0)
  }

  /** The info an event about p carries. */
  function Described(old': Files, new': Files, p: string): Info
    requires p in old' || p in new'
  {
    if p in new' then new'[p] else old'[p]
  }

  ghost function Expected(old': Files, new': Files, e: Event): nat {
    if (e.path in old' || e.path in new') && e.info == Described(old', new', e.path)
    then Count(old', new', e.path) else 0
  }

  // ---------------------------------------------------------------- pollEvents

  /** base with some of the removed paths gone and some of the created ones there. */
  ghost predicate Between(base: Files, files: Files, removes: Files, creates: Files) {
    && (forall p :: p in files ==> p in base || p in creates)
    && (forall p :: p in base && p !in removes && p !in creates ==> p in files && files[p] == base[p])
    && (forall p :: p in files && p in creates ==> files[p] == creates[p])
  }

  ghost function SameIn(removes: Files, done: set<string>, info: Info): set<string> {
    set q | q in removes && q in done && removes[q].id == info.id
  }

  /** Events about the created file of e, one for each removed file in `done` it is the same as. */
  ghost function Renames(removes: Files, creates: Files, done: set<string>, e: Event): nat {
    if e.path in creates && e.info == creates[e.path] then |SameIn(removes, done, e.info)| else 0
  }

  function Sent(files: Files, e: Event): nat {
    if e.path in files && e.info == files[e.path] then 1 else 0
  }

  /** The write and chmod events of all files but those in `todo`. */
  ghost predicate WritesBut(old': Files, new': Files, todo: set<string>, events: seq<Event>) {
    forall e :: multiset(events)[e] ==
      if e.path !in todo && Compared(old', new', e.path) && e.info == new'[e.path]
      then Changes(old'[e.path], new'[e.path]) else 0
  }

  /** The created files but those in `todo`. */
  function CreatesBut(old': Files, new': Files, todo: set<string>): Files {
    map p | p in new' && p !in todo && Created(old', new', p) :: new'[p]
  }

  /** The stored files with the changed ones taken over, but those in `todo`. */
  function FilesBut(old': Files, new': Files, todo: set<string>): Files {
    map p | p in old' :: if p !in todo && Touched(old', new', p) then new'[p] else old'[p]
  }

  lemma OneFileFewer(old': Files, new': Files, todo: set<string>, p: string)
    requires p in todo && p in new'
    ensures (todo - {p}) + {p} == todo
    ensures CreatesBut(old', new', todo - {p})
            == var before := CreatesBut(old', new', todo);
               if Created(old', new', p) then before[p := new'[p]] else before
    ensures FilesBut(old', new', todo - {p})
            == var before := FilesBut(old', new', todo);
               if Touched(old', new', p) then before[p := new'[p]] else before
  {
  }

  lemma MoreWrites(old': Files, new': Files, todo: set<string>, p: string, events: seq<Event>, sent: seq<Event>)
    requires p !in todo && Compared(old', new', p) && WritesBut(old', new', todo + {p}, events)
    requires multiset(sent) == multiset{}[Event(p, new'[p]) := Changes(old'[p], new'[p])]
    ensures WritesBut(old', new', todo, events + sent)
  {
    forall e
      ensures multiset(events + sent)[e] ==
              if e.path !in todo && Compared(old', new', e.path) && e.info == new'[e.path]
              then Changes(old'[e.path], new'[e.path]) else 0
    {
      assert multiset(events + sent)[e] == multiset(events)[e] + multiset(sent)[e];
    }
  }

  class Watcher {
    /** The stored snapshot of one service. */
    var files: Files

    constructor (files: Files)
      ensures this.files == files
    {
      this.files := files;
    }

    /** The stored entries whose path was not found. */
    method FindRemoved(found: Files) returns (removes: Files)
      ensures removes == map p | p in files && p !in found :: files[p]
    {
      removes := map[];
      var todo := files.Keys;
      while todo != {}
        invariant todo <= files.Keys
        invariant removes == map p | p in files && p !in todo && p !in found :: files[p]
      {
        var p :| p in todo;
        if p !in found {
          removes := removes[p := files[p]];
        }
        todo := todo - {p};
      }
    }

    /** Splits the found files into new ones and stored ones, and brings the stored ones up to date. */
    method Compare(found: Files) returns (creates: Files, events: seq<Event>)
      modifies this
      ensures creates == CreatesBut(old(files), found, {})
      ensures files == FilesBut(old(files), found, {})
      ensures forall e :: multiset(events)[e] ==
                if Compared(old(files), found, e.path) && e.info == found[e.path]
                then Changes(old(files)[e.path], found[e.path]) else 0
    {
      creates, events := map[], [];
      var todo := found.Keys;
      while todo != {}
        modifies this
        invariant todo <= found.Keys
        invariant creates == CreatesBut(old(files), found, todo)
        invariant files == FilesBut(old(files), found, todo)
        invariant WritesBut(old(files), found, todo, events)
      {
        var p :| p in todo;
        var info := found[p];
        OneFileFewer(old(files), found, todo, p);
        todo := todo - {p};
        if info.isDir {
          continue;
        }
        if p !in files {
          creates := creates[p := info];
          continue;
        }
        var sent := CompareOne(p, info);
        MoreWrites(old(files), found, todo, p, events, sent);
        events := events + sent;
      }
    }

    /** One event for a changed modification time and one for a changed mode. */
    method CompareOne(p: string, info: Info) returns (sent: seq<Event>)
      requires p in files
      modifies this
      ensures files == old(files)[p := if old(files[p]).modTime != info.modTime || old(files[p]).mode != info.mode
                                       then info else old(files[p])]
      ensures multiset(sent) == multiset{}[Event(p, info) := Changes(old(files[p]), info)]
    {
      var oldInfo := files[p];
      sent := [];
      if oldInfo.modTime != info.modTime {
        files := files[p := info];
        sent := sent + [Event(p, info)];
      }
      if oldInfo.mode != info.mode {
        files := files[p := info];
        sent := sent + [Event(p, info)];
      }
    }

    /** One event for every pair of a removed and a created entry of the same file. */
    method MatchRenames(removes: Files, creates: Files) returns (events: seq<Event>)
      requires removes.Keys !! creates.Keys
      requires Between(files, files, removes, creates)
      modifies this
      ensures Between(old(files), files, removes, creates)
      ensures forall e :: multiset(events)[e] == Renames(removes, creates, removes.Keys, e)
    {
      events := [];
      var todo := removes.Keys;
      ghost var done: set<string> := {};
      while todo != {}
        modifies this
        invariant todo !! done && todo + done == removes.Keys
        invariant Between(old(files), files, removes, creates)
        invariant forall e :: multiset(events)[e] == Renames(removes, creates, done, e)
      {
        var p :| p in todo;
        var sent := MatchOne(p, removes, creates, old(files));
        forall e
          ensures multiset(events + sent)[e] == Renames(removes, creates, done + {p}, e)
        {
          OneMoreOrigin(removes, creates, done, p, e);
        }
        events := events + sent;
        todo, done := todo - {p}, done + {p};
      }
      assert done == removes.Keys;
    }

    /** The inner loop for one removed path. */
    method MatchOne(p: string, removes: Files, creates: Files, ghost base: Files) returns (sent: seq<Event>)
      requires p in removes && removes.Keys !! creates.Keys && Between(base, files, removes, creates)
      modifies this
      ensures Between(base, files, removes, creates)
      ensures forall e :: multiset(sent)[e] ==
                if e.path in creates && e.info == creates[e.path] && removes[p].id == e.info.id then 1 else 0
    {
      sent := [];
      var todo := creates.Keys;
      while todo != {}
        modifies this
        invariant todo <= creates.Keys
        invariant Between(base, files, removes, creates)
        invariant forall e :: multiset(sent)[e] ==
                    if e.path in creates && e.path !in todo && e.info == creates[e.path] && removes[p].id == e.info.id
                    then 1 else 0
      {
        var q :| q in todo;
        todo := todo - {q};
        if removes[p].id == creates[q].id {
          files := files - {p};
          files := files[q := creates[q]];
          sent := sent + [Event(q, creates[q])];
        }
      }
    }

    /** Stores every created file, with one event each. */
    method SendCreates(creates: Files) returns (events: seq<Event>)
      modifies this
      ensures files == old(files) + creates
      ensures forall e :: multiset(events)[e] == Sent(creates, e)
    {
      events := [];
      var todo := creates.Keys;
      while todo != {}
        modifies this
        invariant todo <= creates.Keys
        invariant files == old(files) + (creates - todo)
        invariant forall e :: multiset(events)[e] == Sent(creates - todo, e)
      {
        var p :| p in todo;
        files := files[p := creates[p]];
        events := events + [Event(p, creates[p])];
        todo := todo - {p};
      }
      assert creates - {} == creates;
    }

    /** Forgets every removed path, with one event each. */
    method SendRemoves(removes: Files) returns (events: seq<Event>)
      modifies this
      ensures files == old(files) - removes.Keys
      ensures forall e :: multiset(events)[e] == Sent(removes, e)
    {
      events := [];
      var todo := removes.Keys;
      while todo != {}
        modifies this
        invariant todo <= removes.Keys
        invariant files == old(files) - (removes.Keys - todo)
        invariant forall e :: multiset(events)[e] == Sent(removes - todo, e)
      {
        var p :| p in todo;
        files := files - {p};
        events := events + [Event(p, removes[p])];
        todo := todo - {p};
      }
      assert removes - {} == removes;
    }

    /** One poll.  The stored snapshot and the multiset of events are functions of the old and the new
        snapshot, whatever the order in which the maps are walked. */
    method PollEvents(found: Files) returns (events: seq<Event>)
      modifies this
      ensures files == Stored(old(files), found)
      ensures EventsOf(old(files), found, events)
    {
      var removes := FindRemoved(found);
      var creates, writes := Compare(found);
      ghost var base := files;
      var moves := MatchRenames(removes, creates);
      var made := SendCreates(creates);
      var gone := SendRemoves(removes);
      events := writes + moves + made + gone;
      SettledFiles(old(files), found, base, removes, creates, files);
      forall e
        ensures multiset(events)[e] == Expected(old(files), found, e)
      {
        OriginsAreRenames(old(files), found, removes, creates, e);
      }
    }
  }

  lemma OriginsAreRenames(old': Files, new': Files, removes: Files, creates: Files, e: Event)
    requires removes == map p | p in old' && p !in new' :: old'[p]
    requires creates == CreatesBut(old', new', {})
    ensures Expected(old', new', e)
            == (if Compared(old', new', e.path) && e.info == new'[e.path]
                then Changes(old'[e.path], new'[e.path]) else 0)
               + Renames(removes, creates, removes.Keys, e) + Sent(creates, e) + Sent(removes, e)
  {
    if e.path in creates && e.info == creates[e.path] {
      assert SameIn(removes, removes.Keys, e.info) == Origins(old', new', e.path);
    }
  }

  lemma SettledFiles(old': Files, new': Files, base: Files, removes: Files, creates: Files, final: Files)
    requires removes == map p | p in old' && p !in new' :: old'[p]
    requires creates == CreatesBut(old', new', {})
    requires base == FilesBut(old', new', {})
    requires exists mid: Files :: Between(base, mid, removes, creates) && final == (mid + creates) - removes.Keys
    ensures final == Stored(old', new')
  {
  }

  lemma OneMoreOrigin(removes: Files, creates: Files, done: set<string>, p: string, e: Event)
    requires p in removes && p !in done
    ensures Renames(removes, creates, done + {p}, e) == Renames(removes, creates, done, e)
              + if e.path in creates && e.info == creates[e.path] && removes[p].id == e.info.id then 1 else 0
  {
    var before := SameIn(removes, done, e.info);
    assert SameIn(removes, done + {p}, e.info) == if removes[p].id == e.info.id then before + {p} else before;
  }

  // ---------------------------------------------------------------- what a poll guarantees

  /** Nothing to report: every stored path is still there, and every file found was stored with the
      same modification time and mode. */
  predicate Unchanged(old': Files, new': Files) {
    && (forall p :: p in old' ==> p in new')
    && (forall p :: p in new' && !new'[p].isDir ==>
          p in old' && old'[p].modTime == new'[p].modTime && old'[p].mode == new'[p].mode)
  }

  /** The events of a poll are those the snapshots call for. */
  ghost predicate EventsOf(old': Files, new': Files, events: seq<Event>) {
    forall e :: multiset(events)[e] == Expected(old', new', e)
  }

  /** An event names a path that was created, removed or changed. */
  lemma EventNamesChange(old': Files, new': Files, events: seq<Event>, e: Event)
    requires EventsOf(old', new', events)
    ensures e in events <==>
              && (Created(old', new', e.path) || Removed(old', new', e.path) || Touched(old', new', e.path))
              && e.info == Described(old', new', e.path)
  {
    assert e in events <==> multiset(events)[e] > 0;
  }

  /** How many events there are about a path: one for a removed one; two for a file whose time and mode both
      changed, one if only one of them did; and for a created one, one and another for every removed path of
      the same file. */
  lemma EventCounts(old': Files, new': Files, events: seq<Event>, p: string)
    requires EventsOf(old', new', events)
    ensures p in old' && p !in new' ==> multiset(events)[Event(p, old'[p])] == 1
    ensures p in new' && !new'[p].isDir && p in old' ==>
              var time, mode := old'[p].modTime != new'[p].modTime, old'[p].mode != new'[p].mode;
              multiset(events)[Event(p, new'[p])] == if time && mode then 2 else if time || mode then 1 else 0
    ensures p in new' && !new'[p].isDir && p !in old'
            ==> multiset(events)[Event(p, new'[p])] == 1 + |set q | q in old' && q !in new' && old'[q].id == new'[p].id|
  {
    if p in new' {
      assert Origins(old', new', p) == set q | q in old' && q !in new' && old'[q].id == new'[p].id;
    }
  }

  /** A poll is silent exactly when nothing changed. */
  lemma SilentExactly(old': Files, new': Files, events: seq<Event>)
    requires EventsOf(old', new', events)
    ensures events == [] <==> Unchanged(old', new')
  {
    forall p | p in old' || p in new'
      ensures events == [] ==> !Created(old', new', p) && !Removed(old', new', p) && !Touched(old', new', p)
    {
      EventNamesChange(old', new', events, Event(p, Described(old', new', p)));
    }
    if Unchanged(old', new') && events != [] {
      EventNamesChange(old', new', events, events[0]);
    }
  }

  /** The multiset of events does not depend on the order in which the maps are walked. */
  lemma SameEventsInAnyOrder(old': Files, new': Files, a: seq<Event>, b: seq<Event>)
    requires EventsOf(old', new', a) && EventsOf(old', new', b)
    ensures multiset(a) == multiset(b)
  {
    assert forall e :: multiset(a)[e] == multiset(b)[e];
  }

  /** After a poll the stored paths are the found ones that were stored or are files, every stored file
      agrees with what was found, and polling the same snapshot again changes and emits nothing. */
  lemma SnapshotConverges(old': Files, new': Files, again: seq<Event>)
    requires EventsOf(Stored(old', new'), new', again)
    ensures forall p :: p in Stored(old', new') <==> p in new' && (p in old' || !new'[p].isDir)
    ensures forall p :: p in Stored(old', new') && !new'[p].isDir ==>
              Stored(old', new')[p].modTime == new'[p].modTime && Stored(old', new')[p].mode == new'[p].mode
    ensures forall p :: p in Stored(old', new') && p in old'
                        && (new'[p].isDir || (old'[p].modTime == new'[p].modTime && old'[p].mode == new'[p].mode))
                        ==> Stored(old', new')[p] == old'[p]
    ensures forall p :: p in Stored(old', new') && Stored(old', new')[p] != new'[p] ==> p in old'
    ensures again == [] && Stored(Stored(old', new'), new') == Stored(old', new')
  {
    assert Unchanged(Stored(old', new'), new');
    SilentExactly(Stored(old', new'), new', again);
  }
}
