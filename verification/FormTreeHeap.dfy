/**
 `mount` as it runs: nested maps on the heap, extended in place.
 */
module FormTreeHeap {
  import FormKeys
  import opened FormTree
  import opened FormOrder

  /** The entries of a form under some of its keys. */
  ghost function EntriesIn<V>(form: map<string, seq<V>>, keys: set<string>): set<Entry<V>> {
    set k | k in keys && k in form :: Entry(k, form[k])
  }

  /** A walk takes each of these entries once, in any order. */
  ghost predicate WalkOf<V>(form: map<string, seq<V>>, keys: set<string>, walk: seq<Entry<V>>) {
    multiset(walk) == multiset(EntriesIn(form, keys))
  }

  lemma WalkOn<V>(form: map<string, seq<V>>, keys: set<string>, walk: seq<Entry<V>>, k: string)
    requires WalkOf(form, keys, walk) && k in form && k !in keys
    ensures WalkOf(form, keys + {k}, walk + [Entry(k, form[k])])
  {
    assert EntriesIn(form, keys + {k}) == EntriesIn(form, keys) + {Entry(k, form[k])};
    assert Entry(k, form[k]) !in EntriesIn(form, keys);
  }

  /** Any walk so far can be taken to the end. */
  lemma {:induction false} WalkToEnd<V>(form: map<string, seq<V>>, todo: set<string>, walk: seq<Entry<V>>)
    returns (rest: seq<Entry<V>>)
    requires todo <= form.Keys && WalkOf(form, form.Keys - todo, walk)
    ensures WalkOf(form, form.Keys, walk + rest)
    decreases |todo|
  {
    if todo == {} {
      rest := [];
      assert form.Keys - todo == form.Keys && walk + rest == walk;
    } else {
      var k :| k in todo;
      var one := [Entry(k, form[k])];
      WalkOn(form, form.Keys - todo, walk, k);
      assert (form.Keys - todo) + {k} == form.Keys - (todo - {k});
      var more := WalkToEnd(form, todo - {k}, walk + one);
      rest := one + more;
      assert walk + one + more == walk + rest;
    }
  }

  datatype Slot<V> = Single(value: V) | Several(values: seq<V>) | Branch(node: Dir<V>)

  /** One `dataTree` or `fileTree` map. */
  class Dir<V> {
    var kids: map<string, Slot<V>>
    ghost var Repr: set<object>

    /** The maps below form a tree: no map is reachable in two ways. */
    ghost predicate Valid()
      reads this, Repr
      decreases Repr
    {
      && this in Repr
      && (forall k :: k in kids && kids[k].Branch? ==>
            && kids[k].node in Repr && kids[k].node.Repr <= Repr && this !in kids[k].node.Repr
            && kids[k].node.Valid())
      && (forall j, k :: j in kids && k in kids && j != k && kids[j].Branch? && kids[k].Branch? ==>
            kids[j].node.Repr !! kids[k].node.Repr)
    }

    /** The tree that the maps stand for. */
    ghost function Value(): Tree<V>
      requires Valid()
      reads this, Repr
      decreases Repr
    {
      Tree(map k | k in kids :: Kid(k))
    }

    ghost function Kid(k: string): Node<V>
      requires Valid() && k in kids
      reads this, Repr
      decreases Repr, 0
    {
      match kids[k]
      case Single(v) => Leaf(v)
      case Several(vs) => List(vs)
      case Branch(n) => Sub(n.Value())
    }

    constructor ()
      ensures Valid() && fresh(Repr) && kids == map[] && Value() == Empty()
    {
      kids, Repr := map[], {this};
    }

    /** One loop of `parseData`, or that of `parseUploads`: push the entries of a map in any order. */
    method PushForm(kind: Kind, form: map<string, seq<V>>) returns (ok: bool, ghost walk: seq<Entry<V>>)
      requires Valid()
      modifies Repr
      ensures Valid() && fresh(Repr - old(Repr))
      ensures WalkOf(form, form.Keys, walk)
      ensures ok <==> PushAll(kind, Ok(old(Value())), walk).Ok?
      ensures ok ==> Value() == PushAll(kind, Ok(old(Value())), walk).value
    {
      var todo := form.Keys;
      ok, walk := true, [];
      assert form.Keys - todo == {};
      while todo != {}
        invariant Valid() && fresh(Repr - old(Repr)) && ok
        invariant todo <= form.Keys && WalkOf(form, form.Keys - todo, walk)
        invariant PushAll(kind, Ok(old(Value())), walk) == Ok(Value())
      {
        var k :| k in todo;
        ghost var e := Entry(k, form[k]);
        WalkOn(form, form.Keys - todo, walk, k);
        PushLast(kind, Ok(old(Value())), walk, e);
        assert (form.Keys - todo) + {k} == form.Keys - (todo - {k});
        ok := Push(kind, Entry(k, form[k]));
        todo, walk := todo - {k}, walk + [e];
        if !ok {
          ghost var rest := WalkToEnd(form, todo, walk);
          PushAllConcat(kind, Ok(old(Value())), walk, rest);
          PanicStays(kind, rest);
          walk := walk + rest;
          return;
        }
      }
      assert form.Keys - todo == form.Keys;
    }

    /** `push`: scan the name, and mount unless it is too deep.  Returns false where the source panics. */
    method Push(kind: Kind, e: Entry<V>) returns (ok: bool)
      requires Valid()
      modifies Repr
      ensures Valid() && fresh(Repr - old(Repr))
      ensures ok <==> FormTree.Push(kind, old(Value()), e).Ok?
      ensures ok ==> Value() == FormTree.Push(kind, old(Value()), e).value
      ensures !ok && e.values != [] ==> Value() == old(Value())
    {
      var keys := FormKeys.FetchIndexes(e.name);
      if |keys| <= MAX_LEVEL {
        ok := Mount(keys, Pick(kind, e.values), e.values);
      } else {
        ok := true;
      }
    }

    /** Returns false where the source panics.  The tree is then as it was, unless the panic came from a
        missing value: the maps on its way may have been made by then. */
    method Mount(i: seq<string>, one: Result<V>, all: seq<V>) returns (ok: bool)
      requires Valid() && |i| > 0
      modifies Repr
      ensures Valid() && fresh(Repr - old(Repr))
      ensures ok <==> FormTree.Mount(old(Value()), i, one, all).Ok?
      ensures ok ==> Value() == FormTree.Mount(old(Value()), i, one, all).value
      ensures !ok && one.Ok? ==> Value() == old(Value())
      decreases |i|, 1
    {
      if |i| == 1 {
        if one.Panic? {
          return false;
        }
        SetLeaf(i[0], Single(one.value));
        return true;
      }
      if |i| == 2 && i[1] == "" {
        SetLeaf(i[0], Several(all));
        return true;
      }
      if i[0] in kids {
        if !kids[i[0]].Branch? {
          return false;
        }
        ok := MountBelow(i, one, all);
        return;
      }
      AddBranch(i[0]);
      ok := MountBelow(i, one, all);
      if ok {
        SetTwice(old(Value()), i[0], Sub(Empty()), Sub(FormTree.Mount(Empty(), i[1..], one, all).value));
      } else if one.Ok? {
        EmptyTakesAll(i[1..], one, all);
      }
    }

    /** `d[key] = v` */
    method SetLeaf(key: string, slot: Slot<V>)
      requires Valid() && !slot.Branch?
      modifies this`kids
      ensures Valid()
      ensures Value() == Tree(old(Value()).kids[key := if slot.Single? then Leaf(slot.value) else List(slot.values)])
    {
      kids := kids[key := slot];
    }

    /** `d[key] = make(dataTree)` */
    method AddBranch(key: string)
      requires Valid() && key !in kids
      modifies this
      ensures Valid() && fresh(Repr - old(Repr))
      ensures key in kids && kids[key].Branch? && kids[key].node.Value() == Empty()
      ensures Value() == Tree(old(Value()).kids[key := Sub(Empty())])
    {
      var n := new Dir<V>();
      kids := kids[key := Branch(n)];
      Repr := Repr + n.Repr;
    }

    /** `d[i[0]].mount(i[1:], v)` */
    method MountBelow(i: seq<string>, one: Result<V>, all: seq<V>) returns (ok: bool)
      requires Valid() && |i| > 1 && i[0] in kids && kids[i[0]].Branch?
      modifies Repr
      ensures Valid() && fresh(Repr - old(Repr)) && kids == old(kids)
      ensures var below := FormTree.Mount(old(kids[i[0]].node.Value()), i[1..], one, all);
              && (ok <==> below.Ok?)
              && (ok ==> Value() == Tree(old(Value()).kids[i[0] := Sub(below.value)]))
              && (!ok && one.Ok? ==> Value() == old(Value()))
      decreases |i|, 0
    {
      var n := kids[i[0]].node;
      ok := n.Mount(i[1..], one, all);
      Repr := Repr + n.Repr;
    }
  }

  lemma SetTwice<V>(t: Tree<V>, key: string, a: Node<V>, b: Node<V>)
    ensures Tree(t.kids[key := a][key := b]) == Tree(t.kids[key := b])
  {
    assert t.kids[key := a][key := b] == t.kids[key := b];
  }

  /** Nothing is in the way in an empty tree. */
  lemma {:induction false} EmptyTakesAll<V>(keys: seq<string>, one: Result<V>, all: seq<V>)
    requires |keys| > 0 && one.Ok?
    ensures FormTree.Mount(Empty<V>(), keys, one, all).Ok?
    decreases |keys|
  {
    if |keys| > 2 || (|keys| == 2 && keys[1] != "") {
      EmptyTakesAll(keys[1..], one, all);
    }
  }

  // ---------------------------------------------------------------- whole requests

  lemma AnyTwoWalks<V(!new)>(kind: Kind, post: map<string, seq<V>>, multi: map<string, seq<V>>,
                             a: seq<Entry<V>>, b: seq<Entry<V>>)
    requires WalkOf(post, post.Keys, a) && WalkOf(multi, multi.Keys, b)
    ensures forall c, d :: WalkOf(post, post.Keys, c) && WalkOf(multi, multi.Keys, d) && Settled(kind, c, d) ==>
              ParseBoth(kind, a, b).Ok? && ParseBoth(kind, c, d) == ParseBoth(kind, a, b)
  {
    forall c, d | WalkOf(post, post.Keys, c) && WalkOf(multi, multi.Keys, d) && Settled(kind, c, d)
      ensures ParseBoth(kind, a, b).Ok? && ParseBoth(kind, c, d) == ParseBoth(kind, a, b)
    {
      WalkParses(kind, c, d, a, b);
      SettledSameTree(kind, c, d, a, b);
    }
  }

  lemma AnyWalk<V(!new)>(kind: Kind, form: map<string, seq<V>>, a: seq<Entry<V>>)
    requires WalkOf(form, form.Keys, a)
    ensures forall c :: WalkOf(form, form.Keys, c) && NoneBare(c) && AllCompatible(kind, c) ==>
              Parse(kind, a).Ok? && Parse(kind, c) == Parse(kind, a)
  {
    forall c | WalkOf(form, form.Keys, c) && NoneBare(c) && AllCompatible(kind, c)
      ensures Parse(kind, a).Ok? && Parse(kind, c) == Parse(kind, a)
    {
      CompatibleOrderFree(kind, c);
    }
  }

  lemma WalkTakes<V>(form: map<string, seq<V>>, walk: seq<Entry<V>>, k: string) returns (i: nat)
    requires WalkOf(form, form.Keys, walk) && k in form
    ensures i < |walk| && walk[i] == Entry(k, form[k])
  {
    assert Entry(k, form[k]) in EntriesIn(form, form.Keys);
    assert Entry(k, form[k]) in multiset(walk);
    i :| 0 <= i < |walk| && walk[i] == Entry(k, form[k]);
  }

  lemma BothHoldValues<V(!new)>(post: map<string, seq<V>>, multi: map<string, seq<V>>,
                                a: seq<Entry<V>>, b: seq<Entry<V>>)
    requires WalkOf(post, post.Keys, a) && WalkOf(multi, multi.Keys, b) && Settled(Data, a, b)
    ensures ParseBoth(Data, a, b).Ok?
    ensures forall k :: k in multi ==> HoldsValue(Data, ParseBoth(Data, a, b).value, Entry(k, multi[k]))
    ensures forall k :: k in post && !Covered(Data, Entry(k, post[k]), b) ==>
              HoldsValue(Data, ParseBoth(Data, a, b).value, Entry(k, post[k]))
  {
    WalkParses(Data, a, b, a, b);
    forall k | k in multi
      ensures HoldsValue(Data, ParseBoth(Data, a, b).value, Entry(k, multi[k]))
    {
      var i := WalkTakes(multi, b, k);
      MultiHolds(Data, a, b, i);
    }
    forall k | k in post && !Covered(Data, Entry(k, post[k]), b)
      ensures HoldsValue(Data, ParseBoth(Data, a, b).value, Entry(k, post[k]))
    {
      var i := WalkTakes(post, a, k);
      PostHolds(Data, a, b, i);
    }
  }

  lemma OneHoldsValues<V(!new)>(files: map<string, seq<V>>, a: seq<Entry<V>>)
    requires WalkOf(files, files.Keys, a) && NoneBare(a) && AllCompatible(Files, a)
    ensures Parse(Files, a).Ok?
    ensures forall k :: k in files ==> HoldsValue(Files, Parse(Files, a).value, Entry(k, files[k]))
  {
    CompatibleOrderFree(Files, a);
    forall k | k in files
      ensures HoldsValue(Files, Parse(Files, a).value, Entry(k, files[k]))
    {
      var i := WalkTakes(files, a, k);
      ParsedHoldsValues(Files, a, i);
    }
  }

  /** `parseData`: the post form, then the multipart form.  The result is that of some pair of walks, and if
      the forms are settled it is that of any other pair too. */
  method ParseData<V(!new)>(post: map<string, seq<V>>, multi: map<string, seq<V>>)
    returns (ok: bool, data: Dir<V>, ghost a: seq<Entry<V>>, ghost b: seq<Entry<V>>)
    ensures fresh(data) && data.Valid() && fresh(data.Repr)
    ensures WalkOf(post, post.Keys, a) && WalkOf(multi, multi.Keys, b)
    ensures ok <==> ParseBoth(Data, a, b).Ok?
    ensures ok ==> data.Value() == ParseBoth(Data, a, b).value
    ensures forall c, d :: WalkOf(post, post.Keys, c) && WalkOf(multi, multi.Keys, d) && Settled(Data, c, d) ==>
              ok && ParseBoth(Data, c, d) == Ok(data.Value())
    ensures forall k :: Settled(Data, a, b) && k in multi ==> HoldsValue(Data, data.Value(), Entry(k, multi[k]))
    ensures forall k :: Settled(Data, a, b) && k in post && !Covered(Data, Entry(k, post[k]), b) ==>
              HoldsValue(Data, data.Value(), Entry(k, post[k]))
  {
    data := new Dir<V>();
    ok, a := data.PushForm(Data, post);
    if ok {
      ok, b := data.PushForm(Data, multi);
    } else {
      assert multi.Keys - multi.Keys == {};
      b := WalkToEnd(multi, multi.Keys, []);
      assert [] + b == b;
      PanicStays(Data, b);
    }
    AnyTwoWalks(Data, post, multi, a, b);
    if Settled(Data, a, b) {
      BothHoldValues(post, multi, a, b);
    }
  }

  /** `parseUploads`: the tree of the uploaded files, that of any walk if the entries are compatible. */
  method ParseUploads<V(!new)>(files: map<string, seq<V>>)
    returns (ok: bool, tree: Dir<V>, ghost a: seq<Entry<V>>)
    ensures fresh(tree) && tree.Valid() && fresh(tree.Repr)
    ensures WalkOf(files, files.Keys, a)
    ensures ok <==> Parse(Files, a).Ok?
    ensures ok ==> tree.Value() == Parse(Files, a).value
    ensures forall c :: WalkOf(files, files.Keys, c) && NoneBare(c) && AllCompatible(Files, c) ==>
              ok && Parse(Files, c) == Ok(tree.Value())
    ensures forall k :: NoneBare(a) && AllCompatible(Files, a) && k in files ==>
              HoldsValue(Files, tree.Value(), Entry(k, files[k]))
  {
    tree := new Dir<V>();
    ok, a := tree.PushForm(Files, files);
    AnyWalk(Files, files, a);
    if NoneBare(a) && AllCompatible(Files, a) {
      OneHoldsValues(files, a);
    }
  }
}
