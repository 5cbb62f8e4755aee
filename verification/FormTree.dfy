/**
 Form trees: mounting values under their indexes, and when the outcome does not depend on the
 order in which Go's map iteration hands the keys over.
 */
module FormTree {
  import FormKeys

  /** Entries with more keys than this are ignored. */
  const MAX_LEVEL := 127

  datatype Tree<V> = Tree(kids: map<string, Node<V>>)

  datatype Node<V> = Leaf(value: V) | List(values: seq<V>) | Sub(tree: Tree<V>)

  /** Panic is the failed type assertion on a leaf where a subtree is needed, or the index into an empty
      list of values where one of them is needed. */
  datatype Result<+T> = Ok(value: T) | Panic

  function Empty<V>(): Tree<V> {
    Tree(map[])
  }

  // ---------------------------------------------------------------- mounting

  /** `mount`: `one` is the value of a single element, if there is any, and `all` that of a list element. */
  function Mount<V>(t: Tree<V>, keys: seq<string>, one: Result<V>, all: seq<V>): Result<Tree<V>>
    requires |keys| > 0
    decreases |keys|
  {
    if |keys| == 1 then
      match one
      case Ok(v) => Ok(Tree(t.kids[keys[0] := Leaf(v)]))
      case Panic => Panic
    else if |keys| == 2 && keys[1] == "" then
      Ok(Tree(t.kids[keys[0] := List(all)]))
    else if keys[0] in t.kids then
      match t.kids[keys[0]]
      case Sub(sub) => Under(t, keys[0], Mount(sub, keys[1..], one, all))
      case _ => Panic
    else
      Under(t, keys[0], Mount(Empty(), keys[1..], one, all))
  }

  function Under<V>(t: Tree<V>, key: string, sub: Result<Tree<V>>): Result<Tree<V>> {
    match sub
    case Ok(tree) => Ok(Tree(t.kids[key := Sub(tree)]))
    case Panic => Panic
  }

  /** A trailing empty key asks for a list. */
  predicate IsList(keys: seq<string>) {
    |keys| > 1 && keys[|keys| - 1] == ""
  }

  /** The path of the leaf. */
  function PathOf(keys: seq<string>): (path: seq<string>)
    requires |keys| > 0
    ensures 0 < |path| <= |keys|
  {
    if IsList(keys) then keys[..|keys| - 1] else keys
  }

  function LeafOf<V>(keys: seq<string>, one: Result<V>, all: seq<V>): Result<Node<V>> {
    if IsList(keys) then Ok(List(all))
    else
      match one
      case Ok(v) => Ok(Leaf(v))
      case Panic => Panic
  }

  /** Put a leaf at a path. */
  function Put<V>(t: Tree<V>, path: seq<string>, leaf: Node<V>): Result<Tree<V>>
    requires |path| > 0
    decreases |path|
  {
    if |path| == 1 then Ok(Tree(t.kids[path[0] := leaf]))
    else
      match Below(t, path[0])
      case Ok(sub) => Under(t, path[0], Put(sub, path[1..], leaf))
      case Panic => Panic
  }

  /** The subtree to descend into. */
  function Below<V>(t: Tree<V>, key: string): Result<Tree<V>> {
    if key !in t.kids then Ok(Empty())
    else if t.kids[key].Sub? then Ok(t.kids[key].tree)
    else Panic
  }

  /** Mounting puts one leaf at the path that the keys say, if there is a leaf to put. */
  lemma {:induction false} MountPutsLeaf<V>(t: Tree<V>, keys: seq<string>, one: Result<V>, all: seq<V>)
    requires |keys| > 0
    ensures Mount(t, keys, one, all) ==
              match LeafOf(keys, one, all)
              case Ok(leaf) => Put(t, PathOf(keys), leaf)
              case Panic => Panic
    decreases |keys|
  {
    if |keys| > 2 || (|keys| == 2 && keys[1] != "") {
      assert PathOf(keys)[1..] == PathOf(keys[1..]);
      var sub := Below(t, keys[0]);
      if sub.Ok? {
        MountPutsLeaf(sub.value, keys[1..], one, all);
      }
    }
  }

  // ---------------------------------------------------------------- reading

  /** The node at a path. */
  function At<V>(t: Tree<V>, path: seq<string>): Result<Node<V>>
    requires |path| > 0
    decreases |path|
  {
    if path[0] !in t.kids then Panic
    else if |path| == 1 then Ok(t.kids[path[0]])
    else if t.kids[path[0]].Sub? then At(t.kids[path[0]].tree, path[1..])
    else Panic
  }

  predicate LeafAt<V>(t: Tree<V>, path: seq<string>) {
    |path| > 0 && At(t, path).Ok? && !At(t, path).value.Sub?
  }

  /** Neither path is a prefix of the other. */
  predicate Apart(p: seq<string>, q: seq<string>) {
    !(p <= q) && !(q <= p)
  }

  /** A mount panics exactly when a leaf sits on the way to its path. */
  lemma {:induction false} PutPanicsExactly<V>(t: Tree<V>, path: seq<string>, leaf: Node<V>)
    requires |path| > 0
    ensures Put(t, path, leaf).Panic? <==> exists k :: 0 < k < |path| && LeafAt(t, path[..k])
    decreases |path|
  {
    if |path| > 1 {
      var key, rest := path[0], path[1..];
      assert path[..1] == [key];
      match Below(t, key)
      case Panic => assert LeafAt(t, path[..1]);
      case Ok(sub) =>
        PutPanicsExactly(sub, rest, leaf);
        forall k | 0 < k < |rest|
          ensures LeafAt(sub, rest[..k]) == LeafAt(t, path[..k + 1])
        {
          assert path[..k + 1][1..] == rest[..k];
        }
        if j :| 0 < j < |path| && LeafAt(t, path[..j]) {
          assert j > 1;
          assert LeafAt(sub, rest[..j - 1]);
        }
        if k :| 0 < k < |rest| && LeafAt(sub, rest[..k]) {
          assert LeafAt(t, path[..k + 1]);
        }
    }
  }

  lemma {:induction false} PutReadsBack<V>(t: Tree<V>, path: seq<string>, leaf: Node<V>)
    requires |path| > 0 && Put(t, path, leaf).Ok?
    ensures At(Put(t, path, leaf).value, path) == Ok(leaf)
    decreases |path|
  {
    if |path| > 1 {
      PutReadsBack(Below(t, path[0]).value, path[1..], leaf);
    }
  }

  /** A mount does not change what is at a path apart from its own. */
  lemma {:induction false} PutKeepsApart<V>(t: Tree<V>, p: seq<string>, leaf: Node<V>, q: seq<string>)
    requires |p| > 0 && |q| > 0 && Put(t, p, leaf).Ok? && Apart(p, q)
    ensures At(Put(t, p, leaf).value, q) == At(t, q)
    decreases |p|
  {
    if p[0] == q[0] {
      assert p == [p[0]] + p[1..] && q == [q[0]] + q[1..];
      assert |p| > 1 && |q| > 1;
      PutKeepsApart(Below(t, p[0]).value, p[1..], leaf, q[1..]);
    }
  }

  /** A mount adds nodes only on the way to its path, and a leaf only at its path. */
  lemma {:induction false} PutAddsOnPath<V>(t: Tree<V>, p: seq<string>, leaf: Node<V>, q: seq<string>)
    requires |p| > 0 && |q| > 0 && !leaf.Sub? && Put(t, p, leaf).Ok?
    ensures At(Put(t, p, leaf).value, q).Ok? ==> q <= p || At(t, q).Ok?
    ensures LeafAt(Put(t, p, leaf).value, q) ==> q == p || LeafAt(t, q)
    decreases |p|
  {
    if p[0] == q[0] && |p| > 1 && |q| > 1 {
      assert p == [p[0]] + p[1..] && q == [q[0]] + q[1..];
      PutAddsOnPath(Below(t, p[0]).value, p[1..], leaf, q[1..]);
    }
  }

  // ---------------------------------------------------------------- pushing form entries

  /** Which of several values a single element takes: the last one of a data tree, the first one of
      a file tree. */
  datatype Kind = Data | Files

  datatype Entry<V> = Entry(name: string, values: seq<V>)

  function Pick<V>(kind: Kind, values: seq<V>): Result<V> {
    if values == [] then Panic else Ok(if kind.Data? then values[|values| - 1] else values[0])
  }

  /** `push`: entries that are too deep are ignored. */
  function Push<V>(kind: Kind, t: Tree<V>, e: Entry<V>): Result<Tree<V>> {
    var keys := FormKeys.Indexes(e.name);
    if |keys| <= MAX_LEVEL then Mount(t, keys, Pick(kind, e.values), e.values) else Ok(t)
  }

  function PushOn<V>(kind: Kind, r: Result<Tree<V>>, e: Entry<V>): Result<Tree<V>> {
    match r
    case Ok(t) => Push(kind, t, e)
    case Panic => Panic
  }

  function PushAll<V>(kind: Kind, r: Result<Tree<V>>, entries: seq<Entry<V>>): Result<Tree<V>>
    decreases |entries|
  {
    if entries == [] then r else PushAll(kind, PushOn(kind, r, entries[0]), entries[1..])
  }

  /** `parseUploads`, and one loop of `parseData`: the entries in the order of the map iteration. */
  function Parse<V>(kind: Kind, entries: seq<Entry<V>>): Result<Tree<V>> {
    PushAll(kind, Ok(Empty()), entries)
  }

  predicate InLimit<V>(e: Entry<V>) {
    |FormKeys.Indexes(e.name)| <= MAX_LEVEL
  }

  /** The entry needs one of its values and has none. */
  predicate Bare<V>(e: Entry<V>) {
    InLimit(e) && |e.values| == 0 && !IsList(FormKeys.Indexes(e.name))
  }

  ghost predicate NoneBare<V>(entries: seq<Entry<V>>) {
    forall i :: 0 <= i < |entries| ==> !Bare(entries[i])
  }

  /** A leaf and its path. */
  datatype Item<V> = Item(path: seq<string>, leaf: Node<V>)

  /** What an entry puts where; a bare entry puts nothing, and the leaf given for it is never used. */
  function ItemIn<V>(kind: Kind, e: Entry<V>): (item: Item<V>)
    ensures 0 < |item.path| <= |FormKeys.Indexes(e.name)| && !item.leaf.Sub?
  {
    var keys := FormKeys.Indexes(e.name);
    match LeafOf(keys, Pick(kind, e.values), e.values)
    case Ok(leaf) => Item(PathOf(keys), leaf)
    case Panic => Item(PathOf(keys), List([]))
  }

  lemma PushPutsItem<V>(kind: Kind, t: Tree<V>, e: Entry<V>)
    ensures Push(kind, t, e) ==
              if !InLimit(e) then Ok(t)
              else if Bare(e) then Panic
              else Put(t, ItemIn(kind, e).path, ItemIn(kind, e).leaf)
  {
    MountPutsLeaf(t, FormKeys.Indexes(e.name), Pick(kind, e.values), e.values);
  }

  /** Two entries do not disturb each other: one is ignored, their leaf paths are apart, or they put
      the same leaf at the same path. */
  predicate Compatible<V(==)>(kind: Kind, e: Entry<V>, f: Entry<V>)
  {
    || !InLimit(e) || !InLimit(f)
    || Apart(ItemIn(kind, e).path, ItemIn(kind, f).path)
    || ItemIn(kind, e) == ItemIn(kind, f)
  }

  ghost predicate AllCompatible<V>(kind: Kind, entries: seq<Entry<V>>)
  {
    forall i, j :: 0 <= i < j < |entries| ==> Compatible(kind, entries[i], entries[j])
  }

  // ---------------------------------------------------------------- order independence

  function Then<V>(r: Result<Tree<V>>, path: seq<string>, leaf: Node<V>): Result<Tree<V>>
    requires |path| > 0
  {
    match r
    case Ok(t) => Put(t, path, leaf)
    case Panic => Panic
  }

  /** The node a mount leaves under the first key of its path. */
  function NewKid<V>(t: Tree<V>, path: seq<string>, leaf: Node<V>): Result<Node<V>>
    requires |path| > 0
  {
    if |path| == 1 then Ok(leaf)
    else if Below(t, path[0]).Panic? then Panic
    else
      match Put(Below(t, path[0]).value, path[1..], leaf)
      case Ok(sub) => Ok(Sub(sub))
      case Panic => Panic
  }

  lemma PutSetsKid<V>(t: Tree<V>, path: seq<string>, leaf: Node<V>)
    requires |path| > 0
    ensures var kid := NewKid(t, path, leaf);
            Put(t, path, leaf) == if kid.Ok? then Ok(Tree(t.kids[path[0] := kid.value])) else Panic
  {
  }

  /** Mounts at paths that are apart commute, panics included. */
  lemma {:induction false} PutsCommute<V>(t: Tree<V>, p: seq<string>, a: Node<V>, q: seq<string>, b: Node<V>)
    requires |p| > 0 && |q| > 0 && Apart(p, q)
    ensures Then(Put(t, p, a), q, b) == Then(Put(t, q, b), p, a)
    decreases |p|
  {
    if p[0] != q[0] {
      SiblingsCommute(t, p, a, q, b);
    } else {
      assert p == [p[0]] + p[1..] && q == [q[0]] + q[1..];
      assert |p| > 1 && |q| > 1;
      if Below(t, p[0]).Ok? {
        var sub := Below(t, p[0]).value;
        PutsCommute(sub, p[1..], a, q[1..], b);
        TwiceBelow(t, p, a, q, b);
        TwiceBelow(t, q, b, p, a);
      }
    }
  }

  lemma SiblingsCommute<V>(t: Tree<V>, p: seq<string>, a: Node<V>, q: seq<string>, b: Node<V>)
    requires |p| > 0 && |q| > 0 && p[0] != q[0]
    ensures Then(Put(t, p, a), q, b) == Then(Put(t, q, b), p, a)
  {
    var x, y := NewKid(t, p, a), NewKid(t, q, b);
    PutSetsKid(t, p, a);
    PutSetsKid(t, q, b);
    if x.Ok? {
      PutSetsKid(Tree(t.kids[p[0] := x.value]), q, b);
    }
    if y.Ok? {
      PutSetsKid(Tree(t.kids[q[0] := y.value]), p, a);
    }
    if x.Ok? && y.Ok? {
      assert t.kids[p[0] := x.value][q[0] := y.value] == t.kids[q[0] := y.value][p[0] := x.value];
    }
  }

  /** Two mounts below the same key are two mounts in its subtree. */
  lemma TwiceBelow<V>(t: Tree<V>, p: seq<string>, a: Node<V>, q: seq<string>, b: Node<V>)
    requires |p| > 1 && |q| > 1 && p[0] == q[0] && Below(t, p[0]).Ok?
    ensures Then(Put(t, p, a), q, b)
            == Under(t, p[0], Then(Put(Below(t, p[0]).value, p[1..], a), q[1..], b))
  {
    var first := Put(Below(t, p[0]).value, p[1..], a);
    if first.Ok? {
      var t' := Tree(t.kids[p[0] := Sub(first.value)]);
      assert Put(t, p, a) == Ok(t') && Below(t', q[0]) == Ok(first.value);
      var second := Put(first.value, q[1..], b);
      if second.Ok? {
        assert t'.kids[q[0] := Sub(second.value)] == t.kids[p[0] := Sub(second.value)];
      }
    }
  }

  lemma PushesCommute<V>(kind: Kind, r: Result<Tree<V>>, e: Entry<V>, f: Entry<V>)
    requires Compatible(kind, e, f)
    ensures PushOn(kind, PushOn(kind, r, e), f) == PushOn(kind, PushOn(kind, r, f), e)
  {
    if r.Ok? {
      var t, x, y := r.value, ItemIn(kind, e), ItemIn(kind, f);
      PushPutsItem(kind, t, e);
      PushPutsItem(kind, t, f);
      if Push(kind, t, e).Ok? {
        PushPutsItem(kind, Push(kind, t, e).value, f);
      }
      if Push(kind, t, f).Ok? {
        PushPutsItem(kind, Push(kind, t, f).value, e);
      }
      if InLimit(e) && InLimit(f) && x != y {
        PutsCommute(t, x.path, x.leaf, y.path, y.leaf);
      }
    }
  }

  lemma {:induction false} PushAllConcat<V>(kind: Kind, r: Result<Tree<V>>, a: seq<Entry<V>>, b: seq<Entry<V>>)
    ensures PushAll(kind, r, a + b) == PushAll(kind, PushAll(kind, r, a), b)
    decreases |a|
  {
    if a == [] {
      assert a + b == b;
    } else {
      assert (a + b)[1..] == a[1..] + b;
      PushAllConcat(kind, PushOn(kind, r, a[0]), a[1..], b);
    }
  }

  /** An entry can be pushed before the entries it is compatible with. */
  lemma {:induction false} PushFirst<V>(kind: Kind, r: Result<Tree<V>>, before: seq<Entry<V>>, e: Entry<V>)
    requires forall i :: 0 <= i < |before| ==> Compatible(kind, before[i], e)
    ensures PushOn(kind, PushAll(kind, r, before), e) == PushAll(kind, PushOn(kind, r, e), before)
    decreases |before|
  {
    if before != [] {
      PushesCommute(kind, r, before[0], e);
      PushFirst(kind, PushOn(kind, r, before[0]), before[1..], e);
    }
  }

  /** Taking entry i out of the middle and pushing it first gives the same tree. */
  lemma PushMiddleFirst<V>(kind: Kind, r: Result<Tree<V>>, a: seq<Entry<V>>, i: nat)
    requires AllCompatible(kind, a) && i < |a|
    ensures PushAll(kind, r, a) == PushAll(kind, PushOn(kind, r, a[i]), a[..i] + a[i + 1..])
  {
    var before, e, after := a[..i], a[i], a[i + 1..];
    assert a == before + ([e] + after) && ([e] + after)[1..] == after;
    PushAllConcat(kind, r, before, [e] + after);
    PushFirst(kind, r, before, e);
    PushAllConcat(kind, PushOn(kind, r, e), before, after);
  }

  lemma RemovedKeeps<V>(kind: Kind, a: seq<Entry<V>>, i: nat)
    requires AllCompatible(kind, a) && i < |a|
    ensures AllCompatible(kind, a[..i] + a[i + 1..])
  {
    var rest := a[..i] + a[i + 1..];
    forall j, k | 0 <= j < k < |rest|
      ensures Compatible(kind, rest[j], rest[k])
    {
      var j', k' := if j < i then j else j + 1, if k < i then k else k + 1;
      assert rest[j] == a[j'] && rest[k] == a[k'];
    }
  }

  lemma SameRest<T>(a: seq<T>, b: seq<T>, i: nat)
    requires i < |a| && b != [] && a[i] == b[0] && multiset(a) == multiset(b)
    ensures multiset(a[..i] + a[i + 1..]) == multiset(b[1..])
  {
    assert a == a[..i] + [a[i]] + a[i + 1..];
    assert b == [b[0]] + b[1..];
    assert multiset(a[..i] + a[i + 1..]) == multiset(a) - multiset{b[0]} == multiset(b[1..]);
  }

  /** Compatible entries give the same result in every order. */
  lemma {:induction false} OrderDoesNotMatter<V>(kind: Kind, r: Result<Tree<V>>, a: seq<Entry<V>>, b: seq<Entry<V>>)
    requires AllCompatible(kind, a) && multiset(a) == multiset(b)
    ensures PushAll(kind, r, a) == PushAll(kind, r, b)
    decreases |b|
  {
    assert |a| == |multiset(a)| == |multiset(b)| == |b|;
    if b != [] {
      assert b[0] in multiset(a);
      var i :| 0 <= i < |a| && a[i] == b[0];
      PushMiddleFirst(kind, r, a, i);
      RemovedKeeps(kind, a, i);
      SameRest(a, b, i);
      OrderDoesNotMatter(kind, PushOn(kind, r, b[0]), a[..i] + a[i + 1..], b[1..]);
    }
  }

  // ---------------------------------------------------------------- what the tree holds

  /** The path q is on the way to the leaf of some entry. */
  ghost predicate OnTheWay<V>(kind: Kind, entries: seq<Entry<V>>, q: seq<string>)
  {
    exists i :: 0 <= i < |entries| && InLimit(entries[i]) && q <= ItemIn(kind, entries[i]).path
  }

  /** The path q is the leaf path of some entry. */
  ghost predicate AtTheEnd<V>(kind: Kind, entries: seq<Entry<V>>, q: seq<string>)
  {
    exists i :: 0 <= i < |entries| && InLimit(entries[i]) && q == ItemIn(kind, entries[i]).path
  }

  /** Every node of t is on the way to the leaf of one of the entries, and every leaf is at the end. */
  ghost predicate GrownFrom<V>(kind: Kind, t: Tree<V>, entries: seq<Entry<V>>)
  {
    forall q :: |q| > 0 && At(t, q).Ok? ==> OnTheWay(kind, entries, q) && (LeafAt(t, q) ==> AtTheEnd(kind, entries, q))
  }

  lemma MoreEntries<V>(kind: Kind, entries: seq<Entry<V>>, e: Entry<V>, q: seq<string>)
    ensures OnTheWay(kind, entries, q) ==> OnTheWay(kind, entries + [e], q)
    ensures AtTheEnd(kind, entries, q) ==> AtTheEnd(kind, entries + [e], q)
    ensures InLimit(e) && q <= ItemIn(kind, e).path ==> OnTheWay(kind, entries + [e], q)
    ensures InLimit(e) && q == ItemIn(kind, e).path ==> AtTheEnd(kind, entries + [e], q)
  {
    var more := entries + [e];
    assert more[|entries|] == e;
    if i :| 0 <= i < |entries| && InLimit(entries[i]) && q <= ItemIn(kind, entries[i]).path {
      assert more[i] == entries[i];
    }
    if i :| 0 <= i < |entries| && InLimit(entries[i]) && q == ItemIn(kind, entries[i]).path {
      assert more[i] == entries[i];
    }
  }

  lemma GrowOne<V>(kind: Kind, t: Tree<V>, entries: seq<Entry<V>>, e: Entry<V>)
    requires GrownFrom(kind, t, entries) && Push(kind, t, e).Ok?
    ensures GrownFrom(kind, Push(kind, t, e).value, entries + [e])
  {
    PushPutsItem(kind, t, e);
    var t', item := Push(kind, t, e).value, ItemIn(kind, e);
    forall q | |q| > 0 && At(t', q).Ok?
      ensures OnTheWay(kind, entries + [e], q) && (LeafAt(t', q) ==> AtTheEnd(kind, entries + [e], q))
    {
      MoreEntries(kind, entries, e, q);
      if InLimit(e) {
        PutAddsOnPath(t, item.path, item.leaf, q);
      }
    }
  }

  lemma {:induction false} GrowAll<V>(kind: Kind, t: Tree<V>, done: seq<Entry<V>>, entries: seq<Entry<V>>)
    requires GrownFrom(kind, t, done)
    requires PushAll(kind, Ok(t), entries).Ok?
    ensures GrownFrom(kind, PushAll(kind, Ok(t), entries).value, done + entries)
    decreases |entries|
  {
    if entries == [] {
      assert done + entries == done;
    } else {
      var e, rest := entries[0], entries[1..];
      PanicStays(kind, rest);
      GrowOne(kind, t, done, e);
      GrowAll(kind, Push(kind, t, e).value, done + [e], rest);
      assert done + [e] + rest == done + entries;
    }
  }

  lemma {:induction false} PanicStays<V>(kind: Kind, entries: seq<Entry<V>>)
    ensures PushAll(kind, Panic, entries) == Panic
    decreases |entries|
  {
    if entries != [] {
      PanicStays(kind, entries[1..]);
    }
  }

  /** Whatever is pushed, the tree is never deeper than the limit. */
  lemma DepthLimited<V>(kind: Kind, entries: seq<Entry<V>>, q: seq<string>)
    requires Parse(kind, entries).Ok? && |q| > 0 && At(Parse(kind, entries).value, q).Ok?
    ensures |q| <= 127
  {
    GrowAll(kind, Empty(), [], entries);
    assert [] + entries == entries;
    assert OnTheWay(kind, entries, q);
  }

  // ---------------------------------------------------------------- compatible entries succeed

  /** The leaf of e would sit on the way to the leaf of f. */
  predicate InTheWay<V>(kind: Kind, e: Entry<V>, f: Entry<V>)
  {
    InLimit(e) && InLimit(f) && ItemIn(kind, e).path < ItemIn(kind, f).path
  }

  /** No entry is in the way of a later one. */
  ghost predicate Unblocked<V>(kind: Kind, entries: seq<Entry<V>>)
  {
    forall i, j :: 0 <= i < j < |entries| ==> !InTheWay(kind, entries[i], entries[j])
  }

  /** The next entry meets no leaf on its way. */
  lemma NextFits<V>(kind: Kind, t: Tree<V>, done: seq<Entry<V>>, e: Entry<V>)
    requires GrownFrom(kind, t, done) && !Bare(e)
    requires forall i :: 0 <= i < |done| ==> !InTheWay(kind, done[i], e)
    ensures Push(kind, t, e).Ok?
  {
    PushPutsItem(kind, t, e);
    if InLimit(e) {
      var item := ItemIn(kind, e);
      PutPanicsExactly(t, item.path, item.leaf);
    }
  }

  lemma {:induction false} UnblockedSucceed<V>(kind: Kind, t: Tree<V>, done: seq<Entry<V>>, entries: seq<Entry<V>>)
    requires GrownFrom(kind, t, done) && NoneBare(entries) && Unblocked(kind, done + entries)
    ensures PushAll(kind, Ok(t), entries).Ok?
    decreases |entries|
  {
    if entries != [] {
      var e, rest := entries[0], entries[1..];
      assert (done + entries)[|done|] == e;
      forall i | 0 <= i < |done|
        ensures !InTheWay(kind, done[i], e)
      {
        assert (done + entries)[i] == done[i];
      }
      NextFits(kind, t, done, e);
      GrowOne(kind, t, done, e);
      assert done + [e] + rest == done + entries;
      UnblockedSucceed(kind, Push(kind, t, e).value, done + [e], rest);
    }
  }

  /** Pushing an entry makes its value readable at its path. */
  lemma PushReadsBack<V>(kind: Kind, t: Tree<V>, e: Entry<V>)
    requires InLimit(e) && Push(kind, t, e).Ok?
    ensures At(Push(kind, t, e).value, ItemIn(kind, e).path) == Ok(ItemIn(kind, e).leaf)
  {
    PushPutsItem(kind, t, e);
    PutReadsBack(t, ItemIn(kind, e).path, ItemIn(kind, e).leaf);
  }

  lemma PushLast<V>(kind: Kind, r: Result<Tree<V>>, front: seq<Entry<V>>, e: Entry<V>)
    ensures PushAll(kind, r, front + [e]) == PushOn(kind, PushAll(kind, r, front), e)
  {
    PushAllConcat(kind, r, front, [e]);
    assert PushAll(kind, PushAll(kind, r, front), [e]) == PushOn(kind, PushAll(kind, r, front), e);
  }

  /** The value of the last entry is readable. */
  lemma LastReadsBack<V>(kind: Kind, r: Result<Tree<V>>, front: seq<Entry<V>>, e: Entry<V>)
    requires InLimit(e)
    ensures var all := PushAll(kind, r, front + [e]);
            all.Ok? ==> At(all.value, ItemIn(kind, e).path) == Ok(ItemIn(kind, e).leaf)
  {
    PushLast(kind, r, front, e);
    if PushAll(kind, r, front + [e]).Ok? {
      PushReadsBack(kind, PushAll(kind, r, front).value, e);
    }
  }

  // ---------------------------------------------------------------- which walks panic

  /** A leaf sits on p or on the way to it. */
  predicate LeafOn<V>(t: Tree<V>, p: seq<string>) {
    exists k :: 0 < k <= |p| && LeafAt(t, p[..k])
  }

  /** Once a leaf sits there, no further entry removes the last one. */
  lemma LeafStays<V>(kind: Kind, t: Tree<V>, p: seq<string>, e: Entry<V>)
    requires LeafOn(t, p) && Push(kind, t, e).Ok?
    ensures LeafOn(Push(kind, t, e).value, p)
  {
    PushPutsItem(kind, t, e);
    if InLimit(e) {
      var k :| 0 < k <= |p| && LeafAt(t, p[..k]);
      var item, t' := ItemIn(kind, e), Push(kind, t, e).value;
      if Apart(item.path, p[..k]) {
        PutKeepsApart(t, item.path, item.leaf, p[..k]);
        assert LeafAt(t', p[..k]);
      } else {
        NotBehind(t, item, p[..k]);
        PutReadsBack(t, item.path, item.leaf);
        assert p[..|item.path|] == item.path;
      }
    }
  }

  /** A mount that succeeds does not go through a leaf. */
  lemma NotBehind<V>(t: Tree<V>, item: Item<V>, q: seq<string>)
    requires |item.path| > 0 && LeafAt(t, q) && Put(t, item.path, item.leaf).Ok? && !Apart(item.path, q)
    ensures item.path <= q
  {
    PutPanicsExactly(t, item.path, item.leaf);
    assert q <= item.path ==> q == item.path[..|q|];
  }

  lemma {:induction false} LeafRemains<V>(kind: Kind, t: Tree<V>, p: seq<string>, entries: seq<Entry<V>>)
    requires LeafOn(t, p) && PushAll(kind, Ok(t), entries).Ok?
    ensures LeafOn(PushAll(kind, Ok(t), entries).value, p)
    decreases |entries|
  {
    if entries != [] {
      PanicStays(kind, entries[1..]);
      LeafStays(kind, t, p, entries[0]);
      LeafRemains(kind, Push(kind, t, entries[0]).value, p, entries[1..]);
    }
  }

  /** An entry cannot be pushed behind a leaf. */
  lemma BehindLeafPanics<V>(kind: Kind, t: Tree<V>, p: seq<string>, f: Entry<V>)
    requires LeafOn(t, p) && InLimit(f) && p < ItemIn(kind, f).path
    ensures Push(kind, t, f).Panic?
  {
    PushPutsItem(kind, t, f);
    var k :| 0 < k <= |p| && LeafAt(t, p[..k]);
    var item := ItemIn(kind, f);
    assert item.path[..k] == p[..k];
    PutPanicsExactly(t, item.path, item.leaf);
  }

  /** Whatever is there already, an entry in the way of a later one makes the walk panic. */
  lemma PrefixPanics<V>(kind: Kind, r: Result<Tree<V>>, entries: seq<Entry<V>>, i: nat, j: nat)
    requires i < j < |entries| && InTheWay(kind, entries[i], entries[j])
    ensures PushAll(kind, r, entries).Panic?
  {
    var before, between, after := entries[..i], entries[i + 1..j], entries[j + 1..];
    assert entries == before + [entries[i]] + between + [entries[j]] + after;
    BlockedPanics(kind, r, before, entries[i], between, entries[j], after);
  }

  lemma BlockedPanics<V>(kind: Kind, r: Result<Tree<V>>, before: seq<Entry<V>>, e: Entry<V>,
                         between: seq<Entry<V>>, f: Entry<V>, after: seq<Entry<V>>)
    requires InTheWay(kind, e, f)
    ensures PushAll(kind, r, before + [e] + between + [f] + after).Panic?
  {
    PushAllConcat(kind, r, before + [e] + between + [f], after);
    PushLast(kind, r, before + [e] + between, f);
    PushAllConcat(kind, r, before + [e], between);
    PushLast(kind, r, before, e);
    PanicStays(kind, between);
    PanicStays(kind, after);
    var first := PushAll(kind, r, before + [e]);
    var second := PushAll(kind, first, between);
    if second.Ok? {
      var x := ItemIn(kind, e);
      PushReadsBack(kind, PushAll(kind, r, before).value, e);
      assert x.path[..|x.path|] == x.path && LeafAt(first.value, x.path);
      LeafRemains(kind, first.value, x.path, between);
      BehindLeafPanics(kind, second.value, x.path, f);
    }
  }

  /** A bare entry makes the walk panic. */
  lemma BarePanics<V>(kind: Kind, r: Result<Tree<V>>, entries: seq<Entry<V>>, i: nat)
    requires i < |entries| && Bare(entries[i])
    ensures PushAll(kind, r, entries).Panic?
  {
    var before, after := entries[..i], entries[i + 1..];
    assert entries == before + [entries[i]] + after;
    PushAllConcat(kind, r, before + [entries[i]], after);
    PushLast(kind, r, before, entries[i]);
    var first := PushAll(kind, r, before);
    if first.Ok? {
      PushPutsItem(kind, first.value, entries[i]);
    }
    PanicStays(kind, after);
  }

  lemma UnblockedParses<V>(kind: Kind, entries: seq<Entry<V>>)
    requires NoneBare(entries) && Unblocked(kind, entries)
    ensures Parse(kind, entries).Ok?
  {
    assert [] + entries == entries;
    UnblockedSucceed(kind, Empty(), [], entries);
  }

  lemma BlockedFails<V>(kind: Kind, entries: seq<Entry<V>>)
    requires !Unblocked(kind, entries)
    ensures Parse(kind, entries).Panic?
  {
    var i, j :| 0 <= i < j < |entries| && InTheWay(kind, entries[i], entries[j]);
    PrefixPanics(kind, Ok(Empty()), entries, i, j);
  }

  lemma BareFails<V>(kind: Kind, entries: seq<Entry<V>>)
    requires !NoneBare(entries)
    ensures Parse(kind, entries).Panic?
  {
    var i :| 0 <= i < |entries| && Bare(entries[i]);
    BarePanics(kind, Ok(Empty()), entries, i);
  }

  /** A walk succeeds exactly when it has no bare entry and no leaf path of an entry is a proper prefix of
      a later one. */
  lemma ParsesExactly<V>(kind: Kind, entries: seq<Entry<V>>)
    ensures Parse(kind, entries).Ok? <==> NoneBare(entries) && Unblocked(kind, entries)
  {
    if !NoneBare(entries) {
      BareFails(kind, entries);
    } else if !Unblocked(kind, entries) {
      BlockedFails(kind, entries);
    } else {
      UnblockedParses(kind, entries);
    }
  }

  /** What the tree must hold for an entry.  Under a name that ends in empty brackets it is the list of all
      values; under any other it is one of them, the last one of a data tree and the first one of a file
      tree.  Entries with more than 127 keys are not looked at. */
  predicate HoldsValue<V(==)>(kind: Kind, t: Tree<V>, e: Entry<V>) {
    var keys, m := FormKeys.Indexes(e.name), |e.values|;
    var n := |keys|;
    n <= 127 ==>
      if n > 1 && keys[n - 1] == "" then At(t, keys[..n - 1]) == Ok(List(e.values))
      else m > 0 && At(t, keys) == Ok(Leaf(match kind case Data => e.values[m - 1] case Files => e.values[0]))
  }

  lemma ItemIsValue<V>(kind: Kind, t: Tree<V>, e: Entry<V>)
    requires !Bare(e)
    ensures HoldsValue(kind, t, e) <==> (InLimit(e) ==> At(t, ItemIn(kind, e).path) == Ok(ItemIn(kind, e).leaf))
  {
  }

  /** Compatible entries, none of them bare, give a tree that holds the value of each. */
  lemma ParsedHoldsValues<V>(kind: Kind, a: seq<Entry<V>>, i: nat)
    requires NoneBare(a) && AllCompatible(kind, a) && i < |a|
    ensures Parse(kind, a).Ok? && HoldsValue(kind, Parse(kind, a).value, a[i])
  {
    CompatibleUnblocked(kind, a);
    UnblockedParses(kind, a);
    if InLimit(a[i]) {
      ParseIsOrderFree(kind, a, a, i);
    }
    ItemIsValue(kind, Parse(kind, a).value, a[i]);
  }

  /** Entries with more than 127 keys are ignored. */
  lemma TooDeepIsIgnored<V>(kind: Kind, t: Tree<V>, e: Entry<V>)
    requires |FormKeys.Indexes(e.name)| > 127
    ensures Push(kind, t, e) == Ok(t)
  {
  }

  /** Compatible entries parse without panic, to the same tree in every order, and each leaf path reads its
      own entry's value. */
  lemma ParseIsOrderFree<V>(kind: Kind, a: seq<Entry<V>>, b: seq<Entry<V>>, i: nat)
    requires NoneBare(a) && AllCompatible(kind, a) && multiset(a) == multiset(b)
    requires i < |a| && InLimit(a[i])
    ensures Parse(kind, a).Ok? && Parse(kind, a) == Parse(kind, b)
    ensures At(Parse(kind, b).value, ItemIn(kind, a[i]).path) == Ok(ItemIn(kind, a[i]).leaf)
  {
    OrderDoesNotMatter(kind, Ok(Empty()), a, b);
    CompatibleUnblocked(kind, a);
    ParsesExactly(kind, a);
    var rest := a[..i] + a[i + 1..];
    LastReadsBack(kind, Ok(Empty()), rest, a[i]);
    OneMoved(a, i);
    OrderDoesNotMatter(kind, Ok(Empty()), a, rest + [a[i]]);
  }

  lemma CompatibleUnblocked<V>(kind: Kind, entries: seq<Entry<V>>)
    requires AllCompatible(kind, entries)
    ensures Unblocked(kind, entries)
  {
  }

  lemma OneMoved<T>(s: seq<T>, i: nat)
    requires i < |s|
    ensures multiset(s[..i] + s[i + 1..] + [s[i]]) == multiset(s)
  {
    assert s == s[..i] + [s[i]] + s[i + 1..];
  }

  // ---------------------------------------------------------------- and only compatible entries do

  /** Every order of the entries parses, and to the same tree. */
  ghost predicate OrderFree<V(!new)>(kind: Kind, entries: seq<Entry<V>>) {
    forall a :: multiset(a) == multiset(entries) ==> Parse(kind, a).Ok? && Parse(kind, a) == Parse(kind, entries)
  }

  function WithoutTwo<T>(s: seq<T>, i: nat, j: nat): seq<T>
    requires i < j < |s|
  {
    s[..i] + s[i + 1..j] + s[j + 1..]
  }

  lemma TwoOut<T>(s: seq<T>, i: nat, j: nat)
    requires i < j < |s|
    ensures multiset(s) == multiset{s[i], s[j]} + multiset(WithoutTwo(s, i, j))
  {
    assert s == s[..i] + [s[i]] + s[i + 1..j] + [s[j]] + s[j + 1..];
  }

  /** Two entries can be moved to the front or to the end, in either order. */
  lemma TwoMoved<T>(s: seq<T>, i: nat, j: nat)
    requires i < j < |s|
    ensures var rest := WithoutTwo(s, i, j);
            && multiset([s[i], s[j]] + rest) == multiset([s[j], s[i]] + rest) == multiset(s)
            && multiset(rest + [s[i]] + [s[j]]) == multiset(rest + [s[j]] + [s[i]]) == multiset(s)
  {
    TwoOut(s, i, j);
  }

  lemma RefutedBy<V(!new)>(kind: Kind, entries: seq<Entry<V>>, a: seq<Entry<V>>, b: seq<Entry<V>>)
    requires multiset(a) == multiset(b) == multiset(entries)
    requires Parse(kind, a).Panic? || Parse(kind, a) != Parse(kind, b)
    ensures !OrderFree(kind, entries)
  {
  }

  /** One of the two entries is in the way of the other. */
  predicate Clash<V>(kind: Kind, e: Entry<V>, f: Entry<V>) {
    InTheWay(kind, e, f) || InTheWay(kind, f, e)
  }

  /** Two entries that are not compatible are in each other's way or put different leaves at one path. */
  lemma IncompatibleHow<V>(kind: Kind, e: Entry<V>, f: Entry<V>)
    requires !Compatible(kind, e, f)
    ensures InLimit(e) && InLimit(f)
    ensures ItemIn(kind, e).path != ItemIn(kind, f).path ==> Clash(kind, e, f)
    ensures ItemIn(kind, e).path == ItemIn(kind, f).path ==> ItemIn(kind, e).leaf != ItemIn(kind, f).leaf
  {
  }

  /** Some order of entries that clash panics, whatever is there already. */
  lemma ClashPanics<V>(kind: Kind, r: Result<Tree<V>>, entries: seq<Entry<V>>, i: nat, j: nat)
    returns (a: seq<Entry<V>>)
    requires i < j < |entries| && Clash(kind, entries[i], entries[j])
    ensures multiset(a) == multiset(entries) && PushAll(kind, r, a).Panic?
  {
    if InTheWay(kind, entries[i], entries[j]) {
      a := entries;
      PrefixPanics(kind, r, a, i, j);
    } else {
      TwoMoved(entries, i, j);
      a := [entries[j], entries[i]] + WithoutTwo(entries, i, j);
      PrefixPanics(kind, r, a, 0, 1);
    }
  }

  lemma SamePathConflict<V(!new)>(kind: Kind, entries: seq<Entry<V>>, i: nat, j: nat)
    requires i < j < |entries| && InLimit(entries[i]) && InLimit(entries[j])
    requires var x, y := ItemIn(kind, entries[i]), ItemIn(kind, entries[j]); x.path == y.path && x.leaf != y.leaf
    ensures !OrderFree(kind, entries)
  {
    var e, f, rest := entries[i], entries[j], WithoutTwo(entries, i, j);
    TwoMoved(entries, i, j);
    LastReadsBack(kind, Ok(Empty()), rest + [e], f);
    LastReadsBack(kind, Ok(Empty()), rest + [f], e);
    RefutedBy(kind, entries, rest + [e] + [f], rest + [f] + [e]);
  }

  lemma Incompatible<V(!new)>(kind: Kind, entries: seq<Entry<V>>, i: nat, j: nat)
    requires i < j < |entries| && !Compatible(kind, entries[i], entries[j])
    ensures !OrderFree(kind, entries)
  {
    IncompatibleHow(kind, entries[i], entries[j]);
    if Clash(kind, entries[i], entries[j]) {
      var a := ClashPanics(kind, Ok(Empty()), entries, i, j);
      RefutedBy(kind, entries, a, entries);
    } else {
      SamePathConflict(kind, entries, i, j);
    }
  }

  lemma CompatibleOrderFree<V(!new)>(kind: Kind, entries: seq<Entry<V>>)
    requires NoneBare(entries) && AllCompatible(kind, entries)
    ensures OrderFree(kind, entries)
  {
    CompatibleUnblocked(kind, entries);
    ParsesExactly(kind, entries);
    forall a | multiset(a) == multiset(entries)
      ensures Parse(kind, a) == Parse(kind, entries)
    {
      OrderDoesNotMatter(kind, Ok(Empty()), entries, a);
    }
  }

  /** The outcome of parsing one map does not depend on the iteration order exactly when its entries are
      compatible and none is bare. */
  lemma OrderFreeExactly<V(!new)>(kind: Kind, entries: seq<Entry<V>>)
    ensures OrderFree(kind, entries) <==> NoneBare(entries) && AllCompatible(kind, entries)
  {
    if !NoneBare(entries) {
      BareFails(kind, entries);
      RefutedBy(kind, entries, entries, entries);
    } else if i, j :| 0 <= i < j < |entries| && !Compatible(kind, entries[i], entries[j]) {
      Incompatible(kind, entries, i, j);
    } else {
      CompatibleOrderFree(kind, entries);
    }
  }

  /** The indexes of two keys. */
  lemma TwoKeys()
    ensures FormKeys.Indexes("a") == ["a"] && FormKeys.Indexes("a[b]") == ["a", "b"]
  {
    assert FormKeys.Print(["a"]) == "a";
    assert ["a", "b"][1..] == ["b"] && ["b"][1..] == [];
    assert FormKeys.Brackets(["b"]) == "[b]";
    assert FormKeys.Print(["a", "b"]) == "a[b]";
    FormKeys.PrintScanRoundTrip(["a"]);
    FormKeys.PrintScanRoundTrip(["a", "b"]);
  }

  /** The keys `a` and `a[b]` parse in one order and panic in the other. */
  lemma OrderCanPanic()
    ensures Parse(Data, [Entry("a", ["1"]), Entry("a[b]", ["2"])]).Panic?
    ensures Parse(Data, [Entry("a[b]", ["2"]), Entry("a", ["1"])]).Ok?
  {
    TwoKeys();
    var e, f := Entry("a", ["1"]), Entry("a[b]", ["2"]);
    assert ItemIn(Data, e).path == ["a"] && ItemIn(Data, f).path == ["a", "b"];
    assert InTheWay(Data, e, f) && !InTheWay(Data, f, e);
    ParsesExactly(Data, [e, f]);
    ParsesExactly(Data, [f, e]);
  }
}
