/**
 `parseData` walks two maps one after the other, each in any order.  When does the tree not depend on
 those orders?
 */
module FormOrder {
  import opened FormTree

  /** The entries of the post form, then those of the multipart form. */
  function ParseBoth<V>(kind: Kind, post: seq<Entry<V>>, multi: seq<Entry<V>>): Result<Tree<V>> {
    PushAll(kind, Parse(kind, post), multi)
  }

  /** The leaf of m replaces whatever is at the leaf path of e. */
  predicate Overwrites<V>(kind: Kind, m: Entry<V>, e: Entry<V>) {
    ItemIn(kind, m).path <= ItemIn(kind, e).path
  }

  /** Some entry of the multipart form overwrites whatever is at the leaf path of e. */
  ghost predicate Covered<V>(kind: Kind, e: Entry<V>, multi: seq<Entry<V>>) {
    InLimit(e) && exists k :: 0 <= k < |multi| && InLimit(multi[k]) && Overwrites(kind, multi[k], e)
  }

  /** No two entries of the post form disturb each other, unless they share a path that is overwritten. */
  ghost predicate PostSettled<V>(kind: Kind, post: seq<Entry<V>>, multi: seq<Entry<V>>) {
    forall i, j :: 0 <= i < j < |post| ==>
      || Compatible(kind, post[i], post[j])
      || (ItemIn(kind, post[i]).path == ItemIn(kind, post[j]).path && Covered(kind, post[i], multi))
  }

  /** No entry of the post form is in the way of one of the multipart form. */
  ghost predicate PostClear<V>(kind: Kind, post: seq<Entry<V>>, multi: seq<Entry<V>>) {
    forall i, k :: 0 <= i < |post| && 0 <= k < |multi| ==> !InTheWay(kind, post[i], multi[k])
  }

  ghost predicate Settled<V>(kind: Kind, post: seq<Entry<V>>, multi: seq<Entry<V>>) {
    && NoneBare(post) && NoneBare(multi)
    && AllCompatible(kind, multi) && PostClear(kind, post, multi) && PostSettled(kind, post, multi)
  }

  /** a and b are walks over the two maps. */
  ghost predicate Walks<V>(post: seq<Entry<V>>, multi: seq<Entry<V>>, a: seq<Entry<V>>, b: seq<Entry<V>>) {
    multiset(a) == multiset(post) && multiset(b) == multiset(multi)
  }

  /** Every pair of walks parses, and to the same tree. */
  ghost predicate BothOrderFree<V(!new)>(kind: Kind, post: seq<Entry<V>>, multi: seq<Entry<V>>) {
    forall a, b :: Walks(post, multi, a, b) ==>
      ParseBoth(kind, a, b).Ok? && ParseBoth(kind, a, b) == ParseBoth(kind, post, multi)
  }

  // ---------------------------------------------------------------- overwritten entries do not matter

  /** A mount at a prefix of a path makes the mount at that path as if it had not been. */
  lemma {:induction false} PutAbsorbs<V>(t: Tree<V>, p: seq<string>, a: Node<V>, q: seq<string>, b: Node<V>)
    requires 0 < |q| && q <= p && Put(t, p, a).Ok?
    ensures Then(Put(t, p, a), q, b) == Put(t, q, b)
    decreases |q|
  {
    PutSetsKid(t, p, a);
    var t' := Put(t, p, a).value;
    PutSetsKid(t, q, b);
    PutSetsKid(t', q, b);
    if |q| > 1 {
      var sub := Below(t, p[0]).value;
      assert Below(t', q[0]) == Put(sub, p[1..], a);
      PutAbsorbs(sub, p[1..], a, q[1..], b);
    }
    var kid := NewKid(t, q, b);
    if kid.Ok? {
      assert t'.kids[q[0] := kid.value] == t.kids[q[0] := kid.value];
    }
  }

  lemma PushAbsorbs<V>(kind: Kind, r: Result<Tree<V>>, e: Entry<V>, m: Entry<V>)
    requires PushOn(kind, r, e).Ok?
    requires InLimit(e) && InLimit(m) && Overwrites(kind, m, e)
    ensures PushOn(kind, PushOn(kind, r, e), m) == PushOn(kind, r, m)
  {
    var x, y := ItemIn(kind, e), ItemIn(kind, m);
    PushPutsItem(kind, r.value, e);
    PushPutsItem(kind, r.value, m);
    PushPutsItem(kind, PushOn(kind, r, e).value, m);
    PutAbsorbs(r.value, x.path, x.leaf, y.path, y.leaf);
  }

  /** The multipart form makes a covered entry as if it had not been. */
  lemma CoveredVanishes<V>(kind: Kind, r: Result<Tree<V>>, e: Entry<V>, multi: seq<Entry<V>>)
    requires AllCompatible(kind, multi)
    requires Covered(kind, e, multi) && PushOn(kind, r, e).Ok?
    ensures PushAll(kind, PushOn(kind, r, e), multi) == PushAll(kind, r, multi)
  {
    var k :| 0 <= k < |multi| && InLimit(multi[k]) && Overwrites(kind, multi[k], e);
    PushMiddleFirst(kind, PushOn(kind, r, e), multi, k);
    PushMiddleFirst(kind, r, multi, k);
    PushAbsorbs(kind, r, e, multi[k]);
  }

  ghost function Uncovered<V>(kind: Kind, post: seq<Entry<V>>, multi: seq<Entry<V>>): (rest: seq<Entry<V>>)
  {
    if post == [] then []
    else
      var n := |post| - 1;
      Uncovered(kind, post[..n], multi) + if Covered(kind, post[n], multi) then [] else [post[n]]
  }

  /** An entry that is not covered and not in the way can as well come after the multipart form. */
  lemma UncoveredLast<V>(kind: Kind, r: Result<Tree<V>>, e: Entry<V>, multi: seq<Entry<V>>)
    requires !Covered(kind, e, multi)
    requires forall k :: 0 <= k < |multi| ==> !InTheWay(kind, e, multi[k])
    ensures PushAll(kind, PushOn(kind, r, e), multi) == PushOn(kind, PushAll(kind, r, multi), e)
  {
    forall k | 0 <= k < |multi|
      ensures Compatible(kind, multi[k], e)
    {
      if InLimit(e) && InLimit(multi[k]) {
        var p, q := ItemIn(kind, e).path, ItemIn(kind, multi[k]).path;
        assert p <= q ==> p < q || p == q;
      }
    }
    PushFirst(kind, r, multi, e);
  }

  /** Only the entries of the post form that are not overwritten matter. */
  lemma {:induction false} OnlyUncoveredMatter<V>(kind: Kind, post: seq<Entry<V>>, multi: seq<Entry<V>>)
    requires AllCompatible(kind, multi) && PostClear(kind, post, multi)
    requires Parse(kind, post).Ok?
    ensures ParseBoth(kind, post, multi) == ParseBoth(kind, Uncovered(kind, post, multi), multi)
    decreases |post|
  {
    if post != [] {
      var n := |post| - 1;
      var front, e := post[..n], post[n];
      var rest := Uncovered(kind, front, multi);
      assert post == front + [e];
      PushLast(kind, Ok(Empty()), front, e);
      OnlyUncoveredMatter(kind, front, multi);
      if Covered(kind, e, multi) {
        CoveredVanishes(kind, Parse(kind, front), e, multi);
        assert rest + [] == rest;
      } else {
        UncoveredLast(kind, Parse(kind, front), e, multi);
        UncoveredLast(kind, Parse(kind, rest), e, multi);
        PushLast(kind, Ok(Empty()), rest, e);
      }
    }
  }

  lemma CountLast<T>(s: seq<T>, x: T, e: T)
    ensures multiset(s + [x])[e] == multiset(s)[e] + if x == e then 1 else 0
  {
  }

  lemma {:induction false} UncoveredCounts<V>(kind: Kind, post: seq<Entry<V>>, multi: seq<Entry<V>>, e: Entry<V>)
    ensures multiset(Uncovered(kind, post, multi))[e] == if Covered(kind, e, multi) then 0 else multiset(post)[e]
    decreases |post|
  {
    if post != [] {
      var n := |post| - 1;
      var front, x := post[..n], post[n];
      var rest := Uncovered(kind, front, multi);
      UncoveredCounts(kind, front, multi, e);
      CountLast(front, x, e);
      assert post == front + [x];
      if Covered(kind, x, multi) {
        assert Uncovered(kind, post, multi) == rest + [] == rest;
      } else {
        CountLast(rest, x, e);
        assert Uncovered(kind, post, multi) == rest + [x];
      }
    }
  }

  lemma SameCounts<T(!new)>(x: multiset<T>, y: multiset<T>)
    requires forall e :: x[e] == y[e]
    ensures x == y
  {
  }

  lemma SameUncovered<V(!new)>(kind: Kind, post: seq<Entry<V>>, a: seq<Entry<V>>, multi: seq<Entry<V>>)
    requires multiset(a) == multiset(post)
    ensures multiset(Uncovered(kind, a, multi)) == multiset(Uncovered(kind, post, multi))
  {
    var x, y := multiset(Uncovered(kind, a, multi)), multiset(Uncovered(kind, post, multi));
    forall e: Entry<V>
      ensures x[e] == y[e]
    {
      UncoveredCounts(kind, post, multi, e);
      UncoveredCounts(kind, a, multi, e);
    }
    SameCounts(x, y);
  }

  /** The entries of the post form that are not overwritten are pairwise compatible. */
  lemma {:induction false} UncoveredFrom<V>(kind: Kind, post: seq<Entry<V>>, multi: seq<Entry<V>>)
    requires PostSettled(kind, post, multi)
    ensures AllCompatible(kind, Uncovered(kind, post, multi))
    ensures forall e :: e in Uncovered(kind, post, multi) ==> e in post && !Covered(kind, e, multi)
    decreases |post|
  {
    if post != [] {
      var n := |post| - 1;
      var rest := Uncovered(kind, post[..n], multi);
      UncoveredFrom(kind, post[..n], multi);
      if !Covered(kind, post[n], multi) {
        forall i | 0 <= i < |rest|
          ensures Compatible(kind, rest[i], post[n])
        {
          assert rest[i] in post[..n];
        }
      }
    }
  }

  // ---------------------------------------------------------------- settled forms do not depend on order

  /** Moving entries around brings no entry in the way of another. */
  lemma UnclashedUnblocked<V>(kind: Kind, entries: seq<Entry<V>>, a: seq<Entry<V>>)
    requires multiset(a) == multiset(entries)
    requires forall i, j :: 0 <= i < j < |entries| ==> !Clash(kind, entries[i], entries[j])
    ensures Unblocked(kind, a)
  {
    forall i, j | 0 <= i < j < |a|
      ensures !InTheWay(kind, a[i], a[j])
    {
      assert a[i] in multiset(entries) && a[j] in multiset(entries);
      var i' :| 0 <= i' < |entries| && entries[i'] == a[i];
      var j' :| 0 <= j' < |entries| && entries[j'] == a[j];
      assert i' < j' || j' < i' || a[i] == a[j];
    }
  }

  lemma MovedNotBare<V>(entries: seq<Entry<V>>, a: seq<Entry<V>>)
    requires NoneBare(entries) && multiset(a) == multiset(entries)
    ensures NoneBare(a)
  {
    forall i | 0 <= i < |a|
      ensures !Bare(a[i])
    {
      assert a[i] in multiset(entries);
    }
  }

  lemma WalkParses<V>(kind: Kind, post: seq<Entry<V>>, multi: seq<Entry<V>>, a: seq<Entry<V>>, b: seq<Entry<V>>)
    requires Settled(kind, post, multi) && Walks(post, multi, a, b)
    ensures Parse(kind, a).Ok? && ParseBoth(kind, a, b).Ok?
  {
    MovedNotBare(post, a);
    MovedNotBare(multi, b);
    UnclashedUnblocked(kind, post, a);
    UnclashedUnblocked(kind, multi, b);
    UnblockedParses(kind, a);
    WalkClear(kind, post, multi, a, b);
    assert Unblocked(kind, a + b);
    UnblockedParses(kind, a + b);
    PushAllConcat(kind, Ok(Empty()), a, b);
  }

  /** In other orders too, no entry of the post form is in the way of one of the multipart form. */
  lemma WalkClear<V>(kind: Kind, post: seq<Entry<V>>, multi: seq<Entry<V>>, a: seq<Entry<V>>, b: seq<Entry<V>>)
    requires PostClear(kind, post, multi) && Walks(post, multi, a, b)
    ensures PostClear(kind, a, b)
  {
    forall i, k | 0 <= i < |a| && 0 <= k < |b|
      ensures !InTheWay(kind, a[i], b[k])
    {
      assert a[i] in multiset(post) && b[k] in multiset(multi);
      var i' :| 0 <= i' < |post| && post[i'] == a[i];
      var k' :| 0 <= k' < |multi| && multi[k'] == b[k];
      assert !InTheWay(kind, post[i'], multi[k']);
    }
  }

  lemma SettledSameTree<V(!new)>(kind: Kind, post: seq<Entry<V>>, multi: seq<Entry<V>>,
                                 a: seq<Entry<V>>, b: seq<Entry<V>>)
    requires Settled(kind, post, multi) && Walks(post, multi, a, b)
    ensures ParseBoth(kind, a, b) == ParseBoth(kind, post, multi)
  {
    WalkParses(kind, post, multi, a, b);
    WalkParses(kind, post, multi, post, multi);
    OrderDoesNotMatter(kind, Parse(kind, a), multi, b);
    WalkClear(kind, post, multi, a, multi);
    OnlyUncoveredMatter(kind, a, multi);
    OnlyUncoveredMatter(kind, post, multi);
    SameUncovered(kind, post, a, multi);
    UncoveredFrom(kind, post, multi);
    OrderDoesNotMatter(kind, Ok(Empty()), Uncovered(kind, post, multi), Uncovered(kind, a, multi));
  }

  // ---------------------------------------------------------------- and only settled forms

  lemma BothRefutedBy<V(!new)>(kind: Kind, post: seq<Entry<V>>, multi: seq<Entry<V>>,
                               a: seq<Entry<V>>, b: seq<Entry<V>>, c: seq<Entry<V>>, d: seq<Entry<V>>)
    requires Walks(post, multi, a, b) && Walks(post, multi, c, d)
    requires ParseBoth(kind, a, b).Panic? || ParseBoth(kind, a, b) != ParseBoth(kind, c, d)
    ensures !BothOrderFree(kind, post, multi)
  {
  }

  /** ParseBoth is one walk over both forms. */
  lemma BothIsOneWalk<V>(kind: Kind, post: seq<Entry<V>>, multi: seq<Entry<V>>)
    ensures ParseBoth(kind, post, multi) == Parse(kind, post + multi)
  {
    PushAllConcat(kind, Ok(Empty()), post, multi);
  }

  lemma BareDepends<V(!new)>(kind: Kind, post: seq<Entry<V>>, multi: seq<Entry<V>>)
    requires !NoneBare(post) || !NoneBare(multi)
    ensures !BothOrderFree(kind, post, multi)
  {
    BothIsOneWalk(kind, post, multi);
    if !NoneBare(post) {
      var i :| 0 <= i < |post| && Bare(post[i]);
      BarePanics(kind, Ok(Empty()), post, i);
      PanicStays(kind, multi);
    } else {
      var i :| 0 <= i < |multi| && Bare(multi[i]);
      BarePanics(kind, Parse(kind, post), multi, i);
    }
    BothRefutedBy(kind, post, multi, post, multi, post, multi);
  }

  lemma BlockedAcross<V(!new)>(kind: Kind, post: seq<Entry<V>>, multi: seq<Entry<V>>, i: nat, k: nat)
    requires i < |post| && k < |multi| && InTheWay(kind, post[i], multi[k])
    ensures !BothOrderFree(kind, post, multi)
  {
    BothIsOneWalk(kind, post, multi);
    PrefixPanics(kind, Ok(Empty()), post + multi, i, |post| + k);
    BothRefutedBy(kind, post, multi, post, multi, post, multi);
  }

  /** Multipart entries that are not compatible. */
  lemma MultiDepends<V(!new)>(kind: Kind, post: seq<Entry<V>>, multi: seq<Entry<V>>, i: nat, j: nat)
    requires i < j < |multi| && !Compatible(kind, multi[i], multi[j])
    ensures !BothOrderFree(kind, post, multi)
  {
    IncompatibleHow(kind, multi[i], multi[j]);
    if Clash(kind, multi[i], multi[j]) {
      var b := ClashPanics(kind, Parse(kind, post), multi, i, j);
      BothRefutedBy(kind, post, multi, post, b, post, multi);
    } else {
      var e, f, rest := multi[i], multi[j], WithoutTwo(multi, i, j);
      TwoMoved(multi, i, j);
      LastReadsBack(kind, Parse(kind, post), rest + [e], f);
      LastReadsBack(kind, Parse(kind, post), rest + [f], e);
      BothRefutedBy(kind, post, multi, post, rest + [e] + [f], post, rest + [f] + [e]);
    }
  }

  /** Entries at paths apart from q leave what is at q. */
  lemma {:induction false} PushesKeepApart<V>(kind: Kind, t: Tree<V>, entries: seq<Entry<V>>, q: seq<string>)
    requires |q| > 0 && PushAll(kind, Ok(t), entries).Ok?
    requires forall k :: 0 <= k < |entries| && InLimit(entries[k]) ==> Apart(ItemIn(kind, entries[k]).path, q)
    ensures At(PushAll(kind, Ok(t), entries).value, q) == At(t, q)
    decreases |entries|
  {
    if entries != [] {
      var e, rest := entries[0], entries[1..];
      PanicStays(kind, rest);
      PushPutsItem(kind, t, e);
      if InLimit(e) {
        PutKeepsApart(t, ItemIn(kind, e).path, ItemIn(kind, e).leaf, q);
      }
      PushesKeepApart(kind, Push(kind, t, e).value, rest, q);
    }
  }

  /** What is at the path of the last entry of the post form, if nothing overwrites it. */
  lemma PostLast<V>(kind: Kind, front: seq<Entry<V>>, e: Entry<V>, multi: seq<Entry<V>>)
    requires InLimit(e)
    requires forall k :: 0 <= k < |multi| && InLimit(multi[k]) ==>
               Apart(ItemIn(kind, multi[k]).path, ItemIn(kind, e).path)
    ensures var r := ParseBoth(kind, front + [e], multi);
            r.Ok? ==> At(r.value, ItemIn(kind, e).path) == Ok(ItemIn(kind, e).leaf)
  {
    LastReadsBack(kind, Ok(Empty()), front, e);
    PanicStays<V>(kind, multi);
    var first := Parse(kind, front + [e]);
    if first.Ok? && PushAll(kind, first, multi).Ok? {
      PushesKeepApart(kind, first.value, multi, ItemIn(kind, e).path);
    }
  }

  /** Different leaves at a path that nothing overwrites. */
  lemma DifferInPost<V(!new)>(kind: Kind, post: seq<Entry<V>>, multi: seq<Entry<V>>, i: nat, j: nat)
    requires i < j < |post| && InLimit(post[i]) && InLimit(post[j])
    requires var x, y := ItemIn(kind, post[i]), ItemIn(kind, post[j]); x.path == y.path && x.leaf != y.leaf
    requires !Covered(kind, post[i], multi) && PostClear(kind, post, multi)
    ensures !BothOrderFree(kind, post, multi)
  {
    var e, f, rest := post[i], post[j], WithoutTwo(post, i, j);
    TwoMoved(post, i, j);
    UncoveredApart(kind, post, multi, i);
    PostLast(kind, rest + [e], f, multi);
    PostLast(kind, rest + [f], e, multi);
    BothRefutedBy(kind, post, multi, rest + [e] + [f], multi, rest + [f] + [e], multi);
  }

  /** Post entries that are not compatible, unless their shared path is overwritten. */
  lemma PostDepends<V(!new)>(kind: Kind, post: seq<Entry<V>>, multi: seq<Entry<V>>, i: nat, j: nat)
    requires i < j < |post| && !Compatible(kind, post[i], post[j]) && PostClear(kind, post, multi)
    requires ItemIn(kind, post[i]).path != ItemIn(kind, post[j]).path || !Covered(kind, post[i], multi)
    ensures !BothOrderFree(kind, post, multi)
  {
    IncompatibleHow(kind, post[i], post[j]);
    if Clash(kind, post[i], post[j]) {
      var a := ClashPanics(kind, Ok(Empty()), post, i, j);
      PanicStays(kind, multi);
      BothRefutedBy(kind, post, multi, a, multi, post, multi);
    } else {
      DifferInPost(kind, post, multi, i, j);
    }
  }

  lemma UnsettledDepends<V(!new)>(kind: Kind, post: seq<Entry<V>>, multi: seq<Entry<V>>)
    requires !Settled(kind, post, multi)
    ensures !BothOrderFree(kind, post, multi)
  {
    if !NoneBare(post) || !NoneBare(multi) {
      BareDepends(kind, post, multi);
    } else if !AllCompatible(kind, multi) {
      var i, j :| 0 <= i < j < |multi| && !Compatible(kind, multi[i], multi[j]);
      MultiDepends(kind, post, multi, i, j);
    } else if !PostClear(kind, post, multi) {
      var i, k :| 0 <= i < |post| && 0 <= k < |multi| && InTheWay(kind, post[i], multi[k]);
      BlockedAcross(kind, post, multi, i, k);
    } else {
      var i, j :| 0 <= i < j < |post| && !Compatible(kind, post[i], post[j])
                  && !(ItemIn(kind, post[i]).path == ItemIn(kind, post[j]).path && Covered(kind, post[i], multi));
      PostDepends(kind, post, multi, i, j);
    }
  }

  /** The tree does not depend on the orders of the two walks exactly when no entry is bare, the multipart
      entries are compatible, no post entry is in the way of a multipart entry, and post entries disturb
      each other only where a multipart entry overwrites them. */
  lemma BothOrderFreeExactly<V(!new)>(kind: Kind, post: seq<Entry<V>>, multi: seq<Entry<V>>)
    ensures BothOrderFree(kind, post, multi) <==> Settled(kind, post, multi)
  {
    if Settled(kind, post, multi) {
      forall a, b | Walks(post, multi, a, b)
        ensures ParseBoth(kind, a, b).Ok? && ParseBoth(kind, a, b) == ParseBoth(kind, post, multi)
      {
        WalkParses(kind, post, multi, a, b);
        SettledSameTree(kind, post, multi, a, b);
      }
    } else {
      UnsettledDepends(kind, post, multi);
    }
  }

  // ---------------------------------------------------------------- what the tree holds

  /** The value of an entry that comes last is there. */
  lemma LastHolds<V>(kind: Kind, r: Result<Tree<V>>, front: seq<Entry<V>>, e: Entry<V>)
    requires !Bare(e) && PushAll(kind, r, front + [e]).Ok?
    ensures HoldsValue(kind, PushAll(kind, r, front + [e]).value, e)
  {
    if InLimit(e) {
      LastReadsBack(kind, r, front, e);
    }
    ItemIsValue(kind, PushAll(kind, r, front + [e]).value, e);
  }

  /** The tree of settled forms holds the value of every entry of the multipart form. */
  lemma MultiHolds<V(!new)>(kind: Kind, post: seq<Entry<V>>, multi: seq<Entry<V>>, k: nat)
    requires Settled(kind, post, multi) && k < |multi|
    ensures ParseBoth(kind, post, multi).Ok? && HoldsValue(kind, ParseBoth(kind, post, multi).value, multi[k])
  {
    var rest := multi[..k] + multi[k + 1..];
    OneMoved(multi, k);
    WalkParses(kind, post, multi, post, multi);
    OrderDoesNotMatter(kind, Parse(kind, post), multi, rest + [multi[k]]);
    LastHolds(kind, Parse(kind, post), rest, multi[k]);
  }

  /** It holds the value of an entry of the post form if no entry of the multipart form overwrites it. */
  lemma PostHolds<V(!new)>(kind: Kind, post: seq<Entry<V>>, multi: seq<Entry<V>>, k: nat)
    requires Settled(kind, post, multi) && k < |post| && !Covered(kind, post[k], multi)
    ensures ParseBoth(kind, post, multi).Ok? && HoldsValue(kind, ParseBoth(kind, post, multi).value, post[k])
  {
    var e, rest := post[k], post[..k] + post[k + 1..];
    OneMoved(post, k);
    WalkParses(kind, post, multi, post, multi);
    SettledSameTree(kind, post, multi, rest + [e], multi);
    if InLimit(e) {
      UncoveredApart(kind, post, multi, k);
      PostLast(kind, rest, e, multi);
    }
    ItemIsValue(kind, ParseBoth(kind, post, multi).value, e);
  }

  lemma UncoveredApart<V>(kind: Kind, post: seq<Entry<V>>, multi: seq<Entry<V>>, i: nat)
    requires i < |post| && InLimit(post[i]) && !Covered(kind, post[i], multi) && PostClear(kind, post, multi)
    ensures forall k :: 0 <= k < |multi| && InLimit(multi[k]) ==>
              Apart(ItemIn(kind, multi[k]).path, ItemIn(kind, post[i]).path)
  {
    var e := post[i];
    forall k | 0 <= k < |multi| && InLimit(multi[k])
      ensures Apart(ItemIn(kind, multi[k]).path, ItemIn(kind, e).path)
    {
      assert !InTheWay(kind, post[i], multi[k]) && !Overwrites(kind, multi[k], e);
      var p, q := ItemIn(kind, e).path, ItemIn(kind, multi[k]).path;
      assert p <= q ==> p < q || p == q;
    }
  }
}
