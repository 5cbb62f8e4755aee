/**
 Form keys: the scanner that splits `a[b][]` into its indexes, and the printer it inverts.
 */
module FormKeys {

  predicate Special(c: char) {
    c == ' ' || c == '[' || c == ']'
  }

  predicate Clean(key: string) {
    forall i :: 0 <= i < |key| ==> !Special(key[i])
  }

  predicate AllClean(keys: seq<string>) {
    forall i :: 0 <= i < |keys| ==> Clean(keys[i])
  }

  // ---------------------------------------------------------------- the scanner

  datatype Scan = Scan(keys: seq<string>, pos: int) {
    predicate Started() {
      |keys| > 0 && pos in {0, 1, 2}
    }
  }

  function AddToLast(keys: seq<string>, text: string): seq<string>
    requires |keys| > 0
  {
    keys[|keys| - 1 := keys[|keys| - 1] + text]
  }

  /** What one character does to the scan. */
  function Feed(st: Scan, c: char): (st': Scan)
    requires st.Started()
    ensures st'.Started()
  {
    if c == ' ' then st
    else if c == '[' then st.(pos := 1)
    else if c == ']' then Scan(if st.pos == 1 then st.keys + [""] else st.keys, 2)
    else Scan(AddToLast(if st.pos == 1 || st.pos == 2 then st.keys + [""] else st.keys, [c]), 0)
  }

  function FeedAll(st: Scan, s: string): (st': Scan)
    requires st.Started()
    ensures st'.Started()
    decreases |s|
  {
    if s == [] then st else FeedAll(Feed(st, s[0]), s[1..])
  }

  const START := Scan([""], 0)

  function Indexes(s: string): (keys: seq<string>)
    ensures |keys| > 0
  {
    FeedAll(START, s).keys
  }

  method FetchIndexes(s: string) returns (keys: seq<string>)
    ensures keys == Indexes(s)
  {
    var pos := 0;
    keys := [""];
    for i := 0 to |s|
      invariant Scan(keys, pos).Started()
      invariant FeedAll(Scan(keys, pos), s[i..]) == FeedAll(START, s)
    {
      var ch := s[i];
      assert s[i..][1..] == s[i + 1..];
      if ch == ' ' {
        continue;
      } else if ch == '[' {
        pos := 1;
        continue;
      } else if ch == ']' {
        if pos == 1 {
          keys := keys + [""];
        }
        pos := 2;
      } else {
        if pos == 1 || pos == 2 {
          keys := keys + [""];
        }
        keys := keys[|keys| - 1 := keys[|keys| - 1] + [ch]];
        pos := 0;
      }
    }
  }

  // ---------------------------------------------------------------- the printer

  function Brackets(keys: seq<string>): string {
    if keys == [] then "" else "[" + keys[0] + "]" + Brackets(keys[1..])
  }

  /** k0[k1]...[kn] */
  function Print(keys: seq<string>): string
    requires |keys| > 0
  {
    keys[0] + Brackets(keys[1..])
  }

  lemma {:induction false} FeedConcat(st: Scan, a: string, b: string)
    requires st.Started()
    ensures FeedAll(st, a + b) == FeedAll(FeedAll(st, a), b)
    decreases |a|
  {
    if a == [] {
      assert a + b == b;
    } else {
      assert (a + b)[1..] == a[1..] + b;
      FeedConcat(Feed(st, a[0]), a[1..], b);
    }
  }

  lemma AddTwice(keys: seq<string>, a: string, b: string)
    requires |keys| > 0
    ensures AddToLast(AddToLast(keys, a), b) == AddToLast(keys, a + b)
    ensures AddToLast(keys, "") == keys
  {
    var last := keys[|keys| - 1];
    assert last + (a + b) == last + a + b;
    assert last + "" == last;
  }

  lemma AddToNew(keys: seq<string>, text: string)
    ensures AddToLast(keys + [""], text) == keys + [text]
  {
    assert "" + text == text;
  }

  /** Clean text after clean text goes to the key at hand. */
  lemma {:induction false} FeedText(keys: seq<string>, text: string)
    requires |keys| > 0 && Clean(text)
    ensures FeedAll(Scan(keys, 0), text) == Scan(AddToLast(keys, text), 0)
    decreases |text|
  {
    if text == [] {
      AddTwice(keys, "", "");
    } else {
      FeedText(AddToLast(keys, [text[0]]), text[1..]);
      AddTwice(keys, [text[0]], text[1..]);
      assert text == [text[0]] + text[1..];
    }
  }

  /** Clean text after a bracket makes a new key, unless it is empty. */
  lemma FeedNewKey(keys: seq<string>, pos: int, key: string)
    requires |keys| > 0 && pos in {1, 2} && Clean(key) && key != ""
    ensures FeedAll(Scan(keys, pos), key) == Scan(keys + [key], 0)
  {
    var one := AddToLast(keys + [""], [key[0]]);
    FeedText(one, key[1..]);
    AddTwice(keys + [""], [key[0]], key[1..]);
    assert key == [key[0]] + key[1..];
    AddToNew(keys, key);
  }

  /** A bracketed key, empty or not, becomes one more key. */
  lemma FeedBracketed(st: Scan, key: string)
    requires st.Started() && Clean(key)
    ensures FeedAll(st, "[" + key + "]") == Scan(st.keys + [key], 2)
  {
    assert ("[" + key + "]")[1..] == key + "]";
    var open := Scan(st.keys, 1);
    FeedConcat(open, key, "]");
    if key == "" {
      FeedOne(open, ']');
    } else {
      FeedNewKey(st.keys, 1, key);
      FeedOne(Scan(st.keys + [key], 0), ']');
    }
  }

  lemma FeedOne(st: Scan, c: char)
    requires st.Started()
    ensures FeedAll(st, [c]) == Feed(st, c)
  {
  }

  lemma {:induction false} FeedBrackets(st: Scan, keys: seq<string>)
    requires st.Started() && AllClean(keys)
    ensures FeedAll(st, Brackets(keys)).keys == st.keys + keys
    decreases |keys|
  {
    if keys != [] {
      var one := "[" + keys[0] + "]";
      FeedConcat(st, one, Brackets(keys[1..]));
      FeedBracketed(st, keys[0]);
      assert AllClean(keys[1..]);
      FeedBrackets(Scan(st.keys + [keys[0]], 2), keys[1..]);
      assert st.keys + [keys[0]] + keys[1..] == st.keys + keys;
    }
  }

  /** Scanning a printed key list gives the list back. */
  lemma PrintScanRoundTrip(keys: seq<string>)
    requires |keys| > 0 && AllClean(keys)
    ensures Indexes(Print(keys)) == keys
  {
    FeedConcat(START, keys[0], Brackets(keys[1..]));
    FeedText([""], keys[0]);
    AddToNew([], keys[0]);
    assert [] + [""] == [""] && [] + [keys[0]] == [keys[0]];
    assert AllClean(keys[1..]);
    FeedBrackets(Scan([keys[0]], 0), keys[1..]);
    assert [keys[0]] + keys[1..] == keys;
  }

  // ---------------------------------------------------------------- arbitrary input

  function Concat(keys: seq<string>): string {
    if keys == [] then "" else Concat(keys[..|keys| - 1]) + keys[|keys| - 1]
  }

  /** The input without its spaces and brackets. */
  function Stripped(s: string): string {
    if s == [] then [] else (if Special(s[0]) then [] else [s[0]]) + Stripped(s[1..])
  }

  lemma ConcatAdd(keys: seq<string>, text: string)
    requires |keys| > 0
    ensures Concat(AddToLast(keys, text)) == Concat(keys) + text
    ensures Concat(keys + [""]) == Concat(keys)
  {
    var n := |keys| - 1;
    assert AddToLast(keys, text)[..n] == keys[..n];
    assert Concat(keys[..n]) + (keys[n] + text) == Concat(keys[..n]) + keys[n] + text;
    assert (keys + [""])[..|keys|] == keys;
  }

  lemma FeedKeepsText(st: Scan, c: char)
    requires st.Started() && AllClean(st.keys)
    ensures AllClean(Feed(st, c).keys)
    ensures Concat(Feed(st, c).keys) == Concat(st.keys) + if Special(c) then [] else [c]
  {
    ConcatAdd(st.keys, [c]);
    ConcatAdd(st.keys + [""], [c]);
  }

  lemma {:induction false} FeedAllKeepsText(st: Scan, s: string)
    requires st.Started() && AllClean(st.keys)
    ensures AllClean(FeedAll(st, s).keys)
    ensures Concat(FeedAll(st, s).keys) == Concat(st.keys) + Stripped(s)
    decreases |s|
  {
    if s == [] {
      assert Concat(st.keys) + [] == Concat(st.keys);
    } else {
      FeedKeepsText(st, s[0]);
      FeedAllKeepsText(Feed(st, s[0]), s[1..]);
      var first: string := if Special(s[0]) then [] else [s[0]];
      assert Concat(st.keys) + first + Stripped(s[1..]) == Concat(st.keys) + (first + Stripped(s[1..]));
    }
  }

  /** For any input, the keys are free of spaces and brackets and together hold exactly the other
      characters of the input, in order; printing them and scanning again changes nothing. */
  lemma ScanIsFaithful(s: string)
    ensures AllClean(Indexes(s))
    ensures Concat(Indexes(s)) == Stripped(s)
    ensures Indexes(Print(Indexes(s))) == Indexes(s)
  {
    assert Concat([""]) == "" by {
      assert Concat([""]) == Concat([""][..0]) + "";
    }
    FeedAllKeepsText(START, s);
    PrintScanRoundTrip(Indexes(s));
  }

  // ---------------------------------------------------------------- where keys begin and end

  lemma ScanOn(a: string, b: string)
    ensures Indexes(a + b) == FeedAll(FeedAll(START, a), b).keys
  {
    FeedConcat(START, a, b);
  }

  /** An opening bracket alone makes no key; clean text after it is a key of its own. */
  lemma TextAfterOpen(a: string, text: string)
    requires Clean(text) && text != ""
    ensures Indexes(a + "[") == Indexes(a)
    ensures Indexes(a + "[" + text) == Indexes(a) + [text]
  {
    var st := FeedAll(START, a);
    ScanOn(a, "[");
    FeedOne(st, '[');
    ScanOn(a + "[", text);
    FeedConcat(START, a, "[");
    FeedNewKey(st.keys, 1, text);
  }

  /** A closing bracket directly after an opening one makes an empty key. */
  lemma EmptyBrackets(a: string)
    ensures Indexes(a + "[" + "]") == Indexes(a) + [""]
  {
    var st := FeedAll(START, a);
    FeedConcat(START, a, "[");
    FeedOne(st, '[');
    ScanOn(a + "[", "]");
    FeedOne(Scan(st.keys, 1), ']');
  }

  /** Any other closing bracket makes no key. */
  lemma CloseAfterOther(a: string, c: char)
    requires c != '[' && c != ' '
    ensures Indexes(a + [c] + "]") == Indexes(a + [c])
  {
    var st := FeedAll(START, a);
    FeedConcat(START, a, [c]);
    FeedOne(st, c);
    ScanOn(a + [c], "]");
    FeedOne(Feed(st, c), ']');
  }

  /** A closing bracket ends a key: clean text after it is a key of its own. */
  lemma TextAfterClose(a: string, text: string)
    requires Clean(text) && text != ""
    ensures Indexes(a + "]" + text) == Indexes(a + "]") + [text]
  {
    var st := FeedAll(START, a + "]");
    FeedConcat(START, a, "]");
    FeedOne(FeedAll(START, a), ']');
    ScanOn(a + "]", text);
    FeedNewKey(st.keys, 2, text);
  }

  /** Clean text after clean text goes on with the same key. */
  lemma TextAfterText(a: string, c: char, text: string)
    requires !Special(c) && Clean(text)
    ensures var keys, n := Indexes(a + [c]), |Indexes(a + [c])| - 1;
            Indexes(a + [c] + text) == keys[n := keys[n] + text]
  {
    var st := FeedAll(START, a);
    FeedConcat(START, a, [c]);
    FeedOne(st, c);
    ScanOn(a + [c], text);
    FeedText(Feed(st, c).keys, text);
  }

  /** Text at the start is the first key. */
  lemma TextAtStart(text: string)
    requires Clean(text)
    ensures Indexes(text) == [text]
  {
    FeedText([""], text);
    AddToNew([], text);
    assert [] + [""] == [""] && [] + [text] == [text];
  }

  /** The text without its spaces. */
  function Unspaced(s: string): string {
    if s == [] then [] else (if s[0] == ' ' then [] else [s[0]]) + Unspaced(s[1..])
  }

  lemma {:induction false} FeedUnspaced(st: Scan, s: string)
    requires st.Started()
    ensures FeedAll(st, Unspaced(s)) == FeedAll(st, s)
    decreases |s|
  {
    if s != [] {
      FeedUnspaced(Feed(st, s[0]), s[1..]);
      if s[0] != ' ' {
        assert ([s[0]] + Unspaced(s[1..]))[1..] == Unspaced(s[1..]);
      } else {
        assert [] + Unspaced(s[1..]) == Unspaced(s[1..]);
      }
    }
  }

  /** Spaces do not matter, wherever they are. */
  lemma SpacesDoNotMatter(s: string)
    ensures Indexes(s) == Indexes(Unspaced(s))
  {
    FeedUnspaced(START, s);
  }

  /** `a[b]c` has three keys. */
  lemma TextBracketsText(a: string, b: string, c: string)
    requires Clean(a) && Clean(b) && Clean(c) && b != "" && c != ""
    ensures Indexes(a + "[" + b + "]" + c) == [a, b, c]
  {
    TextAtStart(a);
    TextAfterOpen(a, b);
    var n := |b| - 1;
    assert a + "[" + b == a + "[" + b[..n] + [b[n]];
    CloseAfterOther(a + "[" + b[..n], b[n]);
    TextAfterClose(a + "[" + b, c);
  }
}
