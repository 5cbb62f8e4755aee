/**
 The stderr aggregator: a buffer with a cursor that is sometimes reset.  Writes, listener changes,
 timer flushes and the final stop flush each run under one mutex, so every interleaving of them is a
 sequence of operations.
 */
module ErrBuffer {

  type Bytes = seq<char>

  datatype State = State(
    buf: Bytes,
    last: nat,
    listening: bool,                 // lsn is not nil
    stopped: bool,                   // the flush loop has returned
    events: seq<Bytes>)              // what listeners were given

  datatype Op = Write(p: Bytes) | Listen(on: bool) | Flush | Stop

  const START := State([], 0, false, false, [])

  predicate Bounded(s: State) {
    s.last <= |s.buf|
  }

  function Pending(s: State): Bytes
    requires Bounded(s)
  {
    s.buf[s.last..]
  }

  /** What one operation does. */
  function Apply(s: State, op: Op): (s': State)
    requires Bounded(s)
    ensures Bounded(s')
  {
    match op
    case Write(p) => s.(buf := s.buf + p)
    case Listen(on) => s.(listening := on)
    case Flush =>
      if s.stopped || |s.buf| <= s.last then s
      else if s.listening then s.(events := s.events + [Pending(s)], buf := [], last := 0)
      else s.(last := |s.buf|)
    case Stop =>
      if s.stopped then s
      else if |s.buf| <= s.last then s.(stopped := true)
      else s.(stopped := true, last := |s.buf|,
              events := if s.listening then s.events + [Pending(s)] else s.events)
  }

  function Run(ops: seq<Op>): (s: State)
    ensures Bounded(s)
  {
    if ops == [] then START else Apply(Run(ops[..|ops| - 1]), ops[|ops| - 1])
  }

  // ---------------------------------------------------------------- the stream

  /** Everything written by the operations. */
  function Written(ops: seq<Op>): Bytes {
    if ops == [] then [] else Written(ops[..|ops| - 1]) + Added(ops[|ops| - 1])
  }

  function Added(op: Op): Bytes {
    if op.Write? then op.p else []
  }

  /** A piece of the stream taken by one flush, given to a listener or not. */
  datatype Piece = Piece(bytes: Bytes, heard: bool)

  /** The piece an operation takes off the stream. */
  function Taken(s: State, op: Op): seq<Piece>
    requires Bounded(s)
  {
    if (op.Flush? || op.Stop?) && !s.stopped && |s.buf| > s.last then [Piece(Pending(s), s.listening)] else []
  }

  function Pieces(ops: seq<Op>): seq<Piece> {
    if ops == [] then []
    else Pieces(ops[..|ops| - 1]) + Taken(Run(ops[..|ops| - 1]), ops[|ops| - 1])
  }

  function Joined(pieces: seq<Piece>): Bytes {
    if pieces == [] then [] else Joined(pieces[..|pieces| - 1]) + pieces[|pieces| - 1].bytes
  }

  /** The pieces a listener was given. */
  function Heard(pieces: seq<Piece>): seq<Bytes> {
    if pieces == [] then []
    else
      var p := pieces[|pieces| - 1];
      Heard(pieces[..|pieces| - 1]) + if p.heard then [p.bytes] else []
  }

  function Concat(events: seq<Bytes>): Bytes {
    if events == [] then [] else Concat(events[..|events| - 1]) + events[|events| - 1]
  }

  /** The stream so far is the pieces taken and the bytes pending; the events are the heard pieces. */
  ghost predicate Cut(s: State, written: Bytes, pieces: seq<Piece>) {
    && Bounded(s)
    && Joined(pieces) + Pending(s) == written
    && s.events == Heard(pieces)
    && forall k :: 0 <= k < |pieces| ==> pieces[k].bytes != []
  }

  lemma CutStep(s: State, op: Op, written: Bytes, pieces: seq<Piece>)
    requires Cut(s, written, pieces)
    ensures Cut(Apply(s, op), written + Added(op), pieces + Taken(s, op))
  {
    if op.Write? {
      WriteCuts(s, op.p, written, pieces);
    } else if Taken(s, op) != [] {
      FlushCuts(s, op, written, pieces);
    } else {
      assert written + [] == written && pieces + [] == pieces;
    }
  }

  lemma WriteCuts(s: State, p: Bytes, written: Bytes, pieces: seq<Piece>)
    requires Cut(s, written, pieces)
    ensures Cut(Apply(s, Write(p)), written + p, pieces + [])
  {
    assert (s.buf + p)[s.last..] == s.buf[s.last..] + p;
    assert Joined(pieces) + (Pending(s) + p) == Joined(pieces) + Pending(s) + p;
    assert pieces + [] == pieces;
  }

  /** A flush that finds something takes all that is pending. */
  lemma FlushTakes(s: State, op: Op)
    requires Bounded(s) && Taken(s, op) != []
    ensures Taken(s, op) == [Piece(Pending(s), s.listening)] && Pending(s) != [] && Pending(Apply(s, op)) == []
    ensures Apply(s, op).events == s.events + if s.listening then [Pending(s)] else []
  {
    assert s.events + [] == s.events;
  }

  lemma FlushCuts(s: State, op: Op, written: Bytes, pieces: seq<Piece>)
    requires Cut(s, written, pieces) && Taken(s, op) != []
    ensures Cut(Apply(s, op), written + [], pieces + Taken(s, op))
  {
    FlushTakes(s, op);
    OnePieceMore(pieces, Piece(Pending(s), s.listening));
    assert written + [] == written;
  }

  lemma OnePieceMore(pieces: seq<Piece>, p: Piece)
    ensures Joined(pieces + [p]) + [] == Joined(pieces) + p.bytes
    ensures Heard(pieces + [p]) == Heard(pieces) + if p.heard then [p.bytes] else []
  {
    PiecesAdd(pieces, [p]);
    assert Heard(pieces) + [] == Heard(pieces);
  }

  lemma PiecesAdd(pieces: seq<Piece>, taken: seq<Piece>)
    requires |taken| <= 1
    ensures Joined(pieces + taken) == if taken == [] then Joined(pieces) else Joined(pieces) + taken[0].bytes
    ensures Heard(pieces + taken)
            == if taken == [] || !taken[0].heard then Heard(pieces) else Heard(pieces) + [taken[0].bytes]
  {
    if taken == [] {
      assert pieces + taken == pieces;
    } else {
      assert (pieces + taken)[..|pieces|] == pieces;
    }
  }

  /** The stream is cut into the pieces taken by flushes, in order and without gaps, followed by what
      no flush has taken yet; the events are exactly the pieces that met a listener, and no piece is
      empty. */
  lemma {:induction false} StreamIsCut(ops: seq<Op>)
    ensures Cut(Run(ops), Written(ops), Pieces(ops))
  {
    if ops != [] {
      var before := ops[..|ops| - 1];
      StreamIsCut(before);
      CutStep(Run(before), ops[|ops| - 1], Written(before), Pieces(before));
    }
  }

  // ---------------------------------------------------------------- events as windows

  /** Where piece k starts in the stream. */
  function Offset(pieces: seq<Piece>, k: nat): nat
    requires k <= |pieces|
  {
    |Joined(pieces[..k])|
  }

  lemma {:induction false} PieceInPlace(pieces: seq<Piece>, k: nat)
    requires k < |pieces|
    ensures Offset(pieces, k + 1) == Offset(pieces, k) + |pieces[k].bytes| <= |Joined(pieces)|
    ensures Joined(pieces)[Offset(pieces, k)..Offset(pieces, k + 1)] == pieces[k].bytes
    decreases |pieces|
  {
    var n := |pieces| - 1;
    assert pieces[..k + 1][..k] == pieces[..k];
    if k < n {
      PieceInPlace(pieces[..n], k);
      assert pieces[..n][..k] == pieces[..k] && pieces[..n][..k + 1] == pieces[..k + 1];
    } else {
      assert pieces[..k + 1] == pieces;
    }
  }

  /** Every piece, and so every event, is the non-empty window of the stream that its offset says, and
      the next window starts where it ends. */
  lemma WindowsInOrder(ops: seq<Op>, k: nat)
    requires k < |Pieces(ops)|
    ensures Offset(Pieces(ops), k) < Offset(Pieces(ops), k + 1) <= |Written(ops)|
    ensures Written(ops)[Offset(Pieces(ops), k)..Offset(Pieces(ops), k + 1)] == Pieces(ops)[k].bytes
  {
    StreamIsCut(ops);
    PieceInPlace(Pieces(ops), k);
  }

  // ---------------------------------------------------------------- nothing lost

  predicate AllHeard(pieces: seq<Piece>) {
    forall k :: 0 <= k < |pieces| ==> pieces[k].heard
  }

  /** How many bytes were flushed with no listener. */
  function Lost(pieces: seq<Piece>): nat {
    if pieces == [] then 0
    else
      var p := pieces[|pieces| - 1];
      Lost(pieces[..|pieces| - 1]) + if p.heard then 0 else |p.bytes|
  }

  lemma ConcatAdd(events: seq<Bytes>, e: Bytes)
    ensures Concat(events + [e]) == Concat(events) + e
  {
    assert (events + [e])[..|events|] == events;
  }

  /** Every flushed byte is in one event, or was lost. */
  lemma {:induction false} HeardAndLost(pieces: seq<Piece>)
    ensures |Concat(Heard(pieces))| + Lost(pieces) == |Joined(pieces)|
  {
    if pieces != [] {
      var front, p := pieces[..|pieces| - 1], pieces[|pieces| - 1];
      HeardAndLost(front);
      if p.heard {
        ConcatAdd(Heard(front), p.bytes);
      } else {
        assert Heard(pieces) == Heard(front);
      }
    }
  }

  lemma {:induction false} LostNothing(pieces: seq<Piece>)
    requires forall k :: 0 <= k < |pieces| ==> pieces[k].bytes != []
    ensures Lost(pieces) == 0 <==> AllHeard(pieces)
  {
    if pieces != [] {
      LostNothing(pieces[..|pieces| - 1]);
    }
  }

  lemma {:induction false} HeardWhole(pieces: seq<Piece>)
    requires AllHeard(pieces)
    ensures Concat(Heard(pieces)) == Joined(pieces)
  {
    if pieces != [] {
      var front, p := pieces[..|pieces| - 1], pieces[|pieces| - 1];
      HeardWhole(front);
      ConcatAdd(Heard(front), p.bytes);
    }
  }

  /** Up to a stop flush, the events concatenate to everything written exactly when every flush that
      found something met a listener. */
  lemma DeliveredExactly(ops: seq<Op>)
    requires !Run(ops).stopped
    ensures Concat(Run(ops + [Stop]).events) == Written(ops) <==> AlwaysListening(ops + [Stop])
  {
    var all := ops + [Stop];
    assert all[..|ops|] == ops;
    StreamIsCut(all);
    var pieces := Pieces(all);
    HeardAndLost(pieces);
    LostNothing(pieces);
    ListenerHearsAll(all);
    if AllHeard(pieces) {
      HeardWhole(pieces);
    }
    assert Pending(Run(all)) == [];
    assert Written(all) == Written(ops) + [] == Written(ops);
    assert Joined(Pieces(all)) + [] == Joined(Pieces(all));
  }

  /** Operation k takes nothing, or a listener is there. */
  predicate ListeningAt(ops: seq<Op>, k: nat)
    requires k < |ops|
  {
    Taken(Run(ops[..k]), ops[k]) != [] ==> Run(ops[..k]).listening
  }

  /** Every flush that finds something finds a listener too. */
  predicate AlwaysListening(ops: seq<Op>) {
    forall k :: 0 <= k < |ops| ==> ListeningAt(ops, k)
  }

  lemma ListeningBefore(ops: seq<Op>, n: nat, k: nat)
    requires k < n <= |ops|
    ensures ListeningAt(ops[..n], k) == ListeningAt(ops, k)
  {
    assert ops[..n][..k] == ops[..k];
  }

  lemma ListeningSplit(ops: seq<Op>, n: nat)
    requires n + 1 == |ops|
    ensures AlwaysListening(ops) <==> AlwaysListening(ops[..n]) && ListeningAt(ops, n)
  {
    forall k | 0 <= k < n
      ensures ListeningAt(ops[..n], k) == ListeningAt(ops, k)
    {
      ListeningBefore(ops, n, k);
    }
  }

  /** Every piece is heard exactly when a listener is there at every flush with something to deliver. */
  lemma {:induction false} ListenerHearsAll(ops: seq<Op>)
    ensures AllHeard(Pieces(ops)) <==> AlwaysListening(ops)
  {
    if ops != [] {
      var n := |ops| - 1;
      ListenerHearsAll(ops[..n]);
      ListeningSplit(ops, n);
      var taken := Taken(Run(ops[..n]), ops[n]);
      HeardSplit(Pieces(ops[..n]), taken);
      assert taken == [] || (|taken| == 1 && taken[0].heard == Run(ops[..n]).listening);
    }
  }

  lemma HeardSplit(a: seq<Piece>, b: seq<Piece>)
    ensures AllHeard(a + b) <==> AllHeard(a) && AllHeard(b)
  {
    if AllHeard(a + b) {
      forall k | 0 <= k < |b|
        ensures b[k].heard
      {
        assert (a + b)[|a| + k] == b[k];
      }
      assert forall k :: 0 <= k < |a| ==> (a + b)[k] == a[k];
    }
  }

  /** Someone starts listening with operation m, before anything written has been flushed, and nobody stops
      listening after it. */
  predicate ListensInTime(ops: seq<Op>, m: nat) {
    && m < |ops| && ops[m] == Listen(true)
    && (forall k :: 0 <= k < m && (ops[k].Flush? || ops[k].Stop?) ==> Written(ops[..k]) == [])
    && (forall k :: m < k < |ops| ==> ops[k] != Listen(false))
  }

  lemma {:induction false} StillListening(ops: seq<Op>, m: nat, k: nat)
    requires ListensInTime(ops, m) && m < k <= |ops|
    ensures Run(ops[..k]).listening
    decreases k
  {
    assert ops[..k][..k - 1] == ops[..k - 1];
    if k > m + 1 {
      StillListening(ops, m, k - 1);
    }
  }

  lemma InTimeForAll(ops: seq<Op>, m: nat)
    requires ListensInTime(ops, m)
    ensures AlwaysListening(ops)
  {
    forall k | 0 <= k < |ops|
      ensures ListeningAt(ops, k)
    {
      if k > m {
        StillListening(ops, m, k);
      } else {
        BufferHoldsRest(ops[..k]);
      }
    }
  }

  lemma {:induction false} RunsUntilStop(ops: seq<Op>)
    requires forall k :: 0 <= k < |ops| ==> !ops[k].Stop?
    ensures !Run(ops).stopped
  {
    if ops != [] {
      RunsUntilStop(ops[..|ops| - 1]);
    }
  }

  /** A listener attached before anything was flushed, and never detached, has heard everything written once
      the buffer is closed. */
  lemma EarlyListenerHearsAll(ops: seq<Op>, m: nat)
    requires ListensInTime(ops, m) && forall k :: 0 <= k < |ops| ==> !ops[k].Stop?
    ensures Concat(Run(ops + [Stop]).events) == Written(ops)
  {
    var all := ops + [Stop];
    assert forall k :: 0 <= k < m ==> all[..k] == ops[..k] && all[k] == ops[k];
    assert ListensInTime(all, m);
    InTimeForAll(all, m);
    RunsUntilStop(ops);
    DeliveredExactly(ops);
  }

  lemma OneMore(ops: seq<Op>, op: Op)
    ensures Run(ops + [op]) == Apply(Run(ops), op) && Written(ops + [op]) == Written(ops) + Added(op)
  {
    assert (ops + [op])[..|ops|] == ops;
  }

  /** Output flushed before anyone listens is never delivered, although a listener comes before the stop. */
  lemma OutputCanBeLost()
    ensures Written([Write("error"), Flush, Listen(true), Stop]) == "error"
    ensures Run([Write("error"), Flush, Listen(true), Stop]).events == []
  {
    OneMore([], Write("error"));
    assert [] + [Write("error")] == [Write("error")];
    OneMore([Write("error")], Flush);
    assert [Write("error")] + [Flush] == [Write("error"), Flush];
    OneMore([Write("error"), Flush], Listen(true));
    assert [Write("error"), Flush] + [Listen(true)] == [Write("error"), Flush, Listen(true)];
    OneMore([Write("error"), Flush, Listen(true)], Stop);
    assert [Write("error"), Flush, Listen(true)] + [Stop] == [Write("error"), Flush, Listen(true), Stop];
  }

  // ---------------------------------------------------------------- what Len and String show

  /** How much had been written when a timer flush last handed bytes to a listener. */
  function ResetAt(ops: seq<Op>): nat {
    if ops == [] then 0
    else
      var before, op := ops[..|ops| - 1], ops[|ops| - 1];
      if op.Flush? && Taken(Run(before), op) != [] && Run(before).listening then |Written(before)| else ResetAt(before)
  }

  /** The buffer, which `Wait` turns into the error of a dead worker, holds everything written since the
      last timer flush that met a listener. */
  lemma {:induction false} BufferHoldsRest(ops: seq<Op>)
    ensures ResetAt(ops) <= |Written(ops)| && Run(ops).buf == Written(ops)[ResetAt(ops)..]
  {
    if ops != [] {
      var before, op := ops[..|ops| - 1], ops[|ops| - 1];
      BufferHoldsRest(before);
      if op.Write? {
        assert (Written(before) + op.p)[ResetAt(before)..] == Written(before)[ResetAt(before)..] + op.p;
      } else {
        assert Written(before) + [] == Written(before);
      }
    }
  }

  // ---------------------------------------------------------------- the buffer object

  /** A slice of the buffer's memory, as a listener is given it. */
  datatype Slice = Slice(data: array<char>, from: nat, to: nat) {
    ghost predicate InRange() {
      from <= to <= data.Length
    }

    ghost function Reads(): Bytes
      requires InRange()
      reads data
    {
      data[from..to]
    }
  }

  /** A write of n bytes behind the first `len` bytes of `data` is made in place and reaches into the slice. */
  predicate Hits(slice: Slice, data: array<char>, len: nat, n: nat) {
    slice.data == data && len + n <= data.Length && slice.from < len + n && len < slice.to
  }

  /** Bytes that start at offset `from` of a memory, after p was written there at offset `at`. */
  function Patched(kept: Bytes, from: nat, at: nat, p: Bytes): Bytes {
    seq(|kept|, i requires 0 <= i < |kept| => if at <= from + i < at + |p| then p[from + i - at] else kept[i])
  }

  /** Where the two overlap, p has the bytes that are there already. */
  predicate Agrees(kept: Bytes, from: nat, at: nat, p: Bytes) {
    forall i :: 0 <= i < |kept| && at <= from + i < at + |p| ==> p[from + i - at] == kept[i]
  }

  lemma PatchedSame(kept: Bytes, from: nat, at: nat, p: Bytes)
    ensures Patched(kept, from, at, p) == kept <==> Agrees(kept, from, at, p)
  {
    if Patched(kept, from, at, p) == kept {
      forall i | 0 <= i < |kept| && at <= from + i < at + |p|
        ensures p[from + i - at] == kept[i]
      {
        assert Patched(kept, from, at, p)[i] == kept[i];
      }
    }
  }

  /** A window of a memory after a write into it. */
  lemma PatchedWindow(mem: Bytes, at: nat, p: Bytes, from: nat, to: nat)
    requires from <= to <= |mem| && at + |p| <= |mem|
    ensures (mem[..at] + p + mem[at + |p|..])[from..to] == Patched(mem[from..to], from, at, p)
    ensures to <= at || at + |p| <= from ==> (mem[..at] + p + mem[at + |p|..])[from..to] == mem[from..to]
  {
  }

  class Buffer {
    /** The memory behind the buffer; its first `len` bytes are the buffer. */
    var data: array<char>
    var len: nat
    var last: nat
    var listening: bool
    var stopped: bool
    /** The slices listeners were given. */
    var given: seq<Slice>
    /** What they read in them when they were called. */
    ghost var events: seq<Bytes>
    /** The operations so far. */
    ghost var ops: seq<Op>

    ghost predicate Valid()
      reads this, data
    {
      && len <= data.Length && |given| == |events|
      && (forall k :: 0 <= k < |given| ==> given[k].InRange())
      && State(data[..len], last, listening, stopped, events) == Run(ops)
    }

    constructor ()
      ensures Valid() && ops == [] && fresh(data) && data.Length == 0
      ensures len == last == 0 && !listening && !stopped && given == [] && events == []
    {
      data := new char[0];
      len, last, listening, stopped, given, events, ops := 0, 0, false, false, [], [], [];
    }

    ghost method Record(op: Op)
      requires len <= data.Length && |given| == |events|
      requires forall k :: 0 <= k < |given| ==> given[k].InRange()
      requires State(data[..len], last, listening, stopped, events) == Apply(Run(ops), op)
      modifies this`ops
      ensures Valid() && ops == old(ops) + [op]
    {
      ops := ops + [op];
      assert ops[..|ops| - 1] == old(ops);
    }

    /** The memory is written in place if the bytes fit behind the buffer, and replaced by a copy with some
        room to spare if not. */
    method Write(p: Bytes, spare: nat) returns (n: nat)
      requires Valid()
      modifies this, data
      ensures Valid() && ops == old(ops) + [Op.Write(p)] && n == |p| && given == old(given) && len == old(len) + |p|
      ensures unchanged(`last, `listening, `stopped, `events)
      ensures if old(len) + |p| <= old(data.Length)
              then data == old(data)
                   && data[..] == old(data[..])[..old(len)] + p + old(data[..])[old(len) + |p|..]
              else fresh(data) && data.Length == len + spare && old(data)[..] == old(data[..])
      ensures forall k :: 0 <= k < |given| ==>
                given[k].Reads() ==
                  if Hits(given[k], old(data), old(len), |p|)
                  then Patched(old(given[k].Reads()), given[k].from, old(len), p)
                  else old(given[k].Reads())
    {
      if len + |p| > data.Length {
        Grow(len + |p| + spare);
      }
      Store(p);
      assert data[..len + |p|] == old(data[..len]) + p;
      len := len + |p|;
      Record(Op.Write(p));
      n := |p|;
    }

    /** Puts the bytes behind the buffer, where there is room for them. */
    method Store(p: Bytes)
      requires len + |p| <= data.Length && forall k :: 0 <= k < |given| ==> given[k].InRange()
      modifies data
      ensures data[..] == old(data[..])[..len] + p + old(data[..])[len + |p|..]
      ensures forall k :: 0 <= k < |given| ==>
                given[k].Reads() == if Hits(given[k], data, len, |p|)
                                    then Patched(old(given[k].Reads()), given[k].from, len, p)
                                    else old(given[k].Reads())
    {
      forall i | 0 <= i < |p| {
        data[len + i] := p[i];
      }
      ghost var mem := old(data[..]);
      assert data[..] == mem[..len] + p + mem[len + |p|..];
      forall k | 0 <= k < |given| && given[k].data == data
        ensures given[k].Reads() == Patched(old(given[k].Reads()), given[k].from, len, p)
        ensures !Hits(given[k], data, len, |p|) ==> given[k].Reads() == old(given[k].Reads())
      {
        PatchedWindow(mem, len, p, given[k].from, given[k].to);
        assert given[k].Reads() == data[..][given[k].from..given[k].to];
        assert old(given[k].Reads()) == mem[given[k].from..given[k].to];
      }
    }

    /** A slice that a listener has kept, whichever and since whenever, reads the same after a write exactly
        when the write does not reach into it or repeats the bytes that are there. */
    method WriteWhileKept(p: Bytes, spare: nat, k: nat) returns (n: nat)
      requires Valid() && k < |given|
      modifies this, data
      ensures Valid() && ops == old(ops) + [Op.Write(p)] && n == |p| && given == old(given)
      ensures given[k].Reads() == old(given[k].Reads()) <==>
                || !Hits(given[k], old(data), old(len), |p|)
                || Agrees(old(given[k].Reads()), given[k].from, old(len), p)
    {
      PatchedSame(given[k].Reads(), given[k].from, len, p);
      n := Write(p, spare);
    }

    /** A larger copy of the memory. */
    method Grow(capacity: nat)
      requires len <= data.Length < capacity
      modifies this`data
      ensures fresh(data) && data.Length == capacity && data[..len] == old(data[..len])
    {
      var larger := new char[capacity];
      forall i | 0 <= i < len {
        larger[i] := data[i];
      }
      data := larger;
    }

    method Listen(on: bool)
      requires Valid()
      modifies this
      ensures Valid() && ops == old(ops) + [Op.Listen(on)] && listening == on
      ensures unchanged(`data, `len, `last, `stopped, `given, `events)
    {
      listening := on;
      Record(Op.Listen(on));
    }

    /** The call of the listener with everything it has not been given. */
    method Give()
      requires len <= data.Length && last <= len
      modifies this`given, this`events
      ensures given == old(given) + [Slice(data, last, len)] && events == old(events) + [data[last..len]]
    {
      given := given + [Slice(data, last, len)];
      events := events + [data[last..len]];
    }

    /** The timer branch of the flush loop.  What a listener is given is a slice of the buffer's own memory,
        which the next writes go to from its start. */
    method TimerFlush()
      requires Valid() && !stopped
      modifies this
      ensures Valid() && ops == old(ops) + [Flush] && last == len && unchanged(`data, `listening, `stopped)
      ensures len == if old(len) > old(last) && listening then 0 else old(len)
      ensures given == old(given) + if old(len) > old(last) && listening then [Slice(data, old(last), old(len))] else []
      ensures |events| == |given| && old(events) <= events
      ensures forall k :: |old(given)| <= k < |given| ==> given[k].Reads() == events[k]
    {
      if len > last {
        assert data[..len][last..] == data[last..len];
        if listening {
          Give();
          len := 0;
        }
        last := len;
      }
      Record(Flush);
    }

    /** The stop branch of the flush loop, which ends it. */
    method StopFlush()
      requires Valid() && !stopped
      modifies this
      ensures Valid() && ops == old(ops) + [Stop] && stopped && last == len && unchanged(`data, `len, `listening)
      ensures given == old(given) + if old(len) > old(last) && listening then [Slice(data, old(last), len)] else []
      ensures |events| == |given| && old(events) <= events
      ensures forall k :: |old(given)| <= k < |given| ==> given[k].Reads() == events[k]
    {
      if len > last {
        assert data[..len][last..] == data[last..len];
        if listening {
          Give();
        }
        last := len;
      }
      stopped := true;
      Record(Stop);
    }

    method Len() returns (n: nat)
      requires Valid()
      ensures n == |Written(ops)| - ResetAt(ops)
    {
      BufferHoldsRest(ops);
      n := len;
    }

    method Text() returns (text: Bytes)
      requires Valid()
      ensures ResetAt(ops) <= |Written(ops)| && text == Written(ops)[ResetAt(ops)..]
    {
      BufferHoldsRest(ops);
      text := data[..len];
    }
  }

  /** A listener has been given the first piece. */
  method FirstPiece(first: Bytes, spare: nat) returns (b: Buffer)
    requires first != []
    ensures fresh(b) && fresh(b.data) && b.Valid() && b.len == 0 && b.data.Length == |first| + spare
    ensures b.given == [Slice(b.data, 0, |first|)] && b.events == [first] && first <= b.data[..]
  {
    b := new Buffer();
    b.Listen(true);
    var n := b.Write(first, spare);
    b.TimerFlush();
    assert b.given[0].Reads() == first;
  }

  /** If the listener keeps its slice, it finds the next write in it, unless that write did not fit the
      memory and went to a new one. */
  method KeepSlice(first: Bytes, later: Bytes, spare: nat) returns (b: Buffer)
    requires first != []
    ensures fresh(b) && b.Valid() && |b.given| == 1 && b.events == [first]
    ensures b.given[0].Reads() == if |later| > |first| + spare then first else Patched(first, 0, 0, later)
  {
    b := FirstPiece(first, spare);
    assert b.given[0].Reads() == b.data[..][..|first|] == first;
    var n := b.Write(later, 0);
  }

  /** A slice given after a flush that met no listener does not start where the memory does, and the next
      write leaves it alone if it is not longer than what was flushed unheard. */
  method KeepLaterSlice(unheard: Bytes, second: Bytes, later: Bytes, spare: nat) returns (b: Buffer)
    requires second != [] && |later| <= |unheard|
    ensures fresh(b) && b.Valid() && |b.given| == 1 && b.events == [second]
    ensures b.given[0].Reads() == second
  {
    b := SecondPiece(unheard, second, spare);
    var n := b.Write(later, 0);
  }

  /** A listener has been given the second piece, the first one was flushed with nobody listening. */
  method SecondPiece(unheard: Bytes, second: Bytes, spare: nat) returns (b: Buffer)
    requires second != []
    ensures fresh(b) && fresh(b.data) && b.Valid() && b.len == 0
    ensures b.given == [Slice(b.data, |unheard|, |unheard| + |second|)] && b.events == [second]
    ensures b.given[0].Reads() == second
  {
    b := UnheardPiece(unheard, spare);
    var n := b.Write(second, spare);
    assert b.data[|unheard|..b.len] == second;
    b.TimerFlush();
    assert b.given[0].Reads() == b.events[0];
  }

  /** A first piece was flushed with nobody listening, then someone starts to listen. */
  method UnheardPiece(unheard: Bytes, spare: nat) returns (b: Buffer)
    ensures fresh(b) && fresh(b.data) && b.Valid() && b.listening && !b.stopped
    ensures b.len == b.last == |unheard| && b.given == [] && b.events == []
  {
    b := new Buffer();
    var n := b.Write(unheard, spare);
    b.TimerFlush();
    b.Listen(true);
  }
}
