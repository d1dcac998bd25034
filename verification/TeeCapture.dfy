/**
 `logReadCloser`: the body a proxied call streams through is teed into a buffer; closing it reads the rest and
 hands the buffer to the logging function once.
 */
module TeeCapture {
  import opened Bytes
  import opened Options

  // ----- The tee as a value.

  /** What a read into a buffer of size `room` delivers, and what is left. */
  function ReadChunk(chunks: seq<seq<Byte>>, room: nat): (r: (seq<Byte>, seq<seq<Byte>>))
    ensures |r.0| <= room && r.0 + Flatten(r.1) == Flatten(chunks)
    ensures [] !in chunks ==> [] !in r.1
    ensures [] !in chunks && chunks != [] && 0 < room ==> r.0 != []
    ensures |r.1| <= |chunks|
  {
    if chunks == [] then ([], [])
    else if room < |chunks[0]| then
      assert chunks[0] == chunks[0][..room] + chunks[0][room..];
      assert ([chunks[0][room..]] + chunks[1..])[1..] == chunks[1..];
      Associative(chunks[0][..room], chunks[0][room..], Flatten(chunks[1..]));
      (chunks[0][..room], [chunks[0][room..]] + chunks[1..])
    else (chunks[0], chunks[1..])
  }

  /** The buffer size `io.Copy` uses to drain into `io.Discard`. */
  const DRAIN_SIZE := 8192

  /** What the first `n` reads of the drain deliver, and what is left. */
  function Drain(chunks: seq<seq<Byte>>, n: nat): (r: (seq<Byte>, seq<seq<Byte>>))
    ensures r.0 + Flatten(r.1) == Flatten(chunks)
    ensures [] !in chunks ==> [] !in r.1
  {
    if n == 0 then
      assert [] + Flatten(chunks) == Flatten(chunks);
      ([], chunks)
    else
      var (data, rest) := Drain(chunks, n - 1);
      var (more, left) := ReadChunk(rest, DRAIN_SIZE);
      Associative(data, more, Flatten(left));
      (data + more, left)
  }

  lemma DrainNext(before: seq<Byte>, chunks: seq<seq<Byte>>, n: nat)
    ensures var (data, rest) := Drain(chunks, n);
      var (more, left) := ReadChunk(rest, DRAIN_SIZE);
      before + Drain(chunks, n + 1).0 == before + data + more && Drain(chunks, n + 1).1 == left
  {
  }

  /** With nothing left, more reads deliver nothing. */
  lemma {:induction false} DrainEnds(chunks: seq<seq<Byte>>, n: nat, m: nat)
    requires n <= m && Drain(chunks, n).1 == []
    ensures Drain(chunks, m) == Drain(chunks, n)
  {
    if n < m {
      DrainEnds(chunks, n, m - 1);
      assert Drain(chunks, n).0 + [] == Drain(chunks, n).0;
    }
  }

  /** How many reads of the drain it takes until nothing is left. */
  function DrainReads(chunks: seq<seq<Byte>>): nat
    requires [] !in chunks
    decreases |Flatten(chunks)|
  {
    if chunks == [] then 0
    else
      var (data, rest) := ReadChunk(chunks, DRAIN_SIZE);
      1 + DrainReads(rest)
  }

  /** `cut` says that the source has been closed, by the tee or underneath it. */
  datatype Tee = Tee(rest: seq<seq<Byte>>, cut: bool, buf: seq<Byte>, closed: bool, logged: seq<seq<Byte>>)

  /**
   What happens to a tee. Its owner reads into buffers of any size and closes it any number of times. The end of the
   call's context closes the source underneath, at any time: between two operations, or while the tee is being closed,
   after `cut` reads of the drain.
   */
  datatype Op = DoRead(room: nat) | DoClose(cut: Option<nat>) | CutOff

  /** What the owner gets. */
  function Got(t: Tee, op: Op): seq<Byte> {
    if op.DoRead? && !t.cut then ReadChunk(t.rest, op.room).0 else []
  }

  /** What the drain delivers, and leaves, when it is cut off as `cut` says. */
  function Drained(chunks: seq<seq<Byte>>, cut: Option<nat>): (seq<Byte>, seq<seq<Byte>>) {
    if cut.Some? then Drain(chunks, cut.value) else (Flatten(chunks), [])
  }

  function Do(t: Tee, op: Op): Tee {
    match op
    case DoRead(room) =>
      if t.cut then t else t.(rest := ReadChunk(t.rest, room).1, buf := t.buf + Got(t, op))
    case DoClose(cut) =>
      if t.closed then t
      else
        var (data, rest) := if t.cut then ([], t.rest) else Drained(t.rest, cut);
        Tee(rest, true, t.buf + data, true, t.logged + [t.buf + data])
    case CutOff => t.(cut := true)
  }

  function After(chunks: seq<seq<Byte>>, ops: seq<Op>): Tee {
    if ops == [] then Tee(chunks, false, [], false, [])
    else Do(After(chunks, ops[..|ops| - 1]), ops[|ops| - 1])
  }

  function Consumed(chunks: seq<seq<Byte>>, ops: seq<Op>): seq<Byte> {
    if ops == [] then []
    else
      var before := ops[..|ops| - 1];
      Consumed(chunks, before) + Got(After(chunks, before), ops[|ops| - 1])
  }

  // ----- The same as the source has it.

  /**
   The upstream body: `chunks` is what successive reads would return given room, then an error (end of file or a
   failure, the same on every later read). `eager` says that the error comes with the last bytes instead of
   after them, as `io.Reader` allows. A closed body returns nothing any more. Reads of zero bytes without an error,
   which change nothing, are left out.
   */
  class Source {
    var chunks: seq<seq<Byte>>
    const eager: bool
    var closed: bool

    constructor (chunks: seq<seq<Byte>>, eager: bool)
      requires [] !in chunks
      ensures this.chunks == chunks && this.eager == eager && !closed
    {
      this.chunks, this.eager, this.closed := chunks, eager, false;
    }

    /** At most `room` bytes of the next chunk; `ended` stands for a non-nil error. */
    method Read(room: nat) returns (data: seq<Byte>, ended: bool)
      requires [] !in chunks
      modifies this`chunks
      ensures [] !in chunks
      ensures if closed then data == [] && chunks == old(chunks) else (data, chunks) == ReadChunk(old(chunks), room)
      ensures ended ==> closed || chunks == []
      ensures closed || old(chunks) == [] ==> ended
    {
      if closed || chunks == [] {
        return [], true;
      }
      if room < |chunks[0]| {
        data := chunks[0][..room];
        chunks := [chunks[0][room..]] + chunks[1..];
        return data, false;
      }
      data := chunks[0];
      chunks := chunks[1..];
      ended := eager && chunks == [];
    }

    method Close()
      modifies this`closed
      ensures closed
    {
      closed := true;
    }
  }

  class LogReadCloser {
    const original: Source
    var buf: seq<Byte>
    var closed: bool
    /** The data of every logging goroutine started so far. */
    var logged: seq<seq<Byte>>

    ghost predicate Valid()
      reads this, original
    {
      [] !in original.chunks && (closed ==> original.closed)
    }

    ghost function State(): Tee
      reads this, original
    {
      Tee(original.chunks, original.closed, buf, closed, logged)
    }

    constructor (stream: Source)
      requires [] !in stream.chunks
      ensures Valid() && original == stream && State() == Tee(stream.chunks, stream.closed, [], false, [])
    {
      original := stream;
      buf, closed, logged := [], false, [];
    }

    method Read(room: nat) returns (data: seq<Byte>, ended: bool)
      requires Valid()
      modifies this`buf, original`chunks
      ensures Valid() && State() == Do(old(State()), DoRead(room)) && data == Got(old(State()), DoRead(room))
      ensures ended ==> original.closed || original.chunks == []
      ensures original.closed || old(original.chunks) == [] ==> ended
    {
      data, ended := original.Read(room);
      assert data == [] ==> buf + data == buf;
      buf := buf + data;
    }

    /** The source is closed underneath after `cut` reads of the drain, if the drain gets there. */
    method Close(cut: Option<nat>)
      requires Valid()
      modifies this`buf, this`closed, this`logged, original
      ensures Valid() && State() == Do(old(State()), DoClose(cut))
    {
      if closed {
        return;
      }
      ghost var t := State();
      DrainTee(cut);
      assert t.cut ==> t.buf + [] == t.buf;
      closed := true;
      original.Close();
      logged := logged + [buf];
    }

    /** `io.Copy` into `io.Discard`. */
    method DrainTee(cut: Option<nat>)
      requires Valid() && !closed
      modifies this`buf, original
      ensures Valid() && closed == old(closed)
      ensures old(original.closed) ==> State() == old(State())
      ensures !old(original.closed) ==>
                buf == old(buf) + Drained(old(original.chunks), cut).0
                && original.chunks == Drained(old(original.chunks), cut).1
    {
      ghost var start, before := original.chunks, buf;
      ghost var stop := if original.closed || cut == None then 0 else cut.value;
      ghost var closedFirst := original.closed;
      var n, ended := 0, false;
      while !ended
        invariant Valid() && closed == old(closed)
        invariant closedFirst ==> original.closed
        invariant !closedFirst && original.closed ==> cut.Some?
        invariant !original.closed && cut.Some? ==> n <= stop
        invariant Delivered(before, start, if original.closed then stop else n)
        invariant ended ==> original.closed || original.chunks == []
        decreases if ended then 0 else 1, |Flatten(original.chunks)|
      {
        if cut == Some(n) {
          original.Close();
        }
        DrainNext(before, start, n);
        var _, e := Read(DRAIN_SIZE);
        ended := e;
        n := n + 1;
      }
      if !original.closed && cut.Some? {
        DrainEnds(start, n, cut.value);
      }
      assert before + [] == before;
    }

    /** The first `n` reads of a drain that found `start` have been put into the buffer. */
    ghost predicate Delivered(before: seq<Byte>, start: seq<seq<Byte>>, n: nat)
      reads this, original
    {
      buf == before + Drain(start, n).0 && original.chunks == Drain(start, n).1
    }
  }

  /** Any number of operations on a new tee. The size hint is only the capacity of a buffer that grows as needed. */
  method Session(chunks: seq<seq<Byte>>, eager: bool, ops: seq<Op>)
    returns (consumed: seq<Byte>, logged: seq<seq<Byte>>)
    requires [] !in chunks
    ensures consumed == Consumed(chunks, ops) && logged == After(chunks, ops).logged
  {
    var source := new Source(chunks, eager);
    var tee := new LogReadCloser(source);
    consumed := [];
    for k := 0 to |ops|
      invariant fresh(tee) && fresh(tee.original) && tee.Valid()
      invariant tee.State() == After(chunks, ops[..k]) && consumed == Consumed(chunks, ops[..k])
    {
      assert ops[..k + 1][..k] == ops[..k];
      var data := Perform(tee, ops[k]);
      consumed := consumed + data;
    }
    assert ops[..|ops|] == ops;
    logged := tee.logged;
  }

  method Perform(tee: LogReadCloser, op: Op) returns (data: seq<Byte>)
    requires tee.Valid()
    modifies tee, tee.original
    ensures tee.Valid() && tee.State() == Do(old(tee.State()), op) && data == Got(old(tee.State()), op)
  {
    data := [];
    match op
    case DoRead(room) =>
      var d, _ := tee.Read(room);
      data := d;
    case DoClose(cut) =>
      tee.Close(cut);
    case CutOff =>
      tee.original.Close();
  }

  // ----- What holds of every session.

  predicate Closes(ops: seq<Op>) {
    exists k :: 0 <= k < |ops| && ops[k].DoClose?
  }

  /** The buffer and what is left make up the source, and the owner got the start of the buffer. */
  lemma {:induction false} NothingInvented(chunks: seq<seq<Byte>>, ops: seq<Op>)
    requires [] !in chunks
    ensures var t := After(chunks, ops);
      && [] !in t.rest && t.buf + Flatten(t.rest) == Flatten(chunks)
      && Consumed(chunks, ops) <= t.buf && (!t.closed ==> Consumed(chunks, ops) == t.buf)
      && (t.closed ==> t.cut)
  {
    if ops == [] {
      assert [] + Flatten(chunks) == Flatten(chunks);
    } else {
      var before, op := ops[..|ops| - 1], ops[|ops| - 1];
      NothingInvented(chunks, before);
      var t := After(chunks, before);
      match op
      case DoRead(room) =>
        if !t.cut { Associative(t.buf, Got(t, op), Flatten(ReadChunk(t.rest, room).1)); }
      case DoClose(cut) =>
        if !t.closed && !t.cut {
          Associative(t.buf, Drained(t.rest, cut).0, Flatten(Drained(t.rest, cut).1));
        }
      case CutOff =>
    }
  }

  /** The logger is started exactly once, by the first close, with what the buffer holds from then on. */
  lemma {:induction false} LoggedOnce(chunks: seq<seq<Byte>>, ops: seq<Op>)
    ensures var t := After(chunks, ops);
      && t.closed == Closes(ops) && (t.closed ==> t.cut)
      && t.logged == if t.closed then [t.buf] else []
  {
    if ops != [] {
      var n := |ops| - 1;
      LoggedOnce(chunks, ops[..n]);
      assert forall k :: 0 <= k < n ==> ops[..n][k] == ops[k];
      assert Closes(ops) <==> Closes(ops[..n]) || ops[n].DoClose?;
    }
  }

  /** The tee's source is cut off before it is closed exactly if an operation did it. */
  lemma {:induction false} CutIff(chunks: seq<seq<Byte>>, ops: seq<Op>)
    requires !Closes(ops)
    ensures After(chunks, ops).cut <==> CutOff in ops
  {
    if ops != [] {
      var n := |ops| - 1;
      assert ops == ops[..n] + [ops[n]];
      assert forall k :: 0 <= k < n ==> ops[..n][k] == ops[k];
      CutIff(chunks, ops[..n]);
    }
  }

  lemma {:induction false} FirstCloseDecides(chunks: seq<seq<Byte>>, ops: seq<Op>, k: nat)
    requires k < |ops| && ops[k].DoClose? && !Closes(ops[..k])
    ensures After(chunks, ops).logged == After(chunks, ops[..k + 1]).logged
  {
    var n := |ops| - 1;
    if k < n {
      assert ops[..n][..k] == ops[..k] && ops[..n][..k + 1] == ops[..k + 1];
      FirstCloseDecides(chunks, ops[..n], k);
      LoggedOnce(chunks, ops[..n]);
      assert Closes(ops[..n]) by { assert ops[..n][k].DoClose?; }
    } else {
      assert ops[..k + 1] == ops;
    }
  }

  lemma {:induction false} ReadsLeft(chunks: seq<seq<Byte>>, n: nat)
    requires [] !in chunks
    ensures DrainReads(Drain(chunks, n).1) == if n < DrainReads(chunks) then DrainReads(chunks) - n else 0
  {
    if n > 0 { ReadsLeft(chunks, n - 1); }
  }

  lemma EmptyIff(rest: seq<seq<Byte>>)
    requires [] !in rest
    ensures Flatten(rest) == [] <==> rest == []
  {
    if rest != [] { assert rest[0] in rest; }
  }

  /**
   What is logged: the bytes the owner had read at the first close and what the drain still got. It is the whole source
   exactly if the source was not cut off before the drain had ended, or cut off when nothing was left.
   */
  lemma LoggedWholeIff(chunks: seq<seq<Byte>>, ops: seq<Op>, k: nat)
    requires [] !in chunks && k < |ops| && ops[k].DoClose? && !Closes(ops[..k])
    ensures var t, consumed := After(chunks, ops[..k]), Consumed(chunks, ops[..k]);
      var data := consumed + if CutOff in ops[..k] then [] else Drained(t.rest, ops[k].cut).0;
      && [] !in t.rest && After(chunks, ops).logged == [data] && data <= Flatten(chunks)
      && (data == Flatten(chunks) <==>
            if CutOff in ops[..k] then t.rest == []
            else ops[k].cut == None || DrainReads(t.rest) <= ops[k].cut.value)
  {
    var t, cut := After(chunks, ops[..k]), ops[k].cut;
    assert ops[..k + 1][..k] == ops[..k];
    FirstCloseDecides(chunks, ops, k);
    LoggedOnce(chunks, ops[..k]);
    NothingInvented(chunks, ops[..k]);
    NothingInvented(chunks, ops[..k + 1]);
    CutIff(chunks, ops[..k]);
    var left := After(chunks, ops[..k + 1]).rest;
    EmptyIff(left);
    assert t.buf + [] == t.buf;
    if !t.cut && cut.Some? {
      ReadsLeft(t.rest, cut.value);
      assert left == [] <==> DrainReads(left) == 0;
    }
  }

  /** A source of any length is logged as nothing when it is cut off before the first read. */
  lemma EverythingLost(chunks: seq<seq<Byte>>)
    ensures After(chunks, [CutOff, DoClose(None)]).logged == [[]]
    ensures After(chunks, [DoClose(Some(0))]).logged == [[]]
  {
    assert [CutOff, DoClose(None)][..1] == [CutOff] && [CutOff][..0] == [] && [DoClose(Some(0))][..0] == [];
    assert After(chunks, [CutOff]) == Tee(chunks, true, [], false, []);
    assert After(chunks, []) == Tee(chunks, false, [], false, []);
  }

  /** An owner that reads with room for something gets something until the source has ended or is cut off. */
  lemma ReadsDeliver(chunks: seq<seq<Byte>>, ops: seq<Op>, room: nat)
    requires [] !in chunks && 0 < room
    requires !Closes(ops) && CutOff !in ops && Consumed(chunks, ops) != Flatten(chunks)
    ensures |Consumed(chunks, ops)| < |Consumed(chunks, ops + [DoRead(room)])|
  {
    var t := After(chunks, ops);
    LoggedOnce(chunks, ops);
    NothingInvented(chunks, ops);
    CutIff(chunks, ops);
    EmptyIff(t.rest);
    assert t.rest == [] ==> t.buf + Flatten(t.rest) == t.buf;
    assert (ops + [DoRead(room)])[..|ops|] == ops;
    assert Got(t, DoRead(room)) != [];
  }
}
