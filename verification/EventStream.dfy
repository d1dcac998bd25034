/**
 The pump of an event stream: it forwards the upstream body line by line, gathers the lines between empty lines
 into blocks and hands each block to the event logger.
 */
module EventStream {
  import opened Bytes

  /** The buffer size of `bufio.NewReader`; a line that does not fit, with its newline, is an error. */
  const BUFFER_SIZE := 4096

  /** The lines a byte stream starts with, each with its newline, up to the first that is too long or unfinished. */
  function WholeLines(s: seq<Byte>): (lines: seq<seq<Byte>>)
    ensures forall l <- lines :: IsLine(l)
    ensures Flatten(lines) <= s
  {
    var i := IndexOf(s, NEWLINE);
    if i < |s| && i < BUFFER_SIZE then
      var rest := WholeLines(s[i + 1..]);
      assert s == s[..i + 1] + s[i + 1..];
      [s[..i + 1]] + rest
    else []
  }

  /** One newline, at the end. */
  predicate IsLine(l: seq<Byte>) {
    l != [] && l[|l| - 1] == NEWLINE && NEWLINE !in l[..|l| - 1]
  }

  /** Nothing after the whole lines is a line that fits the buffer. */
  lemma {:induction false} WholeLinesMaximal(s: seq<Byte>)
    ensures var rest := s[|Flatten(WholeLines(s))|..];
            |rest| <= IndexOf(rest, NEWLINE) || BUFFER_SIZE <= IndexOf(rest, NEWLINE)
  {
    var i := IndexOf(s, NEWLINE);
    if i < |s| && i < BUFFER_SIZE {
      WholeLinesMaximal(s[i + 1..]);
      var n := |Flatten(WholeLines(s[i + 1..]))|;
      assert WholeLines(s)[1..] == WholeLines(s[i + 1..]);
      assert s[i + 1..][n..] == s[i + 1 + n..];
    } else {
      assert s[0..] == s;
    }
  }

  /** `bufio.Reader` over an upstream that delivers its bytes in any chunks. */
  class LineReader {
    var buf: seq<Byte>
    var chunks: seq<seq<Byte>>

    constructor (chunks: seq<seq<Byte>>)
      ensures Rest() == Flatten(chunks) && |buf| <= BUFFER_SIZE
    {
      this.buf, this.chunks := [], chunks;
    }

    function Rest(): seq<Byte>
      reads this
    {
      buf + Flatten(chunks)
    }

    /** Reads once more from upstream, as much as the buffer has room for. */
    method Fill()
      requires |buf| < BUFFER_SIZE && chunks != []
      modifies this
      ensures |buf| <= BUFFER_SIZE && old(buf) <= buf && Rest() == old(Rest())
      ensures |chunks| < |old(chunks)| || (|chunks| == |old(chunks)| && |buf| == BUFFER_SIZE)
    {
      var room := BUFFER_SIZE - |buf|;
      var chunk := chunks[0];
      if |chunk| <= room {
        buf, chunks := buf + chunk, chunks[1..];
      } else {
        assert chunk == chunk[..room] + chunk[room..];
        buf, chunks := buf + chunk[..room], [chunk[room..]] + chunks[1..];
        assert chunks[1..] == old(chunks)[1..];
      }
    }

    /** `ReadSlice('\n')`: the next line, whatever the chunks, or an error when there is no whole line that fits. */
    method ReadSlice() returns (line: seq<Byte>, ok: bool)
      requires |buf| <= BUFFER_SIZE
      modifies this
      ensures |buf| <= BUFFER_SIZE
      ensures ok <==> WholeLines(old(Rest())) != []
      ensures ok ==> WholeLines(old(Rest())) == [line] + WholeLines(Rest()) && IsLine(line)
    {
      ghost var all := Rest();
      while true
        invariant |buf| <= BUFFER_SIZE && Rest() == all
        decreases |chunks|, BUFFER_SIZE - |buf|
      {
        var i := IndexOf(buf, NEWLINE);
        if i < |buf| {
          assert all[..i] == buf[..i];
          IndexOfUnique(all, NEWLINE, i);
          line, ok := buf[..i + 1], true;
          buf := buf[i + 1..];
          assert all == line + Rest() && all[..i + 1] == line && all[i + 1..] == Rest();
          return;
        }
        if |buf| >= BUFFER_SIZE || chunks == [] {
          assert all[..|buf|] == buf == buf[..|buf|];
          IndexOfAfter(all, NEWLINE, |buf|);
          line, ok := buf, false;
          return;
        }
        Fill();
      }
    }
  }

  /** The client's side. Write number `failAt` fails, after passing on up to `partial` bytes. */
  class ClientWriter {
    var out: seq<Byte>
    var writes: nat
    const failAt: nat
    const partial: nat

    constructor (failAt: nat, partial: nat)
      ensures out == [] && writes == 0 && this.failAt == failAt && this.partial == partial
    {
      this.out, this.writes, this.failAt, this.partial := [], 0, failAt, partial;
    }

    method Write(p: seq<Byte>) returns (n: nat, ok: bool)
      modifies this
      ensures ok <==> old(writes) != failAt
      ensures ok ==> n == |p| && out == old(out) + p && writes == old(writes) + 1
      ensures !ok ==> n <= |p| && out == old(out) + p[..n]
    {
      ok := writes != failAt;
      n := if ok || |p| < partial then |p| else partial;
      out := out + p[..n];
      if ok {
        assert p[..n] == p;
        writes := writes + 1;
      }
    }
  }

  // ----- What the pump has to produce from the lines it forwarded.

  /** The groups of lines closed by an empty line so far, and the lines of the group still open. */
  function Grouped(lines: seq<seq<Byte>>): (r: (seq<seq<seq<Byte>>>, seq<seq<Byte>>)) {
    if lines == [] then ([], [])
    else
      var (closed, open) := Grouped(lines[..|lines| - 1]);
      var line := lines[|lines| - 1];
      if line == [NEWLINE] then (closed + [open], []) else (closed, open + [line])
  }

  /** The text of a group as it is logged: every line followed by one more newline. */
  function Block(group: seq<seq<Byte>>): seq<Byte> {
    if group == [] then [] else Block(group[..|group| - 1]) + group[|group| - 1] + [NEWLINE]
  }

  function Blocks(groups: seq<seq<seq<Byte>>>): seq<seq<Byte>> {
    if groups == [] then []
    else Blocks(groups[..|groups| - 1])
         + if groups[|groups| - 1] == [] then [] else [Block(groups[|groups| - 1])]
  }

  /** Undoes the grouping: every closed group with its empty line, then the open group. */
  function Ungrouped(closed: seq<seq<seq<Byte>>>, open: seq<seq<Byte>>): seq<seq<Byte>> {
    if closed == [] then open else Ungrouped(closed[..|closed| - 1], closed[|closed| - 1] + [[NEWLINE]]) + open
  }

  /** `Grouped` splits at exactly the empty lines and loses nothing. */
  lemma {:induction false} GroupedSplits(lines: seq<seq<Byte>>)
    ensures var (closed, open) := Grouped(lines);
            && Ungrouped(closed, open) == lines
            && (forall g <- closed :: [NEWLINE] !in g) && [NEWLINE] !in open
            && (forall g <- closed, l <- g :: l in lines) && (forall l <- open :: l in lines)
  {
    if lines != [] {
      var n := |lines| - 1;
      GroupedSplits(lines[..n]);
      assert lines == lines[..n] + [lines[n]];
      var (c, o) := Grouped(lines[..n]);
      if lines[n] == [NEWLINE] {
        assert (c + [o])[..|c|] == c;
        UngroupedOpen(c, o, [[NEWLINE]]);
        assert Ungrouped(c + [o], []) == Ungrouped(c, o + [[NEWLINE]]) + [];
      } else {
        UngroupedOpen(c, o, [lines[n]]);
      }
    }
  }

  lemma UngroupedOpen(closed: seq<seq<seq<Byte>>>, open: seq<seq<Byte>>, more: seq<seq<Byte>>)
    ensures Ungrouped(closed, open + more) == Ungrouped(closed, open) + more
  {
    if closed != [] {
      var u := Ungrouped(closed[..|closed| - 1], closed[|closed| - 1] + [[NEWLINE]]);
      assert u + (open + more) == (u + open) + more;
    }
  }

  /** A block is longer than two bytes exactly when its group has a line. */
  lemma BlockLength(group: seq<seq<Byte>>)
    requires forall l <- group :: |l| >= 2
    ensures |Block(group)| > 2 <==> group != []
  {
    if group != [] {
      assert group[|group| - 1] in group;
    }
  }

  /** A forwarded line adds its bytes, and either closes the open group or joins it. */
  lemma PassOne(passed: seq<seq<Byte>>, line: seq<Byte>)
    requires IsLine(line)
    ensures Flatten(passed + [line]) == Flatten(passed) + line
    ensures |line| == 1 <==> line == [NEWLINE]
    ensures var (closed, open) := Grouped(passed);
            && Grouped(passed + [line]) ==
                 (if line == [NEWLINE] then (closed + [open], []) else (closed, open + [line]))
            && Block(open + [line]) == Block(open) + line + [NEWLINE]
  {
    FlattenAppend(passed, [line]);
    assert (passed + [line])[..|passed|] == passed;
    var open := Grouped(passed).1;
    assert (open + [line])[..|open|] == open;
  }

  /** The lines of a group are not empty lines, so each has a byte before its newline. */
  lemma LongLines(passed: seq<seq<Byte>>)
    requires forall l <- passed :: IsLine(l)
    ensures forall l <- Grouped(passed).1 :: |l| >= 2
  {
    GroupedSplits(passed);
    forall l <- Grouped(passed).1 ensures |l| >= 2 {
      assert l in passed && l != [NEWLINE];
      assert |l| == 1 ==> l == [NEWLINE];
    }
  }

  /** When a group is closed, its block counts as one to log exactly if it is longer than two bytes. */
  lemma CloseGroup(closed: seq<seq<seq<Byte>>>, open: seq<seq<Byte>>)
    requires forall l <- open :: |l| >= 2
    ensures |Block(open)| > 2 ==> Blocks(closed + [open]) == Blocks(closed) + [Block(open)]
    ensures |Block(open)| <= 2 ==> Blocks(closed + [open]) == Blocks(closed)
  {
    BlockLength(open);
    assert (closed + [open])[..|closed|] == closed;
  }

  /** The lines passed on so far are those at the start of `lines`, and the client has their bytes. */
  ghost predicate Passing(lines: seq<seq<Byte>>, passed: seq<seq<Byte>>, rd: LineReader, w: ClientWriter, written: nat)
    reads rd, w
  {
    && |rd.buf| <= BUFFER_SIZE
    && lines == passed + WholeLines(rd.Rest())
    && (forall l <- passed :: IsLine(l))
    && w.writes == |passed| <= w.failAt && w.out == Flatten(passed) && written == |w.out|
  }

  /** No further line could be passed on: there is none, or its write failed, perhaps after some of its bytes. */
  ghost predicate Stopped(lines: seq<seq<Byte>>, passed: seq<seq<Byte>>, w: ClientWriter)
    reads w
  {
    || (passed == lines && |lines| <= w.failAt && w.out == Flatten(passed))
    || (passed < lines && |passed| == w.failAt
        && Flatten(passed) <= w.out <= Flatten(passed) + lines[|passed|])
  }

  lemma NextLine(lines: seq<seq<Byte>>, passed: seq<seq<Byte>>, line: seq<Byte>, rest: seq<seq<Byte>>)
    requires lines == passed + ([line] + rest)
    ensures lines == passed + [line] + rest && passed < lines && lines[|passed|] == line
  {
  }

  /** One round of the inner loop up to its write: reads a line and passes it on. */
  method ForwardLine(rd: LineReader, w: ClientWriter,
                     ghost lines: seq<seq<Byte>>, ghost passed: seq<seq<Byte>>, ghost written: nat)
    returns (evt: seq<Byte>, wb: nat, ok: bool)
    requires Passing(lines, passed, rd, w, written)
    modifies rd, w
    ensures ok ==> IsLine(evt) && wb == |evt| && Passing(lines, passed + [evt], rd, w, written + wb)
    ensures ok ==> |passed| < |lines|
    ensures !ok ==> Stopped(lines, passed, w)
  {
    ghost var rest := WholeLines(rd.Rest());
    evt, ok := rd.ReadSlice();
    if !ok {
      assert passed + rest == passed;
      return evt, 0, false;
    }
    NextLine(lines, passed, evt, WholeLines(rd.Rest()));
    PassOne(passed, evt);
    wb, ok := w.Write(evt);
  }

  /** The inner loop: forwards lines up to and including an empty one, and gathers the others. */
  method PumpGroup(rd: LineReader, w: ClientWriter, sofar: nat,
                   ghost lines: seq<seq<Byte>>, ghost start: seq<seq<Byte>>)
    returns (lineBuf: seq<Byte>, written: nat, ok: bool, ghost passed: seq<seq<Byte>>, ghost group: seq<seq<Byte>>)
    requires Passing(lines, start, rd, w, sofar) && Grouped(start).1 == []
    modifies rd, w
    ensures written == |Flatten(passed)| && lineBuf == Block(group)
    ensures ok ==> |start| < |passed| && Passing(lines, passed, rd, w, written) && passed[|passed| - 1] == [NEWLINE]
    ensures ok ==> Grouped(passed) == (Grouped(start).0 + [group], []) && forall l <- group :: |l| >= 2
    ensures !ok ==> Stopped(lines, passed, w) && Grouped(passed) == (Grouped(start).0, group)
  {
    lineBuf, written, passed, group := [], sofar, start, [];
    while true
      invariant |start| <= |passed| && Passing(lines, passed, rd, w, written)
      invariant Grouped(passed) == (Grouped(start).0, group)
      invariant lineBuf == Block(group)
      decreases |lines| - |passed|
    {
      var evt, wb, sent := ForwardLine(rd, w, lines, passed, written);
      if !sent {
        return lineBuf, written, false, passed, group;
      }
      LongLines(passed);
      PassOne(passed, evt);
      written := written + wb;
      passed := passed + [evt];
      if wb == 1 {
        break;
      }
      lineBuf := lineBuf + evt;
      lineBuf := lineBuf + [NEWLINE];
      group := group + [evt];
    }
    ok := true;
  }

  /**
   The client got the lines in `passed`, which the source starts with, and `written` counts their bytes; after a
   failed write it may have got part of the next line too. The blocks are those of the closed, non-empty groups
   of these lines. The pump ended because no further line could be passed on, or because the call was cancelled
   after a group.
   */
  ghost predicate PumpResult(lines: seq<seq<Byte>>, passed: seq<seq<Byte>>, w: ClientWriter, cancelAfter: nat,
                             written: nat, blocks: seq<seq<Byte>>)
    reads w
  {
    var (closed, open) := Grouped(passed);
    && passed <= lines && written == |Flatten(passed)| && blocks == Blocks(closed)
    && (cancelAfter == 0 || |closed| <= cancelAfter)
    && (|| Stopped(lines, passed, w)
        || (0 < cancelAfter == |closed| && open == [] && w.out == Flatten(passed)))
  }

  /** A call that is never cancelled: all lines are passed on and their groups logged, or all up to a failed write. */
  lemma UncancelledPump(lines: seq<seq<Byte>>, passed: seq<seq<Byte>>, w: ClientWriter, written: nat,
                        blocks: seq<seq<Byte>>)
    requires PumpResult(lines, passed, w, 0, written, blocks)
    ensures passed == lines[..if w.failAt < |lines| then w.failAt else |lines|]
    ensures blocks == Blocks(Grouped(passed).0) && written == |Flatten(passed)|
    ensures |lines| <= w.failAt ==> w.out == Flatten(lines)
    ensures w.failAt < |lines| ==> Flatten(passed) <= w.out <= Flatten(passed) + lines[w.failAt]
  {
  }

  /**
   `processEventStreamResponse`. The context is seen cancelled after `cancelAfter` groups, never if that is 0.
   `passed` are the lines passed on whole; the blocks are those given to `logEventResponse`.
   */
  method Pump(rd: LineReader, w: ClientWriter, cancelAfter: nat)
    returns (written: nat, blocks: seq<seq<Byte>>, ghost passed: seq<seq<Byte>>)
    requires |rd.buf| <= BUFFER_SIZE && w.out == [] && w.writes == 0
    modifies rd, w
    ensures PumpResult(WholeLines(old(rd.Rest())), passed, w, cancelAfter, written, blocks)
  {
    ghost var lines := WholeLines(rd.Rest());
    written, blocks, passed := 0, [], [];
    var count := 0;
    ghost var closed: seq<seq<seq<Byte>>> := [];
    while true
      invariant Passing(lines, passed, rd, w, written)
      invariant Grouped(passed) == (closed, []) && count == |closed| && blocks == Blocks(closed)
      invariant cancelAfter == 0 || count < cancelAfter
      decreases |lines| - |passed|
    {
      var lineBuf, n, ok, p, group := PumpGroup(rd, w, written, lines, passed);
      written, passed := n, p;
      if !ok {
        return;
      }
      CloseGroup(closed, group);
      if |lineBuf| > 2 {
        blocks := blocks + [lineBuf];
      }
      closed := closed + [group];
      count := count + 1;
      if count == cancelAfter {
        return;
      }
    }
  }
}
