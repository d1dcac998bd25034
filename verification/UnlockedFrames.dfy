/**
 Senders that write the two frames of a binary message without a lock, as the hook client's `sendRequest` does: when
 the receiver still gets everything. The write of a frame is one step: writes of single frames do not overlap.
 */
module UnlockedFrames {
  import opened Bytes
  import opened Framing
  import opened Options

  /** Send `i` writes its message, or the payload that follows it. */
  datatype Write = Header(i: nat) | Payload(i: nat)

  predicate CanWrite<D>(sends: seq<Send<D>>, before: seq<Write>, x: Write) {
    && x.i < |sends| && x !in before
    && (x.Payload? ==> sends[x.i].WithBinary? && Header(x.i) in before)
  }

  /** Any order of successful writes in which each send writes its own frames in order, each once. */
  ghost predicate Interleaving<D>(sends: seq<Send<D>>, w: seq<Write>) {
    w == [] || (Interleaving(sends, w[..|w| - 1]) && CanWrite(sends, w[..|w| - 1], w[|w| - 1]))
  }

  /** Every send has written all its frames. */
  ghost predicate Finished<D>(sends: seq<Send<D>>, w: seq<Write>) {
    forall i: nat :: i < |sends| ==> Header(i) in w && (sends[i].WithBinary? ==> Payload(i) in w)
  }

  function FrameOf<D>(sends: seq<Send<D>>, x: Write): Frame<D> {
    if x.i >= |sends| then Garbled
    else if x.Header? then TextFrame(Intended(sends[x.i]).message)
    else if sends[x.i].WithBinary? then BinaryFrame(sends[x.i].payload)
    else Garbled
  }

  function Wire<D>(sends: seq<Send<D>>, w: seq<Write>): seq<Frame<D>> {
    seq(|w|, k requires 0 <= k < |w| => FrameOf(sends, w[k]))
  }

  predicate IsBinary<D>(sends: seq<Send<D>>, x: Write) {
    x.i < |sends| && sends[x.i].WithBinary?
  }

  /** What the sends that have written all their frames were to deliver, in the order of their last frames. */
  function Completed<D>(sends: seq<Send<D>>, w: seq<Write>): seq<Delivery<D>> {
    if w == [] then []
    else
      var x := w[|w| - 1];
      Completed(sends, w[..|w| - 1])
      + if x.i < |sends| && (x.Payload? || sends[x.i].Plain?) then [Intended(sends[x.i])] else []
  }

  /** Between the message and the payload of a binary send lies a frame of another binary send. */
  ghost predicate Crossed<D>(sends: seq<Send<D>>, w: seq<Write>) {
    exists h, k, p :: 0 <= h < k < p < |w| && CrossedAt(sends, w, h, k, p)
  }

  predicate CrossedAt<D>(sends: seq<Send<D>>, w: seq<Write>, h: nat, k: nat, p: nat)
    requires h < k < p < |w|
  {
    w[h].Header? && w[p] == Payload(w[h].i) && w[k].i != w[h].i && IsBinary(sends, w[k])
  }

  function Delivered<D>(sends: seq<Send<D>>, w: seq<Write>): seq<Delivery<D>> {
    Decode(Wire(sends, w)).delivered
  }

  /** The last frame of a binary send. */
  function Last<D>(sends: seq<Send<D>>, w: seq<Write>): Option<Write> {
    if w == [] then None
    else if IsBinary(sends, w[|w| - 1]) then Some(w[|w| - 1])
    else Last(sends, w[..|w| - 1])
  }

  /** The message whose payload the receiver takes the next binary frame for. */
  function Announced<D>(sends: seq<Send<D>>, w: seq<Write>): Option<nat> {
    match Last(sends, w)
    case Some(Header(i)) => Some(i)
    case _ => None
  }

  lemma {:induction false} ReceiverState<D>(sends: seq<Send<D>>, w: seq<Write>)
    requires PlainUnflagged(sends) && Interleaving(sends, w)
    ensures var r, told := Decode(Wire(sends, w)), Announced(sends, w);
      && r.reading
      && (told.Some? ==> told.value < |sends|)
      && r.waiting == if told.Some? then Some(Intended(sends[told.value]).message) else None
  {
    if w != [] {
      var n := |w| - 1;
      ReceiverState(sends, w[..n]);
      WireSnoc(sends, w);
      var x := w[n];
      assert sends[x.i] in sends;
    }
  }

  lemma WireSnoc<D>(sends: seq<Send<D>>, w: seq<Write>)
    requires w != []
    ensures var n := |w| - 1;
      Decode(Wire(sends, w)) == Receive(Decode(Wire(sends, w[..n])), FrameOf(sends, w[n]))
  {
    var n := |w| - 1;
    assert Wire(sends, w) == Wire(sends, w[..n]) + [FrameOf(sends, w[n])];
    DecodeSnoc(Wire(sends, w[..n]), FrameOf(sends, w[n]));
  }

  /** What one more write makes the receiver hand on. */
  lemma DeliveredNext<D>(sends: seq<Send<D>>, w: seq<Write>)
    requires PlainUnflagged(sends) && w != [] && Interleaving(sends, w)
    ensures var before, x := w[..|w| - 1], w[|w| - 1];
      var told := Announced(sends, before);
      && (told.Some? ==> told.value < |sends|)
      && Delivered(sends, w) == Delivered(sends, before) +
         match sends[x.i]
         case Plain(_) => [Intended(sends[x.i])]
         case WithBinary(_, payload) =>
           if x.Payload? && told.Some? then [Delivery(Intended(sends[told.value]).message, Some(payload))] else []
  {
    ReceiverState(sends, w[..|w| - 1]);
    WireSnoc(sends, w);
    assert sends[w[|w| - 1].i] in sends;
  }

  // ----- Uncrossed frames are all handed on.

  /** The last binary frame, and where it is. */
  lemma {:induction false} LastAt<D>(sends: seq<Send<D>>, w: seq<Write>) returns (k: nat)
    ensures match Last(sends, w)
      case Some(x) => k < |w| && w[k] == x && IsBinary(sends, x) && forall j :: k < j < |w| ==> !IsBinary(sends, w[j])
      case None => forall j :: 0 <= j < |w| ==> !IsBinary(sends, w[j])
  {
    if w == [] {
      k := 0;
    } else if IsBinary(sends, w[|w| - 1]) {
      k := |w| - 1;
    } else {
      k := LastAt(sends, w[..|w| - 1]);
    }
  }

  lemma UncrossedBefore<D>(sends: seq<Send<D>>, w: seq<Write>)
    requires w != [] && !Crossed(sends, w)
    ensures !Crossed(sends, w[..|w| - 1])
  {
    var before := w[..|w| - 1];
    forall h, k, p | 0 <= h < k < p < |before| ensures !CrossedAt(sends, before, h, k, p) {
      assert !CrossedAt(sends, w, h, k, p);
    }
  }

  /** Each write appears once. */
  lemma {:induction false} WrittenOnce<D>(sends: seq<Send<D>>, w: seq<Write>)
    requires Interleaving(sends, w)
    ensures forall j, k :: 0 <= j < k < |w| ==> w[j] != w[k]
  {
    if w != [] {
      WrittenOnce(sends, w[..|w| - 1]);
      assert forall j :: 0 <= j < |w| - 1 ==> w[j] == w[..|w| - 1][j];
    }
  }

  /** A payload that crosses nothing follows its own message. */
  lemma UncrossedPayload<D>(sends: seq<Send<D>>, w: seq<Write>)
    requires w != [] && w[|w| - 1].Payload? && Interleaving(sends, w) && !Crossed(sends, w)
    ensures Announced(sends, w[..|w| - 1]) == Some(w[|w| - 1].i)
  {
    var n := |w| - 1;
    var before, i := w[..n], w[n].i;
    var h :| 0 <= h < n && before[h] == Header(i);
    var k := LastAt(sends, before);
    assert IsBinary(sends, before[h]);
    if h < k { assert !CrossedAt(sends, w, h, k, n); }
    WrittenOnce(sends, w);
  }

  /** While no frames cross, what is handed on is what the finished sends meant, in the order they finished. */
  lemma {:induction false} UncrossedDelivers<D>(sends: seq<Send<D>>, w: seq<Write>)
    requires PlainUnflagged(sends) && Interleaving(sends, w) && !Crossed(sends, w)
    ensures Delivered(sends, w) == Completed(sends, w)
  {
    if w != [] {
      UncrossedBefore(sends, w);
      UncrossedDelivers(sends, w[..|w| - 1]);
      DeliveredNext(sends, w);
      if w[|w| - 1].Payload? { UncrossedPayload(sends, w); }
    }
  }

  // ----- Crossed frames lose something, once everything has been written.

  /** The binary sends that have written their message but not their payload. */
  function Open<D>(sends: seq<Send<D>>, w: seq<Write>): set<nat> {
    set i | 0 <= i < |sends| && IsOpen(sends, w, i)
  }

  predicate IsOpen<D>(sends: seq<Send<D>>, w: seq<Write>, i: nat) {
    i < |sends| && sends[i].WithBinary? && Header(i) in w && Payload(i) !in w
  }

  /** Only the writer's own send changes. */
  lemma OthersKept<D>(sends: seq<Send<D>>, w: seq<Write>, i: nat)
    requires w != [] && i != w[|w| - 1].i
    ensures IsOpen(sends, w, i) <==> IsOpen(sends, w[..|w| - 1], i)
    ensures IsDone(sends, w, i) <==> IsDone(sends, w[..|w| - 1], i)
  {
    WrittenNext(w, Header(i));
    WrittenNext(w, Payload(i));
  }

  lemma OwnChange<D>(sends: seq<Send<D>>, w: seq<Write>)
    requires w != [] && Interleaving(sends, w)
    ensures var before, x := w[..|w| - 1], w[|w| - 1];
      && IsOpen(sends, before, x.i) == (sends[x.i].WithBinary? && x.Payload?)
      && IsOpen(sends, w, x.i) == (sends[x.i].WithBinary? && x.Header?)
      && !IsDone(sends, before, x.i)
      && IsDone(sends, w, x.i) == (x.Payload? || sends[x.i].Plain?)
  {
    var before, x := w[..|w| - 1], w[|w| - 1];
    HeaderFirst(sends, before);
    WrittenNext(w, Header(x.i));
    WrittenNext(w, Payload(x.i));
    if sends[x.i].Plain? { NoPayload(sends, before, x.i); }
  }

  lemma WrittenNext(w: seq<Write>, y: Write)
    requires w != []
    ensures y in w <==> y in w[..|w| - 1] || y == w[|w| - 1]
  {
    assert w == w[..|w| - 1] + [w[|w| - 1]];
  }

  lemma {:induction false} NoPayload<D>(sends: seq<Send<D>>, w: seq<Write>, i: nat)
    requires Interleaving(sends, w) && i < |sends| && sends[i].Plain?
    ensures Payload(i) !in w
  {
    if w != [] {
      NoPayload(sends, w[..|w| - 1], i);
      WrittenNext(w, Payload(i));
    }
  }

  function One<D>(o: Option<D>): nat {
    if o.Some? then 1 else 0
  }

  /** How many finished sends have not been handed on. */
  function Lost<D>(sends: seq<Send<D>>, w: seq<Write>): int {
    |Completed(sends, w)| - |Delivered(sends, w)|
  }

  /** How many announced messages have been replaced by another before their payload came, less those made up for. */
  function Replaced<D>(sends: seq<Send<D>>, w: seq<Write>): int {
    |Open(sends, w)| - One(Announced(sends, w)) + Lost(sends, w)
  }

  lemma OpenNext<D>(sends: seq<Send<D>>, w: seq<Write>)
    requires w != [] && Interleaving(sends, w)
    ensures var before, x := w[..|w| - 1], w[|w| - 1];
      |Open(sends, w)| == |Open(sends, before)| + if sends[x.i].Plain? then 0 else if x.Header? then 1 else -1
  {
    var before, x := w[..|w| - 1], w[|w| - 1];
    var a, b := Open(sends, before), Open(sends, w);
    OwnChange(sends, w);
    forall i: nat | i != x.i ensures i in a <==> i in b {
      OthersKept(sends, w, i);
    }
    SetsDiffer(a, b, x.i);
  }

  /** Two sets that differ in one element at most. */
  lemma SetsDiffer(a: set<nat>, b: set<nat>, i: nat)
    requires forall j: nat :: j != i ==> (j in a <==> j in b)
    ensures |b| == |a| + (if i in b then 1 else 0) - if i in a then 1 else 0
  {
    assert a - {i} == b - {i};
    assert |a - {i}| == |a| - if i in a then 1 else 0;
    assert |b - {i}| == |b| - if i in b then 1 else 0;
  }

  lemma {:induction false} HeaderFirst<D>(sends: seq<Send<D>>, w: seq<Write>)
    requires Interleaving(sends, w)
    ensures forall i :: Payload(i) in w ==> Header(i) in w
  {
    if w != [] {
      HeaderFirst(sends, w[..|w| - 1]);
      assert w == w[..|w| - 1] + [w[|w| - 1]];
    }
  }

  /** Losses and replacements only grow. */
  lemma LossesGrow<D>(sends: seq<Send<D>>, w: seq<Write>)
    requires PlainUnflagged(sends) && w != [] && Interleaving(sends, w)
    ensures Lost(sends, w[..|w| - 1]) <= Lost(sends, w) && Replaced(sends, w[..|w| - 1]) <= Replaced(sends, w)
  {
    OpenNext(sends, w);
    DeliveredNext(sends, w);
  }

  lemma {:induction false} LossesNotNegative<D>(sends: seq<Send<D>>, w: seq<Write>)
    requires PlainUnflagged(sends) && Interleaving(sends, w)
    ensures 0 <= Lost(sends, w) && 0 <= Replaced(sends, w)
  {
    if w != [] {
      LossesGrow(sends, w);
      LossesNotNegative(sends, w[..|w| - 1]);
    } else {
      assert Open(sends, w) == {};
    }
  }

  /** The announced send has not written its payload. */
  lemma {:induction false} AnnouncedIsOpen<D>(sends: seq<Send<D>>, w: seq<Write>)
    requires Interleaving(sends, w) && Announced(sends, w).Some?
    ensures Announced(sends, w).value in Open(sends, w)
  {
    if w != [] {
      var before, x := w[..|w| - 1], w[|w| - 1];
      assert w == before + [x];
      HeaderFirst(sends, before);
      if !IsBinary(sends, x) { AnnouncedIsOpen(sends, before); }
    }
  }

  /** With nothing lost or replaced so far, no frames have crossed. */
  lemma {:induction false} NothingLostUncrossed<D>(sends: seq<Send<D>>, w: seq<Write>)
    requires PlainUnflagged(sends) && Interleaving(sends, w)
    requires Lost(sends, w) == 0 && Replaced(sends, w) == 0
    ensures !Crossed(sends, w)
  {
    if w != [] {
      var n := |w| - 1;
      LossesGrow(sends, w);
      LossesNotNegative(sends, w[..n]);
      NothingLostUncrossed(sends, w[..n]);
      forall h, k, p | 0 <= h < k < p < |w| ensures !CrossedAt(sends, w, h, k, p) {
        if p < n {
          assert !CrossedAt(sends, w[..n], h, k, p);
        } else if CrossedAt(sends, w, h, k, p) {
          LastPayloadUncrossed(sends, w, h, k);
        }
      }
    }
  }

  /** Where one send at most is open, the payload of that send crosses nothing. */
  lemma LastPayloadUncrossed<D>(sends: seq<Send<D>>, w: seq<Write>, h: nat, k: nat)
    requires Interleaving(sends, w) && h < k < |w| - 1
    requires |Open(sends, w[..|w| - 1])| == One(Announced(sends, w[..|w| - 1]))
    requires w[h].Header? && w[|w| - 1] == Payload(w[h].i)
    ensures w[k].i == w[h].i || !IsBinary(sends, w[k])
  {
    var n := |w| - 1;
    var before, i := w[..n], w[h].i;
    assert before[h] == Header(i) && before[k] == w[k];
    assert i in Open(sends, before);
    AnnouncedIsOpen(sends, before);
    var j := Announced(sends, before).value;
    if i != j { CardinalityAtLeastTwo(Open(sends, before), i, j); }
    var last := LastAt(sends, before);
    WrittenOnce(sends, w);
  }

  lemma CardinalityAtLeastTwo(s: set<nat>, i: nat, j: nat)
    requires i in s && j in s && i != j
    ensures 2 <= |s|
  {
    assert |s - {i}| == |s| - 1 && j in s - {i};
  }

  function Done<D>(sends: seq<Send<D>>, w: seq<Write>): set<nat> {
    set i | 0 <= i < |sends| && IsDone(sends, w, i)
  }

  predicate IsDone<D>(sends: seq<Send<D>>, w: seq<Write>, i: nat) {
    i < |sends| && if sends[i].WithBinary? then Payload(i) in w else Header(i) in w
  }

  lemma {:induction false} CompletedCount<D>(sends: seq<Send<D>>, w: seq<Write>)
    requires Interleaving(sends, w)
    ensures |Completed(sends, w)| == |Done(sends, w)|
  {
    if w == [] {
      assert Done(sends, w) == {};
    } else {
      var before, x := w[..|w| - 1], w[|w| - 1];
      CompletedCount(sends, before);
      OwnChange(sends, w);
      forall i: nat | i != x.i ensures i in Done(sends, before) <==> i in Done(sends, w) {
        OthersKept(sends, w, i);
      }
      SetsDiffer(Done(sends, before), Done(sends, w), x.i);
    }
  }

  lemma {:induction false} CountBelow(n: nat, s: set<nat>)
    requires forall i: nat :: i in s <==> i < n
    ensures |s| == n
  {
    if n > 0 {
      CountBelow(n - 1, s - {n - 1});
    } else {
      assert s == {};
    }
  }

  /**
   However the senders' writes interleave: once all is written, everything sent has been handed on, each binary message
   with its own payload, exactly if no frame of another binary send lies between a message and its payload. Messages
   without a payload may lie there. If frames cross, something is lost.
   */
  lemma DeliveredIffUncrossed<D>(sends: seq<Send<D>>, w: seq<Write>)
    requires PlainUnflagged(sends) && Interleaving(sends, w) && Finished(sends, w)
    ensures |Completed(sends, w)| == |sends|
    ensures Delivered(sends, w) == Completed(sends, w) <==> !Crossed(sends, w)
    ensures Crossed(sends, w) ==> |Delivered(sends, w)| < |sends|
  {
    CompletedCount(sends, w);
    CountBelow(|sends|, Done(sends, w));
    LossesNotNegative(sends, w);
    if !Crossed(sends, w) { UncrossedDelivers(sends, w); }
    assert Open(sends, w) == {};
    if Announced(sends, w).Some? { AnnouncedIsOpen(sends, w); }
    if Lost(sends, w) == 0 { NothingLostUncrossed(sends, w); }
  }

  lemma WriteOne<D>(sends: seq<Send<D>>, w: seq<Write>, x: Write)
    requires Interleaving(sends, w) && CanWrite(sends, w, x)
    ensures Interleaving(sends, w + [x])
  {
    assert (w + [x])[..|w|] == w;
  }

  /** Two binary sends at the same time can lose one message. */
  lemma TwoCanCross<D>(a: Message<D>, b: Message<D>, p: seq<Byte>, q: seq<Byte>)
    ensures var sends, w := [WithBinary(a, p), WithBinary(b, q)], [Header(0), Header(1), Payload(0), Payload(1)];
      && Interleaving(sends, w) && Finished(sends, w) && Crossed(sends, w)
      && |Delivered(sends, w)| < 2
  {
    var sends, w := [WithBinary(a, p), WithBinary(b, q)], [Header(0), Header(1), Payload(0), Payload(1)];
    var none: seq<Write> := [];
    WriteOne(sends, none, Header(0));
    assert none + [Header(0)] == [Header(0)];
    WriteOne(sends, [Header(0)], Header(1));
    assert [Header(0)] + [Header(1)] == [Header(0), Header(1)];
    WriteOne(sends, [Header(0), Header(1)], Payload(0));
    assert [Header(0), Header(1)] + [Payload(0)] == [Header(0), Header(1), Payload(0)];
    WriteOne(sends, [Header(0), Header(1), Payload(0)], Payload(1));
    assert [Header(0), Header(1), Payload(0)] + [Payload(1)] == w;
    assert CrossedAt(sends, w, 0, 1, 2);
    DeliveredIffUncrossed(sends, w);
  }
}
