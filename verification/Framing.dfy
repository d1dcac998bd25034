/**
 Messages over one WebSocket: senders write under a mutex, a message with binary data as two frames; the receiver
 puts them together again with two variables.
 */
module Framing {
  import opened Bytes
  import opened Options

  /** `D` is the rest of a message: method, data, error and so on. */
  datatype Message<D> = Message(requestID: nat, responseID: nat, moduleID: nat, content: D, binary: bool)

  /** A text frame that is not a message is `Garbled`. */
  datatype Frame<D> = TextFrame(message: Message<D>) | Garbled | BinaryFrame(payload: seq<Byte>)

  /** What the receiver hands on: a message, and its payload if it announced one. */
  datatype Delivery<D> = Delivery(message: Message<D>, payload: Option<seq<Byte>>)

  // ----- The receiver.

  /** What was handed on, the message waiting for its payload, and whether the connection is still read. */
  datatype Received<D> = Received(delivered: seq<Delivery<D>>, waiting: Option<Message<D>>, reading: bool)

  function Receive<D>(r: Received<D>, frame: Frame<D>): Received<D> {
    if !r.reading then r
    else
      match frame
      case Garbled => r.(reading := false)
      case TextFrame(m) =>
        if m.binary then r.(waiting := Some(m))
        else r.(delivered := r.delivered + [Delivery(m, None)])
      case BinaryFrame(p) =>
        if r.waiting.Some? then
          r.(delivered := r.delivered + [Delivery(r.waiting.value, Some(p))], waiting := None)
        else r
  }

  function Decode<D>(frames: seq<Frame<D>>): Received<D> {
    if frames == [] then Received([], None, true)
    else Receive(Decode(frames[..|frames| - 1]), frames[|frames| - 1])
  }

  lemma DecodeSnoc<D>(frames: seq<Frame<D>>, frame: Frame<D>)
    ensures Decode(frames + [frame]) == Receive(Decode(frames), frame)
  {
    assert (frames + [frame])[..|frames|] == frames;
  }

  /** The read loop, with its variables `expectingBinary` and `lastJSONMessage`. */
  method HandleFrames<D>(frames: seq<Frame<D>>) returns (delivered: seq<Delivery<D>>, reading: bool)
    ensures delivered == Decode(frames).delivered && reading == Decode(frames).reading
  {
    var expectingBinary := false;
    var lastMessage: Option<Message<D>> := None;
    delivered, reading := [], true;
    assert frames[..0] == [];
    for k := 0 to |frames|
      invariant expectingBinary <==> lastMessage.Some?
      invariant Decode(frames[..k]) == Received(delivered, lastMessage, true)
    {
      assert frames[..k + 1] == frames[..k] + [frames[k]];
      DecodeSnoc(frames[..k], frames[k]);
      match frames[k]
      case Garbled =>
        StaysClosed(frames, k + 1);
        reading := false;
        return;
      case TextFrame(m) =>
        if m.binary {
          expectingBinary := true;
          lastMessage := Some(m);
        } else {
          delivered := delivered + [Delivery(m, None)];
        }
      case BinaryFrame(p) =>
        if expectingBinary && lastMessage.Some? {
          delivered := delivered + [Delivery(lastMessage.value, Some(p))];
          expectingBinary := false;
          lastMessage := None;
        }
    }
    assert frames[..|frames|] == frames;
  }

  lemma {:induction false} StaysClosed<D>(frames: seq<Frame<D>>, k: nat)
    requires k <= |frames| && !Decode(frames[..k]).reading
    ensures Decode(frames) == Decode(frames[..k])
    decreases |frames|
  {
    if k == |frames| {
      assert frames[..k] == frames;
    } else {
      var before := frames[..|frames| - 1];
      assert before[..k] == frames[..k];
      StaysClosed(before, k);
    }
  }

  // ----- The senders.

  /** A text frame that is not a message ends the reading: nothing that comes after it is handed on. */
  lemma GarbledEnds<D>(frames: seq<Frame<D>>, k: nat)
    requires k < |frames| && frames[k].Garbled?
    ensures !Decode(frames).reading && Decode(frames).delivered == Decode(frames[..k]).delivered
  {
    assert frames[..k + 1] == frames[..k] + [frames[k]];
    DecodeSnoc(frames[..k], frames[k]);
    StaysClosed(frames, k + 1);
  }

  /** A call of `SendMessage` or `SendMessageWithBinary`. */
  datatype Send<D> = Plain(message: Message<D>) | WithBinary(message: Message<D>, payload: seq<Byte>)

  datatype Phase = Idle | Locked | HalfSent | Sent | Failed

  datatype Sender<D> = Sender(todo: seq<Send<D>>, phase: Phase)

  /**
   The connection and its senders. `turns` records the sends in the order their callers got the mutex, `broken`
   that a write has failed; gorilla/websocket then fails all later writes too.
   */
  datatype State<D> = State(
    senders: seq<Sender<D>>,
    holder: Option<nat>,
    wire: seq<Frame<D>>,
    broken: bool,
    turns: seq<Send<D>>)

  datatype Step = Lock(i: nat) | WriteText(i: nat) | WriteBinary(i: nat) | Fail(i: nat) | Unlock(i: nat)

  predicate Enabled<D>(s: State<D>, step: Step) {
    && step.i < |s.senders|
    && var x := s.senders[step.i];
       match step
       case Lock(_) => x.phase == Idle && x.todo != [] && s.holder == None
       case WriteText(_) => x.phase == Locked && x.todo != [] && !s.broken
       case WriteBinary(_) => x.phase == HalfSent && x.todo != [] && x.todo[0].WithBinary? && !s.broken
       case Fail(_) => x.phase == Locked || x.phase == HalfSent
       case Unlock(_) => (x.phase == Sent || x.phase == Failed) && x.todo != []
  }

  function Apply<D>(s: State<D>, step: Step): State<D>
    requires Enabled(s, step)
  {
    var i, x := step.i, s.senders[step.i];
    match step
    case Lock(_) =>
      s.(senders := s.senders[i := x.(phase := Locked)], holder := Some(i), turns := s.turns + [x.todo[0]])
    case WriteText(_) =>
      (match x.todo[0]
       case Plain(m) =>
         s.(senders := s.senders[i := x.(phase := Sent)], wire := s.wire + [TextFrame(m)])
       case WithBinary(m, _) =>
         s.(senders := s.senders[i := x.(phase := HalfSent)], wire := s.wire + [TextFrame(m.(binary := true))]))
    case WriteBinary(_) =>
      s.(senders := s.senders[i := x.(phase := Sent)], wire := s.wire + [BinaryFrame(x.todo[0].payload)])
    case Fail(_) =>
      s.(senders := s.senders[i := x.(phase := Failed)], broken := true)
    case Unlock(_) =>
      s.(senders := s.senders[i := Sender(x.todo[1..], Idle)], holder := None)
  }

  ghost predicate Legal<D>(s: State<D>, steps: seq<Step>)
    decreases |steps|
  {
    steps == [] || (Enabled(s, steps[0]) && Legal(Apply(s, steps[0]), steps[1..]))
  }

  ghost function Execute<D>(s: State<D>, steps: seq<Step>): State<D>
    requires Legal(s, steps)
    decreases |steps|
  {
    if steps == [] then s else Execute(Apply(s, steps[0]), steps[1..])
  }

  /** Before anything is sent. Messages for `SendMessage` do not have the binary flag set. */
  ghost predicate Initial<D>(s: State<D>) {
    && s.holder == None && s.wire == [] && !s.broken && s.turns == []
    && forall i :: 0 <= i < |s.senders| ==> s.senders[i].phase == Idle && PlainUnflagged(s.senders[i].todo)
  }

  ghost predicate PlainUnflagged<D>(todo: seq<Send<D>>) {
    forall x <- todo :: x.Plain? ==> !x.message.binary
  }

  /** What a send is meant to deliver. */
  function Intended<D>(x: Send<D>): Delivery<D> {
    match x
    case Plain(m) => Delivery(m, None)
    case WithBinary(m, p) => Delivery(m.(binary := true), Some(p))
  }

  function AllIntended<D>(xs: seq<Send<D>>): seq<Delivery<D>> {
    if xs == [] then [] else AllIntended(xs[..|xs| - 1]) + [Intended(xs[|xs| - 1])]
  }

  /** All turns but the last, which may still be under way. */
  function Earlier<D>(turns: seq<Send<D>>): seq<Send<D>>
    requires turns != []
  {
    turns[..|turns| - 1]
  }

  /** Only the holder is past `Idle`. */
  ghost predicate MutexOk<D>(s: State<D>) {
    && (s.holder.Some? ==> s.holder.value < |s.senders|)
    && forall i :: 0 <= i < |s.senders| ==>
         && PlainUnflagged(s.senders[i].todo)
         && (s.senders[i].phase == Idle <==> s.holder != Some(i))
  }

  /** The send the holder of the mutex is working on is the last turn. */
  ghost predicate TurnOk<D>(s: State<D>) {
    s.holder.Some? ==>
      && s.holder.value < |s.senders| && s.turns != []
      && var x := s.senders[s.holder.value];
         && x.todo != [] && s.turns[|s.turns| - 1] == x.todo[0]
         && (x.phase == HalfSent ==> x.todo[0].WithBinary?)
         && (x.phase == Failed ==> s.broken)
  }

  /** What the receiver has while no write has failed: the turns that are over, and half a message if one is. */
  ghost function Expected<D>(s: State<D>): Received<D>
    requires TurnOk(s)
  {
    if s.holder == None then Received(AllIntended(s.turns), None, true)
    else
      var x := s.senders[s.holder.value];
      match x.phase
      case Locked => Received(AllIntended(Earlier(s.turns)), None, true)
      case HalfSent => Received(AllIntended(Earlier(s.turns)), Some(x.todo[0].message.(binary := true)), true)
      case _ => Received(AllIntended(s.turns), None, true)
  }

  ghost predicate WireOk<D>(s: State<D>) {
    && TurnOk(s)
    && if s.broken then Decode(s.wire).delivered <= AllIntended(s.turns) else Decode(s.wire) == Expected(s)
  }

  ghost predicate Inv<D>(s: State<D>) {
    MutexOk(s) && WireOk(s)
  }

  lemma {:induction false} AllIntendedPrefix<D>(xs: seq<Send<D>>, x: Send<D>)
    ensures AllIntended(xs + [x]) == AllIntended(xs) + [Intended(x)]
  {
    assert (xs + [x])[..|xs|] == xs;
  }

  lemma MutexKept<D>(s: State<D>, step: Step)
    requires MutexOk(s) && Enabled(s, step)
    ensures MutexOk(Apply(s, step))
  {
  }

  lemma LastTurn<D>(turns: seq<Send<D>>)
    requires turns != []
    ensures AllIntended(turns) == AllIntended(Earlier(turns)) + [Intended(turns[|turns| - 1])]
  {
  }

  lemma WriteTextKeepsWire<D>(s: State<D>, i: nat)
    requires Inv(s) && Enabled(s, WriteText(i))
    ensures WireOk(Apply(s, WriteText(i)))
  {
    var send := s.senders[i].todo[0];
    assert s.holder == Some(i) && send in s.senders[i].todo;
    DecodeSnoc(s.wire, Apply(s, WriteText(i)).wire[|s.wire|]);
    LastTurn(s.turns);
  }

  lemma WriteBinaryKeepsWire<D>(s: State<D>, i: nat)
    requires Inv(s) && Enabled(s, WriteBinary(i))
    ensures WireOk(Apply(s, WriteBinary(i)))
  {
    assert s.holder == Some(i);
    DecodeSnoc(s.wire, BinaryFrame(s.senders[i].todo[0].payload));
    LastTurn(s.turns);
  }

  lemma OtherStepsKeepWire<D>(s: State<D>, step: Step)
    requires Inv(s) && Enabled(s, step) && !step.WriteText? && !step.WriteBinary?
    ensures WireOk(Apply(s, step))
  {
    var t := Apply(s, step);
    match step
    case Lock(i) =>
      AllIntendedPrefix(s.turns, s.senders[i].todo[0]);
      assert Earlier(t.turns) == s.turns;
    case Fail(_) =>
      if !s.broken { LastTurn(s.turns); }
    case Unlock(_) =>
  }

  lemma {:induction false} RunKeepsInv<D>(s: State<D>, steps: seq<Step>)
    requires Inv(s) && Legal(s, steps)
    ensures Inv(Execute(s, steps))
    decreases |steps|
  {
    if steps != [] {
      MutexKept(s, steps[0]);
      match steps[0] {
        case WriteText(i) => WriteTextKeepsWire(s, i);
        case WriteBinary(i) => WriteBinaryKeepsWire(s, i);
        case _ => OtherStepsKeepWire(s, steps[0]);
      }
      RunKeepsInv(Apply(s, steps[0]), steps[1..]);
    }
  }

  /**
   For every interleaving of any number of senders: while no write fails, the receiver has handed on exactly the
   messages sent, in the order in which their senders got the mutex, each binary message with its own payload; at
   most the message being written now is missing. After a failure it has handed on the messages before it.
   */
  lemma RoundTrip<D>(s: State<D>, steps: seq<Step>)
    requires Initial(s) && Legal(s, steps)
    ensures var t := Execute(s, steps);
            var delivered := Decode(t.wire).delivered;
            && delivered <= AllIntended(t.turns)
            && (!t.broken ==> |t.turns| <= |delivered| + 1)
            && (!t.broken && t.holder == None ==> delivered == AllIntended(t.turns))
  {
    RunKeepsInv(s, steps);
    var t := Execute(s, steps);
    AllIntendedLength(t.turns);
    if t.turns != [] {
      AllIntendedLength(Earlier(t.turns));
      LastTurn(t.turns);
    }
  }

  lemma {:induction false} AllIntendedLength<D>(xs: seq<Send<D>>)
    ensures |AllIntended(xs)| == |xs|
  {
    if xs != [] { AllIntendedLength(xs[..|xs| - 1]); }
  }

  /** How often sender `i` got the mutex, and what it sent then. */
  ghost function TurnsOf<D>(s: State<D>, steps: seq<Step>, i: nat): seq<Send<D>>
    requires Legal(s, steps)
    decreases |steps|
  {
    if steps == [] then []
    else (if steps[0] == Lock(i) then [s.senders[i].todo[0]] else []) + TurnsOf(Apply(s, steps[0]), steps[1..], i)
  }

  /** What a sender has still to get the mutex for. */
  function Waiting<D>(x: Sender<D>): seq<Send<D>> {
    if x.phase == Idle || x.todo == [] then x.todo else x.todo[1..]
  }

  lemma StepTakesTurn<D>(s: State<D>, step: Step, i: nat)
    requires Enabled(s, step) && i < |s.senders|
    ensures |Apply(s, step).senders| == |s.senders|
    ensures Waiting(s.senders[i]) ==
            (if step == Lock(i) then [s.senders[i].todo[0]] else []) + Waiting(Apply(s, step).senders[i])
  {
  }

  /** Each sender sends what it has to send, in order, leaving nothing out. */
  lemma {:induction false} TurnsInOrder<D>(s: State<D>, steps: seq<Step>, i: nat)
    requires Legal(s, steps) && i < |s.senders|
    ensures |Execute(s, steps).senders| == |s.senders|
    ensures Waiting(s.senders[i]) == TurnsOf(s, steps, i) + Waiting(Execute(s, steps).senders[i])
    decreases |steps|
  {
    if steps != [] {
      StepTakesTurn(s, steps[0], i);
      TurnsInOrder(Apply(s, steps[0]), steps[1..], i);
    }
  }

  /** `turns` has the turns of all senders: as many of each send as they took. */
  lemma {:induction false} TurnsAreTaken<D>(s: State<D>, steps: seq<Step>)
    requires Legal(s, steps)
    ensures Execute(s, steps).turns == s.turns + AllTurns(s, steps)
    decreases |steps|
  {
    if steps != [] { TurnsAreTaken(Apply(s, steps[0]), steps[1..]); }
  }

  /** The sends of all `Lock` steps, in the order of these steps. */
  ghost function AllTurns<D>(s: State<D>, steps: seq<Step>): seq<Send<D>>
    requires Legal(s, steps)
    decreases |steps|
  {
    if steps == [] then []
    else
      (if steps[0].Lock? then [s.senders[steps[0].i].todo[0]] else []) + AllTurns(Apply(s, steps[0]), steps[1..])
  }

  /** While a sender has something to send, somebody can take a step; while no write fails, one that is not a failure. */
  lemma SomeSenderMoves<D>(s: State<D>, steps: seq<Step>, i: nat) returns (step: Step)
    requires Initial(s) && Legal(s, steps)
    requires i < |Execute(s, steps).senders| && Execute(s, steps).senders[i].todo != []
    ensures Enabled(Execute(s, steps), step)
    ensures step.Fail? ==> Execute(s, steps).broken
  {
    assert WireOk(s);
    RunKeepsInv(s, steps);
    var t := Execute(s, steps);
    if t.holder == None {
      step := Lock(i);
    } else {
      var h := t.holder.value;
      match t.senders[h].phase
      case Locked => step := if t.broken then Fail(h) else WriteText(h);
      case HalfSent => step := if t.broken then Fail(h) else WriteBinary(h);
      case _ => step := Unlock(h);
    }
  }
}
