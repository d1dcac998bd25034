/**
 Requests of the hook client and their answers: any number of goroutines in `sendRequest`, one reader, and a server
 that answers every request it gets once.
 */
module ClientRequests {
  import opened Options

  /** `responseID` 0 marks an event; `body` stands for the rest of the message. */
  datatype Reply = Reply(responseID: nat, body: nat)

  datatype Outcome = Pending | SendFailed | GaveUp | Answered(reply: Reply)

  /** Where a call of `sendRequest` is. The comment gives what it does next. */
  datatype Phase =
    | Numbered     // make the channel and put it into pendingRequests
    | Registered   // write the request
    | Waiting      // the select: answer, or timeout or cancellation
    | Leaving      // the deferred delete
    | Returned

  datatype Request = Request(phase: Phase, outcome: Outcome)

  /** What has become of the answer to a request. */
  datatype Fate = Underway | BeingRead | InSlot | Taken | NobodyWaits

  /**
   Request number `k` of `requests` has ID `k + 1`. `slots` are the one-place channels made so far, `pending` the
   keys of pendingRequests. `toServer` and `toClient` hold what is on its way, in any order; `reading` is a reply
   whose channel the reader has looked up but not yet written to. `answers` and `fates` record what the server
   said and where that is; `overflowed` that the reader once found a channel full.
   */
  datatype State = State(
    requests: seq<Request>,
    pending: set<nat>,
    slots: map<nat, Option<Reply>>,
    toServer: multiset<nat>,
    toClient: multiset<Reply>,
    reading: Option<Reply>,
    answers: map<nat, nat>,
    fates: map<nat, Fate>,
    overflowed: bool)

  function Init(): State {
    State([], {}, map[], multiset{}, multiset{}, None, map[], map[], false)
  }

  datatype Step =
    | NextID
    | Register(id: nat)
    | Send(id: nat)
    | FailToSend(id: nat)
    | Answer(id: nat, body: nat)
    | Notify(body: nat)
    | Read(reply: Reply)
    | Deliver
    | TakeAnswer(id: nat)
    | GiveUp(id: nat)
    | Unregister(id: nat)

  predicate InPhase(s: State, id: nat, phase: Phase) {
    0 < id <= |s.requests| && s.requests[id - 1].phase == phase
  }

  predicate Enabled(s: State, step: Step) {
    match step
    case NextID => true
    case Register(id) => InPhase(s, id, Numbered)
    case Send(id) => InPhase(s, id, Registered)
    case FailToSend(id) => InPhase(s, id, Registered)
    case Answer(id, _) => id in s.toServer
    case Notify(_) => true
    case Read(reply) => reply in s.toClient && s.reading == None
    case Deliver => s.reading.Some?
    case TakeAnswer(id) => InPhase(s, id, Waiting) && id in s.slots && s.slots[id].Some?
    case GiveUp(id) => InPhase(s, id, Waiting)
    case Unregister(id) => InPhase(s, id, Leaving)
  }

  function SetRequest(s: State, id: nat, r: Request): State
    requires 0 < id <= |s.requests|
  {
    s.(requests := s.requests[id - 1 := r])
  }

  function Apply(s: State, step: Step): State
    requires Enabled(s, step)
  {
    match step
    case NextID => s.(requests := s.requests + [Request(Numbered, Pending)])
    case Register(id) =>
      SetRequest(s, id, Request(Registered, Pending)).(pending := s.pending + {id}, slots := s.slots[id := None])
    case Send(id) =>
      SetRequest(s, id, Request(Waiting, Pending)).(toServer := s.toServer + multiset{id})
    case FailToSend(id) => SetRequest(s, id, Request(Leaving, SendFailed))
    case Answer(id, body) =>
      s.(toServer := s.toServer - multiset{id}, toClient := s.toClient + multiset{Reply(id, body)},
         answers := s.answers[id := body], fates := s.fates[id := Underway])
    case Notify(body) => s.(toClient := s.toClient + multiset{Reply(0, body)})
    case Read(reply) =>
      var t := s.(toClient := s.toClient - multiset{reply});
      var id := reply.responseID;
      if id == 0 then t
      else if id in s.pending then t.(reading := Some(reply), fates := s.fates[id := BeingRead])
      else t.(fates := s.fates[id := NobodyWaits])
    case Deliver =>
      var reply := s.reading.value;
      var id := reply.responseID;
      if id in s.slots && s.slots[id] == None then
        s.(reading := None, slots := s.slots[id := Some(reply)], fates := s.fates[id := InSlot])
      else s.(reading := None, overflowed := true)
    case TakeAnswer(id) =>
      SetRequest(s, id, Request(Leaving, Answered(s.slots[id].value)))
      .(slots := s.slots[id := None], fates := s.fates[id := Taken])
    case GiveUp(id) => SetRequest(s, id, Request(Leaving, GaveUp))
    case Unregister(id) =>
      SetRequest(s, id, s.requests[id - 1].(phase := Returned)).(pending := s.pending - {id})
  }

  ghost predicate Legal(s: State, steps: seq<Step>)
    decreases |steps|
  {
    steps == [] || (Enabled(s, steps[0]) && Legal(Apply(s, steps[0]), steps[1..]))
  }

  ghost function Execute(s: State, steps: seq<Step>): State
    requires Legal(s, steps)
    decreases |steps|
  {
    if steps == [] then s else Execute(Apply(s, steps[0]), steps[1..])
  }

  // ----- The invariant, one request at a time.

  predicate InFlight(p: Phase) {
    p.Registered? || p.Waiting? || p.Leaving?
  }

  /** The answer to request `id` is in exactly the place its fate names. */
  ghost predicate AnswerOk(s: State, id: nat) {
    var reply := Reply(id, if id in s.answers then s.answers[id] else 0);
    && (id in s.fates <==> id in s.answers)
    && (forall r <- s.toClient :: r.responseID == id ==> id in s.answers && r == reply && s.fates[id] == Underway)
    && s.toClient[reply] <= 1
    && (s.reading.Some? && s.reading.value.responseID == id ==>
          id in s.answers && s.reading.value == reply && s.fates[id] == BeingRead)
    && (id in s.slots && s.slots[id].Some? ==>
          id in s.answers && s.slots[id].value == reply && s.fates[id] == InSlot)
    && (id in s.fates ==>
          match s.fates[id]
          case Underway => s.toClient[reply] == 1
          case BeingRead => s.reading == Some(reply)
          case InSlot => id in s.slots && s.slots[id] == Some(reply)
          case _ => true)
  }

  /** A request is registered before it is sent and until it returns, and sent at most once. */
  ghost predicate RequestOk(s: State, id: nat)
    requires 0 < id <= |s.requests|
  {
    var r := s.requests[id - 1];
    && (id in s.pending <==> InFlight(r.phase))
    && (id in s.slots <==> !r.phase.Numbered?)
    && (r.outcome == Pending <==> r.phase.Numbered? || r.phase.Registered? || r.phase.Waiting?)
    && s.toServer[id] <= 1
    && (id in s.toServer || id in s.answers ==> !r.phase.Numbered? && !r.phase.Registered? && r.outcome != SendFailed)
    && (id in s.toServer ==> id !in s.answers)
    && (id in s.fates ==>
          && (s.fates[id] == Taken <==> r.outcome.Answered?)
          && (s.fates[id] == NobodyWaits ==> r.phase == Returned))
    && (r.outcome.Answered? ==> id in s.answers && r.outcome.reply == Reply(id, s.answers[id]))
  }

  /** The IDs in use are those of requests that have been made. */
  ghost predicate KnownIDs(s: State) {
    && (forall id: nat :: id in s.pending || id in s.slots || id in s.toServer || id in s.answers ==>
          0 < id <= |s.requests|)
    && (s.reading.Some? ==> s.reading.value.responseID != 0)
  }

  ghost predicate Inv(s: State) {
    && !s.overflowed
    && KnownIDs(s)
    && (forall id: nat :: 0 < id ==> AnswerOk(s, id))
    && (forall id: nat :: 0 < id <= |s.requests| ==> RequestOk(s, id))
  }

  /** Nothing about the answer to `id` differs. */
  ghost predicate SameAnswer(s: State, t: State, id: nat) {
    && (id in t.answers <==> id in s.answers) && (id in s.answers ==> t.answers[id] == s.answers[id])
    && (id in t.fates <==> id in s.fates) && (id in s.fates ==> t.fates[id] == s.fates[id])
    && (id in t.slots <==> id in s.slots) && (id in s.slots ==> t.slots[id] == s.slots[id])
    && (forall r: Reply :: r.responseID == id ==> t.toClient[r] == s.toClient[r])
    && (t.reading == s.reading || ((t.reading.Some? ==> t.reading.value.responseID != id)
                                   && (s.reading.Some? ==> s.reading.value.responseID != id)))
  }

  lemma SameAnswerOk(s: State, t: State, id: nat)
    requires AnswerOk(s, id) && SameAnswer(s, t, id)
    ensures AnswerOk(t, id)
  {
    forall r <- t.toClient | r.responseID == id ensures r in s.toClient {
      assert t.toClient[r] == s.toClient[r];
    }
  }

  /** The request a step is about, or 0. */
  function Subject(s: State, step: Step): nat {
    match step
    case NextID => |s.requests| + 1
    case Answer(id, _) => id
    case Notify(_) => 0
    case Read(reply) => reply.responseID
    case Deliver => if s.reading.Some? then s.reading.value.responseID else 0
    case _ => step.id
  }

  predicate OnTheWire(step: Step) {
    step.Answer? || step.Notify? || step.Read? || step.Deliver?
  }

  lemma AnswerElsewhere(s: State, about: nat, body: nat, id: nat)
    requires Enabled(s, Answer(about, body)) && id != about
    ensures SameAnswer(s, Apply(s, Answer(about, body)), id)
  {
  }

  lemma ReadKnownElsewhere(s: State, reply: Reply, id: nat)
    requires Enabled(s, Read(reply)) && reply.responseID in s.pending && id != reply.responseID
    ensures SameAnswer(s, Apply(s, Read(reply)), id)
  {
  }

  lemma ReadUnknownElsewhere(s: State, reply: Reply, id: nat)
    requires Enabled(s, Read(reply)) && reply.responseID !in s.pending && id != reply.responseID
    ensures SameAnswer(s, Apply(s, Read(reply)), id)
  {
  }

  lemma DeliverElsewhere(s: State, id: nat)
    requires Enabled(s, Deliver) && id != s.reading.value.responseID
    ensures SameAnswer(s, Apply(s, Deliver), id)
  {
  }

  lemma RequestStepsElsewhere(s: State, step: Step, id: nat)
    requires Enabled(s, step) && !OnTheWire(step) && 0 < id != Subject(s, step)
    ensures SameAnswer(s, Apply(s, step), id)
  {
  }

  lemma OtherAnswersSame(s: State, step: Step, id: nat)
    requires Enabled(s, step) && 0 < id != Subject(s, step)
    ensures SameAnswer(s, Apply(s, step), id)
  {
    match step
    case Answer(about, body) => AnswerElsewhere(s, about, body, id);
    case Notify(_) =>
    case Read(reply) =>
      if reply.responseID in s.pending {
        ReadKnownElsewhere(s, reply, id);
      } else {
        ReadUnknownElsewhere(s, reply, id);
      }
    case Deliver => DeliverElsewhere(s, id);
    case _ => RequestStepsElsewhere(s, step, id);
  }

  lemma ServerStepsKeepAnswer(s: State, step: Step)
    requires Inv(s) && Enabled(s, step) && OnTheWire(step) && 0 < Subject(s, step)
    ensures AnswerOk(Apply(s, step), Subject(s, step))
  {
    var id := Subject(s, step);
    assert AnswerOk(s, id);
    if id <= |s.requests| { assert RequestOk(s, id); }
  }

  lemma ClientStepsKeepAnswer(s: State, step: Step)
    requires Inv(s) && Enabled(s, step) && !OnTheWire(step)
    ensures AnswerOk(Apply(s, step), Subject(s, step))
  {
    var id := Subject(s, step);
    assert AnswerOk(s, id);
    if id <= |s.requests| { assert RequestOk(s, id); }
  }

  lemma AnswersKept(s: State, step: Step, id: nat)
    requires Inv(s) && Enabled(s, step) && 0 < id
    ensures AnswerOk(Apply(s, step), id)
  {
    if id != Subject(s, step) {
      OtherAnswersSame(s, step, id);
      SameAnswerOk(s, Apply(s, step), id);
    } else if OnTheWire(step) {
      ServerStepsKeepAnswer(s, step);
    } else {
      ClientStepsKeepAnswer(s, step);
    }
  }

  lemma WireStepsKeepClient(s: State, step: Step)
    requires Enabled(s, step) && OnTheWire(step)
    ensures Apply(s, step).requests == s.requests && Apply(s, step).pending == s.pending
  {
  }

  lemma WireStepsKeepSent(s: State, step: Step, id: nat)
    requires Enabled(s, step) && OnTheWire(step) && id != Subject(s, step)
    ensures Apply(s, step).toServer[id] == s.toServer[id]
  {
  }

  /** A step about another request leaves this one, its registration and its place on the way to the server. */
  lemma OtherRequestsSame(s: State, step: Step, id: nat)
    requires Enabled(s, step) && 0 < id <= |s.requests| && id != Subject(s, step)
    ensures id <= |Apply(s, step).requests| && Apply(s, step).requests[id - 1] == s.requests[id - 1]
    ensures id in Apply(s, step).pending <==> id in s.pending
    ensures Apply(s, step).toServer[id] == s.toServer[id]
  {
    if OnTheWire(step) {
      WireStepsKeepClient(s, step);
      WireStepsKeepSent(s, step, id);
    } else {
      RequestStepsKeepOthers(s, step, id);
    }
  }

  lemma RequestStepsKeepOthers(s: State, step: Step, id: nat)
    requires Enabled(s, step) && !OnTheWire(step) && 0 < id <= |s.requests| && id != Subject(s, step)
    ensures id <= |Apply(s, step).requests| && Apply(s, step).requests[id - 1] == s.requests[id - 1]
    ensures id in Apply(s, step).pending <==> id in s.pending
    ensures Apply(s, step).toServer[id] == s.toServer[id]
  {
  }

  lemma OtherRequestsKept(s: State, step: Step, id: nat)
    requires Inv(s) && Enabled(s, step) && 0 < id <= |s.requests| && id != Subject(s, step)
    ensures RequestOk(Apply(s, step), id)
  {
    var t := Apply(s, step);
    OtherAnswersSame(s, step, id);
    OtherRequestsSame(s, step, id);
    assert RequestOk(s, id);
  }

  lemma ServerStepsKeepRequest(s: State, step: Step)
    requires Inv(s) && Enabled(s, step) && OnTheWire(step)
    requires 0 < Subject(s, step) <= |s.requests|
    ensures RequestOk(Apply(s, step), Subject(s, step))
  {
    var id := Subject(s, step);
    assert AnswerOk(s, id) && RequestOk(s, id);
  }

  lemma ClientStepsKeepRequest(s: State, step: Step)
    requires Inv(s) && Enabled(s, step) && !OnTheWire(step)
    ensures RequestOk(Apply(s, step), Subject(s, step))
  {
    var id := Subject(s, step);
    assert AnswerOk(s, id);
    if id <= |s.requests| { assert RequestOk(s, id); }
  }

  lemma RequestsKept(s: State, step: Step, id: nat)
    requires Inv(s) && Enabled(s, step) && 0 < id <= |Apply(s, step).requests|
    ensures RequestOk(Apply(s, step), id)
  {
    if id != Subject(s, step) {
      OtherRequestsKept(s, step, id);
    } else if OnTheWire(step) {
      ServerStepsKeepRequest(s, step);
    } else {
      ClientStepsKeepRequest(s, step);
    }
  }

  lemma AnswerKeepsKnown(s: State, id: nat, body: nat)
    requires KnownIDs(s) && Enabled(s, Answer(id, body))
    ensures KnownIDs(Apply(s, Answer(id, body)))
  {
  }

  lemma ReadKeepsKnown(s: State, reply: Reply)
    requires KnownIDs(s) && Enabled(s, Read(reply))
    ensures KnownIDs(Apply(s, Read(reply)))
  {
  }

  lemma DeliverKeepsKnown(s: State)
    requires KnownIDs(s) && Enabled(s, Deliver)
    ensures KnownIDs(Apply(s, Deliver))
  {
  }

  lemma RequestStepsKeepKnown(s: State, step: Step)
    requires KnownIDs(s) && Enabled(s, step) && !OnTheWire(step)
    ensures KnownIDs(Apply(s, step))
  {
  }

  lemma StepKeepsKnown(s: State, step: Step)
    requires KnownIDs(s) && Enabled(s, step)
    ensures KnownIDs(Apply(s, step))
  {
    match step
    case Answer(id, body) => AnswerKeepsKnown(s, id, body);
    case Notify(_) =>
    case Read(reply) => ReadKeepsKnown(s, reply);
    case Deliver => DeliverKeepsKnown(s);
    case _ => RequestStepsKeepKnown(s, step);
  }

  /** The reader finds the channel of a reply it has looked up there, and empty. */
  lemma NeverOverflows(s: State)
    requires Inv(s) && Enabled(s, Deliver)
    ensures !Apply(s, Deliver).overflowed
  {
    var id := s.reading.value.responseID;
    assert AnswerOk(s, id);
    assert RequestOk(s, id);
  }

  lemma StepKeepsInv(s: State, step: Step)
    requires Inv(s) && Enabled(s, step)
    ensures Inv(Apply(s, step))
  {
    var t := Apply(s, step);
    if step.Deliver? { NeverOverflows(s); }
    StepKeepsKnown(s, step);
    forall id: nat | 0 < id ensures AnswerOk(t, id) {
      AnswersKept(s, step, id);
    }
    forall id: nat | 0 < id <= |t.requests| ensures RequestOk(t, id) {
      RequestsKept(s, step, id);
    }
  }

  lemma {:induction false} RunKeepsInv(s: State, steps: seq<Step>)
    requires Inv(s) && Legal(s, steps)
    ensures Inv(Execute(s, steps))
    decreases |steps|
  {
    if steps != [] {
      StepKeepsInv(s, steps[0]);
      RunKeepsInv(Apply(s, steps[0]), steps[1..]);
    }
  }

  ghost predicate Reachable(s: State) {
    exists steps :: Legal(Init(), steps) && Execute(Init(), steps) == s
  }

  lemma ReachableInv(s: State)
    requires Reachable(s)
    ensures Inv(s)
  {
    var steps :| Legal(Init(), steps) && Execute(Init(), steps) == s;
    RunKeepsInv(Init(), steps);
  }

  // ----- What callers get.

  /** The keys of pendingRequests are the requests in flight, and the reader never finds a channel full. */
  lemma PendingIsInFlight(s: State, id: nat)
    requires Reachable(s)
    ensures id in s.pending <==> 0 < id <= |s.requests| && InFlight(s.requests[id - 1].phase)
    ensures !s.overflowed
  {
    ReachableInv(s);
    if 0 < id <= |s.requests| { assert RequestOk(s, id); }
  }

  /** A channel holds, and a request returns, nothing but the server's answer to that very request. */
  lemma AnswersMatch(s: State, id: nat)
    requires Reachable(s) && 0 < id <= |s.requests|
    ensures id in s.slots && s.slots[id].Some? ==> id in s.answers && s.slots[id].value == Reply(id, s.answers[id])
    ensures s.requests[id - 1].outcome.Answered? ==>
              id in s.answers && s.requests[id - 1].outcome.reply == Reply(id, s.answers[id])
  {
    ReachableInv(s);
    assert AnswerOk(s, id) && RequestOk(s, id);
  }

  /**
   No answer gets lost while its request waits: it is still underway or being delivered, or it is in the channel
   and the request can take it. The reader throws an answer away only when the request has returned.
   */
  lemma NoAnswerLost(s: State, id: nat)
    requires Reachable(s) && id in s.answers
    ensures 0 < id <= |s.requests| && id in s.fates
    ensures InPhase(s, id, Waiting) ==>
              match s.fates[id]
              case Underway => Reply(id, s.answers[id]) in s.toClient
              case BeingRead => Enabled(s, Deliver) && s.reading == Some(Reply(id, s.answers[id]))
              case InSlot => Enabled(s, TakeAnswer(id))
              case Taken => false
              case NobodyWaits => false
    ensures s.fates[id] == NobodyWaits ==>
              s.requests[id - 1].phase == Returned && s.requests[id - 1].outcome == GaveUp
  {
    ReachableInv(s);
    assert AnswerOk(s, id) && RequestOk(s, id);
  }

  /** A request that has not returned can go on without an answer, and one that is answered can take the answer. */
  lemma RequestsGoOn(s: State, id: nat)
    requires Reachable(s) && 0 < id <= |s.requests|
    ensures match s.requests[id - 1].phase
      case Numbered => Enabled(s, Register(id))
      case Registered => Enabled(s, Send(id)) && Enabled(s, FailToSend(id))
      case Waiting => Enabled(s, GiveUp(id)) && (id in s.slots && s.slots[id].Some? ==> Enabled(s, TakeAnswer(id)))
      case Leaving => Enabled(s, Unregister(id))
      case Returned => true
    ensures id in s.toServer ==> forall body :: Enabled(s, Answer(id, body))
    ensures s.reading == None ==> forall reply <- s.toClient :: Enabled(s, Read(reply))
  {
  }

  // ----- What the steps of a run say about its state.

  /** What has happened to a request and its answer. */
  datatype Marks = Marks(sendFailed: bool, gaveUp: bool, taken: bool, sent: bool, registered: bool)

  function MarksOf(s: State, id: nat): Marks {
    if 0 < id <= |s.requests| then
      var r := s.requests[id - 1];
      Marks(r.outcome == SendFailed, r.outcome == GaveUp, r.outcome.Answered?, id in s.toServer || id in s.answers,
            !r.phase.Numbered?)
    else Marks(false, false, false, id in s.toServer || id in s.answers, false)
  }

  ghost function Marked(steps: seq<Step>, id: nat): Marks {
    Marks(FailToSend(id) in steps, GiveUp(id) in steps, TakeAnswer(id) in steps, Send(id) in steps,
          Register(id) in steps)
  }

  function Both(a: Marks, b: Marks): Marks {
    Marks(a.sendFailed || b.sendFailed, a.gaveUp || b.gaveUp, a.taken || b.taken, a.sent || b.sent,
          a.registered || b.registered)
  }

  lemma WireStepMarksNothing(s: State, step: Step, id: nat)
    requires Enabled(s, step) && OnTheWire(step)
    ensures MarksOf(Apply(s, step), id) == MarksOf(s, id)
  {
    WireStepsKeepClient(s, step);
    match step
    case Answer(_, _) =>
    case Read(_) =>
    case Deliver =>
    case Notify(_) =>
  }

  lemma RequestStepMarks(s: State, step: Step, id: nat)
    requires Inv(s) && Enabled(s, step) && !OnTheWire(step)
    ensures MarksOf(Apply(s, step), id) == Both(MarksOf(s, id), Marked([step], id))
  {
    if 0 < id <= |s.requests| { assert RequestOk(s, id); }
  }

  lemma StepMarks(s: State, step: Step, id: nat)
    requires Inv(s) && Enabled(s, step)
    ensures MarksOf(Apply(s, step), id) == Both(MarksOf(s, id), Marked([step], id))
  {
    if OnTheWire(step) { WireStepMarksNothing(s, step, id); } else { RequestStepMarks(s, step, id); }
  }

  lemma MarkedFirst(steps: seq<Step>, id: nat)
    requires steps != []
    ensures Marked(steps, id) == Both(Marked([steps[0]], id), Marked(steps[1..], id))
  {
    assert forall step :: step in steps <==> step == steps[0] || step in steps[1..] by {
      assert steps == [steps[0]] + steps[1..];
    }
  }

  /** Of each request: it failed to be sent, was given up, took its answer or was sent exactly if a step says so. */
  lemma {:induction false} RunMarks(s: State, steps: seq<Step>, id: nat)
    requires Inv(s) && Legal(s, steps)
    ensures MarksOf(Execute(s, steps), id) == Both(MarksOf(s, id), Marked(steps, id))
    decreases |steps|
  {
    if steps != [] {
      StepKeepsInv(s, steps[0]);
      StepMarks(s, steps[0], id);
      RunMarks(Apply(s, steps[0]), steps[1..], id);
      MarkedFirst(steps, id);
    }
  }

  lemma StepAnswers(s: State, step: Step, id: nat, body: nat)
    requires Inv(s) && Enabled(s, step)
    ensures var t := Apply(s, step);
      (id in t.answers && t.answers[id] == body) <==> (id in s.answers && s.answers[id] == body) || step == Answer(id, body)
  {
    if step.Answer? {
      assert KnownIDs(s) && RequestOk(s, step.id);
    }
  }

  /** The answers are what the server said. */
  lemma {:induction false} RunAnswers(s: State, steps: seq<Step>, id: nat, body: nat)
    requires Inv(s) && Legal(s, steps)
    ensures var t := Execute(s, steps);
      (id in t.answers && t.answers[id] == body) <==>
      (id in s.answers && s.answers[id] == body) || Answer(id, body) in steps
    decreases |steps|
  {
    if steps != [] {
      StepKeepsInv(s, steps[0]);
      StepAnswers(s, steps[0], id, body);
      RunAnswers(Apply(s, steps[0]), steps[1..], id, body);
      assert steps == [steps[0]] + steps[1..];
    }
  }

  /** An event reaches the reader and disturbs no request. */
  lemma EventsPass(s: State, body: nat)
    requires s.reading == None
    ensures Enabled(Apply(s, Notify(body)), Read(Reply(0, body)))
    ensures Apply(Apply(s, Notify(body)), Read(Reply(0, body))) == s
  {
    assert s.toClient + multiset{Reply(0, body)} - multiset{Reply(0, body)} == s.toClient;
  }
}
