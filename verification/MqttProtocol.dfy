/** The acknowledgement and delivery protocol of one MQTT connection, as interleaved steps of the
    command task, the event-loop task and the broker. */
module MqttProtocol {
  import opened Common
  import opened MqttWaiters

  const INBOX_CAP := 64

  type Packet = int

  datatype Request = Request(kind: Kind, id: nat)

  /** An acknowledgement as it arrives; `code` is its reason code. */
  datatype Ack = Ack(kind: Kind, id: nat, code: int)

  /** The command task runs one command at a time. */
  datatype Command = Idle | Sending(kind: Kind, id: nat) | Awaiting(kind: Kind, id: nat)

  /** The event loop: polling, blocked on a full inbox, failing the waiter queues, or gone. */
  datatype Loop = Polling | Blocked(packet: Packet) | Failing(drained: nat) | Exited

  datatype Event =
    | Answered(id: nat, kind: Kind, code: int)     // the broker acknowledged a request
    | Resolved(id: nat)                            // a waiter's channel was sent a result
    | Withdrawn(id: nat, popped: Option<nat>)      // `pop_waiter` after a failed send
    | Finished(id: nat, outcome: Outcome)          // a command returned
    | DeliveryLost                                 // `receive publish` reported connection_lost

  datatype State = State(
    next: nat,
    waiters: Waiters,
    command: Command,
    loop: Loop,
    requests: seq<Request>,
    acks: seq<Ack>,
    arrived: seq<Packet>,
    inbox: seq<Packet>,
    delivered: seq<Packet>,
    history: seq<Event>)

  const CONNECTED := State(0, NO_WAITERS, Idle, Polling, [], [], [], [], [], [])

  datatype Step =
    // command task
    | Start(kind: Kind)
    | SendAccepted
    | SendRefused
    | Return
    | ReceivePublish
    | ReceiveLost
    // broker
    | Answer(index: nat, code: int)
    // event loop
    | PollAck
    | PollPublish(packet: Packet)
    | Unblock
    | PollFailure
    | DrainNext
    | Exit

  function KindAt(n: nat): Kind { if n == 0 then Sub else if n == 1 then Qos1 else Qos2 }

  function RankOf(kind: Kind): nat { match kind case Sub => 0 case Qos1 => 1 case Qos2 => 2 }

  /** SUBACK and PUBACK carry a reason; any PUBCOMP counts as success. */
  function AckOutcome(kind: Kind, code: int): Outcome {
    if kind == Qos2 || code < 0x80 then Accepted else Rejected(code)
  }

  predicate Enabled(s: State, step: Step) {
    match step
    case Start(_) => s.command.Idle?
    case SendAccepted => s.command.Sending? && !s.loop.Exited?
    case SendRefused => s.command.Sending?  // closed channel, or turned down by the client library
    case Return =>
      && s.command.Awaiting? && s.command.id in s.waiters.channels && !s.waiters.channels[s.command.id].Open?
    case ReceivePublish => s.command.Idle? && s.inbox != []
    case ReceiveLost => s.command.Idle? && s.inbox == [] && s.loop.Exited?
    case Answer(i, _) => i < |s.requests|
    case PollAck => s.loop.Polling? && s.acks != []
    case PollPublish(_) => s.loop.Polling?
    case Unblock => s.loop.Blocked? && |s.inbox| < INBOX_CAP
    case PollFailure => s.loop.Polling?
    case DrainNext => s.loop.Failing? && s.loop.drained < 3
    case Exit => s.loop.Failing? && s.loop.drained == 3
  }

  function Front(s: State, kind: Kind): Option<nat> {
    if s.waiters.Queue(kind) == [] then None else Some(s.waiters.Queue(kind)[0])
  }

  function Settles(s: State, kind: Kind): seq<Event> {
    if s.waiters.Queue(kind) == [] then [] else [Resolved(s.waiters.Queue(kind)[0])]
  }

  function AllSettled(q: seq<nat>): seq<Event> { seq(|q|, i requires 0 <= i < |q| => Resolved(q[i])) }

  function Do(s: State, step: Step): State
    requires Enabled(s, step)
  {
    match step
    case Start(kind) =>
      s.(next := s.next + 1, waiters := s.waiters.Push(kind, s.next), command := Sending(kind, s.next))
    case SendAccepted =>
      var c := s.command;
      s.(requests := s.requests + [Request(c.kind, c.id)], command := Awaiting(c.kind, c.id))
    case SendRefused =>
      var c := s.command;
      s.(waiters := s.waiters.PopAs(c.kind, Dropped), command := Idle,
         history := s.history + [Withdrawn(c.id, Front(s, c.kind)), Finished(c.id, ConnectionLost)])
    case Return =>
      var r := s.waiters.channels[s.command.id];
      s.(command := Idle,
         history := s.history + [Finished(s.command.id, if r.Sent? then r.outcome else ConnectionLost)])
    case ReceivePublish => s.(delivered := s.delivered + [s.inbox[0]], inbox := s.inbox[1..])
    case ReceiveLost => s.(history := s.history + [DeliveryLost])
    case Answer(i, code) =>
      var r := s.requests[i];
      s.(requests := s.requests[..i] + s.requests[i + 1..], acks := s.acks + [Ack(r.kind, r.id, code)],
         history := s.history + [Answered(r.id, r.kind, code)])
    case PollAck =>
      var a := s.acks[0];
      s.(acks := s.acks[1..], waiters := s.waiters.PopAs(a.kind, Sent(AckOutcome(a.kind, a.code))),
         history := s.history + Settles(s, a.kind))
    case PollPublish(p) =>
      if |s.inbox| < INBOX_CAP then s.(arrived := s.arrived + [p], inbox := s.inbox + [p])
      else s.(arrived := s.arrived + [p], loop := Blocked(p))
    case Unblock => s.(inbox := s.inbox + [s.loop.packet], loop := Polling)
    case PollFailure => s.(loop := Failing(0))
    case DrainNext =>
      var kind := KindAt(s.loop.drained);
      s.(waiters := s.waiters.Drain(kind), loop := Failing(s.loop.drained + 1),
         history := s.history + AllSettled(s.waiters.Queue(kind)))
    case Exit => s.(loop := Exited)
  }

  /** The state after an interleaving from a fresh connection; `None` if some step was not possible. */
  function After(steps: seq<Step>): Option<State> {
    if steps == [] then Some(CONNECTED)
    else
      var before, last := After(steps[..|steps| - 1]), steps[|steps| - 1];
      if before.Some? && Enabled(before.value, last) then Some(Do(before.value, last)) else None
  }

  // ── Invariants ──────────────────────────────────────────────────────────────

  predicate LoopAlive(s: State) { s.loop.Polling? || s.loop.Blocked? }

  /** Only the running command can have a waiter, and at most one. */
  predicate OneWaiter(s: State) {
    forall k: Kind :: s.waiters.Queue(k) == [] ||
      (!s.command.Idle? && k == s.command.kind && s.waiters.Queue(k) == [s.command.id])
  }

  /** What entitles a command to its result: for success an acknowledgement of its own with a code below
      0x80, or any PUBCOMP; for a rejection a SUBACK or PUBACK with that very code; for a lost connection
      that the send was refused or that the event loop is past its failure. */
  predicate Justified(s: State, id: nat, outcome: Outcome) {
    match outcome
    case Accepted => exists e <- s.history :: e.Answered? && e.id == id && (e.kind == Qos2 || e.code < 0x80)
    case Rejected(c) => exists e <- s.history :: e.Answered? && e.id == id && e.kind != Qos2 && e.code == c && c >= 0x80
    case ConnectionLost => !LoopAlive(s) || exists e <- s.history :: e.Withdrawn? && e.id == id
  }

  /** The running command's channel is open exactly while its waiter is queued, and holds only a
      result that belongs to it. */
  predicate ChannelMatches(s: State) {
    !s.command.Idle? ==>
      && s.command.id < s.next && s.command.id in s.waiters.channels
      && (s.waiters.channels[s.command.id].Open? <==> s.waiters.Queue(s.command.kind) != [])
      && !s.waiters.channels[s.command.id].Dropped?
      && (s.waiters.channels[s.command.id].Sent? ==>
            Justified(s, s.command.id, s.waiters.channels[s.command.id].outcome))
  }

  /** While the loop can still handle acknowledgements, at most one is outstanding and it belongs to
      the running command, whose waiter is still queued. */
  predicate OneOutstanding(s: State) {
    LoopAlive(s) ==>
      && |s.requests| + |s.acks| <= 1
      && (s.command.Sending? ==> s.waiters.Queue(s.command.kind) == [s.command.id])
      && (s.requests != [] ==> Waits(s, s.requests[0].kind, s.requests[0].id))
      && (s.acks != [] ==>
            && Waits(s, s.acks[0].kind, s.acks[0].id)
            && Answered(s.acks[0].id, s.acks[0].kind, s.acks[0].code) in s.history)
  }

  predicate Waits(s: State, kind: Kind, id: nat) {
    s.command == Awaiting(kind, id) && s.waiters.Queue(kind) == [id]
  }

  predicate Delivery(s: State) {
    && |s.inbox| <= INBOX_CAP
    && s.arrived == s.delivered + s.inbox + (if s.loop.Blocked? then [s.loop.packet] else [])
    && (DeliveryLost in s.history ==> s.loop.Exited? && s.inbox == [])
  }

  /** Every event recorded so far was legitimate. */
  predicate Legitimate(s: State) {
    forall e <- s.history ::
      match e
      case Finished(id, outcome) => Justified(s, id, outcome)
      case Withdrawn(id, popped) => popped == None || popped == Some(id)
      case Resolved(id) => id < s.next
      case _ => true
  }

  predicate ResolvedOnce(s: State) {
    && (forall i, j :: 0 <= i < j < |s.history| && s.history[i].Resolved? && s.history[j].Resolved? ==>
          s.history[i].id != s.history[j].id)
    && (!s.command.Idle? && s.waiters.Queue(s.command.kind) != [] ==> Resolved(s.command.id) !in s.history)
  }

  predicate Inv(s: State) {
    && OneWaiter(s) && ChannelMatches(s) && OneOutstanding(s) && Delivery(s) && Legitimate(s) && ResolvedOnce(s)
    && (s.loop.Failing? ==> s.loop.drained <= 3)
  }

  // ── Every step keeps them ───────────────────────────────────────────────────

  predicate QueueInv(s: State) {
    OneWaiter(s) && ChannelMatches(s) && OneOutstanding(s) && (s.loop.Failing? ==> s.loop.drained <= 3)
  }

  lemma CommandStepsKeepQueues(s: State, step: Step)
    requires QueueInv(s) && Enabled(s, step)
    requires step.Start? || step.SendAccepted? || step.Return? || step.ReceivePublish? || step.ReceiveLost?
    ensures QueueInv(Do(s, step))
  {
    if step.Start? {
      var s' := Do(s, step);
      assert s.waiters.Queue(step.kind) == [] && s'.waiters.Queue(step.kind) == [s.next];
      assert forall k: Kind :: k != step.kind ==> s'.waiters.Queue(k) == s.waiters.Queue(k);
    }
  }

  /** After a refused send the front waiter is the command's own or there is none. */
  lemma SendRefusedKeepsQueues(s: State)
    requires QueueInv(s) && Enabled(s, SendRefused)
    ensures QueueInv(Do(s, SendRefused)) && Front(s, s.command.kind) in {None, Some(s.command.id)}
  {
    var kind, s' := s.command.kind, Do(s, SendRefused);
    assert s.waiters.Queue(kind) != [] ==> s.waiters.Queue(kind)[1..] == [];
    assert forall k: Kind :: k != kind ==> s'.waiters.Queue(k) == s.waiters.Queue(k);
  }

  lemma AnswerKeepsQueues(s: State, step: Step)
    requires QueueInv(s) && Enabled(s, step) && step.Answer?
    ensures QueueInv(Do(s, step))
  {
  }

  lemma LoopStepsKeepQueues(s: State, step: Step)
    requires QueueInv(s) && Enabled(s, step)
    requires step.PollPublish? || step.Unblock? || step.PollFailure? || step.Exit?
    ensures QueueInv(Do(s, step))
  {
  }

  lemma PollAckKeepsQueues(s: State)
    requires QueueInv(s) && Enabled(s, PollAck)
    ensures QueueInv(Do(s, PollAck))
  {
    var a, s' := s.acks[0], Do(s, PollAck);
    assert s.waiters.Queue(a.kind) == [a.id] && [a.id][1..] == [];
    assert forall k: Kind :: k != a.kind ==> s'.waiters.Queue(k) == s.waiters.Queue(k);
    assert s'.acks == [] && s'.requests == [];
  }

  lemma DrainKeepsQueues(s: State, step: Step)
    requires QueueInv(s) && Enabled(s, step) && step.DrainNext?
    ensures QueueInv(Do(s, step))
  {
    var kind, s' := KindAt(s.loop.drained), Do(s, step);
    DrainShort(s.waiters, kind);
    assert s'.waiters.Queue(kind) == [];
    assert forall k: Kind :: k != kind ==> s'.waiters.Queue(k) == s.waiters.Queue(k);
  }

  lemma StepKeepsDelivery(s: State, step: Step)
    requires Delivery(s) && Enabled(s, step)
    ensures Delivery(Do(s, step))
  {
  }

  /** Nothing that justified a result is ever taken back. */
  lemma JustifiedStays(s: State, step: Step, id: nat, outcome: Outcome)
    requires Enabled(s, step) && Justified(s, id, outcome)
    ensures Justified(Do(s, step), id, outcome)
  {
    assert forall e <- s.history :: e in Do(s, step).history;
  }

  lemma StepKeepsLegitimate(s: State, step: Step)
    requires QueueInv(s) && Legitimate(s) && Enabled(s, step)
    ensures Legitimate(Do(s, step))
  {
    forall id, outcome | Justified(s, id, outcome)
      ensures Justified(Do(s, step), id, outcome)
    {
      JustifiedStays(s, step, id, outcome);
    }
    NewEventsLegitimate(s, step);
    hide Justified, OneWaiter, ChannelMatches, OneOutstanding;
  }

  lemma NewEventsLegitimate(s: State, step: Step)
    requires QueueInv(s) && Enabled(s, step)
    ensures var t := Do(s, step);
            && s.history <= t.history
            && forall e <- t.history[|s.history|..] ::
                 match e
                 case Finished(id, outcome) => Justified(t, id, outcome)
                 case Withdrawn(id, popped) => popped == None || popped == Some(id)
                 case Resolved(id) => id < s.next
                 case _ => true
  {
  }

  lemma StepKeepsResolvedOnce(s: State, step: Step)
    requires QueueInv(s) && Legitimate(s) && ResolvedOnce(s) && Enabled(s, step)
    ensures ResolvedOnce(Do(s, step))
  {
    assert Resolved(s.next) !in s.history;
    if step.PollAck? {
      assert s.waiters.Queue(s.acks[0].kind) == [s.acks[0].id] && [s.acks[0].id][1..] == [];
    } else if step.DrainNext? {
      DrainShort(s.waiters, KindAt(s.loop.drained));
    }
  }

  lemma StepKeepsInv(s: State, step: Step)
    requires Inv(s) && Enabled(s, step)
    ensures Inv(Do(s, step))
  {
    StepKeepsDelivery(s, step);
    StepKeepsLegitimate(s, step);
    StepKeepsResolvedOnce(s, step);
    match step
    case SendRefused => SendRefusedKeepsQueues(s);
    case Answer(_, _) => AnswerKeepsQueues(s, step);
    case PollAck => PollAckKeepsQueues(s);
    case DrainNext => DrainKeepsQueues(s, step);
    case PollPublish(_) => LoopStepsKeepQueues(s, step);
    case Unblock => LoopStepsKeepQueues(s, step);
    case PollFailure => LoopStepsKeepQueues(s, step);
    case Exit => LoopStepsKeepQueues(s, step);
    case _ => CommandStepsKeepQueues(s, step);
  }

  lemma {:induction false} RunKeepsInv(steps: seq<Step>)
    requires After(steps).Some?
    ensures Inv(After(steps).value)
  {
    if steps != [] {
      var init := steps[..|steps| - 1];
      RunKeepsInv(init);
      StepKeepsInv(After(init).value, steps[|steps| - 1]);
    }
  }

  /** Acknowledgement safety over every interleaving. */
  lemma AckSafety(steps: seq<Step>)
    requires After(steps).Some?
    ensures var s := After(steps).value;
            // queues are empty at every command boundary
            && (s.command.Idle? ==> s.waiters.sub == [] && s.waiters.qos1 == [] && s.waiters.qos2 == [])
            // no waiter is resolved twice
            && (forall i, j :: 0 <= i < j < |s.history| && s.history[i].Resolved? && s.history[j].Resolved? ==>
                  s.history[i].id != s.history[j].id)
            // success needs the command's own acknowledgement, with a code below 0x80 or a PUBCOMP
            && (forall id :: Finished(id, Accepted) in s.history ==>
                  exists kind, code :: Answered(id, kind, code) in s.history && (kind == Qos2 || code < 0x80))
            // a rejection is the code of its own SUBACK or PUBACK, from 0x80 on
            && (forall id, c :: Finished(id, Rejected(c)) in s.history ==>
                  c >= 0x80 && (Answered(id, Sub, c) in s.history || Answered(id, Qos1, c) in s.history))
            // a lost connection is reported only when the send was refused or the event loop has failed
            && (forall id :: Finished(id, ConnectionLost) in s.history ==>
                  s.loop.Failing? || s.loop.Exited? || exists popped :: Withdrawn(id, popped) in s.history)
            // withdrawing after a failed send takes the command's own waiter or nothing
            && (forall id, popped :: Withdrawn(id, popped) in s.history ==> popped == None || popped == Some(id))
  {
    RunKeepsInv(steps);
    var s := After(steps).value;
    assert s.command.Idle? ==> s.waiters.Queue(Sub) == [] && s.waiters.Queue(Qos1) == [] && s.waiters.Queue(Qos2) == [];
  }

  /** Delivery conservation over every interleaving: nothing that arrived is lost, duplicated or
      reordered, and a lost connection is reported only once everything was delivered. */
  lemma DeliveryConservation(steps: seq<Step>)
    requires After(steps).Some?
    ensures var s := After(steps).value;
            && s.delivered + s.inbox + (if s.loop.Blocked? then [s.loop.packet] else []) == s.arrived
            && |s.inbox| <= 64
            && (DeliveryLost in s.history ==> s.delivered == s.arrived)
  {
    RunKeepsInv(steps);
  }

  /** A round trip from any quiet moment of a connection: the command is sent, acknowledged under `code`
      and returns, and the code alone decides what it returns. */
  lemma RoundTrip(s: State, kind: Kind, code: int)
    requires Inv(s) && s.command.Idle? && s.loop.Polling?
    ensures var t := Continue(s, [Start(kind)] + ([SendAccepted] + ([Answer(0, code)] + ([PollAck] + [Return]))));
            && t.Some? && t.value.command.Idle? && t.value.loop.Polling?
            && t.value.history == s.history + [
                 Answered(s.next, kind, code), Resolved(s.next),
                 Finished(s.next, if kind == Qos2 || code < 0x80 then Accepted else Rejected(code))]
  {
    QuietMoment(s, kind);
    hide Inv, Do, Enabled, Continue;
    var s1 := Sends(s, kind);
    var s2 := Do(s1, SendAccepted);
    var s4 := Acknowledges(s2, kind, code);
    var s3 := Do(s2, Answer(0, code));
    Returns(s4);
    var rest := [Answer(0, code)] + ([PollAck] + [Return]);
    ContinueAfter(s, Start(kind), [SendAccepted] + rest);
    ContinueAfter(s1, SendAccepted, rest);
    ContinueAfter(s2, Answer(0, code), [PollAck] + [Return]);
    ContinueAfter(s3, PollAck, [Return]);
  }

  lemma QuietMoment(s: State, kind: Kind)
    requires Inv(s) && s.command.Idle? && s.loop.Polling?
    ensures s.requests == [] && s.acks == [] && s.waiters.Queue(kind) == []
  {
  }

  lemma Sends(s: State, kind: Kind) returns (t: State)
    requires s.command.Idle? && s.loop.Polling? && s.requests == [] && s.waiters.Queue(kind) == []
    ensures Enabled(s, Start(kind)) && t == Do(s, Start(kind)) && Enabled(t, SendAccepted)
    ensures var u := Do(t, SendAccepted);
            && u.command == Awaiting(kind, s.next) && u.requests == [Request(kind, s.next)] && u.acks == s.acks
            && u.waiters.Queue(kind) == [s.next] && u.loop == s.loop && u.history == s.history
  {
    t := Do(s, Start(kind));
  }

  lemma Acknowledges(s: State, kind: Kind, code: int) returns (t: State)
    requires s.command.Awaiting? && s.command.kind == kind && s.loop.Polling? && s.acks == []
    requires s.requests == [Request(kind, s.command.id)] && s.waiters.Queue(kind) == [s.command.id]
    ensures var id := s.command.id;
            && Enabled(s, Answer(0, code)) && Enabled(Do(s, Answer(0, code)), PollAck)
            && t == Do(Do(s, Answer(0, code)), PollAck)
            && t.command == s.command && t.loop == s.loop
            && t.history == s.history + [Answered(id, kind, code), Resolved(id)]
            && id in t.waiters.channels
            && t.waiters.channels[id] == Sent(if kind == Qos2 || code < 0x80 then Accepted else Rejected(code))
  {
    t := Do(Do(s, Answer(0, code)), PollAck);
    assert s.history + [Answered(s.command.id, kind, code)] + [Resolved(s.command.id)] ==
           s.history + [Answered(s.command.id, kind, code), Resolved(s.command.id)];
  }

  lemma Returns(s: State)
    requires s.command.Awaiting? && s.command.id in s.waiters.channels && s.waiters.channels[s.command.id].Sent?
    ensures Enabled(s, Return)
    ensures Continue(s, [Return]) == Some(s.(command := Idle,
              history := s.history + [Finished(s.command.id, s.waiters.channels[s.command.id].outcome)]))
  {
    assert [Return][..0] == [] && Continue(s, []) == Some(s);
  }

  /** Everything that has arrived can be received, in order, by the task alone once the loop has room. */
  lemma {:induction false} AllDeliverable(s: State) returns (steps: seq<Step>)
    requires Inv(s) && s.command.Idle?
    ensures Continue(s, steps).Some? && Continue(s, steps).value.delivered == s.arrived
    ensures forall step <- steps :: step == ReceivePublish || step == Unblock
    decreases |s.inbox| + if s.loop.Blocked? then 2 else 0
  {
    if s.inbox == [] && !s.loop.Blocked? {
      steps := [];
    } else {
      var first := if s.inbox != [] then ReceivePublish else Unblock;
      StepKeepsInv(s, first);
      var rest := AllDeliverable(Do(s, first));
      ContinueAfter(s, first, rest);
      steps := [first] + rest;
    }
  }

  // ── Liveness fails: two ways an awaiting command never returns ──────────────

  /** The loop has already emptied the queue of `kind` for good. */
  predicate PastDrain(s: State, kind: Kind) {
    s.loop.Exited? || (s.loop.Failing? && s.loop.drained > RankOf(kind))
  }

  predicate AwaitsOpen(s: State) {
    && s.command.Awaiting? && s.command.id in s.waiters.channels && s.waiters.channels[s.command.id].Open?
    && s.waiters.Queue(s.command.kind) == [s.command.id]
  }

  /** The waiter joined its queue after the loop had drained it. */
  predicate Stuck(s: State) { AwaitsOpen(s) && PastDrain(s, s.command.kind) }

  /** The loop waits for room in the inbox, and only the awaiting task could make room. */
  predicate Stalled(s: State) { AwaitsOpen(s) && s.loop.Blocked? && |s.inbox| == INBOX_CAP }

  /** The state after further steps; `None` if some step was not possible. */
  function Continue(s: State, steps: seq<Step>): Option<State> {
    if steps == [] then Some(s)
    else
      var before, last := Continue(s, steps[..|steps| - 1]), steps[|steps| - 1];
      if before.Some? && Enabled(before.value, last) then Some(Do(before.value, last)) else None
  }

  lemma StuckStaysStuck(s: State, step: Step)
    requires Inv(s) && Stuck(s) && Enabled(s, step)
    ensures Stuck(Do(s, step)) && Do(s, step).command == s.command
  {
    if step.DrainNext? {
      var kind := KindAt(s.loop.drained);
      assert kind != s.command.kind;
      assert s.waiters.Queue(kind) == [];
      DrainShort(s.waiters, kind);
    }
  }

  /** Awaiting a waiter that joined its queue after the drain never ends, whatever happens next. */
  lemma {:induction false} StuckForever(s: State, steps: seq<Step>)
    requires Inv(s) && Stuck(s) && Continue(s, steps).Some?
    ensures var t := Continue(s, steps).value; Inv(t) && Stuck(t) && t.command == s.command && !Enabled(t, Return)
  {
    if steps != [] {
      var init, last := steps[..|steps| - 1], steps[|steps| - 1];
      StuckForever(s, init);
      StepKeepsInv(Continue(s, init).value, last);
      StuckStaysStuck(Continue(s, init).value, last);
    }
  }

  /** Nor does awaiting while the loop is blocked on a full inbox: every step that is still possible
      leaves command, loop and inbox as they are. */
  lemma {:induction false} StalledForever(s: State, steps: seq<Step>)
    requires Stalled(s) && Continue(s, steps).Some?
    ensures var t := Continue(s, steps).value;
            && Stalled(t) && !Enabled(t, Return)
            && t.command == s.command && t.loop == s.loop && t.inbox == s.inbox
  {
    if steps != [] {
      StalledForever(s, steps[..|steps| - 1]);
    }
  }

  lemma {:induction false} ContinueAfter(s: State, first: Step, rest: seq<Step>)
    requires Enabled(s, first)
    ensures Continue(s, [first] + rest) == Continue(Do(s, first), rest)
  {
    var steps := [first] + rest;
    if rest == [] {
      assert steps == [first] && steps[..0] == [];
      assert Continue(s, steps[..0]) == Some(s);
    } else {
      assert steps[..|steps| - 1] == [first] + rest[..|rest| - 1] && steps[|steps| - 1] == rest[|rest| - 1];
      ContinueAfter(s, first, rest[..|rest| - 1]);
    }
  }

  /** Steps left until a failing connection drains the queue of `kind`. */
  function UntilDrained(loop: Loop, kind: Kind): nat {
    match loop
    case Blocked(_) => RankOf(kind) + 3
    case Polling => RankOf(kind) + 2
    case Failing(n) => if n <= RankOf(kind) then RankOf(kind) + 1 - n else 0
    case Exited => 0
  }

  /** One step of the loop towards draining the queue of the awaiting command. */
  lemma FailureAdvances(s: State) returns (step: Step)
    requires Inv(s) && AwaitsOpen(s) && !Stuck(s) && !Stalled(s)
    ensures Enabled(s, step) && Inv(Do(s, step)) && Do(s, step).command == s.command
    ensures Enabled(Do(s, step), Return) || (AwaitsOpen(Do(s, step)) && !Stuck(Do(s, step)) && !Stalled(Do(s, step)))
    ensures UntilDrained(Do(s, step).loop, s.command.kind) < UntilDrained(s.loop, s.command.kind)
  {
    step := if s.loop.Blocked? then Unblock else if s.loop.Polling? then PollFailure else DrainNext;
    StepKeepsInv(s, step);
    if step.DrainNext? {
      DrainShort(s.waiters, KindAt(s.loop.drained));
    }
  }

  lemma {:induction false} ReturnFollows(s: State) returns (steps: seq<Step>)
    requires Inv(s) && s.command.Awaiting? && !Stuck(s) && !Stalled(s)
    ensures Continue(s, steps).Some? && Enabled(Continue(s, steps).value, Return)
    decreases UntilDrained(s.loop, s.command.kind)
  {
    if Enabled(s, Return) {
      steps := [];
    } else {
      var first := FailureAdvances(s);
      var rest := ReturnFollows(Do(s, first));
      ContinueAfter(s, first, rest);
      steps := [first] + rest;
    }
  }

  /** Some continuation lets the awaiting command return. */
  ghost predicate CanReturn(s: State) {
    exists steps :: Continue(s, steps).Some? && Enabled(Continue(s, steps).value, Return)
  }

  /** An awaiting command can still return if and only if it is in neither of the two dead ends. */
  lemma ReturnsUnlessDead(s: State)
    requires Inv(s) && s.command.Awaiting?
    ensures CanReturn(s) <==> !Stuck(s) && !Stalled(s)
  {
    if !Stuck(s) && !Stalled(s) {
      var steps := ReturnFollows(s);
    } else if CanReturn(s) {
      var steps :| Continue(s, steps).Some? && Enabled(Continue(s, steps).value, Return);
      if Stuck(s) {
        StuckForever(s, steps);
      } else {
        StalledForever(s, steps);
      }
    }
  }

  /** A stuck run exists: the connection fails, the SUBACK queue is drained, and only then does a
      subscribe register its waiter and get its request accepted. */
  lemma SubscribeCanHang() returns (steps: seq<Step>)
    ensures After(steps).Some? && Stuck(After(steps).value)
  {
    var s0 := CONNECTED;
    var s1, s2 := Do(s0, PollFailure), Do(Do(s0, PollFailure), DrainNext);
    assert s2.waiters == NO_WAITERS;
    var s3 := Do(s2, Start(Sub));
    var s4 := Do(s3, SendAccepted);
    assert After([]) == Some(s0);
    RunExtends([], PollFailure);
    RunExtends([] + [PollFailure], DrainNext);
    RunExtends([] + [PollFailure] + [DrainNext], Start(Sub));
    RunExtends([] + [PollFailure] + [DrainNext] + [Start(Sub)], SendAccepted);
    steps := [] + [PollFailure] + [DrainNext] + [Start(Sub)] + [SendAccepted];
    assert s4.waiters.Queue(Sub) == [0];
  }

  function Flood(n: nat): seq<Packet> { seq(n, _ => 0) }

  lemma {:induction false} FloodArrives(n: nat) returns (steps: seq<Step>)
    requires n <= INBOX_CAP
    ensures After(steps) == Some(CONNECTED.(arrived := Flood(n), inbox := Flood(n)))
  {
    if n == 0 {
      steps := [];
    } else {
      steps := FloodArrives(n - 1);
      RunExtends(steps, PollPublish(0));
      assert Flood(n - 1) + [0] == Flood(n);
      steps := steps + [PollPublish(0)];
    }
  }

  /** A stalled run exists: the inbox is full when a subscribe goes out, and one more PUBLISH comes in
      before its SUBACK. */
  lemma SubscribeCanStall() returns (steps: seq<Step>)
    ensures After(steps).Some? && Stalled(After(steps).value) && |After(steps).value.inbox| == 64
  {
    steps := FloodArrives(INBOX_CAP);
    RunExtends(steps, Start(Sub));
    RunExtends(steps + [Start(Sub)], SendAccepted);
    RunExtends(steps + [Start(Sub)] + [SendAccepted], PollPublish(0));
    steps := steps + [Start(Sub)] + [SendAccepted] + [PollPublish(0)];
    assert After(steps).value.waiters.Queue(Sub) == [0];
  }

  lemma RunExtends(steps: seq<Step>, step: Step)
    ensures var s := After(steps);
            After(steps + [step]) == if s.Some? && Enabled(s.value, step) then Some(Do(s.value, step)) else None
  {
    assert (steps + [step])[..|steps|] == steps;
  }
}
