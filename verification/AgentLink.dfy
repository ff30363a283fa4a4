/** The broker's stream to the registered chroot agent. */
module AgentLink {
  import opened Options
  import opened Kernel
  import opened Trace
  import opened AgentSession
  import opened Wire

  datatype AgentMessage =
    | Broken
    | Progress(acknowledged: bool)
    | ReadyMessage(ok: bool)
    | FailedMessage

  /** A message answers request `k` of those written, after the agent consumed
      the earlier ones without answering them. */
  ghost predicate Answers(before: seq<AgentRequest>, request: AgentRequest, after: seq<AgentRequest>)
  {
    exists k :: 0 <= k < |before| && before[k] == request && after == before[k + 1..]
  }

  /** The agent proved the scanout of the objects this START handed over, and did so
      in its latest start, from the records that start's Xorg sent. */
  ghost predicate Verified(evidence: Option<Evidence>, starts: nat, seen: seq<Record>, request: AgentRequest)
  {
    && request.Start? && evidence.Some? && Justified(evidence.value) && evidence.value.start == starts
    && evidence.value.connector == request.connector && evidence.value.crtc == request.crtc
    && evidence.value.trace <= seen
  }

  /** Messages that end a session: unreadable ones, failures, and a progress report
      that could not be acknowledged. */
  predicate BadNews(m: AgentMessage)
  {
    m.Broken? || m.FailedMessage? || m == Progress(false)
  }

  class AgentLink {
    const agent: Agent
    const wire: Wire
    var open: bool
    var continuous: bool
    var nextId: nat
    /** Requests written to the agent whose answer has not been read. */
    var unanswered: seq<AgentRequest>
    /** Every message read, oldest first. */
    ghost var messages: seq<AgentMessage>
    /** How often the connection was polled. */
    ghost var polls: nat
    /** How often it was then lost, or a message was bad news for a session. */
    ghost var alarms: nat
    /** How many writes failed and requests were answered without success. */
    ghost var faults: nat

    /** Everything the broker writes is something the agent may answer READY. */
    ghost predicate Valid()
      reads this`unanswered, agent, agent.observer
    {
      agent.Valid() && forall r :: r in unanswered ==> CanSucceed(r)
    }

    constructor (agent: Agent, wire: Wire)
      requires agent.Valid()
      ensures Valid() && !open && unanswered == [] && this.agent == agent && this.wire == wire
    {
      this.agent, this.wire := agent, wire;
      open, continuous, nextId, unanswered := false, false, 1, [];
      messages, polls, alarms, faults := [], 0, 0, 0;
    }

    method Register(continuous: bool)
      requires Valid() && !open
      modifies this`open, this`continuous, this`unanswered, agent, agent.observer
      ensures Valid() && open && this.continuous == continuous && unanswered == []
    {
      var startupOnly: bool := *;
      var session: bool := *;
      agent.Restart(startupOnly, session);
      open, this.continuous, unanswered := true, continuous, [];
    }

    method Close()
      requires Valid()
      modifies this`open, this`continuous, wire`events
      ensures Valid() && !open && !continuous && wire.events == old(wire.events) + [AgentLost]
    {
      open, continuous := false, false;
      wire.Note(AgentLost);
    }

    method Poll() returns (event: PollEvent)
      modifies this`polls, this`alarms
      ensures polls == old(polls) + 1
      ensures alarms == if event.HungUp? then old(alarms) + 1 else old(alarms)
    {
      event := *;
      polls := polls + 1;
      if event.HungUp? {
        alarms := alarms + 1;
      }
    }

    method NewId() returns (id: nat)
      modifies this`nextId
      ensures id == old(nextId) && nextId == id + 1
    {
      id := nextId;
      nextId := nextId + 1;
    }

    /** The request reaches the agent, with the lease if it carries one. */
    method Deliver(request: AgentRequest, lease: Option<nat>)
      requires Valid() && CanSucceed(request) && (request.Start? <==> lease.Some?)
      requires lease.Some? ==> wire.OwnsOnly(lease) && wire.Unsent(lease.value)
      modifies this`unanswered, wire
      ensures Valid() && unanswered == old(unanswered) + [request]
      ensures wire.events == if request.Start? then old(wire.events) + [Started] else old(wire.events)
      ensures wire.fates == if lease.Some? then old(wire.fates)[lease.value := Open(1)] else old(wire.fates)
      ensures lease.Some? ==> wire.OwnsOnly(lease)
    {
      unanswered := unanswered + [request];
      if request.Start? {
        wire.PassOn(lease.value);
        wire.Note(Started);
      }
    }

    /** Whether a write gets through, which takes a connection. */
    method Sends() returns (ok: bool)
      modifies this`faults
      ensures ok ==> open
      ensures faults == if ok then old(faults) else old(faults) + 1
    {
      ok := *;
      ok := ok && open;
      if !ok {
        faults := faults + 1;
      }
    }

    /** Attempts a write. A failed one delivers nothing. */
    method Write(request: AgentRequest, lease: Option<nat>) returns (ok: bool)
      requires Valid() && CanSucceed(request) && (request.Start? <==> lease.Some?)
      requires lease.Some? ==> wire.OwnsOnly(lease) && wire.Unsent(lease.value)
      modifies this`unanswered, this`faults, wire
      ensures Valid() && faults == if ok then old(faults) else old(faults) + 1
      ensures unanswered == if ok then old(unanswered) + [request] else old(unanswered)
      ensures ok ==> open
      ensures wire.events == if request.Stop? then old(wire.events) + [StopTried]
                             else if request.Start? && ok then old(wire.events) + [Started]
                             else old(wire.events)
      ensures wire.fates == if ok && lease.Some? then old(wire.fates)[lease.value := Open(1)] else old(wire.fates)
      ensures lease.Some? ==> wire.OwnsOnly(lease)
    {
      if request.Stop? {
        wire.Note(StopTried);
      }
      ok := Sends();
      if ok {
        Deliver(request, lease);
      }
    }

    /** The agent answers request `k`, having dropped the earlier ones. */
    method Answer(k: nat, prepared: bool, attempt: Attempt) returns (m: AgentMessage, request: AgentRequest)
      requires Valid() && k < |unanswered|
      modifies this`unanswered, agent, agent.observer, agent.device`crtcs, agent.device`flips,
               agent.device`inspections, agent.device.ledger
      ensures Valid()
      ensures request == old(unanswered)[k] && unanswered == old(unanswered)[k + 1..]
      ensures m.FailedMessage? || m.ReadyMessage?
      ensures m == ReadyMessage(true) ==> CanSucceed(request)
      ensures request.Stop? ==> m == ReadyMessage(true)
      ensures request.Prepare? ==> m == ReadyMessage(prepared)
      ensures agent.starts >= old(agent.starts)
      ensures m == ReadyMessage(true) && request.Start? ==>
                Verified(agent.evidence, agent.starts, agent.seen, request) && agent.starts == old(agent.starts) + 1
    {
      request := unanswered[k];
      assert request in unanswered;
      unanswered := unanswered[k + 1..];
      var reply := agent.Dispatch(request, prepared, attempt);
      m := if reply.Ready? then ReadyMessage(reply.ok) else FailedMessage;
    }

    /** Reads the next message. An answer is computed by the agent itself; the
        agent may have taken earlier requests for acknowledgements and dropped
        them. */
    method Read() returns (m: AgentMessage, answered: Option<AgentRequest>)
      requires Valid()
      modifies this`unanswered, this`messages, this`alarms, this`faults, agent, agent.observer, agent.device`crtcs,
               agent.device`flips, agent.device`inspections, agent.device.ledger
      ensures Valid() && messages == old(messages) + [m]
      ensures alarms == if BadNews(m) then old(alarms) + 1 else old(alarms)
      ensures faults == if m == ReadyMessage(false) then old(faults) + 1 else old(faults)
      ensures m.ReadyMessage? ==> answered.Some?
      ensures m.Progress? ==> answered.None?
      ensures answered.Some? ==> Answers(old(unanswered), answered.value, unanswered)
      ensures answered.None? ==> unanswered == old(unanswered) && agent.starts == old(agent.starts)
      ensures m == ReadyMessage(true) ==> CanSucceed(answered.value)
      ensures agent.starts >= old(agent.starts)
      ensures m == ReadyMessage(true) && answered.value.Start? ==>
                Verified(agent.evidence, agent.starts, agent.seen, answered.value) && agent.starts == old(agent.starts) + 1
    {
      answered := None;
      var unasked: Option<AgentMessage> := *;
      if unasked.Some? && !unasked.value.ReadyMessage? {
        m := unasked.value;
      } else if unanswered == [] {
        m := FailedMessage;
      } else {
        var k: int :| 0 <= k < |unanswered|;
        var prepared: bool := *;
        var attempt: Attempt := *;
        var request;
        m, request := Answer(k, prepared, attempt);
        answered := Some(request);
      }
      messages := messages + [m];
      if BadNews(m) {
        alarms := alarms + 1;
      }
      if m == ReadyMessage(false) {
        faults := faults + 1;
      }
    }
  }

  // ---------------------------------------------------------------------
  // Which request the two waits of a takeover can be answering

  /** Both waits of a takeover accept any READY with success. The first is read when
      PREPARE has been written after the earlier requests, the second when START has
      been written after whatever is then left. */
  ghost predicate Takeover(earlier: seq<AgentRequest>, prepare: AgentRequest, first: AgentRequest,
                           start: AgentRequest, second: AgentRequest)
  {
    exists left, after ::
      && Answers(earlier + [prepare], first, left) && CanSucceed(first)
      && Answers(left + [start], second, after) && CanSucceed(second)
  }

  lemma BothAnswered(earlier: seq<AgentRequest>, prepare: AgentRequest, first: AgentRequest, left: seq<AgentRequest>,
                     start: AgentRequest, second: AgentRequest, after: seq<AgentRequest>)
    requires Answers(earlier + [prepare], first, left) && CanSucceed(first)
    requires Answers(left + [start], second, after) && CanSucceed(second)
    ensures Takeover(earlier, prepare, first, start, second)
  {
  }

  /** The second READY is bound to answer this START if and only if nothing that was
      unanswered before the takeover can still be answered with success. */
  lemma SecondReadyAnswersStart(earlier: seq<AgentRequest>, prepare: AgentRequest, start: AgentRequest)
    requires prepare.Prepare? && CanSucceed(prepare) && start.Start? && CanSucceed(start)
    ensures (forall first, second :: Takeover(earlier, prepare, first, start, second) ==> second == start)
            <==> forall r :: r in earlier ==> !CanSucceed(r)
  {
    if k: nat :| k < |earlier| && CanSucceed(earlier[k]) {
      StaleAnswer(earlier, k, prepare, start);
    } else {
      forall first, second | Takeover(earlier, prepare, first, start, second)
        ensures second == start
      {
        FreshAnswer(earlier, prepare, first, start, second);
      }
    }
  }

  /** Everything the broker writes can be answered with success, so the condition is
      that nothing was left unanswered. */
  lemma BrokersSecondReady(earlier: seq<AgentRequest>, prepare: AgentRequest, start: AgentRequest)
    requires prepare.Prepare? && CanSucceed(prepare) && start.Start? && CanSucceed(start)
    requires forall r :: r in earlier ==> CanSucceed(r)
    ensures (forall first, second :: Takeover(earlier, prepare, first, start, second) ==> second == start)
            <==> earlier == []
  {
    SecondReadyAnswersStart(earlier, prepare, start);
    if earlier != [] {
      assert earlier[0] in earlier;
    }
  }

  lemma FreshAnswer(earlier: seq<AgentRequest>, prepare: AgentRequest, first: AgentRequest,
                    start: AgentRequest, second: AgentRequest)
    requires Takeover(earlier, prepare, first, start, second)
    requires forall r :: r in earlier ==> !CanSucceed(r)
    ensures first == prepare && second == start
  {
    var left, after :|
      && Answers(earlier + [prepare], first, left) && CanSucceed(first)
      && Answers(left + [start], second, after) && CanSucceed(second);
    var all := earlier + [prepare];
    var k :| 0 <= k < |all| && all[k] == first && left == all[k + 1..];
    forall i | 0 <= i < |earlier|
      ensures !CanSucceed(all[i])
    {
      assert earlier[i] in earlier;
    }
  }

  /** One that can still succeed is taken for the answer to PREPARE, and PREPARE's
      own answer for that to START. */
  lemma StaleAnswer(earlier: seq<AgentRequest>, k: nat, prepare: AgentRequest, start: AgentRequest)
    requires prepare.Prepare? && CanSucceed(prepare) && start.Start?
    requires k < |earlier| && CanSucceed(earlier[k])
    ensures Takeover(earlier, prepare, earlier[k], start, prepare)
  {
    var all := earlier + [prepare];
    var left := all[k + 1..];
    assert all[k] == earlier[k];
    assert Answers(all, earlier[k], left);
    var j := |left| - 1;
    assert (left + [start])[j] == prepare;
    assert Answers(left + [start], prepare, (left + [start])[j + 1..]);
  }

  /** It does happen: with only an old STOP unanswered, the agent's next two answers
      are two accepted READYs, to STOP and to PREPARE, while START has not been looked
      at. */
  method LateStop(link: AgentLink, prepare: AgentRequest, start: AgentRequest, lease: nat, attempt: Attempt)
    returns (first: AgentMessage, second: AgentMessage)
    requires link.Valid() && link.open && |link.unanswered| == 1 && link.unanswered[0].Stop?
    requires prepare.Prepare? && CanSucceed(prepare) && start.Start? && CanSucceed(start)
    requires link.wire.OwnsOnly(Some(lease)) && link.wire.Unsent(lease)
    modifies link`unanswered, link.wire, link.agent, link.agent.observer,
             link.agent.device`crtcs, link.agent.device`flips, link.agent.device`inspections, link.agent.device.ledger
    ensures first == ReadyMessage(true) && second == ReadyMessage(true)
    ensures link.unanswered == [start]
    ensures Takeover(old(link.unanswered), prepare, old(link.unanswered)[0], start, prepare)
  {
    var answered;
    link.Deliver(prepare, None);
    first, answered := link.Answer(0, true, attempt);
    link.Deliver(start, Some(lease));
    second, answered := link.Answer(0, true, attempt);
    StaleAnswer(old(link.unanswered), 0, prepare, start);
  }
}
