/**
 The takeover broker: a single-threaded event loop between the composer, the
 chroot agent and client commands.

 Everything the broker cannot control is left open: what polling returns, when
 commands and writes fail, what the composer and the agent answer, and how the
 clock advances.
 */
module Broker {
  import opened Options
  import opened Clients
  import opened Clock
  import opened Host
  import opened VolumeGuard
  import opened ComposerLink
  import opened AgentLink
  import opened AgentSession
  import opened PreferredMode
  import opened ArmingLog
  import opened Wire

  const ERR_PROTOCOL := -1
  const ERR_BUSY := -2
  const ERR_UNAVAILABLE := -3
  const ERR_PERMISSION := -4
  const ERR_STATE := -5
  const ERR_IO := -6
  const ERR_TIMEOUT := -7
  const ERR_INCOMPATIBLE := -8
  const ERR_AGENT := -9

  const SESSION_MS := 60000
  const HEARTBEAT_MS := 20000
  const AGENT_PREPARE_MS := 5000
  const AGENT_START_MS := 15000
  const AGENT_STOP_MS := 2000
  const PROBE_MS := 15000
  const LEASE_HOLD_MS := 3000

  const ACQUIRE_PHASES: seq<Op> := [OpAcquire(Prepared), OpAcquire(Paused), OpAcquire(Leased)]

  predicate AllowedMode(mode: Mode)
  {
    || mode == NATIVE
    || (mode.width >= 640 && mode.height >= 480 && 10000 <= mode.refreshMillihz <= 240000)
  }

  /** The PREPARE and START that made a session active, each with the request whose
      READY the broker took for its answer. */
  datatype Session = Session(
    prepare: AgentRequest, first: AgentRequest, start: AgentRequest, answered: AgentRequest)

  /** What an observer sees between two turns of the event loop. */
  datatype Snapshot = Snapshot(
    phase: Phase, reclaimed: bool, active: bool, probing: bool, downHeld: bool, upHeld: bool,
    awake: bool, calm: bool, time: nat, deadline: int, heartbeat: int, continuous: bool, agentOpen: bool,
    looks: nat, polls: nat, alarms: nat, openFds: set<nat>)

  /** Without a session the display is Android's; a session has it exactly as long as
      the composer has not taken it back by itself, and it always has time left: at most
      60 seconds, or 20 until its next sign of life. */
  ghost predicate SafeSnapshot(s: Snapshot)
  {
    && s.phase == (if s.active && !s.reclaimed then Leased else Android)
    && !s.probing
    && s.downHeld == s.upHeld == s.awake == s.active && (s.active ==> s.calm)
    && (!s.active ==> s.deadline == 0 && s.heartbeat == 0 && !s.continuous)
    && (s.active ==> s.agentOpen)
    && (s.active && s.continuous ==> s.deadline == 0 && s.time < s.heartbeat <= s.time + HEARTBEAT_MS)
    && (s.active && !s.continuous ==> s.heartbeat == 0 && s.time < s.deadline <= s.time + SESSION_MS)
    && s.openFds == {}
  }

  /** A session that goes on has been looked after once: the keys and the agent's
      connection were looked at, and there was nothing to end it for. */
  predicate Continues(s: Snapshot, t: Snapshot)
  {
    s.active && t.active ==> t.looks == s.looks + 1 && t.polls == s.polls + 1 && t.alarms == s.alarms
  }

  /** What the takeover's message buffer holds. The composer sends no agent messages. */
  datatype LastRead = AgentRefusal | OtherMessage

  datatype WaitOutcome = KeepWaiting | GiveUp | AgentFailed | Accepted(answered: AgentRequest)

  class Broker {
    const clock: Clock
    const listener: Listener
    const composer: ComposerLink
    const agents: AgentLink
    const volumes: VolumeGuard
    const host: Host
    const store: ModeStore
    const arming: Arming
    const wire: Wire

    var active: bool
    var probing: bool
    var sessionContinuous: bool
    var deadline: int
    var heartbeat: int

    ghost var session: Option<Session>
    /** When the session began, or a continuous one was last known to be alive. */
    ghost var since: nat
    ghost var boundaries: seq<Snapshot>

    /** The agent's side of the connection. */
    ghost function Peer(): set<object>
    {
      {agents.agent, agents.agent.observer, agents.agent.device, agents.agent.device.ledger}
    }

    ghost function Parts(): set<object>
    {
      {clock, composer, agents, volumes, host, store, arming, wire} + Peer()
    }

    lemma Apart()
      ensures this !in Parts() && listener !in Parts() && Peer() <= Parts()
      ensures {clock, composer, agents, volumes, host, store, arming, wire} <= Parts()
    {
    }

    // -------------------------------------------------------------------
    // Invariants

    /** Both connections write the same log, and the arming log refers to theirs. */
    ghost predicate Wired()
    {
      && composer.wire == wire && agents.wire == wire && composer.clock == clock
      && arming.composer == composer && arming.listener == listener && arming.store == store
    }

    ghost predicate Links()
      reads composer`open, composer`phase, composer`granted, composer`reclaims, composer`grantedAt,
            wire`fates, agents`unanswered, agents.agent, agents.agent.observer
    {
      Wired() && composer.Valid() && wire.OwnsOnly(None) && agents.Valid()
    }

    /** No takeover: the display is Android's and no guard is held. */
    ghost predicate Idle()
      reads this, composer`phase, volumes, host`blocking
    {
      && !active && composer.phase == Android && volumes.Free() && !host.blocking
      && deadline == 0 && heartbeat == 0 && !sessionContinuous
    }

    /** A session: the composer granted the lease, both guards are held, the last look
        at the keys was no escape, and one of the timers runs. */
    ghost predicate Running()
      reads this, composer`granted, volumes, host`blocking, clock
    {
      && active && volumes.Held() && volumes.Calm() && host.blocking
      && composer.granted == Leased && since <= clock.now
      && (if sessionContinuous then deadline == 0 && heartbeat == since + HEARTBEAT_MS
          else deadline == since + SESSION_MS && heartbeat == 0)
    }

    ghost predicate Guards()
      reads this, composer`phase, composer`granted, volumes, host`blocking, clock
    {
      !probing && (Idle() || Running())
    }

    /** How often a session was to end. */
    ghost function Alarms(): nat
      reads composer`alarms, agents`alarms, volumes`alarms
    {
      composer.alarms + agents.alarms + volumes.alarms
    }

    /** How often something went wrong. */
    ghost function Faults(): nat
      reads composer`alarms, composer`faults, agents`alarms, agents`faults, volumes`alarms, volumes`faults, host`faults
    {
      composer.alarms + composer.faults + agents.alarms + agents.faults + volumes.alarms + volumes.faults + host.faults
    }

    /** Time and everything that is counted or recorded only grows. */
    twostate predicate Onward()
      reads clock, composer, agents, volumes, host
    {
      && old(clock.now) <= clock.now && old(composer.answers) <= composer.answers
      && old(composer.alarms) <= composer.alarms && old(composer.faults) <= composer.faults
      && old(agents.alarms) <= agents.alarms && old(agents.faults) <= agents.faults
      && old(agents.messages) <= agents.messages
      && old(volumes.alarms) <= volumes.alarms && old(volumes.faults) <= volumes.faults
      && old(host.faults) <= host.faults
    }

    /** What waiting for the agent leaves alone. */
    twostate predicate Aside()
      reads composer, agents, volumes
    {
      && composer.open == old(composer.open) && composer.granted == old(composer.granted)
      && composer.grantedAt == old(composer.grantedAt) && composer.sent == old(composer.sent)
      && composer.answers == old(composer.answers) && composer.faults == old(composer.faults)
      && composer.received == old(composer.received)
      && agents.open == old(agents.open) && agents.continuous == old(agents.continuous)
      && volumes.down == old(volumes.down) && volumes.up == old(volumes.up) && volumes.faults == old(volumes.faults)
    }

    /** The session's timers are as they were. */
    twostate predicate SameTimers()
      reads this
    {
      && sessionContinuous == old(sessionContinuous) && deadline == old(deadline)
      && heartbeat == old(heartbeat) && since == old(since)
    }

    /** Nobody looked at the keys, the composer's or the agent's connection. */
    twostate predicate Undisturbed()
      reads composer, agents, volumes
    {
      && volumes.looks == old(volumes.looks) && volumes.alarms == old(volumes.alarms)
      && composer.polls == old(composer.polls) && composer.alarms == old(composer.alarms)
      && agents.polls == old(agents.polls) && agents.alarms == old(agents.alarms)
    }

    /** The timer of a session has not run out when the clock was last read. */
    ghost predicate TimeLeft()
      reads this, clock
    {
      active ==> clock.now < if sessionContinuous then heartbeat else deadline
    }

    /** The arming log is in order, the journal agrees with it, and while the requested
        mode counts as applied it is in force. */
    ghost predicate Preference()
      reads arming, store, composer`answers, composer.clock`now, listener`received
    {
      && Wired() && arming.Valid() && store.Valid() && store.Journaled(arming.preferenceApplied)
      && (arming.preferenceApplied ==> store.journal.Saved? && store.preferred == arming.requested)
    }

    /** Further replies and the passing of time do no harm. */
    twostate lemma StillPreferred()
      requires old(Preference()) && unchanged(arming) && unchanged(store) && unchanged(listener)
      requires old(composer.answers) <= composer.answers && old(clock.now) <= clock.now
      ensures Preference()
    {
      hide Honest, AutoStartsJustified, Stable, Polls;
      HonestGrows(arming.log, old(arming.Seen()), arming.Seen());
    }

    /** The agent is told to stop before the composer takes the display back, and every
        START has a cause of its own. */
    ghost predicate Ordered()
      reads wire`events, arming`log
    {
      StopsFirst(wire.events) && Caused(wire.events, arming.log)
    }

    /** The agent does not have the display. */
    ghost predicate Quiet()
      reads wire`events, arming`log
    {
      Ordered() && !Unstopped(wire.events)
    }

    /** The agent has the display only during a session, and then it is there to be
        told to stop. */
    ghost predicate Told()
      reads this`active, agents`open, wire`events, arming`log
    {
      Ordered() && (Unstopped(wire.events) ==> active && agents.open)
    }

    lemma OrderedAppend(e: WireEvent)
      requires Ordered() && (e.ReleaseTried? ==> !Unstopped(wire.events))
      requires e.Started? ==> Due(wire.events, arming.log)
      ensures StopsFirst(wire.events + [e]) && Caused(wire.events + [e], arming.log)
      ensures Unstopped(wire.events + [e]) == e.Started?
    {
      hide StopsFirst, Caused;
      AppendEvent(wire.events, e);
      CausedAppend(wire.events, arming.log, e);
    }

    ghost predicate Boundary()
      reads this, Parts(), listener
    {
      Links() && Guards() && (active ==> agents.open) && Preference() && Told()
    }

    /** The session's START was written after `left`, and its second READY answers one
        of these requests; if that is a START, the agent has just proved its scanout. */
    ghost predicate Admitted(left: seq<AgentRequest>, mode: nat, startsBefore: nat)
      reads this`session, agents`unanswered, agents.agent
    {
      && session.Some? && session.value.start.Start? && session.value.start.mode == mode
      && CanSucceed(session.value.answered)
      && Answers(left + [session.value.start], session.value.answered, agents.unanswered)
      && (session.value.answered.Start? ==>
            && Verified(agents.agent.evidence, agents.agent.starts, agents.agent.seen, session.value.answered)
            && startsBefore < agents.agent.starts)
    }

    constructor (agents: AgentLink, store: ModeStore, configured: Mode)
      requires agents.Valid() && agents.wire.OwnsOnly(None)
      ensures Links() && Guards() && Idle() && arming.Valid()
      ensures fresh(clock) && fresh(listener) && fresh(composer) && fresh(volumes) && fresh(host) && fresh(arming)
      ensures this.agents == agents && this.store == store && wire == agents.wire && boundaries == []
      ensures !arming.armed && !arming.preferenceApplied && arming.log == [] && arming.requested == configured
    {
      hide AgentLink.Valid, Wire.OwnsOnly, Arming.Valid, ComposerLink.Valid;
      var time := new Clock();
      var socket := new Listener();
      var link := new ComposerLink(agents.wire, time);
      clock, listener, composer := time, socket, link;
      this.agents, this.store, wire := agents, store, agents.wire;
      volumes := new VolumeGuard();
      host := new Host();
      arming := new Arming(link, socket, store, configured);
      active, probing, sessionContinuous := false, false, false;
      deadline, heartbeat := 0, 0;
      session, since, boundaries := None, 0, [];
    }

    // -------------------------------------------------------------------
    // Waiting for the agent

    method Expired() returns (expired: bool)
      modifies clock
      ensures clock.now >= old(clock.now)
      ensures expired <==> 0 < deadline <= clock.now
      ensures deadline <= 0 ==> clock.now == old(clock.now)
    {
      expired := false;
      if deadline > 0 {
        var t := clock.Read();
        expired := t >= deadline;
      }
    }

    /** The volume keys and the composer can end a wait. */
    method Interrupted() returns (stop: bool)
      requires Links()
      modifies clock, volumes, composer, wire`fates
      ensures Links() && Onward() && Aside()
      ensures composer.phase == old(composer.phase) || composer.phase == Android
      ensures stop <==> volumes.alarms > old(volumes.alarms) || composer.alarms > old(composer.alarms)
      ensures !stop ==> volumes.Calm()
    {
      hide Links, volumes.Calm;
      stop := volumes.Watch(clock);
      if !stop {
        stop := ComposerInterrupts();
      }
    }

    /** Nothing that comes from the composer during a wait is welcome but that the
        display is connected. */
    method ComposerInterrupts() returns (stop: bool)
      requires Links()
      modifies composer`status, composer`disconnectPending, composer`phase, composer`reclaims, composer`polls,
               composer`event, composer`alarms, wire`fates
      ensures Links()
      ensures composer.phase == old(composer.phase) || composer.phase == Android
      ensures old(composer.alarms) <= composer.alarms && (stop <==> composer.alarms > old(composer.alarms))
    {
      hide wire.OwnsOnly, agents.Valid, composer.Valid;
      stop := false;
      if !composer.open {
        return;
      }
      var event := composer.Poll();
      if event.HungUp? {
        return true;
      }
      if event.Readable? {
        var hotplug := composer.HandleReadable();
        if !hotplug.Connected? {
          composer.disconnectPending := true;
          return true;
        }
      }
    }

    /** Takes one message from the agent. */
    method TakeAgentMessage() returns (outcome: WaitOutcome)
      requires Links()
      modifies agents`unanswered, agents`messages, agents`alarms, agents`faults, Peer()
      ensures Links()
      ensures |agents.messages| == |old(agents.messages)| + 1 && old(agents.messages) <= agents.messages
      ensures outcome.AgentFailed? <==> agents.messages[|old(agents.messages)|].FailedMessage?
      ensures old(agents.alarms) <= agents.alarms && old(agents.faults) <= agents.faults
      ensures outcome.KeepWaiting? || outcome.Accepted? <==>
                agents.alarms == old(agents.alarms) && agents.faults == old(agents.faults)
      ensures outcome.KeepWaiting? ==>
                agents.unanswered == old(agents.unanswered) && agents.agent.starts == old(agents.agent.starts)
      ensures agents.agent.starts >= old(agents.agent.starts)
      ensures outcome.Accepted? ==>
                && Answers(old(agents.unanswered), outcome.answered, agents.unanswered)
                && CanSucceed(outcome.answered)
      ensures outcome.Accepted? && outcome.answered.Start? ==>
                && Verified(agents.agent.evidence, agents.agent.starts, agents.agent.seen, outcome.answered)
                && agents.agent.starts == old(agents.agent.starts) + 1
    {
      hide Verified, Answers, CanSucceed, wire.OwnsOnly;
      var m, a := agents.Read();
      match m
      case Broken =>
        return GiveUp;
      case Progress(acknowledged) =>
        return if acknowledged then KeepWaiting else GiveUp;
      case ReadyMessage(accepted) =>
        return if accepted then Accepted(a.value) else GiveUp;
      case FailedMessage =>
        return AgentFailed;
    }

    /** The last of the new messages is a FAILED. */
    static predicate NewRefusal(before: seq<AgentMessage>, after: seq<AgentMessage>)
    {
      |before| < |after| && after[|after| - 1].FailedMessage?
    }

    /** Looks at everything that can end a wait, except messages of the agent. */
    method PollOnce(end: int) returns (stop: bool, readable: bool)
      requires Links()
      modifies clock, volumes, composer, wire`fates, agents`polls, agents`alarms
      ensures Links() && Onward() && Aside()
      ensures composer.phase == old(composer.phase) || composer.phase == Android
      ensures stop ==> Faults() > old(Faults()) || end <= clock.now || 0 < deadline <= clock.now
      ensures !stop ==> volumes.Calm() && Faults() == old(Faults()) && (deadline > 0 ==> clock.now < deadline)
    {
      hide Links, volumes.Calm;
      readable := false;
      var t := clock.Read();
      var expired := Expired();
      if t >= end || expired {
        return true, false;
      }
      var event := agents.Poll();
      if event.HungUp? {
        return true, false;
      }
      stop := Interrupted();
      if !stop {
        stop := Expired();
      }
      readable := event.Readable?;
    }

    /** One turn of the wait for the agent, which also ends when the time is up. */
    method WaitOnce(end: int) returns (outcome: WaitOutcome)
      requires Links()
      modifies clock, volumes,
               composer, wire`fates,
               agents, Peer()
      ensures Links() && Onward() && Aside()
      ensures outcome.Accepted? ==> volumes.Calm()
      ensures outcome.Accepted? || outcome.KeepWaiting? ==> Faults() == old(Faults())
      ensures !outcome.Accepted? && !outcome.KeepWaiting? ==>
                Faults() > old(Faults()) || end <= clock.now || 0 < deadline <= clock.now
      ensures outcome.KeepWaiting? ==>
                agents.unanswered == old(agents.unanswered) && agents.agent.starts == old(agents.agent.starts)
      ensures outcome.AgentFailed? <==> NewRefusal(old(agents.messages), agents.messages)
      ensures outcome.Accepted? && deadline > 0 ==> clock.now < deadline
      ensures composer.phase == old(composer.phase) || composer.phase == Android
      ensures agents.agent.starts >= old(agents.agent.starts)
      ensures outcome.Accepted? ==>
                && Answers(old(agents.unanswered), outcome.answered, agents.unanswered)
                && CanSucceed(outcome.answered)
      ensures outcome.Accepted? && outcome.answered.Start? ==>
                && Verified(agents.agent.evidence, agents.agent.starts, agents.agent.seen, outcome.answered)
                && agents.agent.starts == old(agents.agent.starts) + 1
    {
      hide Verified, Answers, CanSucceed, Links, volumes.Calm, BadNews;
      var stop, readable := PollOnce(end);
      if stop {
        return GiveUp;
      }
      if readable {
        outcome := TakeAgentMessage();
      } else {
        return KeepWaiting;
      }
    }

    /** Waits for the next READY or FAILED, whichever request it answers. */
    method WaitAgent(timeout: nat) returns (outcome: WaitOutcome)
      requires Links()
      modifies clock, volumes,
               composer, wire`fates,
               agents, Peer()
      ensures Links() && !outcome.KeepWaiting? && Onward() && Aside()
      ensures outcome.Accepted? ==> volumes.Calm() && Faults() == old(Faults())
      ensures !outcome.Accepted? ==>
                Faults() > old(Faults()) || old(clock.now) + timeout <= clock.now || 0 < deadline <= clock.now
      ensures outcome.AgentFailed? <==> NewRefusal(old(agents.messages), agents.messages)
      ensures outcome.Accepted? && deadline > 0 ==> clock.now < deadline
      ensures composer.phase == old(composer.phase) || composer.phase == Android
      ensures agents.agent.starts >= old(agents.agent.starts)
      ensures outcome.Accepted? ==>
                && Answers(old(agents.unanswered), outcome.answered, agents.unanswered)
                && CanSucceed(outcome.answered)
      ensures outcome.Accepted? && outcome.answered.Start? ==>
                && Verified(agents.agent.evidence, agents.agent.starts, agents.agent.seen, outcome.answered)
                && agents.agent.starts == old(agents.agent.starts) + 1
    {
      hide Verified, Answers, CanSucceed, Links;
      var begin := clock.Read();
      var rounds: int :| rounds >= 0;
      while rounds > 0
        invariant Links() && Onward() && Aside() && Faults() == old(Faults())
        invariant composer.phase == old(composer.phase) || composer.phase == Android
        invariant agents.unanswered == old(agents.unanswered)
        invariant !NewRefusal(old(agents.messages), agents.messages)
        invariant agents.agent.starts == old(agents.agent.starts)
        decreases rounds
      {
        rounds := rounds - 1;
        outcome := WaitOnce(begin + timeout);
        if !outcome.KeepWaiting? {
          return;
        }
      }
      clock.Pass(begin + timeout);
      return GiveUp;
    }

    // -------------------------------------------------------------------
    // Taking the display

    method CleanupGuards()
      modifies volumes`down, volumes`up, volumes`downPressed, volumes`upPressed, volumes`bothSince, host`blocking,
               this`deadline, this`heartbeat, this`sessionContinuous
      ensures volumes.Free() && !host.blocking && deadline == 0 && heartbeat == 0 && !sessionContinuous
    {
      volumes.Release();
      host.Unblock();
      deadline, heartbeat, sessionContinuous := 0, 0, false;
    }

    /** Attempts to tell the agent to stop. */
    method WriteStop() returns (written: bool)
      requires Wired() && agents.Valid() && Ordered()
      modifies agents`unanswered, agents`nextId, agents`faults, wire
      ensures agents.Valid() && Quiet() && wire.events == old(wire.events) + [StopTried]
      ensures wire.fates == old(wire.fates) && agents.faults >= old(agents.faults)
    {
      OrderedAppend(StopTried);
      var id := agents.NewId();
      written := agents.Write(Stop(id), None);
    }

    /** Asks the composer to take the display back, which it then has. */
    method SendRelease() returns (released: bool, heard: bool)
      requires Wired() && composer.Valid() && wire.OwnsOnly(None) && Quiet()
      modifies composer, wire
      ensures composer.Valid() && wire.OwnsOnly(None) && composer.phase == Android
      ensures Quiet() && wire.events == old(wire.events) + [ReleaseTried]
      ensures old(composer.answers) <= composer.answers && composer.alarms == old(composer.alarms)
      ensures old(composer.faults) <= composer.faults && (released <==> composer.faults == old(composer.faults))
      ensures released ==> composer.sent == old(composer.sent) + [OpRelease]
      ensures heard <==> composer.received > old(composer.received)
    {
      OrderedAppend(ReleaseTried);
      var ok, result, reply, saw;
      ok, result, reply, saw, heard := composer.Request(OpRelease, false);
      released := ok && result == OK;
    }

    /** Undoes a takeover that did not complete: the agent is told to stop, if it may
        have the display, and then the composer to take it back. */
    method Abandon(tellAgent: bool) returns (heard: bool)
      requires Links() && !active && Ordered() && (!tellAgent ==> !Unstopped(wire.events))
      modifies composer, agents`unanswered, agents`nextId, agents`faults, wire, host`blocking,
               volumes`down, volumes`up, volumes`downPressed, volumes`upPressed, volumes`bothSince,
               this`deadline, this`heartbeat, this`sessionContinuous
      ensures Links() && Idle() && Quiet()
      ensures wire.events == Ending(old(wire.events), tellAgent, true)
      ensures Onward()
      ensures heard <==> composer.received > old(composer.received)
    {
      hide StopsFirst, Caused, Unstopped, agents.Valid, wire.OwnsOnly;
      if tellAgent {
        var written := WriteStop();
      }
      var released;
      released, heard := SendRelease();
      CleanupGuards();
    }

    /** Gives up on an unanswered or refused START. The status is chosen by the message
        buffer, which RELEASE fills again: the refusal is reported as one if and only if
        the agent refused and nothing came back from the composer. */
    method FailStart(last: LastRead) returns (status: int)
      requires Links() && !active && Ordered()
      modifies composer, agents`unanswered, agents`nextId, agents`faults, wire, host`blocking,
               volumes`down, volumes`up, volumes`downPressed, volumes`upPressed, volumes`bothSince,
               this`deadline, this`heartbeat, this`sessionContinuous
      ensures Links() && Idle() && Quiet()
      ensures wire.events == Ending(old(wire.events), true, true)
      ensures Onward()
      ensures status == ERR_AGENT <==> last.AgentRefusal? && composer.received <= old(composer.received)
      ensures status != ERR_AGENT ==> status == ERR_TIMEOUT
    {
      var response := last;
      var heard := Abandon(true);
      if heard {
        response := OtherMessage;
      }
      return if response.AgentRefusal? then ERR_AGENT else ERR_TIMEOUT;
    }

    /** Asks for one acquire phase. */
    method AcquirePhase(phase: Phase, keepFd: bool) returns (status: int, reply: Option<Reply>)
      requires Wired() && composer.Valid() && wire.OwnsOnly(None)
      modifies composer, wire
      ensures composer.Valid()
      ensures wire.OwnsOnly(if reply.Some? then reply.value.fd else None) && wire.events == old(wire.events)
      ensures reply.Some? && reply.value.fd.Some? ==> keepFd && wire.Unsent(reply.value.fd.value)
      ensures status == OK ==> reply.Some? && reply.value.result == OK && composer.granted == phase
      ensures status == OK ==> composer.sent == old(composer.sent) + [OpAcquire(phase)]
      ensures old(composer.answers) <= composer.answers && composer.alarms == old(composer.alarms)
      ensures old(composer.faults) <= composer.faults
      ensures composer.faults == old(composer.faults) <==> status == OK && (keepFd ==> reply.value.fd.Some?)
      ensures reply.Some? && reply.value.result != OK ==> status == reply.value.result
    {
      var ok, result, saw, heard;
      ok, result, reply, saw, heard := composer.Request(OpAcquire(phase), keepFd);
      status := if ok && result == OK then OK else if result != OK then result else ERR_IO;
    }

    /** The compatibility gates and both guards, or nothing. */
    method EnterGuards() returns (status: int)
      requires Idle()
      modifies host, volumes`down, volumes`up, volumes`downPressed, volumes`upPressed, volumes`bothSince,
               volumes`grabs, volumes`faults, this`deadline, this`heartbeat, this`sessionContinuous
      ensures status == OK ==> volumes.Held() && host.blocking && deadline == 0 && heartbeat == 0 && !sessionContinuous
      ensures status != OK ==> Idle()
      ensures Onward() && old(host.gates) <= host.gates && |host.gates| == |old(host.gates)| + 1
      ensures status == ERR_INCOMPATIBLE <==> !host.gates[|old(host.gates)|]
      ensures status == OK <==> host.faults == old(host.faults) && volumes.faults == old(volumes.faults)
      ensures status != OK ==> host.faults + volumes.faults == old(host.faults + volumes.faults) + 1
      ensures status == OK || status == ERR_INCOMPATIBLE || status == ERR_UNAVAILABLE
    {
      var compatible := host.Compatible();
      if !compatible {
        return ERR_INCOMPATIBLE;
      }
      var grabbed := volumes.Acquire();
      if !grabbed {
        return ERR_UNAVAILABLE;
      }
      var awake := host.Block();
      if !awake {
        CleanupGuards();
        return ERR_UNAVAILABLE;
      }
      return OK;
    }

    method WritePrepare(mode: nat) returns (ok: bool, prepare: AgentRequest)
      requires Links() && agents.open && XorgProbe(mode)
      modifies agents`unanswered, agents`nextId, agents`faults, wire
      ensures Links() && wire.events == old(wire.events) && prepare.Prepare? && prepare.mode == mode
      ensures agents.unanswered == if ok then old(agents.unanswered) + [prepare] else old(agents.unanswered)
      ensures agents.faults == if ok then old(agents.faults) else old(agents.faults) + 1
    {
      var id := agents.NewId();
      prepare := Prepare(id, mode);
      ok := agents.Write(prepare, None);
    }

    /** Writes PREPARE and waits for a READY. */
    method PrepareAgent(mode: nat) returns (ok: bool, prepare: AgentRequest, first: AgentRequest)
      requires Links() && composer.phase == Android && agents.open && XorgProbe(mode)
      modifies clock, volumes,
               composer, wire,
               agents, Peer()
      ensures Links() && composer.phase == Android && wire.events == old(wire.events)
      ensures agents.agent.starts >= old(agents.agent.starts)
      ensures Onward() && Aside() && (ok ==> Faults() == old(Faults()))
      ensures !ok ==>
                || Faults() > old(Faults()) || old(clock.now) + AGENT_PREPARE_MS <= clock.now
                || 0 < deadline <= clock.now
      ensures prepare.Prepare? && prepare.mode == mode
      ensures ok ==> Answers(old(agents.unanswered) + [prepare], first, agents.unanswered) && CanSucceed(first)
    {
      hide Links, Answers, CanSucceed, Verified, volumes.Calm, NewRefusal;
      ok, prepare := WritePrepare(mode);
      first := prepare;
      if ok {
        var outcome := WaitAgent(AGENT_PREPARE_MS);
        ok := outcome.Accepted?;
        if ok {
          first := outcome.answered;
        }
      }
    }

    /** Something went wrong, or took five seconds. */
    twostate predicate Obstructed()
      reads clock, composer, agents, volumes, host
    {
      Faults() > old(Faults()) || old(clock.now) + AGENT_PREPARE_MS <= clock.now
    }

    /** What a start puts on the wire: nothing when it does not get past the guards;
        STOP when the agent was not prepared; STOP and RELEASE when the composer did not
        give the lease; RELEASE alone when the lease could not be delivered; START, and
        then also STOP and RELEASE when it was not accepted. */
    static ghost predicate StartTrace(before: seq<WireEvent>, after: seq<WireEvent>, status: int)
    {
      || (status == OK && after == before + [Started])
      || (status != OK && after == before)
      || (status == ERR_AGENT && (after == before + [StopTried] || after == before + [ReleaseTried]))
      || (status != OK && after == before + [StopTried, ReleaseTried])
      || ((status == ERR_AGENT || status == ERR_TIMEOUT) && after == before + [Started, StopTried, ReleaseTried])
    }

    static lemma StartTraces(before: seq<WireEvent>, status: int)
      ensures StartTrace(before, before + [StopTried], ERR_AGENT)
      ensures StartTrace(before, before + [Started], OK)
      ensures StartTrace(before, Ending(before, false, true), ERR_AGENT)
      ensures forall code :: code != OK ==> StartTrace(before, before, code)
      ensures status != OK ==> StartTrace(before, Ending(before, true, true), status)
      ensures status == ERR_AGENT || status == ERR_TIMEOUT ==>
                StartTrace(before, Ending(before + [Started], true, true), status)
    {
      assert before + [StopTried] + [ReleaseTried] == before + [StopTried, ReleaseTried];
      assert before + [Started] + [StopTried] + [ReleaseTried] == before + [Started, StopTried, ReleaseTried];
    }

    /** Takes the display for Xorg. It succeeds exactly when the session becomes
        active; on every failure nothing of the takeover is left. With no request
        unanswered at the start, success means that the agent accepted this very
        START after proving its scanout in a start of its own. */
    method Start(mode: nat) returns (status: int)
      requires Links() && Guards() && Told() && Due(wire.events, arming.log)
      modifies clock, composer, agents, Peer(),
               volumes, host, wire,
               this`active, this`sessionContinuous, this`deadline, this`heartbeat, this`session,
               this`since
      ensures Links() && Guards() && Told()
      ensures Onward() && agents.open == old(agents.open)
      ensures status == OK ==> !old(active) && Running() && agents.open
      ensures status != OK ==> active == old(active)
      ensures old(active) ==> status == ERR_BUSY && Undisturbed() && SameTimers()
      ensures !old(active) && !XorgProbe(mode) ==> status == ERR_PROTOCOL
      ensures !old(active) && XorgProbe(mode) ==>
                && old(host.gates) < host.gates
                && (!host.gates[|old(host.gates)|] ==> status == ERR_INCOMPATIBLE)
                && (host.gates[|old(host.gates)|] && !agents.open ==> status == ERR_AGENT)
                && (agents.open ==> if status == OK then Faults() == old(Faults()) else Obstructed())
      ensures StartTrace(old(wire.events), wire.events, status)
      ensures status == OK ==> XorgProbe(mode) && composer.sent == old(composer.sent) + ACQUIRE_PHASES
      ensures status == OK ==> Opened(old(agents.unanswered), mode, old(agents.agent.starts))
      ensures status == OK ==> old(clock.now) <= since <= clock.now && TimeLeft()
      ensures status == OK && old(agents.unanswered) == [] ==>
                && session.value.answered == session.value.start
                && Verified(agents.agent.evidence, agents.agent.starts, agents.agent.seen, session.value.start)
                && agents.agent.starts > old(agents.agent.starts)
    {
      hide Links, StopsFirst, Caused, Unstopped, Opened, Verified, Takeover, StartTrace, volumes.Calm;
      StartTraces(wire.events, ERR_BUSY);
      if active {
        return ERR_BUSY;
      }
      if !XorgProbe(mode) {
        return ERR_PROTOCOL;
      }
      if !agents.open {
        var compatible := host.Compatible();
        return if compatible then ERR_AGENT else ERR_INCOMPATIBLE;
      }
      status := EnterSession(mode);
      if status == OK && old(agents.unanswered) == [] {
        OnlyThisStart(mode, old(agents.agent.starts));
      }
    }

    /** Gets the guards and then the display. */
    method EnterSession(mode: nat) returns (status: int)
      requires Links() && Idle() && Told() && Due(wire.events, arming.log) && XorgProbe(mode) && agents.open
      modifies clock, composer, agents, Peer(), volumes, host, wire,
               this`active, this`sessionContinuous, this`deadline, this`heartbeat, this`session, this`since
      ensures Links() && Told()
      ensures Onward() && agents.open == old(agents.open)
      ensures old(host.gates) < host.gates
      ensures !host.gates[|old(host.gates)|] ==> status == ERR_INCOMPATIBLE
      ensures if status == OK then Faults() == old(Faults()) else Obstructed()
      ensures StartTrace(old(wire.events), wire.events, status)
      ensures status == OK ==> Running()
      ensures status != OK ==> Idle()
      ensures status == OK ==> composer.sent == old(composer.sent) + ACQUIRE_PHASES
      ensures status == OK ==> Opened(old(agents.unanswered), mode, old(agents.agent.starts))
      ensures status == OK ==> old(clock.now) <= since && TimeLeft()
    {
      hide Links, StopsFirst, Caused, Unstopped, Opened, Verified, Takeover, StartTrace, volumes.Calm;
      StartTraces(wire.events, ERR_BUSY);
      status := EnterGuards();
      if status == OK {
        status := OpenSession(mode);
      }
    }

    /** With nothing unanswered before, the second READY answers this START. */
    lemma OnlyThisStart(mode: nat, startsBefore: nat)
      requires Opened([], mode, startsBefore)
      ensures session.value.answered == session.value.start
      ensures Verified(agents.agent.evidence, agents.agent.starts, agents.agent.seen, session.value.start)
      ensures agents.agent.starts > startsBefore
    {
      hide Verified, Takeover;
      NothingUnanswered(session.value);
    }

    /** Both waits took a READY, the first after PREPARE and the second after START was
        written behind the requests unanswered before. */
    ghost predicate Opened(earlier: seq<AgentRequest>, mode: nat, startsBefore: nat)
      reads this`session, agents.agent
    {
      && session.Some? && session.value.prepare.Prepare? && session.value.start.Start?
      && session.value.prepare.mode == mode && session.value.start.mode == mode
      && Takeover(earlier, session.value.prepare, session.value.first,
                  session.value.start, session.value.answered)
      && (session.value.answered.Start? ==>
            && Verified(agents.agent.evidence, agents.agent.starts, agents.agent.seen, session.value.answered)
            && startsBefore < agents.agent.starts)
    }

    static lemma NothingUnanswered(s: Session)
      requires Takeover([], s.prepare, s.first, s.start, s.answered)
      ensures s.answered == s.start
    {
      FreshAnswer([], s.prepare, s.first, s.start, s.answered);
    }

    /** The takeover itself, once both guards are held. */
    method OpenSession(mode: nat) returns (status: int)
      requires Links() && Told() && composer.phase == Android && !active && agents.open
      requires volumes.Held() && host.blocking
      requires deadline == 0 && heartbeat == 0 && XorgProbe(mode)
      requires Due(wire.events, arming.log)
      modifies clock, composer, agents, Peer(),
               volumes, host`blocking, wire,
               this`active, this`sessionContinuous, this`deadline, this`heartbeat, this`session,
               this`since
      ensures Links() && Told()
      ensures Onward() && agents.open == old(agents.open)
      ensures if status == OK then Faults() == old(Faults()) else Obstructed()
      ensures StartTrace(old(wire.events), wire.events, status)
      ensures status == OK ==> Running()
      ensures status != OK ==> Idle()
      ensures status == OK ==> composer.sent == old(composer.sent) + ACQUIRE_PHASES
      ensures status == OK ==> Opened(old(agents.unanswered), mode, old(agents.agent.starts))
      ensures status == OK ==> old(clock.now) <= since && TimeLeft()
    {
      hide Links, StartTrace, StopsFirst, Caused, Unstopped, Running, Idle, TimeLeft, volumes.Calm, Due, Verified,
           Answers, Takeover, CanSucceed;
      var prepared, prepare, first := BeginSession(mode);
      StartTraces(old(wire.events), ERR_AGENT);
      if !prepared {
        return ERR_AGENT;
      }
      ghost var left := agents.unanswered;
      status := TakeDisplay(mode, prepare, first);
      if status == OK {
        BothAnswered(old(agents.unanswered), prepare, first, left,
                     session.value.start, session.value.answered, agents.unanswered);
      }
    }

    /** Sets the deadline and prepares the agent, or gives up again. */
    method BeginSession(mode: nat) returns (ok: bool, prepare: AgentRequest, first: AgentRequest)
      requires Links() && Told() && composer.phase == Android && !active && agents.open
      requires volumes.Held() && host.blocking
      requires deadline == 0 && heartbeat == 0 && XorgProbe(mode)
      modifies clock, volumes, host`blocking, wire,
               composer,
               agents, Peer(),
               this`sessionContinuous, this`deadline, this`heartbeat,
               this`since
      ensures Links() && Quiet() && composer.phase == Android && Onward() && agents.open == old(agents.open)
      ensures if ok then Faults() == old(Faults()) else Obstructed()
      ensures agents.agent.starts >= old(agents.agent.starts)
      ensures ok ==>
                && volumes.Held() && host.blocking && heartbeat == 0
                && (if sessionContinuous then deadline == 0 else deadline == since + SESSION_MS)
                && old(clock.now) <= since <= clock.now
                && prepare.Prepare? && prepare.mode == mode && CanSucceed(first)
                && Answers(old(agents.unanswered) + [prepare], first, agents.unanswered)
                && wire.events == old(wire.events) && composer.sent == old(composer.sent)
      ensures !ok ==> Idle() && wire.events == old(wire.events) + [StopTried]
    {
      hide Links, StopsFirst, Caused, Unstopped, Answers, CanSucceed;
      StartClock();
      ok, prepare, first := PrepareAgent(mode);
      if !ok {
        Unprepare();
      }
    }

    /** The agent is told to stop and the guards are given up. */
    method Unprepare()
      requires Links() && Ordered() && !active && composer.phase == Android
      modifies agents`unanswered, agents`nextId, agents`faults, wire, host`blocking,
               volumes`down, volumes`up, volumes`downPressed, volumes`upPressed, volumes`bothSince,
               this`deadline, this`heartbeat, this`sessionContinuous
      ensures Links() && Idle() && Quiet() && wire.events == old(wire.events) + [StopTried]
      ensures agents.faults >= old(agents.faults)
    {
      hide StopsFirst, Caused, Unstopped, agents.Valid, wire.OwnsOnly, composer.Valid;
      var written := WriteStop();
      CleanupGuards();
    }

    /** A bounded session gets its deadline before anything else happens. */
    method StartClock()
      requires deadline == 0
      modifies clock, this`sessionContinuous, this`deadline, this`since
      ensures sessionContinuous == agents.continuous && old(clock.now) <= since == clock.now
      ensures if sessionContinuous then deadline == 0 else deadline == since + SESSION_MS
    {
      sessionContinuous := agents.continuous;
      if !sessionContinuous {
        var now := clock.Read();
        deadline := now + SESSION_MS;
      }
      since := clock.now;
    }

    /** The part of a takeover that touches the composer. */
    method TakeDisplay(mode: nat, ghost prepare: AgentRequest, ghost first: AgentRequest) returns (status: int)
      requires Links() && Quiet() && !active && volumes.Held() && host.blocking && agents.open && heartbeat == 0
      requires XorgProbe(mode) && if sessionContinuous then deadline == 0 else deadline == since + SESSION_MS
      requires since <= clock.now
      requires Due(wire.events, arming.log)
      modifies clock, composer, agents, Peer(),
               volumes, host`blocking, wire,
               this`active, this`sessionContinuous, this`deadline, this`heartbeat, this`session,
               this`since
      ensures Links() && Told()
      ensures Onward() && agents.open == old(agents.open)
      ensures status == OK ==> TimeLeft() && (since == old(since) || old(clock.now) <= since)
      ensures if status == OK then Faults() == old(Faults())
              else Faults() > old(Faults()) || old(clock.now) + AGENT_START_MS <= clock.now
                   || old(since) + SESSION_MS <= clock.now
      ensures StartTrace(old(wire.events), wire.events, status)
      ensures status == OK ==> Running()
      ensures status != OK ==> Idle()
      ensures status == OK ==> composer.sent == old(composer.sent) + ACQUIRE_PHASES
      ensures status == OK ==>
                && Admitted(old(agents.unanswered), mode, old(agents.agent.starts))
                && session.value.prepare == prepare && session.value.first == first
    {
      hide agents.Valid, wire.OwnsOnly, wire.Unsent, composer.Valid, StopsFirst, Caused, Unstopped, Ending, StartTrace,
           Admitted, Running, TimeLeft, Due, volumes.Calm;
      var reply;
      status, reply := AcquireLease();
      if status != OK {
        var heard := Abandon(true);
        StartTraces(old(wire.events), status);
        return;
      }
      status := HandOver(mode, reply, prepare, first);
    }

    /** The three acquire phases in order; a lease descriptor on success. */
    method AcquireLease() returns (status: int, reply: Reply)
      requires Wired() && composer.Valid() && wire.OwnsOnly(None)
      modifies composer, wire
      ensures composer.Valid() && wire.events == old(wire.events)
      ensures wire.OwnsOnly(if status == OK then reply.fd else None)
      ensures status == OK ==>
                reply.fd.Some? && wire.Unsent(reply.fd.value) && reply.result == OK && composer.granted == Leased
      ensures status == OK ==> composer.sent == old(composer.sent) + ACQUIRE_PHASES
      ensures old(composer.answers) <= composer.answers && composer.alarms == old(composer.alarms)
      ensures old(composer.faults) <= composer.faults && (status == OK <==> composer.faults == old(composer.faults))
    {
      reply := *;
      var r;
      status, r := AcquirePhase(Prepared, false);
      if status != OK {
        return;
      }
      status, r := AcquirePhase(Paused, false);
      if status != OK {
        return;
      }
      status, r := AcquirePhase(Leased, true);
      if status != OK || r.value.fd.None? {
        if r.Some? && r.value.fd.Some? {
          wire.Close(r.value.fd.value);
        }
        status := if status != OK then status else ERR_IO;
        return;
      }
      reply := r.value;
    }

    /** Sends START with the lease descriptor and closes the broker's copy. */
    method DeliverLease(mode: nat, lease: Reply) returns (sent: bool, start: AgentRequest)
      requires Wired() && composer.Valid() && agents.Valid() && Quiet() && XorgProbe(mode)
      requires Due(wire.events, arming.log)
      requires lease.fd.Some? && wire.OwnsOnly(lease.fd) && wire.Unsent(lease.fd.value)
      modifies agents`unanswered, agents`nextId, agents`faults, wire
      ensures Links() && Ordered() && Unstopped(wire.events) == sent
      ensures wire.fates == old(wire.fates)[lease.fd.value := Closed(if sent then 1 else 0)]
      ensures wire.events == if sent then old(wire.events) + [Started] else old(wire.events)
      ensures agents.faults == if sent then old(agents.faults) else old(agents.faults) + 1
      ensures start.Start? && start.mode == mode && start.connector == lease.connector && start.crtc == lease.crtc
      ensures agents.unanswered == if sent then old(agents.unanswered) + [start] else old(agents.unanswered)
    {
      OrderedAppend(Started);
      var id := agents.NewId();
      start := AgentSession.Start(id, mode, lease.connector, lease.crtc, true);
      sent := agents.Write(start, lease.fd);
      wire.Close(lease.fd.value);
    }

    /** Sends the lease to the agent and waits until it reports a verified scanout. */
    method HandOver(mode: nat, lease: Reply, ghost prepare: AgentRequest, ghost first: AgentRequest)
      returns (status: int)
      requires Wired() && composer.Valid() && agents.Valid() && Quiet() && XorgProbe(mode)
      requires lease.fd.Some? && wire.OwnsOnly(lease.fd) && wire.Unsent(lease.fd.value)
      requires composer.granted == Leased && !active && volumes.Held() && host.blocking && agents.open && heartbeat == 0
      requires if sessionContinuous then deadline == 0 else deadline == since + SESSION_MS
      requires since <= clock.now
      requires Due(wire.events, arming.log)
      modifies clock, composer, agents, Peer(),
               volumes, host`blocking, wire,
               this`active, this`sessionContinuous, this`deadline, this`heartbeat, this`session,
               this`since
      ensures Links() && Told()
      ensures Onward() && agents.open == old(agents.open)
      ensures status == OK ==> TimeLeft() && (since == old(since) || old(clock.now) <= since)
      ensures if status == OK then Faults() == old(Faults())
              else Faults() > old(Faults()) || old(clock.now) + AGENT_START_MS <= clock.now
                   || old(since) + SESSION_MS <= clock.now
      ensures StartTrace(old(wire.events), wire.events, status)
      ensures status == OK ==> Running() && composer.sent == old(composer.sent)
      ensures status != OK ==> Idle()
      ensures status == OK ==>
                && Admitted(old(agents.unanswered), mode, old(agents.agent.starts))
                && session.value.prepare == prepare && session.value.first == first
                && session.value.start.connector == lease.connector
                && session.value.start.crtc == lease.crtc
    {
      hide Links, StopsFirst, Caused, Unstopped, agents.Valid, wire.OwnsOnly, wire.Unsent, composer.Valid,
           Verified, Answers, CanSucceed, XorgProbe, Due, Ending, TimeLeft, StartTrace, volumes.Calm;
      var sent, start := DeliverLease(mode, lease);
      if !sent {
        var heard := Abandon(false);
        StartTraces(old(wire.events), ERR_AGENT);
        return ERR_AGENT;
      }
      status := AwaitStart(start, prepare, first, old(agents.unanswered));
      StartTraces(old(wire.events), status);
    }

    /** Waits for the answer to START and gives up unless it is a READY. */
    method AwaitStart(ghost start: AgentRequest, ghost prepare: AgentRequest, ghost first: AgentRequest,
                      ghost left: seq<AgentRequest>)
      returns (status: int)
      requires Links() && Ordered() && start.Start? && agents.unanswered == left + [start]
      requires composer.granted == Leased && !active && volumes.Held() && host.blocking && agents.open && heartbeat == 0
      requires if sessionContinuous then deadline == 0 else deadline == since + SESSION_MS
      requires since <= clock.now
      modifies clock, composer, agents, Peer(), volumes, host`blocking, wire,
               this`active, this`sessionContinuous, this`deadline, this`heartbeat, this`session, this`since
      ensures Links() && Told()
      ensures Onward() && agents.open == old(agents.open)
      ensures status == OK ==> TimeLeft() && (since == old(since) || old(clock.now) <= since)
      ensures if status == OK then Faults() == old(Faults())
              else Faults() > old(Faults()) || old(clock.now) + AGENT_START_MS <= clock.now
                   || old(since) + SESSION_MS <= clock.now
      ensures wire.events == if status == OK then old(wire.events) else Ending(old(wire.events), true, true)
      ensures status == OK || status == ERR_AGENT || status == ERR_TIMEOUT
      ensures status == OK ==> Running() && composer.sent == old(composer.sent)
      ensures status != OK ==> Idle()
      ensures status == OK ==>
                && Admitted(left, start.mode, old(agents.agent.starts))
                && session.value.prepare == prepare && session.value.first == first && session.value.start == start
    {
      hide Links, Ordered, Unstopped, Verified, Answers, CanSucceed, Ending, TimeLeft, volumes.Calm, NewRefusal,
           Admitted, Running, Idle;
      var outcome := WaitAgent(AGENT_START_MS);
      status := Settle(outcome, start, prepare, first, left, old(agents.agent.starts));
    }

    /** Opens the session if START was accepted, and undoes the takeover otherwise. */
    method Settle(outcome: WaitOutcome, ghost start: AgentRequest, ghost prepare: AgentRequest,
                  ghost first: AgentRequest, ghost left: seq<AgentRequest>, ghost startsBefore: nat)
      returns (status: int)
      requires Links() && Ordered() && start.Start?
      requires composer.granted == Leased && !active && volumes.Held() && host.blocking && agents.open && heartbeat == 0
      requires if sessionContinuous then deadline == 0 else deadline == since + SESSION_MS
      requires since <= clock.now
      requires outcome.Accepted? ==>
                 && volumes.Calm() && (deadline > 0 ==> clock.now < deadline)
                 && CanSucceed(outcome.answered) && Answers(left + [start], outcome.answered, agents.unanswered)
      requires outcome.Accepted? && outcome.answered.Start? ==>
                 && Verified(agents.agent.evidence, agents.agent.starts, agents.agent.seen, outcome.answered)
                 && startsBefore < agents.agent.starts
      modifies clock, composer, agents`unanswered, agents`nextId, agents`faults, volumes, host`blocking, wire,
               this`active, this`sessionContinuous, this`deadline, this`heartbeat, this`session, this`since
      ensures Links() && Told() && Onward()
      ensures status == OK <==> outcome.Accepted?
      ensures status != OK ==> status == ERR_TIMEOUT || (status == ERR_AGENT && outcome.AgentFailed?)
      ensures status == OK ==> Faults() == old(Faults())
      ensures status == OK ==> TimeLeft() && (since == old(since) || old(clock.now) <= since)
      ensures wire.events == if status == OK then old(wire.events) else Ending(old(wire.events), true, true)
      ensures status == OK ==> Running() && composer.sent == old(composer.sent)
      ensures status != OK ==> Idle()
      ensures status == OK ==>
                && Admitted(left, start.mode, startsBefore)
                && session.value.prepare == prepare && session.value.first == first && session.value.start == start
    {
      hide Links, StopsFirst, Caused, Unstopped, Verified, Answers, CanSucceed, Ending, TimeLeft, volumes.Calm;
      if !outcome.Accepted? {
        status := FailStart(if outcome.AgentFailed? then AgentRefusal else OtherMessage);
        return;
      }
      BecomeActive(Session(prepare, first, start, outcome.answered));
      return OK;
    }

    method BecomeActive(ghost begun: Session)
      requires volumes.Held() && volumes.Calm() && host.blocking && composer.granted == Leased
      requires since <= clock.now && heartbeat == 0
      requires if sessionContinuous then deadline == 0 else clock.now < deadline == since + SESSION_MS
      modifies clock, this`active, this`heartbeat, this`since, this`session
      ensures session == Some(begun)
      ensures Running() && TimeLeft() && clock.now >= old(clock.now)
      ensures since == old(since) || old(clock.now) <= since
    {
      active, session := true, Some(begun);
      if sessionContinuous {
        var now := clock.Read();
        heartbeat, since := now + HEARTBEAT_MS, now;
      }
    }

    // -------------------------------------------------------------------
    // The lease-only probe

    method FinishLeaseProbe(fd: Option<nat>, status: int) returns (result: int)
      requires Wired() && composer.Valid() && wire.OwnsOnly(fd) && agents.Valid() && !active && Quiet()
      modifies composer, wire, host`blocking,
               volumes`down, volumes`up, volumes`downPressed, volumes`upPressed, volumes`bothSince,
               this`probing, this`deadline, this`heartbeat, this`sessionContinuous
      ensures Links() && Idle() && !probing && Quiet()
      ensures wire.events == old(wire.events) + [ReleaseTried]
      ensures old(composer.answers) <= composer.answers && composer.alarms == old(composer.alarms)
      ensures old(composer.faults) <= composer.faults
      ensures result == OK <==> status == OK && composer.faults == old(composer.faults)
      ensures result == OK ==> composer.sent == old(composer.sent) + [OpRelease]
      ensures status != OK ==> result == status
      ensures status == OK ==> result == OK || result == ERR_IO
    {
      hide StopsFirst, Caused, Unstopped, agents.Valid;
      if fd.Some? {
        wire.Close(fd.value);
      }
      var released, heard := SendRelease();
      probing := false;
      CleanupGuards();
      if status == OK && !released {
        return ERR_IO;
      }
      return status;
    }

    /** Takes a lease, holds it for three seconds and gives it back. */
    method ProbeLease() returns (status: int)
      requires Links() && Guards() && Told()
      modifies clock, composer, volumes, host, wire,
               this`probing, this`deadline, this`heartbeat, this`sessionContinuous
      ensures Links() && Guards() && Told()
      ensures Onward()
      ensures old(active) ==> status == ERR_BUSY && Undisturbed() && SameTimers()
      ensures !old(active) && status != OK ==> Faults() > old(Faults())
      ensures status == OK ==>
                && composer.sent == old(composer.sent) + ACQUIRE_PHASES + [OpRelease]
                && composer.faults == old(composer.faults) && wire.events == old(wire.events) + [ReleaseTried]
                && (volumes.alarms > old(volumes.alarms) || old(clock.now) + LEASE_HOLD_MS <= clock.now)
    {
      hide StopsFirst, Caused, Unstopped, Links;
      if active || probing {
        return ERR_BUSY;
      }
      status := EnterGuards();
      if status == OK {
        status := HoldAndRelease();
      }
    }

    /** The probe itself, once both guards are held. */
    method HoldAndRelease() returns (status: int)
      requires Links() && !active && !probing && Quiet()
      modifies clock, composer, volumes, host`blocking, wire,
               this`probing, this`deadline, this`heartbeat, this`sessionContinuous
      ensures Links() && Idle() && !probing && Quiet() && Onward()
      ensures status != OK ==> composer.faults > old(composer.faults)
      ensures status == OK ==>
                && composer.sent == old(composer.sent) + ACQUIRE_PHASES + [OpRelease]
                && composer.faults == old(composer.faults) && wire.events == old(wire.events) + [ReleaseTried]
                && (volumes.alarms > old(volumes.alarms) || old(clock.now) + LEASE_HOLD_MS <= clock.now)
    {
      hide Quiet, Idle, agents.Valid, wire.OwnsOnly, wire.Unsent, composer.Valid, volumes.Calm;
      probing := true;
      var now := clock.Read();
      deadline := now + PROBE_MS;
      var lease;
      status, lease := AcquireLease();
      if status != OK {
        status := FinishLeaseProbe(None, status);
        return;
      }
      var escaped := HoldLease();
      status := FinishLeaseProbe(lease.fd, OK);
    }

    /** Holds the lease for three seconds unless the volume keys end that. */
    method HoldLease() returns (escaped: bool)
      modifies clock, volumes`downPressed, volumes`upPressed, volumes`bothSince, volumes`looks, volumes`alarms
      ensures clock.now >= old(clock.now) && old(volumes.looks) <= volumes.looks
      ensures old(volumes.alarms) <= volumes.alarms && (escaped <==> volumes.alarms > old(volumes.alarms))
      ensures !escaped ==> clock.now >= old(clock.now) + LEASE_HOLD_MS
    {
      var begin := clock.Read();
      var rounds: int :| rounds >= 0;
      while rounds > 0
        invariant clock.now >= old(clock.now) && old(volumes.looks) <= volumes.looks
        invariant volumes.alarms == old(volumes.alarms)
        decreases rounds
      {
        rounds := rounds - 1;
        var t := clock.Read();
        if t >= begin + LEASE_HOLD_MS {
          return false;
        }
        var escape := volumes.Watch(clock);
        if escape {
          return true;
        }
      }
      clock.Pass(begin + LEASE_HOLD_MS);
      return false;
    }

    // -------------------------------------------------------------------
    // Giving the display back

    /** Ends a session, or does nothing when there is none. */
    method Release(tellComposer: bool)
      requires Links() && !probing && (active || Idle()) && Preference() && Told()
      requires !tellComposer ==> !composer.open
      modifies Parts(), this`active, this`deadline, this`heartbeat, this`sessionContinuous
      ensures Links() && Guards() && Idle() && Preference() && Told()
      ensures old(active) ==> !arming.armed
      ensures arming.requested == old(arming.requested)
      ensures agents.open == old(agents.open)
      ensures Onward()
      ensures arming.log == old(arming.log) || arming.log == old(arming.log) + [ArmEnded]
    {
      hide Preference, StopsFirst, Caused, Unstopped, agents.Valid, wire.OwnsOnly, composer.Valid, Parts;
      Apart();
      if !active && !volumes.down && !volumes.up {
        return;
      }
      GiveBack(tellComposer);
      StillPreferred();
      EndArming();
    }

    /** The agent is told to stop, if it is there, before the composer is told. */
    method GiveBack(tellComposer: bool)
      requires Links() && Told()
      requires !tellComposer ==> !composer.open
      modifies clock, composer, agents, Peer(),
               volumes, host`blocking, wire,
               this`active, this`deadline, this`heartbeat, this`sessionContinuous
      ensures Links() && Idle() && Quiet()
      ensures wire.events == Ending(old(wire.events), agents.open, tellComposer && old(composer.open))
      ensures Onward() && agents.open == old(agents.open)
    {
      hide StopsFirst, Caused, Unstopped, agents.Valid, wire.OwnsOnly, composer.Valid;
      StopAgent();
      TakeBack(tellComposer);
      active := false;
      CleanupGuards();
    }

    /** The composer is told, if there is a connection to it; without one it has the
        display back already. */
    method TakeBack(tellComposer: bool)
      requires Wired() && composer.Valid() && wire.OwnsOnly(None) && Quiet()
      requires !tellComposer ==> !composer.open
      modifies composer, wire
      ensures composer.Valid() && wire.OwnsOnly(None) && Quiet() && composer.phase == Android
      ensures wire.events == Ending(old(wire.events), false, tellComposer && old(composer.open))
      ensures old(composer.answers) <= composer.answers && composer.alarms == old(composer.alarms)
      ensures old(composer.faults) <= composer.faults
    {
      hide Quiet, wire.OwnsOnly;
      if tellComposer && composer.open {
        var released, heard := SendRelease();
      }
    }

    method EndArming()
      requires Preference() && Ordered()
      modifies arming, store
      ensures arming.requested == old(arming.requested)
      ensures Preference() && Ordered() && !arming.armed
      ensures arming.log == old(arming.log) || arming.log == old(arming.log) + [ArmEnded]
    {
      if arming.armed {
        arming.End();
        CausedLater(wire.events, old(arming.log), arming.log);
        var recovered := store.Recover();
        HonestGrows(arming.log, old(arming.Seen()), arming.Seen());
      }
    }

    /** Writes STOP; its answer may not arrive. */
    method StopAgent()
      requires Links() && Told()
      modifies clock, volumes,
               composer,
               agents, Peer(), wire
      ensures Links() && Quiet()
      ensures Onward() && Aside()
      ensures wire.events == Ending(old(wire.events), agents.open, false)
      ensures composer.phase == old(composer.phase) || composer.phase == Android
    {
      hide StopsFirst, Caused, Unstopped, agents.Valid, wire.OwnsOnly, Answers, Verified;
      if agents.open {
        var written := WriteStop();
        if written {
          var outcome := WaitAgent(AGENT_STOP_MS);
        }
      }
    }

    // -------------------------------------------------------------------
    // Arming

    method Disarm()
      requires Preference() && Ordered()
      modifies store, composer`disconnectPending, arming`armed, arming`preferenceApplied,
               arming`replugRequired, arming`stableSamples, arming`nextModePoll, arming`log
      ensures Preference() && Ordered() && !arming.armed
      ensures arming.log == old(arming.log) + [ArmEnded] && store.faults >= old(store.faults)
      ensures !arming.preferenceApplied && !arming.replugRequired
    {
      arming.End();
      arming.nextModePoll := 0;
      composer.disconnectPending := false;
      CausedLater(wire.events, old(arming.log), arming.log);
      var recovered := store.Recover();
      HonestGrows(arming.log, old(arming.Seen()), arming.Seen());
    }

    method SetMode(mode: Mode) returns (status: int)
      requires Preference() && Ordered()
      requires listener.received != [] && AsksForMode(listener.received[|listener.received| - 1], mode)
      modifies arming`requested, arming`log, host`saves, host`faults
      ensures Preference() && Ordered()
      ensures old(arming.Awaiting()) ==> arming.Awaiting()
      ensures active || arming.armed || probing ==>
                status == ERR_BUSY && arming.log == old(arming.log) && arming.requested == old(arming.requested)
      ensures arming.requested != old(arming.requested) ==>
                !arming.armed && arming.requested == mode && AllowedMode(mode)
      ensures !active && !arming.armed && !probing && !AllowedMode(mode) ==>
                status == ERR_PROTOCOL && arming.log == old(arming.log)
      ensures !active && !arming.armed && !probing && AllowedMode(mode) ==>
                && arming.requested == mode && host.saves == old(host.saves) + [Save(mode, status == OK)]
                && (status == OK || status == ERR_IO)
      ensures old(host.faults) <= host.faults
      ensures status == OK <==>
                !active && !arming.armed && !probing && AllowedMode(mode) && host.faults == old(host.faults)
      ensures old(arming.log) <= arming.log
    {
      if active || arming.armed || probing {
        return ERR_BUSY;
      }
      if mode != NATIVE && (mode.width < 640 || mode.height < 480 || mode.refreshMillihz < 10000
                            || mode.refreshMillihz > 240000) {
        return ERR_PROTOCOL;
      }
      arming.Configure(mode);
      CausedLater(wire.events, old(arming.log), arming.log);
      var saved := host.SaveMode(mode);
      return if saved then OK else ERR_IO;
    }

    /** The display was just seen unplugged: the requested mode is applied. */
    method ApplyPreference() returns (ok: bool)
      requires Preference() && Ordered() && arming.armed && !arming.preferenceApplied
      requires arming.log != [] && arming.log[|arming.log| - 1].SawDisconnected?
      requires arming.sawAt == |arming.log| - 1
      modifies store, arming`log, arming`applyAt, arming`preferenceApplied
      ensures Preference() && Ordered() && arming.preferenceApplied == ok
      ensures old(store.faults) <= store.faults && (ok <==> store.faults == old(store.faults))
      ensures ok ==>
                && arming.log == old(arming.log) + [ModeApplied(arming.requested, |store.history| - 1)]
                && |old(store.history)| < |store.history| && store.preferred == arming.requested
      ensures !ok ==> arming.log == old(arming.log)
    {
      hide Honest, AutoStartsJustified, Stable, Polls, arming.Fields, store.Journaled, StopsFirst, Caused;
      ok := store.Apply(arming.requested);
      HonestGrows(arming.log, old(arming.Seen()), arming.Seen());
      if ok {
        arming.SetApplied();
        CausedLater(wire.events, old(arming.log), arming.log);
      }
    }

    /** What the answer to an arming means, given what held before. Native leaves the
        configured mode as it is, and so does an armed broker. */
    ghost predicate ArmAnswer(mode: Mode, wasActive: bool, wasArmed: bool, before: Mode, status: int)
      reads this`active, arming`armed, arming`requested
    {
      && active == wasActive
      && (wasActive ==> status == ERR_BUSY)
      && (wasActive || wasArmed ==> arming.armed == wasArmed && arming.requested == before)
      && (!wasActive && wasArmed ==> status == OK)
      && (!wasActive && !wasArmed ==>
            && arming.requested == (if mode == NATIVE || !AllowedMode(mode) then before else mode)
            && (status == OK <==> arming.armed)
            && (!AllowedMode(mode) ==> status == ERR_PROTOCOL))
    }

    method Arm(mode: Mode) returns (status: int)
      requires Links() && Guards() && Preference() && Ordered()
      requires arming.Awaiting() && AsksToArm(listener.received[|listener.received| - 1])
      requires AsksForMode(listener.received[|listener.received| - 1], mode)
      modifies composer, wire, store, arming, host`gates, host`saves, host`faults
      ensures Links() && Guards() && Preference() && Ordered()
      ensures wire.events == old(wire.events)
      ensures ArmAnswer(mode, active, old(arming.armed), old(arming.requested), status)
      ensures active || old(arming.armed) ==> arming.log == old(arming.log)
      ensures active ==> Undisturbed()
      ensures !active && !old(arming.armed) && AllowedMode(mode) ==>
                (status == OK <==> host.faults == old(host.faults) && store.faults == old(store.faults))
      ensures !active && !old(arming.armed) && status == OK ==>
                && host.gates == old(host.gates) + [true]
                && host.saves == (if mode == NATIVE then old(host.saves) else old(host.saves) + [Save(mode, true)])
                && arming.preferenceApplied == !arming.replugRequired
                && (arming.replugRequired ==> composer.status.connected || composer.faults > old(composer.faults))
                && (arming.preferenceApplied ==> !composer.status.connected)
      ensures old(arming.log) <= arming.log
    {
      hide Honest, AutoStartsJustified, Stable, Polls, arming.Fields, store.Journaled, Links, StopsFirst, Caused;
      if active || probing {
        return ERR_BUSY;
      }
      if arming.armed {
        return OK;
      }
      if mode != NATIVE {
        status := SetMode(mode);
        if status != OK {
          return;
        }
      }
      var compatible := host.Compatible();
      if !compatible {
        return ERR_INCOMPATIBLE;
      }
      status := AcceptArm();
    }

    lemma NothingApplied()
      requires Preference() && !arming.armed
      ensures !arming.preferenceApplied && !arming.replugRequired
    {
    }

    /** Accepts an arming. The mode is applied at once only if the composer's answer to
        the STATUS request sent here says disconnected. */
    method AcceptArm() returns (status: int)
      requires Links() && Idle() && Preference() && Ordered() && !arming.armed
      requires arming.Awaiting() && AsksToArm(listener.received[|listener.received| - 1])
      modifies composer, wire, store, arming
      ensures Links() && Idle() && Preference() && Ordered() && wire.events == old(wire.events)
      ensures status == OK || status == ERR_IO
      ensures status == OK <==> arming.armed
      ensures old(store.faults) <= store.faults && (status == OK <==> store.faults == old(store.faults))
      ensures arming.requested == old(arming.requested)
      ensures status == OK ==> arming.preferenceApplied == !arming.replugRequired
      ensures arming.replugRequired ==> composer.status.connected || composer.faults > old(composer.faults)
      ensures arming.preferenceApplied ==> !composer.status.connected
      ensures old(arming.log) + [ArmAccepted(|listener.received| - 1, |old(composer.answers)|)] <= arming.log
      ensures RestsOnLater(arming.log, |old(arming.log)|, |old(composer.answers)|)
    {
      hide Honest, AutoStartsJustified, Stable, Polls, arming.Fields, store.Journaled, Links, Bounded,
           Ordered, RestsOnLater;
      NothingApplied();
      RestsOnNothing(arming.log, |composer.answers|);
      RestsOnLaterAppend(arming.log, |arming.log|, |composer.answers|,
                         ArmAccepted(|listener.received| - 1, |composer.answers|));
      var answered := OpenArming();
      if !answered || composer.status.connected {
        arming.RequireReplug();
        return OK;
      }
      ghost var log := arming.log;
      var applied := ConfirmUnplugged();
      RestsOnLaterAppend(log, |old(arming.log)|, |old(composer.answers)|, arming.log[|log|]);
      RestsOnLaterAppend(log + [arming.log[|log|]], |old(arming.log)|, |old(composer.answers)|, arming.log[|log| + 1]);
      return if applied then OK else ERR_IO;
    }

    /** Notes the arming and asks the composer for its status. */
    method OpenArming() returns (answered: bool)
      requires Links() && Idle() && Preference() && Ordered() && !arming.armed
      requires arming.Awaiting() && AsksToArm(listener.received[|listener.received| - 1])
      modifies composer, wire, arming`armed, arming`stableSamples, arming`nextModePoll, arming`log, arming`armAt
      ensures Links() && Idle() && Preference() && Ordered() && wire.events == old(wire.events)
      ensures arming.armed
      ensures arming.log == old(arming.log) + [ArmAccepted(|listener.received| - 1, |old(composer.answers)|)]
      ensures Onward() && composer.alarms == old(composer.alarms)
      ensures !answered ==> composer.faults > old(composer.faults)
      ensures answered ==>
                |composer.answers| == |old(composer.answers)| + 1 && arming.JustAnswered(composer.status)
    {
      hide Honest, AutoStartsJustified, Stable, Polls, arming.Fields, store.Journaled, agents.Valid, Bounded;
      arming.Accept();
      composer.disconnectPending := false;
      ghost var before := arming.Seen();
      var result, reply, saw, heard;
      answered, result, reply, saw, heard := composer.Request(OpStatus, false);
      CausedLater(wire.events, old(arming.log), arming.log);
      HonestGrows(arming.log, before, arming.Seen());
    }

    /** The answer to the arming's STATUS request says disconnected. */
    method ConfirmUnplugged() returns (applied: bool)
      requires Preference() && Ordered() && arming.armed && !arming.preferenceApplied
      requires arming.JustAnswered(composer.status) && !composer.status.connected
      modifies store, arming
      ensures Preference() && Ordered() && arming.armed == applied == arming.preferenceApplied
      ensures arming.requested == old(arming.requested) && arming.replugRequired == (applied && old(arming.replugRequired))
      ensures old(store.faults) <= store.faults && (applied <==> store.faults == old(store.faults))
      ensures arming.log == old(arming.log) + [old(arming.SawNow())]
                            + [if applied then ModeApplied(arming.requested, |store.history| - 1) else ArmEnded]
    {
      hide Honest, AutoStartsJustified, Stable, Polls, arming.Fields, store.Journaled, Bounded, StopsFirst, Caused;
      arming.SeeDisconnected();
      CausedLater(wire.events, old(arming.log), arming.log);
      applied := ApplyPreference();
      if !applied {
        ghost var log := arming.log;
        arming.End();
        CausedLater(wire.events, log, arming.log);
      }
    }

    /** One poll of an armed broker. A remembered unplug blocks it until some message
        reports the display connected again. */
    method AdvanceArmed() returns (sawConnected: bool)
      requires Boundary() && arming.armed && !active
      modifies Parts(), this`active, this`sessionContinuous, this`deadline, this`heartbeat, this`session,
               this`since
      ensures Boundary()
      ensures old(arming.log) <= arming.log
      ensures RestsOnLater(arming.log, |old(arming.log)|, |old(composer.answers)|)
      ensures arming.log != old(arming.log) ==>
                && arming.log[|old(arming.log)|].Polled?
                && old(clock.now) <= arming.log[|old(arming.log)|].time <= clock.now
      ensures arming.log == old(arming.log) ==> clock.now < old(arming.nextModePoll)
      ensures !arming.armed ==> store.faults > old(store.faults) || Obstructed()
      ensures arming.armed && !active ==> clock.now < arming.nextModePoll
      ensures Onward() && TimeLeft() && arming.requested == old(arming.requested)
      ensures old(composer.disconnectPending) && !sawConnected ==>
                && arming.armed && !active
                && arming.preferenceApplied == old(arming.preferenceApplied)
                && store.Now() == old(store.Now())
      ensures active ==> CauseSince(arming.log, |old(arming.log)|)
    {
      hide Links, Preference, Told, Parts, Peer, volumes.Calm, CauseSince;
      Apart();
      sawConnected := false;
      var now := clock.Read();
      StillPreferred();
      if now < arming.nextModePoll {
        return;
      }
      var ok;
      ok, sawConnected := AskStatus();
      if ok {
        Judge(now);
      } else {
        MissPoll(now);
      }
    }

    /** A poll that brings no answer starts the count of good ones anew. */
    method MissPoll(now: int)
      requires Boundary() && arming.armed && now == clock.now
      modifies arming`log, arming`stableSamples, arming`nextModePoll
      ensures Boundary() && arming.stableSamples == 0 && arming.nextModePoll == now + MODE_POLL_MS
      ensures arming.log == old(arming.log) + [Polled(now, None, composer.status, agents.open)]
      ensures RestsOnLater(arming.log, |old(arming.log)|, |composer.answers|)
    {
      hide Honest, AutoStartsJustified, Stable, Polls, arming.Fields, store.Journaled, StopsFirst, Caused, Unstopped,
           agents.Valid, store.Valid, wire.OwnsOnly, composer.Valid, volumes.Calm;
      arming.PollFailed(agents.open, now);
      CausedLater(wire.events, old(arming.log), arming.log);
    }

    /** The STATUS request of a poll. */
    method AskStatus() returns (ok: bool, sawConnected: bool)
      requires Boundary()
      modifies composer, wire
      ensures Onward() && Undisturbed() && (!ok ==> composer.faults > old(composer.faults))
      ensures Boundary() && (ok ==> arming.JustAnswered(composer.status) && composer.answers != [])
      ensures ok ==> |composer.answers| == |old(composer.answers)| + 1
      ensures old(composer.disconnectPending) && !sawConnected ==> !ok
    {
      hide Honest, AutoStartsJustified, Stable, Polls, arming.Fields, store.Journaled, StopsFirst, Caused, Unstopped,
           agents.Valid, store.Valid, Bounded;
      var result, reply, heard;
      ok, result, reply, sawConnected, heard := composer.Request(OpStatus, false);
      HonestGrows(arming.log, old(arming.Seen()), arming.Seen());
    }

    /** The display is connected at the requested mode, or at any if that is native. */
    method RequestedModeMatches() returns (matches: bool)
      ensures matches <==> ModeMatches(composer.status, arming.requested)
    {
      var status := composer.status;
      if !status.connected || !status.activeMode {
        return false;
      }
      if arming.requested == NATIVE {
        return true;
      }
      var delta := status.mode.refreshMillihz - arming.requested.refreshMillihz;
      return status.mode.width == arming.requested.width && status.mode.height == arming.requested.height
             && (if delta < 0 then -delta else delta) <= REFRESH_TOLERANCE;
    }

    /** The answer to a poll passes every test. */
    ghost predicate Ripe()
      reads composer`status, arming`requested, arming`replugRequired, arming`preferenceApplied, agents`open
    {
      && composer.status.connected && !arming.replugRequired && arming.preferenceApplied
      && ModeMatches(composer.status, arming.requested) && composer.status.leaseReady && agents.open
    }

    /** Acts on the answer to a poll. */
    method Judge(now: int)
      requires Boundary() && arming.armed && !active && arming.nextModePoll <= now == clock.now
      requires arming.JustAnswered(composer.status)
      modifies Parts(), this`active, this`sessionContinuous, this`deadline, this`heartbeat, this`session,
               this`since
      ensures Boundary()
      ensures old(arming.log) + [old(arming.PollNow(now, agents.open))] <= arming.log
      ensures RestsOnLater(arming.log, |old(arming.log)|, |old(composer.answers)| - 1)
      ensures active ==> CauseSince(arming.log, |old(arming.log)|)
      ensures arming.armed && !active ==> clock.now < arming.nextModePoll
      ensures Onward() && TimeLeft() && arming.requested == old(arming.requested)
      ensures old(Ripe()) && old(arming.stableSamples) + 1 < MODE_STABLE_SAMPLES ==>
                && arming.log == old(arming.log) + [old(arming.PollNow(now, agents.open))]
                && arming.stableSamples == old(arming.stableSamples) + 1 && arming.armed && !active
      ensures old(Ripe()) && old(arming.stableSamples) + 1 >= MODE_STABLE_SAMPLES ==>
                && |old(arming.log)| + 1 < |arming.log|
                && arming.log[|old(arming.log)| + 1] == AutoStart(arming.requested, |old(wire.events)|)
                && arming.armed == active && (!active ==> Obstructed())
      ensures !old(Ripe()) && old(composer.status.connected) ==>
                && arming.log == old(arming.log) + [old(arming.PollNow(now, agents.open))]
                && arming.stableSamples == (if old(arming.replugRequired || !arming.preferenceApplied)
                                            then old(arming.stableSamples) else 0)
                && arming.armed && !active
      ensures !old(composer.status.connected) ==>
                && !active && arming.armed == arming.preferenceApplied && !arming.replugRequired
                && (!arming.armed ==> !old(arming.preferenceApplied) && store.faults > old(store.faults))
    {
      hide Honest, AutoStartsJustified, Stable, Polls, arming.Fields, store.Journaled, StopsFirst, Caused,
           Unstopped, Links, store.Valid, Parts, Peer, volumes.Calm, ModeMatches;
      Apart();
      if !composer.status.connected {
        JudgeUnplugged(now);
        return;
      }
      var matches := RequestedModeMatches();
      if arming.replugRequired || !arming.preferenceApplied || !matches || !composer.status.leaseReady || !agents.open {
        JudgeUnready(now);
      } else {
        JudgeRipe(now);
        assert active ==> IsCause(arming.log[|old(arming.log)| + 1]);
      }
    }

    /** A poll that fails a test. Before the mode is applied it leaves the count alone,
        and after that it starts the count anew. */
    method JudgeUnready(now: int)
      requires Boundary() && arming.armed && !active && now == clock.now
      requires arming.JustAnswered(composer.status)
      modifies arming`log, arming`stableSamples, arming`nextModePoll
      ensures Boundary() && arming.nextModePoll == now + MODE_POLL_MS
      ensures arming.log == old(arming.log) + [arming.PollNow(now, agents.open)]
      ensures arming.stableSamples == if arming.replugRequired || !arming.preferenceApplied
                                      then old(arming.stableSamples) else 0
    {
      hide Honest, AutoStartsJustified, Stable, Polls, arming.Fields, store.Journaled, StopsFirst, Caused,
           Unstopped, Links, store.Valid, volumes.Calm;
      if arming.replugRequired || !arming.preferenceApplied {
        arming.PollReplug(agents.open, now);
      } else {
        arming.PollBad(agents.open, now);
      }
      CausedLater(wire.events, old(arming.log), arming.log);
    }

    /** A poll that passes every test is counted, and the third in a row starts Xorg. */
    method JudgeRipe(now: int)
      requires Boundary() && arming.armed && !active && arming.nextModePoll <= now == clock.now
      requires arming.JustAnswered(composer.status) && Ripe()
      modifies Parts(), this`active, this`sessionContinuous, this`deadline, this`heartbeat, this`session,
               this`since
      ensures Boundary()
      ensures var polled := old(arming.log) + [old(arming.PollNow(now, agents.open))];
              var start := AutoStart(arming.requested, |old(wire.events)|);
              if old(arming.stableSamples) + 1 < MODE_STABLE_SAMPLES then
                arming.log == polled && arming.stableSamples == old(arming.stableSamples) + 1 && arming.armed && !active
              else
                && arming.log == (if active then polled + [start] else polled + [start] + [ArmEnded])
                && arming.armed == active && (!active ==> Obstructed())
      ensures arming.armed && !active ==> clock.now < arming.nextModePoll
      ensures Onward() && TimeLeft() && arming.requested == old(arming.requested)
    {
      hide Honest, AutoStartsJustified, Stable, Polls, arming.Fields, store.Journaled, StopsFirst, Caused,
           Unstopped, Links, store.Valid, Parts, Peer, volumes.Calm;
      Apart();
      arming.PollGood(agents.open, now);
      CausedLater(wire.events, old(arming.log), arming.log);
      if arming.stableSamples >= MODE_STABLE_SAMPLES {
        AutomaticStart();
      }
    }

    method JudgeUnplugged(now: int)
      requires Preference() && Ordered() && arming.armed && now == clock.now
      requires arming.JustAnswered(composer.status) && !composer.status.connected
      modifies store, arming, composer`disconnectPending
      ensures Preference() && Ordered() && (arming.armed ==> arming.nextModePoll == now + MODE_POLL_MS)
      ensures arming.requested == old(arming.requested) && old(store.faults) <= store.faults
      ensures arming.armed == arming.preferenceApplied && !arming.replugRequired
      ensures !arming.armed ==> !old(arming.preferenceApplied) && store.faults > old(store.faults)
      ensures old(arming.log) + [old(arming.PollNow(now, agents.open))] <= arming.log
      ensures RestsOnLater(arming.log, |old(arming.log)|, |old(composer.answers)| - 1)
    {
      hide Honest, AutoStartsJustified, Stable, Polls, arming.Fields, store.Journaled;
      arming.PollUnplugged(agents.open, now);
      CausedLater(wire.events, old(arming.log), arming.log);
      if !arming.preferenceApplied {
        var applied := ApplyPreference();
        if !applied {
          Disarm();
          return;
        }
      }
      arming.ForgetReplug();
    }

    method AutomaticStart()
      requires Boundary() && agents.open && arming.armed && !active && arming.stableSamples >= MODE_STABLE_SAMPLES
      modifies Parts(), this`active, this`sessionContinuous, this`deadline, this`heartbeat, this`session,
               this`since
      ensures Boundary()
      ensures var entry := AutoStart(arming.requested, |old(wire.events)|);
              arming.log == if active then old(arming.log) + [entry] else old(arming.log) + [entry] + [ArmEnded]
      ensures arming.requested == old(arming.requested) && arming.armed == active
      ensures Onward() && TimeLeft() && (!active ==> Obstructed())
    {
      hide Honest, AutoStartsJustified, Stable, Polls, arming.Fields, store.Journaled, StopsFirst, Caused,
           Unstopped, agents.Valid, wire.OwnsOnly, composer.Valid, Opened, Verified, Parts;
      Apart();
      arming.NoteAutoStart();
      CausedLater(wire.events, old(arming.log), arming.log);
      label Noted:
      var status := Start(PROBE_XORG_LEGACY);
      StillPreferred@Noted();
      if status != OK {
        Disarm();
      }
    }

    // -------------------------------------------------------------------
    // The event loop

    method RegisterAgent(continuous: bool, unknownFlags: bool) returns (status: int)
      requires Boundary()
      modifies agents`open, agents`continuous, agents`unanswered, Peer()
      ensures Boundary()
      ensures status == OK <==> !unknownFlags && !active && !old(agents.open)
      ensures status == OK ==> agents.open && agents.continuous == continuous && agents.unanswered == []
      ensures status != OK ==> agents.open == old(agents.open)
    {
      if unknownFlags {
        return ERR_PROTOCOL;
      }
      if active || probing || agents.open {
        return ERR_BUSY;
      }
      agents.Register(continuous);
      return OK;
    }

    /** A request that only asks. */
    method Ask(op: Op) returns (ok: bool, result: int, reply: Option<Reply>)
      requires Boundary() && (op.OpStatus? || op.OpPing?)
      modifies composer, wire
      ensures Onward() && Undisturbed() && (ok && result == OK <==> composer.faults == old(composer.faults))
      ensures Boundary() && (ok ==> reply.Some? && result == reply.value.result)
      ensures ok ==> composer.answers == old(composer.answers) + [ReplyRead(op, reply.value, clock.now)]
    {
      hide Preference, agents.Valid, wire.OwnsOnly, StopsFirst, Caused, Unstopped;
      var saw, heard;
      ok, result, reply, saw, heard := composer.Request(op, false);
      StillPreferred();
    }

    /** What the answer to a client tells it, given whether the broker was busy before. */
    ghost predicate Truthful(request: ClientRequest, root: bool, status: int, wasActive: bool, wasArmed: bool,
                             before: Mode)
      reads this`active, arming`armed, arming`requested, host`gates, host`builds
    {
      && (request.CmdArm? ==> ArmAnswer(request.mode, wasActive, wasArmed, before, status))
      && (request.CmdToggle? && !wasActive && !wasArmed ==>
            && host.builds != []
            && if host.builds[|host.builds| - 1]
               then status == ERR_STATE && !arming.armed && !active && arming.requested == before
               else ArmAnswer(request.mode, false, false, before, status))
      && (request.CmdSetMode? ==>
            && arming.requested == (if wasActive || wasArmed || !AllowedMode(request.mode) then before else request.mode)
            && (wasActive || wasArmed ==> status == ERR_BUSY)
            && (!wasActive && !wasArmed && !AllowedMode(request.mode) ==> status == ERR_PROTOCOL))
      && (!request.CmdArm? && !request.CmdToggle? && !request.CmdSetMode? ==> arming.requested == before)
      && (request.CmdProbe? && !root ==> status == ERR_PERMISSION)
      && (request.CmdProbe? && root && XorgProbe(request.probe) ==> (status == OK <==> active && !wasActive))
      && (request.CmdProbe? && root && !XorgProbe(request.probe) && request.probe != PROBE_LEASE_HOLD ==>
            status == ERR_PROTOCOL)
      && (request.CmdStatus? || request.CmdDisarm? || (request.CmdToggle? && (wasActive || wasArmed)) ==>
            host.gates != [] && status == Verdict(host.gates[|host.gates| - 1]))
      && (request.CmdRegister? || request.CmdOther? ==> status == ERR_PROTOCOL)
    }

    static function Verdict(compatible: bool): int
    {
      if compatible then OK else ERR_INCOMPATIBLE
    }

    /** Serves one client command. The composer is asked for its status first and
        the outcome of that request is not looked at. */
    method Serve(request: ClientRequest, root: bool) returns (status: int)
      requires Boundary() && arming.Asked(request, root) && arming.Awaiting()
      modifies Parts(), this`active, this`probing, this`sessionContinuous, this`deadline,
               this`heartbeat, this`session, this`since
      ensures Boundary() && old(arming.log) <= arming.log
      ensures request.CmdDisarm? || (request.CmdToggle? && old(active || arming.armed)) ==> !active && !arming.armed
      ensures active && !old(active) ==> root && request.CmdProbe? && XorgProbe(request.probe)
      ensures arming.armed && !old(arming.armed) ==> request.CmdArm? || request.CmdToggle?
      ensures old(active) && active ==> Undisturbed() && SameTimers()
      ensures old(active) && !active ==> !arming.armed && (request.CmdDisarm? || request.CmdToggle?)
      ensures arming.armed != old(arming.armed) ==> request.CmdArm? || request.CmdToggle? || request.CmdDisarm?
      ensures active && !old(active) ==> CauseSince(arming.log, |old(arming.log)|)
      ensures !(request.CmdRegister? && root) ==>
                Truthful(request, root, status, old(active), old(arming.armed), old(arming.requested))
      ensures request.CmdRegister? && root ==>
                (status == OK <==> !request.unknownFlags && !old(active) && !old(agents.open))
      ensures request.CmdRegister? && root ==> agents.open == (old(agents.open) || (!request.unknownFlags && !old(active)))
    {
      hide Links, Guards, Preference, Told, Parts;
      Apart();
      if request.CmdRegister? && root {
        status := RegisterAgent(request.continuous, request.unknownFlags);
        return;
      }
      var ok, result, reply := Ask(OpStatus);
      status := Execute(request, root);
    }

    /** A diagnostic command of root. */
    method Probe(probe: nat) returns (status: int)
      requires Boundary() && arming.Asked(CmdProbe(probe), true) && arming.Awaiting()
      modifies Parts(), this`active, this`probing, this`sessionContinuous, this`deadline,
               this`heartbeat, this`session, this`since
      ensures Boundary() && arming.armed == old(arming.armed) && arming.requested == old(arming.requested)
      ensures arming.log == if XorgProbe(probe)
                            then old(arming.log) + [RootProbe(|listener.received| - 1, probe, |old(wire.events)|)]
                            else old(arming.log)
      ensures active && !old(active) ==> status == OK && XorgProbe(probe)
      ensures !XorgProbe(probe) && probe != PROBE_LEASE_HOLD ==> status == ERR_PROTOCOL
      ensures old(active) ==> active && Undisturbed() && SameTimers()
      ensures XorgProbe(probe) ==> (status == OK <==> active && !old(active))
      ensures probe == PROBE_LEASE_HOLD && status == OK ==>
                composer.sent == old(composer.sent) + ACQUIRE_PHASES + [OpRelease]
    {
      hide Preference, Links, StopsFirst, Caused, Unstopped, Opened, Verified, Parts, Peer;
      Apart();
      if probe == PROBE_LEASE_HOLD {
        status := ProbeLease();
        StillPreferred();
      } else if XorgProbe(probe) {
        status := StartProbe(probe);
      } else {
        return ERR_PROTOCOL;
      }
    }

    method StartProbe(probe: nat) returns (status: int)
      requires Boundary() && arming.Asked(CmdProbe(probe), true) && arming.Awaiting()
      modifies Parts(), this`active, this`sessionContinuous, this`deadline, this`heartbeat, this`session,
               this`since
      ensures Boundary() && arming.armed == old(arming.armed) && arming.requested == old(arming.requested)
      ensures arming.log == old(arming.log) + [RootProbe(|listener.received| - 1, probe, |old(wire.events)|)]
      ensures status == OK <==> active && !old(active)
      ensures old(active) ==> active && Undisturbed() && SameTimers()
    {
      hide Honest, AutoStartsJustified, Stable, Polls, arming.Fields, store.Journaled, Links, StopsFirst,
           Caused, Unstopped, Opened, Verified, Parts;
      Apart();
      arming.NoteRootProbe(probe);
      CausedLater(wire.events, old(arming.log), arming.log);
      label Noted:
      status := Start(probe);
      StillPreferred@Noted();
    }

    /** Carries out a client command. */
    method Execute(request: ClientRequest, root: bool) returns (status: int)
      requires Boundary() && arming.Asked(request, root) && arming.Awaiting()
      modifies Parts(), this`active, this`probing, this`sessionContinuous, this`deadline,
               this`heartbeat, this`session, this`since
      ensures Boundary() && old(arming.log) <= arming.log
      ensures request.CmdDisarm? || (request.CmdToggle? && old(active || arming.armed)) ==> !active && !arming.armed
      ensures active && !old(active) ==> root && request.CmdProbe? && XorgProbe(request.probe)
      ensures arming.armed && !old(arming.armed) ==> request.CmdArm? || request.CmdToggle?
      ensures old(active) && active ==> Undisturbed() && SameTimers()
      ensures old(active) && !active ==> !arming.armed && (request.CmdDisarm? || request.CmdToggle?)
      ensures arming.armed != old(arming.armed) ==> request.CmdArm? || request.CmdToggle? || request.CmdDisarm?
      ensures active && !old(active) ==> CauseSince(arming.log, |old(arming.log)|)
      ensures Truthful(request, root, status, old(active), old(arming.armed), old(arming.requested))
    {
      hide Honest, AutoStartsJustified, Stable, Polls, arming.Fields, store.Journaled, Links, StopsFirst,
           Caused, Unstopped, Parts, Peer;
      Apart();
      var compatible := host.Compatible();
      status := Verdict(compatible);
      match request
      case CmdToggle(mode) =>
        status := Toggle(mode);
      case CmdSetMode(mode) =>
        status := SetMode(mode);
      case CmdArm(mode) =>
        status := Arm(mode);
      case CmdDisarm =>
        status := StopOrDisarm();
      case CmdProbe(probe) =>
        status := ERR_PERMISSION;
        if root {
          status := Probe(probe);
          assert XorgProbe(probe) ==> IsCause(arming.log[|old(arming.log)|]);
        }
      case CmdStatus =>
      case _ =>
        status := ERR_PROTOCOL;
    }

    /** The tile's command: restore or disarm if there is something to restore or
        disarm, arm otherwise. */
    method Toggle(mode: Mode) returns (status: int)
      requires Boundary() && arming.Awaiting() && listener.received[|listener.received| - 1].request == CmdToggle(mode)
      modifies Parts(), this`active, this`sessionContinuous, this`deadline, this`heartbeat
      ensures Boundary() && old(arming.log) <= arming.log && !active
      ensures old(active || arming.armed) ==>
                && !arming.armed && arming.requested == old(arming.requested)
                && host.gates != [] && status == Verdict(host.gates[|host.gates| - 1])
      ensures !old(active || arming.armed) ==>
                && host.builds != []
                && if host.builds[|host.builds| - 1]
                   then status == ERR_STATE && !arming.armed && arming.requested == old(arming.requested)
                   else ArmAnswer(mode, false, false, old(arming.requested), status)
    {
      hide Honest, AutoStartsJustified, Stable, Polls, arming.Fields, store.Journaled, Links, StopsFirst,
           Caused, Unstopped, Parts, Peer;
      Apart();
      if active || arming.armed {
        status := StopOrDisarm();
      } else {
        var diagnosticOnly := host.DiagnosticOnly();
        if diagnosticOnly {
          status := ERR_STATE;
        } else {
          status := Arm(mode);
        }
      }
    }

    /** Ends the session or the arming. */
    method StopOrDisarm() returns (status: int)
      requires Boundary()
      modifies Parts(), this`active, this`sessionContinuous, this`deadline, this`heartbeat
      ensures Boundary() && old(arming.log) <= arming.log && !active && !arming.armed
      ensures arming.requested == old(arming.requested)
      ensures host.gates != [] && status == Verdict(host.gates[|host.gates| - 1])
    {
      hide Honest, AutoStartsJustified, Stable, Polls, arming.Fields, store.Journaled, Links, StopsFirst,
           Caused, Unstopped, Parts, Peer;
      Apart();
      if active {
        Release(true);
      } else {
        Disarm();
      }
      var compatible := host.Compatible();
      status := Verdict(compatible);
    }

    /** A lost composer ends a session. */
    method ServeComposer()
      requires Boundary()
      modifies Parts(), this`active, this`sessionContinuous, this`deadline, this`heartbeat
      ensures Boundary() && old(arming.log) <= arming.log
      ensures Onward() && (arming.armed ==> old(arming.armed)) && (old(active) && !active ==> !arming.armed)
      ensures active ==> SameTimers() && unchanged(volumes)
      ensures active ==> agents.polls == old(agents.polls) && agents.alarms == old(agents.alarms)
      ensures active ==> composer.polls == if old(composer.open) then old(composer.polls) + 1 else old(composer.polls)
      ensures !old(active) && old(composer.open) && composer.event.HungUp? ==> !composer.open && unchanged(arming)
      ensures composer.alarms > old(composer.alarms) ==> !active
      ensures composer.alarms == old(composer.alarms) ==> active == old(active) && unchanged(arming)
    {
      hide Honest, AutoStartsJustified, Stable, Polls, arming.Fields, store.Journaled, StopsFirst, Caused,
           Unstopped, agents.Valid, wire.OwnsOnly, Parts, Peer;
      Apart();
      if !composer.open {
        return;
      }
      var event := composer.Poll();
      if event.HungUp? {
        composer.Disconnect();
        if active {
          Release(false);
        }
      } else if event.Readable? {
        var hotplug := HearComposer();
      }
    }

    /** An unplug ends a session but is what an armed broker waits for. */
    method HearComposer() returns (hotplug: Hotplug)
      requires Boundary() && composer.open
      modifies Parts(), this`active, this`sessionContinuous, this`deadline, this`heartbeat
      ensures Boundary() && old(arming.log) <= arming.log
      ensures Onward() && (arming.armed ==> old(arming.armed)) && (old(active) && !active ==> !arming.armed)
      ensures active ==> SameTimers() && unchanged(volumes)
      ensures active ==> agents.polls == old(agents.polls) && agents.alarms == old(agents.alarms)
      ensures active ==> composer.polls == old(composer.polls)
      ensures hotplug.Connected? <==> composer.alarms == old(composer.alarms)
      ensures hotplug.Connected? ==> active == old(active) && unchanged(arming)
      ensures !hotplug.Connected? ==> !active
      ensures hotplug.Invalid? ==> !arming.armed
      ensures !old(active) ==> composer.event == old(composer.event)
      ensures hotplug.Disconnected? && !old(active) && old(arming.armed) ==>
                arming.armed && !arming.replugRequired && !composer.disconnectPending
    {
      hide Honest, AutoStartsJustified, Stable, Polls, arming.Fields, store.Journaled, StopsFirst, Caused,
           Unstopped, agents.Valid, wire.OwnsOnly, composer.Valid, Parts, Peer, store.Valid, Bounded, volumes.Calm;
      Apart();
      hotplug := composer.HandleReadable();
      if active && !hotplug.Connected? {
        Release(true);
      } else if arming.armed && hotplug.Invalid? {
        Disarm();
      } else if arming.armed && hotplug.Disconnected? {
        composer.disconnectPending := false;
        arming.Preserve();
      }
    }

    /** A lost agent, or one that reports failure, ends a session. */
    method ServeAgent() returns (failed: bool)
      requires Boundary()
      modifies Parts(), this`active, this`sessionContinuous, this`deadline, this`heartbeat
      ensures Boundary() && old(arming.log) <= arming.log
      ensures Onward() && (arming.armed ==> old(arming.armed)) && (old(active) && !active ==> !arming.armed)
      ensures active ==> SameTimers() && unchanged(volumes)
      ensures active ==> composer.polls == old(composer.polls) && composer.alarms == old(composer.alarms)
      ensures active ==> agents.polls == old(agents.polls) + 1
      ensures failed <==> agents.alarms > old(agents.alarms)
      ensures failed <==>
                && old(agents.open)
                && (agents.open ==>
                      old(agents.messages) < agents.messages && BadNews(agents.messages[|old(agents.messages)|]))
      ensures failed ==> !active
      ensures !failed ==> active == old(active) && unchanged(arming)
    {
      hide Links, Guards, Preference, Told, Parts, Peer, BadNews;
      Apart();
      failed := false;
      if !agents.open {
        return;
      }
      var event := agents.Poll();
      if event.HungUp? {
        failed := true;
        LoseAgent();
      } else if event.Readable? {
        failed := HearAgent();
      }
    }

    /** The agent is gone, and with it the session. */
    method LoseAgent()
      requires Boundary() && agents.open
      modifies Parts(), this`active, this`sessionContinuous, this`deadline, this`heartbeat
      ensures Boundary() && old(arming.log) <= arming.log && !active && !agents.open
      ensures Onward() && (arming.armed ==> old(arming.armed)) && (old(active) ==> !arming.armed)
    {
      hide Preference, StopsFirst, Caused, Unstopped, agents.Valid, wire.OwnsOnly, composer.Valid, Parts, volumes.Calm;
      Apart();
      OrderedAppend(AgentLost);
      agents.Close();
      if active {
        Release(true);
      }
    }

    /** Bad news from the agent ends the session. */
    method HearAgent() returns (failed: bool)
      requires Boundary() && agents.open
      modifies Parts(), this`active, this`sessionContinuous, this`deadline, this`heartbeat
      ensures Boundary() && old(arming.log) <= arming.log && agents.open
      ensures Onward() && (arming.armed ==> old(arming.armed)) && (old(active) && !active ==> !arming.armed)
      ensures active ==> SameTimers() && unchanged(volumes) && unchanged(composer) && agents.polls == old(agents.polls)
      ensures failed <==> agents.alarms > old(agents.alarms)
      ensures old(agents.messages) < agents.messages && (failed <==> BadNews(agents.messages[|old(agents.messages)|]))
      ensures failed ==> !active
      ensures !failed ==> active == old(active) && unchanged(arming)
    {
      hide Preference, StopsFirst, Caused, Unstopped, agents.Valid, wire.OwnsOnly, composer.Valid, Parts, BadNews,
           volumes.Calm;
      Apart();
      var m, answered := agents.Read();
      failed := BadNews(m);
      if active && failed {
        Release(true);
      }
    }

    /** A session that is still active afterwards has time left on its deadline or
        on its watchdog. */
    method ServeTimers()
      requires Boundary()
      modifies Parts(), this`active, this`sessionContinuous, this`deadline, this`heartbeat, this`since
      ensures Boundary() && old(arming.log) <= arming.log
      ensures Onward() && (arming.armed ==> old(arming.armed)) && (old(active) && !active ==> !arming.armed)
      ensures TimeLeft() && (active ==> old(active)) && (!old(active) ==> unchanged(arming))
      ensures active ==> WatchedOnce()
      ensures active ==> composer.polls == old(composer.polls) && composer.alarms == old(composer.alarms)
      ensures active ==> agents.polls == old(agents.polls) && agents.alarms == old(agents.alarms)
      ensures old(active) && !active ==> volumes.alarms > old(volumes.alarms) || Overdue()
      ensures active && !sessionContinuous ==> clock.now < since + SESSION_MS && since == old(since)
    {
      hide Links, Told, Preference, Parts, Peer, volumes.Calm;
      Apart();
      if active {
        var escape := volumes.Watch(clock);
        StillPreferred();
        if escape {
          Release(true);
        }
      }
      if active && sessionContinuous {
        RenewWatchdog();
      }
      if active {
        EndIfExpired();
      }
    }

    /** The mandatory end of a bounded session. */
    method EndIfExpired()
      requires Boundary() && active && (sessionContinuous ==> clock.now < heartbeat)
      modifies Parts(), this`active, this`sessionContinuous, this`deadline, this`heartbeat
      ensures Boundary() && old(arming.log) <= arming.log
      ensures Onward() && (arming.armed ==> old(arming.armed)) && (!active ==> !arming.armed)
      ensures active ==> TimeLeft() && Undisturbed() && SameTimers() && unchanged(volumes)
      ensures !active ==> !old(sessionContinuous) && old(deadline) <= clock.now
    {
      hide Links, Told, Preference, Parts, Peer, volumes.Calm;
      Apart();
      var expired := Expired();
      StillPreferred();
      if expired {
        Release(true);
      }
    }

    /** There was one look at the keys, and it was no escape: both devices were there,
        and unless a key was up, both had been down for less than three seconds. */
    twostate predicate WatchedOnce()
      reads volumes
    {
      && |volumes.looks| == |old(volumes.looks)| + 1 && volumes.alarms == old(volumes.alarms)
      && var look := volumes.looks[|old(volumes.looks)|];
         && !look.escape && Healthy(look.down) && Healthy(look.up)
         && volumes.downPressed == Level(old(volumes.downPressed), look.down)
         && volumes.upPressed == Level(old(volumes.upPressed), look.up)
         && (volumes.downPressed && volumes.upPressed ==> look.time - volumes.bothSince < CHORD_HOLD_MS)
    }

    /** The time of a bounded session is up, or a continuous one could not be renewed. */
    twostate predicate Overdue()
      reads clock, composer
    {
      if old(sessionContinuous) then
        && old(heartbeat) <= clock.now
        && !Renewed(old(composer.answers), composer.answers, old(composer.faults), composer.faults)
      else
        old(deadline) <= clock.now
    }

    /** The composer was asked, and its answer, if any, still grants the continuous lease. */
    static predicate Renewed(before: seq<ReplyRead>, after: seq<ReplyRead>, faultsBefore: nat, faultsAfter: nat)
    {
      && faultsAfter == faultsBefore && before < after
      && after[|before|].op == OpPing && after[|before|].reply.result == OK
      && after[|before|].reply.leased && after[|before|].reply.continuous
    }

    /** Every 20 seconds a continuous session proves to the composer that it lives. */
    method RenewWatchdog()
      requires Boundary() && active && sessionContinuous
      modifies Parts(), this`active, this`sessionContinuous, this`deadline, this`heartbeat, this`since
      ensures Boundary() && old(arming.log) <= arming.log
      ensures Onward() && (arming.armed ==> old(arming.armed)) && (!active ==> !arming.armed)
      ensures active ==> Undisturbed() && unchanged(volumes)
      ensures !active ==> Overdue()
      ensures active ==> sessionContinuous && clock.now < heartbeat
      ensures active && heartbeat != old(heartbeat) ==>
                && Renewed(old(composer.answers), composer.answers, old(composer.faults), composer.faults)
                && old(heartbeat) <= clock.now
                && old(clock.now) <= since && heartbeat == since + HEARTBEAT_MS
    {
      hide Links, Told, Preference, Parts, Peer, volumes.Calm, Renewed;
      Apart();
      var now := clock.Read();
      StillPreferred();
      if now >= heartbeat {
        Renew();
      }
    }

    /** Asks the composer to go on, or ends the session. */
    method Renew()
      requires Boundary() && active && sessionContinuous && heartbeat <= clock.now
      modifies Parts(), this`active, this`sessionContinuous, this`deadline, this`heartbeat, this`since
      ensures Boundary() && old(arming.log) <= arming.log
      ensures Onward() && (arming.armed ==> old(arming.armed)) && (!active ==> !arming.armed)
      ensures active ==> Undisturbed() && unchanged(volumes)
      ensures active <==> Renewed(old(composer.answers), composer.answers, old(composer.faults), composer.faults)
      ensures active ==>
                && sessionContinuous && deadline == old(deadline) && clock.now < heartbeat
                && old(clock.now) <= since && heartbeat == since + HEARTBEAT_MS
    {
      hide Links, Told, Preference, Parts, Peer, volumes.Calm;
      Apart();
      var ok, result, reply := Ask(OpPing);
      if !ok || result != OK || !reply.value.leased || !reply.value.continuous {
        Release(true);
      } else {
        label Alive:
        var now := clock.Read();
        StillPreferred@Alive();
        heartbeat, since := now + HEARTBEAT_MS, now;
      }
    }

    /** Between turns somebody else may set Android's mode, unless the broker's is in
        force. */
    method ModeSetOutside()
      requires Boundary()
      modifies store
      ensures Boundary()
    {
      hide Honest, AutoStartsJustified, Stable, Polls, arming.Fields, StopsFirst, Caused, Unstopped;
      var sets: bool := *;
      if sets && !store.journal.Saved? {
        var mode: Mode := *;
        store.ChangeOutside(mode);
        HonestGrows(arming.log, old(arming.Seen()), arming.Seen());
      }
    }

    /** One turn of the event loop. */
    method Turn()
      requires Boundary()
      modifies Parts(), this, listener
      ensures Boundary() && old(arming.log) <= arming.log
      ensures boundaries == old(boundaries)
      ensures |listener.received| - |old(listener.received)| == listener.knocks - old(listener.knocks)
      ensures TimeLeft() && (arming.armed && !active ==> clock.now < arming.nextModePoll)
      ensures old(active) && active ==>
                && |volumes.looks| == |old(volumes.looks)| + 1 && agents.polls == old(agents.polls) + 1
                && Alarms() == old(Alarms())
      ensures active && !old(active) ==> CauseSince(arming.log, |old(arming.log)|)
    {
      hide Links, Guards, Preference, Told, TimeLeft, CauseSince, Parts, Peer, volumes.Calm;
      Apart();
      ModeSetOutside();
      var client := listener.Poll();
      if client {
        var status := ServeNext();
      }
      ghost var log := arming.log;
      ServeEvents();
      CauseStays(log, arming.log, |old(arming.log)|);
      if arming.armed && !active {
        log := arming.log;
        var saw := AdvanceArmed();
        CauseEarlier(arming.log, |old(arming.log)|, |log|);
      }
    }

    /** The composer, the agent and the timers. */
    method ServeEvents()
      requires Boundary()
      modifies Parts(), this`active, this`sessionContinuous, this`deadline, this`heartbeat, this`since
      ensures Boundary() && old(arming.log) <= arming.log && (active ==> old(active)) && TimeLeft()
      ensures Onward() && (arming.armed ==> old(arming.armed)) && (old(active) && !active ==> !arming.armed)
      ensures active ==> WatchedOnce() && agents.polls == old(agents.polls) + 1
      ensures active ==> composer.polls == if old(composer.open) then old(composer.polls) + 1 else old(composer.polls)
      ensures active ==> Alarms() == old(Alarms())
      ensures old(active) && !active ==> Alarms() > old(Alarms()) || TimerDue()
    {
      hide Links, Guards, Preference, Told, TimeLeft, Parts, Peer;
      Apart();
      ServeComposer();
      var failed := ServeAgent();
      ServeTimers();
    }

    /** The timer the session had has run out. */
    twostate predicate TimerDue()
      reads clock
    {
      clock.now >= if old(sessionContinuous) then old(heartbeat) else old(deadline)
    }

    /** A client is there. */
    method ServeNext() returns (status: int)
      requires Boundary()
      modifies Parts(), this, listener`received
      ensures Boundary() && old(arming.log) <= arming.log && boundaries == old(boundaries)
      ensures |listener.received| == |old(listener.received)| + 1
      ensures var c := listener.received[|old(listener.received)|];
                && (!(c.request.CmdRegister? && c.root) ==>
                      Truthful(c.request, c.root, status, old(active), old(arming.armed), old(arming.requested)))
                && (c.request.CmdDisarm? || (c.request.CmdToggle? && old(active || arming.armed)) ==>
                      !active && !arming.armed)
                && (c.request.CmdRegister? && c.root ==>
                      (status == OK <==> !c.request.unknownFlags && !old(active) && !old(agents.open)))
      ensures old(active) && active ==> Undisturbed() && SameTimers()
      ensures old(active) && !active ==> !arming.armed
      ensures active && !old(active) ==> CauseSince(arming.log, |old(arming.log)|)
    {
      hide Honest, AutoStartsJustified, Stable, Polls, arming.Fields, store.Journaled, Links, Told, Parts, Peer;
      Apart();
      var request, root := listener.Accept();
      HonestGrows(arming.log, old(arming.Seen()), arming.Seen());
      status := Serve(request, root);
    }

    ghost function Look(): Snapshot
      reads this, Parts()
    {
      Snapshot(composer.phase, composer.reclaims > composer.grantedAt, active, probing,
               volumes.down, volumes.up, host.blocking, volumes.Calm(), clock.now, deadline, heartbeat,
               sessionContinuous, agents.open, |volumes.looks|, agents.polls, Alarms(),
               set i | 0 <= i < |wire.fates| && wire.fates[i].Open?)
    }

    lemma BoundaryIsSafe()
      requires Boundary() && TimeLeft()
      ensures SafeSnapshot(Look())
    {
      assert Look().openFds == {};
    }

    /** The composer can take the display back at any boundary, and the session stays
        active: nothing the broker looks at changes. */
    method DisplayLost()
      requires Boundary() && active
      modifies composer`phase, composer`reclaims
      ensures Boundary() && active && composer.phase == Android
    {
      composer.Reclaim();
    }

    /** Any run of the broker, from startup to an orderly stop after any number of
        turns. */
    method Run(turns: nat)
      requires Links() && Guards() && Idle() && arming.Valid() && store.Valid() && Told()
      requires !arming.armed && !arming.preferenceApplied && arming.log == [] && boundaries == []
      requires store.history == [Moment(store.Now(), store.user)] && store.user == Replay(store.Now()).preferred
      modifies Parts(), this, listener
      ensures |boundaries| == turns + 1
      ensures forall i :: 0 <= i < |boundaries| ==> SafeSnapshot(boundaries[i])
      ensures forall i :: 0 < i < |boundaries| ==> Continues(boundaries[i - 1], boundaries[i])
      ensures AutoStartsJustified(arming.log) && Honest(arming.log, arming.Seen())
      ensures StopsFirst(wire.events) && Caused(wire.events, arming.log)
      ensures composer.phase == Android && volumes.Free() && !host.blocking
      ensures forall i :: 0 <= i < |wire.fates| ==> wire.fates[i].Closed? && wire.fates[i].sends <= 1
      ensures !store.recoveryFailed ==>
                && store.Now() == Durable(Absent, store.user)
                && forall i :: 0 <= i < |store.history| ==>
                     Replay(store.history[i].durable) == Durable(Absent, store.history[i].user)
    {
      hide Parts, Links, Idle, Preference, Ordered, AutoStartsJustified, Honest, StopsFirst, Caused,
           SafeSnapshot, Peer;
      Apart();
      Startup();
      Mark();
      Loop(turns);
      Shutdown();
      EndState();
    }

    lemma EndState()
      requires Links() && Idle() && Preference() && Ordered() && !arming.armed
      ensures AutoStartsJustified(arming.log) && Honest(arming.log, arming.Seen())
      ensures StopsFirst(wire.events) && Caused(wire.events, arming.log)
      ensures composer.phase == Android && volumes.Free() && !host.blocking
      ensures forall i :: 0 <= i < |wire.fates| ==> wire.fates[i].Closed? && wire.fates[i].sends <= 1
      ensures !store.recoveryFailed ==>
                && store.Now() == Durable(Absent, store.user)
                && forall i :: 0 <= i < |store.history| ==>
                     Replay(store.history[i].durable) == Durable(Absent, store.history[i].user)
    {
      hide Honest, AutoStartsJustified, Stable, Polls, StopsFirst, Caused;
      NothingApplied();
    }

    method Loop(turns: nat)
      requires Boundary() && TimeLeft() && boundaries == [Look()] && SafeSnapshot(boundaries[0])
      modifies Parts(), this, listener
      ensures Boundary() && |boundaries| == turns + 1
      ensures forall i :: 0 < i < |boundaries| ==> Continues(boundaries[i - 1], boundaries[i])
      ensures forall i :: 0 <= i < |boundaries| ==> SafeSnapshot(boundaries[i])
    {
      hide SafeSnapshot, Links, Guards, Preference, Told, Parts, Peer;
      Apart();
      for n := 0 to turns
        invariant Boundary() && TimeLeft() && |boundaries| == n + 1 && boundaries[n] == Look()
        invariant forall i :: 0 < i < |boundaries| ==> Continues(boundaries[i - 1], boundaries[i])
        invariant forall i :: 0 <= i < |boundaries| ==> SafeSnapshot(boundaries[i])
      {
        Turn();
        Mark();
      }
    }

    method Startup()
      requires Links() && Guards() && Idle() && arming.Valid() && store.Valid() && !arming.preferenceApplied && Told()
      requires store.history == [Moment(store.Now(), store.user)] && store.user == Replay(store.Now()).preferred
      modifies store
      ensures Boundary() && TimeLeft()
    {
      var recovered := store.Recover();
      HonestGrows(arming.log, old(arming.Seen()), arming.Seen());
    }

    ghost method Mark()
      requires Boundary() && TimeLeft()
      requires forall i :: 0 <= i < |boundaries| ==> SafeSnapshot(boundaries[i])
      modifies this`boundaries
      ensures Boundary() && TimeLeft() && boundaries == old(boundaries) + [old(Look())] && Look() == old(Look())
      ensures forall i :: 0 <= i < |boundaries| ==> SafeSnapshot(boundaries[i])
    {
      BoundaryIsSafe();
      boundaries := boundaries + [Look()];
    }

    method Shutdown()
      requires Boundary()
      modifies Parts(), this`active, this`sessionContinuous, this`deadline, this`heartbeat
      ensures Links() && Idle() && Preference() && Told() && !arming.armed && !composer.open && !agents.open
    {
      hide Preference, StopsFirst, Caused, Unstopped, agents.Valid, wire.OwnsOnly, Parts;
      Apart();
      Release(true);
      if arming.armed {
        Disarm();
      }
      if agents.open {
        OrderedAppend(AgentLost);
        agents.Close();
      }
      composer.Disconnect();
    }
  }
}
