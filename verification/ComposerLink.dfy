/**
 The broker's connection to the patched composer.

 The composer is known only by its contract: acquire phases move forward and are
 answered with success only when they were reached, a failed phase may undo the
 earlier ones, and RELEASE, the loss of the connection or a decision of its own give
 the display back to Android at any time.
 */
module ComposerLink {
  import opened Options
  import opened Clock
  import opened Wire

  const OK := 0

  datatype Phase = Android | Prepared | Paused | Leased

  datatype Mode = Mode(width: nat, height: nat, refreshMillihz: nat)

  const NATIVE := Mode(0, 0, 0)

  /** The composer's report on the external display. */
  datatype Status = Status(connected: bool, leaseReady: bool, activeMode: bool, mode: Mode)

  datatype Op = OpStatus | OpPing | OpAcquire(phase: Phase) | OpRelease

  /** A descriptor passed along with a message, identified by its arrival. */
  datatype Reply = Reply(
    result: int, leased: bool, continuous: bool, connector: nat, crtc: nat, plane: nat,
    status: Status, fd: Option<nat>)

  /** A reply that was read, the request it answers, and the clock when that was sent. */
  datatype ReplyRead = ReplyRead(op: Op, reply: Reply, sentAt: nat)

  datatype Hotplug = Invalid | Connected | Disconnected

  /** The composer did what it was asked, and sent a descriptor if one was wanted. */
  predicate Served(ok: bool, reply: Option<Reply>, keepFd: bool)
  {
    ok && reply.Some? && reply.value.result == OK && (keepFd ==> reply.value.fd.Some?)
  }

  /** Whether one request can take the composer from one phase to another. A
      preparation may follow a rollback the broker has not noticed. */
  predicate CanReach(op: Op, from: Phase, to: Phase)
  {
    match op
    case OpRelease => to == Android
    case OpAcquire(p) =>
      || to == from || to == Android
      || (to == p && (p == Prepared
                      || (p == Paused && from == Prepared)
                      || (p == Leased && from == Paused)))
    case _ => to == from || to == Android
  }

  class ComposerLink {
    const wire: Wire
    const clock: Clock
    var open: bool
    var disconnectPending: bool
    var status: Status
    /** The composer's own state, which the broker cannot look at. */
    var phase: Phase
    /** The phase the composer granted last, or Android after a RELEASE. */
    ghost var granted: Phase
    /** How often the composer took the display back without being asked. */
    ghost var reclaims: nat
    /** The value of `reclaims` when the last phase was granted. */
    ghost var grantedAt: nat
    /** Requests that reached the composer. */
    ghost var sent: seq<Op>
    /** Replies that were read, in order. */
    ghost var answers: seq<ReplyRead>
    /** How many messages were read while waiting for a reply. */
    ghost var received: nat
    /** How many requests were not served. */
    ghost var faults: nat
    /** How often the connection was polled. */
    ghost var polls: nat
    /** What the last poll showed. */
    ghost var event: PollEvent
    /** How often it was then lost, or a message other than that the display is
        connected came in. */
    ghost var alarms: nat

    /** What was granted lasts exactly until the composer takes it back. */
    ghost predicate Valid()
      reads this`open, this`phase, this`granted, this`reclaims, this`grantedAt
    {
      && grantedAt <= reclaims
      && phase == (if reclaims == grantedAt then granted else Android)
      && (!open ==> phase == Android)
    }

    constructor (wire: Wire, clock: Clock)
      ensures Valid() && !open && !disconnectPending && answers == [] && phase == Android
      ensures this.wire == wire && this.clock == clock
    {
      this.wire, this.clock := wire, clock;
      open, disconnectPending := false, false;
      status := Status(false, false, false, NATIVE);
      phase, granted, reclaims, grantedAt := Android, Android, 0, 0;
      sent, answers, received, faults := [], [], 0, 0;
      polls, event, alarms := 0, Nothing, 0;
    }

    // -------------------------------------------------------------------
    // The composer's side

    /** The composer takes the display back unasked. */
    method Reclaim()
      requires Valid()
      modifies this`phase, this`reclaims
      ensures Valid() && phase == Android && reclaims == old(reclaims) + 1
    {
      phase, reclaims := Android, reclaims + 1;
    }

    /** It may do so at any moment. */
    method Drift()
      requires Valid()
      modifies this`phase, this`reclaims
      ensures Valid() && (phase == old(phase) || phase == Android)
    {
      var takes: bool := *;
      if takes {
        Reclaim();
      }
    }

    /** The composer handles a request it received; `done` unless it was an acquire
        phase that was not reached. */
    method Perform(op: Op) returns (done: bool)
      requires Valid() && open
      modifies this`phase, this`granted, this`reclaims, this`grantedAt, this`sent
      ensures Valid() && CanReach(op, old(phase), phase) && sent == old(sent) + [op]
      ensures op.OpAcquire? && done ==> granted == op.phase
      ensures op.OpStatus? || op.OpPing? ==> granted == old(granted) && grantedAt == old(grantedAt)
    {
      sent := sent + [op];
      done := true;
      if op.OpRelease? {
        phase, granted, grantedAt := Android, Android, reclaims;
        return;
      }
      var next: Phase := *;
      if op.OpAcquire? && next == op.phase && CanReach(op, phase, next) {
        phase, granted, grantedAt := next, next, reclaims;
        return;
      }
      done := !op.OpAcquire?;
      Drift();
    }

    /** Losing the connection makes the composer roll back. */
    method Disconnect()
      requires Valid()
      modifies this`open, this`phase, this`reclaims
      ensures Valid() && !open && phase == Android
    {
      Reclaim();
      open := false;
    }

    // -------------------------------------------------------------------
    // The broker's side

    /** Whether the next step of an exchange works. */
    method Works() returns (ok: bool)
      modifies this`faults
      ensures faults == if ok then old(faults) else old(faults) + 1
    {
      ok := *;
      if !ok {
        faults := faults + 1;
      }
    }

    method Poll() returns (event: PollEvent)
      modifies this`polls, this`event, this`alarms
      ensures polls == old(polls) + 1 && this.event == event
      ensures alarms == if event.HungUp? then old(alarms) + 1 else old(alarms)
    {
      event := *;
      polls, this.event := polls + 1, event;
      if event.HungUp? {
        alarms := alarms + 1;
      }
    }

    method Cache(s: Status)
      modifies this`status, this`disconnectPending
      ensures status == s
      ensures disconnectPending == (old(disconnectPending) && !s.connected)
    {
      status := s;
      if s.connected {
        disconnectPending := false;
      }
    }

    /** Takes any number of hotplug messages; the last one decides what is pending. */
    method TakeHotplugs() returns (result: int, sawConnected: bool, heard: bool)
      requires wire.OwnsOnly(None)
      modifies this`status, this`disconnectPending, this`received, wire`fates
      ensures wire.OwnsOnly(None) && old(wire.fates) <= wire.fates
      ensures old(disconnectPending) && !sawConnected ==> disconnectPending
      ensures received >= old(received) && (heard <==> received > old(received))
    {
      result, sawConnected, heard := 0, false, false;
      var hotplugs: int :| hotplugs >= 0;
      for i := 0 to hotplugs
        invariant wire.OwnsOnly(None) && old(wire.fates) <= wire.fates
        invariant old(disconnectPending) && !sawConnected ==> disconnectPending
        invariant received >= old(received) && (heard <==> received > old(received))
      {
        wire.Drop();
        var event: Status := *;
        result, heard, received := *, true, received + 1;
        Cache(event);
        disconnectPending := !event.connected;
        sawConnected := sawConnected || event.connected;
      }
    }

    /** Takes the matching reply and, unless it is wanted, closes its descriptor. An
        acquire phase that was not reached is not answered with success. */
    method TakeReply(op: Op, keepFd: bool, done: bool) returns (reply: Reply)
      requires wire.OwnsOnly(None)
      modifies this`status, this`disconnectPending, this`answers, this`received, wire`fates
      ensures wire.OwnsOnly(reply.fd) && old(wire.fates) <= wire.fates
      ensures reply.fd.Some? ==> wire.Unsent(reply.fd.value)
      ensures !keepFd ==> reply.fd == None
      ensures !done ==> reply.result != OK
      ensures status == reply.status
      ensures disconnectPending == (old(disconnectPending) && !reply.status.connected)
      ensures answers == old(answers) + [ReplyRead(op, reply, clock.now)] && received == old(received) + 1
    {
      reply := *;
      if !done && reply.result == OK {
        reply := reply.(result := -1);
      }
      var fd := wire.Receive();
      if !keepFd && fd.Some? {
        wire.Close(fd.value);
        fd := None;
      }
      reply := reply.(fd := fd);
      Cache(reply.status);
      answers, received := answers + [ReplyRead(op, reply, clock.now)], received + 1;
    }

    /** Sends one request and waits for its reply, taking hotplug messages on the
        way. `reply` is present exactly when a reply with the request's identifier
        arrived; `result` is the status field of the last message read, and `heard`
        whether any was. A RELEASE always ends with the display back at Android. A
        remembered unplug makes the request fail until some message reports the
        display connected. */
    method Request(op: Op, keepFd: bool)
      returns (ok: bool, result: int, reply: Option<Reply>, sawConnected: bool, heard: bool)
      requires Valid() && wire.OwnsOnly(None)
      modifies this`open, this`disconnectPending, this`status, this`phase, this`granted, this`reclaims, this`grantedAt,
               this`sent, this`answers, this`received, this`faults, wire
      ensures Valid()
      ensures CanReach(op, old(phase), phase)
      ensures wire.events == if op.OpRelease? then old(wire.events) + [ReleaseTried] else old(wire.events)
      ensures wire.OwnsOnly(if reply.Some? then reply.value.fd else None)
      ensures reply.Some? && reply.value.fd.Some? ==> keepFd && wire.Unsent(reply.value.fd.value)
      ensures old(wire.fates) <= wire.fates
      ensures ok <==> reply.Some? && !disconnectPending
      ensures reply.Some? <==> open
      ensures reply.Some? ==> sent == old(sent) + [op]
      ensures reply.Some? ==> result == reply.value.result && status == reply.value.status
      ensures answers == if reply.Some? then old(answers) + [ReplyRead(op, reply.value, clock.now)] else old(answers)
      ensures faults == if Served(ok, reply, keepFd) then old(faults) else old(faults) + 1
      ensures received >= old(received) && (heard <==> received > old(received))
      ensures op.OpAcquire? && reply.Some? && result == OK ==> granted == op.phase
      ensures op.OpStatus? || op.OpPing? ==> granted == old(granted) && grantedAt == old(grantedAt)
      ensures old(disconnectPending) && !sawConnected ==> disconnectPending && !ok
      ensures reply.Some? && reply.value.status.connected ==> ok && sawConnected
    {
      hide wire.OwnsOnly, wire.Unsent;
      ok, result, reply, sawConnected, heard := false, 0, None, false, false;
      if op.OpRelease? {
        wire.Note(ReleaseTried);
      }
      var delivered, done := Deliver(op);
      if delivered {
        ok, result, reply, sawConnected, heard := AwaitReply(op, keepFd, done);
      }
      if reply.Some? && !Served(ok, reply, keepFd) {
        faults := faults + 1;
      }
    }

    /** Connects if need be and sends the request. */
    method Deliver(op: Op) returns (delivered: bool, done: bool)
      requires Valid()
      modifies this`open, this`phase, this`granted, this`reclaims, this`grantedAt, this`sent, this`faults
      ensures Valid() && CanReach(op, old(phase), phase) && delivered == open
      ensures faults == if delivered then old(faults) else old(faults) + 1
      ensures delivered ==> sent == old(sent) + [op]
      ensures delivered && op.OpAcquire? && done ==> granted == op.phase
      ensures op.OpStatus? || op.OpPing? ==> granted == old(granted) && grantedAt == old(grantedAt)
    {
      delivered, done := false, false;
      Drift();
      if !open {
        open := Works();
        if !open {
          return;
        }
      }
      delivered := Works();
      if !delivered {
        Disconnect();
        return;
      }
      done := Perform(op);
    }

    /** Reads messages up to the reply. */
    method AwaitReply(op: Op, keepFd: bool, done: bool)
      returns (ok: bool, result: int, reply: Option<Reply>, sawConnected: bool, heard: bool)
      requires Valid() && wire.OwnsOnly(None) && open
      modifies this`open, this`disconnectPending, this`status, this`phase, this`reclaims, this`answers,
               this`received, this`faults, wire`fates
      ensures Valid() && (phase == old(phase) || phase == Android)
      ensures wire.OwnsOnly(if reply.Some? then reply.value.fd else None)
      ensures reply.Some? && reply.value.fd.Some? ==> keepFd && wire.Unsent(reply.value.fd.value)
      ensures old(wire.fates) <= wire.fates
      ensures ok <==> reply.Some? && !disconnectPending
      ensures reply.Some? <==> open
      ensures reply.Some? ==> result == reply.value.result && status == reply.value.status
      ensures reply.Some? && !done ==> result != OK
      ensures answers == if reply.Some? then old(answers) + [ReplyRead(op, reply.value, clock.now)] else old(answers)
      ensures faults == if reply.Some? then old(faults) else old(faults) + 1
      ensures received >= old(received) && (heard <==> received > old(received))
      ensures old(disconnectPending) && !sawConnected ==> disconnectPending && !ok
      ensures reply.Some? && reply.value.status.connected ==> ok && sawConnected
    {
      hide wire.OwnsOnly, wire.Unsent;
      ok, reply := false, None;
      result, sawConnected, heard := TakeHotplugs();
      Drift();
      var matching := Works();
      if !matching {
        // The receive failed, the message was invalid or answered another request.
        wire.Drop();
        var complete: bool := *;
        if complete {
          heard, received := true, received + 1;
        }
        Disconnect();
        return;
      }
      var message := TakeReply(op, keepFd, done);
      reply := Some(message);
      result, heard := message.result, true;
      sawConnected := sawConnected || message.status.connected;
      ok := !disconnectPending;
    }

    /** Reads an asynchronous message. */
    method HandleReadable() returns (hotplug: Hotplug)
      requires Valid() && open && wire.OwnsOnly(None)
      modifies this`status, this`disconnectPending, this`phase, this`reclaims, this`alarms, wire`fates
      ensures Valid() && wire.OwnsOnly(None)
      ensures alarms == if hotplug.Connected? then old(alarms) else old(alarms) + 1
      ensures phase == old(phase) || phase == Android
      ensures !hotplug.Invalid? ==> (hotplug.Connected? <==> status.connected)
      ensures !hotplug.Invalid? ==> disconnectPending == !status.connected
      ensures hotplug.Invalid? ==> status == old(status) && disconnectPending == old(disconnectPending)
    {
      Drift();
      wire.Drop();
      var valid: bool := *;
      if !valid {
        alarms := alarms + 1;
        return Invalid;
      }
      var event: Status := *;
      Cache(event);
      disconnectPending := !event.connected;
      if !event.connected {
        alarms := alarms + 1;
      }
      return if event.connected then Connected else Disconnected;
    }
  }
}
