/**
 What the broker's two connections share: the order in which the agent and the
 composer are told things, and the descriptors the broker received. Both are
 written by the connections themselves.
 */
module Wire {
  import opened Options

  /** A START that reached the agent, an attempt to write STOP, the loss of the
      agent's connection, and an attempt to send RELEASE to the composer. */
  datatype WireEvent = Started | StopTried | AgentLost | ReleaseTried

  /** The agent was given the display and has not been told to stop since. */
  predicate Unstopped(events: seq<WireEvent>)
  {
    if events == [] then false
    else
      var last := events[|events| - 1];
      last.Started? || (last.ReleaseTried? && Unstopped(events[..|events| - 1]))
  }

  /** Whenever the composer is asked to take the display back, the agent has been
      told to stop, or is gone. */
  ghost predicate StopsFirst(events: seq<WireEvent>)
  {
    forall i :: 0 <= i < |events| && events[i].ReleaseTried? ==> !Unstopped(events[..i])
  }

  /** In terms of the log alone: between a START and a later RELEASE there is an
      attempt to stop the agent, or its loss. */
  lemma {:induction false} StopBetween(events: seq<WireEvent>, start: nat, release: nat)
    requires StopsFirst(events) && start < release < |events|
    requires events[start] == Started && events[release] == ReleaseTried
    ensures exists k :: start < k < release && (events[k].StopTried? || events[k].AgentLost?)
  {
    if forall k :: start < k < release ==> !events[k].StopTried? && !events[k].AgentLost? {
      StaysUnstopped(events[..release], start);
    }
  }

  lemma {:induction false} StaysUnstopped(events: seq<WireEvent>, start: nat)
    requires start < |events| && events[start] == Started
    requires forall k :: start < k < |events| ==> !events[k].StopTried? && !events[k].AgentLost?
    ensures Unstopped(events)
    decreases |events|
  {
    if start < |events| - 1 {
      StaysUnstopped(events[..|events| - 1], start);
    }
  }

  lemma AppendEvent(events: seq<WireEvent>, e: WireEvent)
    requires StopsFirst(events) && (e.ReleaseTried? ==> !Unstopped(events))
    ensures StopsFirst(events + [e]) && Unstopped(events + [e]) == e.Started?
  {
    var all := events + [e];
    assert all[..|events|] == events;
    forall i | 0 <= i < |all| && all[i].ReleaseTried?
      ensures !Unstopped(all[..i])
    {
      assert i < |events| ==> all[..i] == events[..i];
    }
  }

  /** First STOP to the agent, then RELEASE to the composer, each if it is sent. */
  function Ending(events: seq<WireEvent>, stop: bool, release: bool): seq<WireEvent>
  {
    var stopped := if stop then events + [StopTried] else events;
    if release then stopped + [ReleaseTried] else stopped
  }

  /** What polling a connection shows. */
  datatype PollEvent = Nothing | HungUp | Readable

  // ---------------------------------------------------------------------
  // Descriptors

  /** Whether the broker still holds a descriptor, and how often it passed it on. */
  datatype Fate = Open(sends: nat) | Closed(sends: nat)

  class Wire {
    ghost var events: seq<WireEvent>
    /** Every descriptor received so far. */
    var fates: seq<Fate>

    /** Every received descriptor is closed, apart from the given one, and none was
        passed on more than once. */
    ghost predicate OwnsOnly(fd: Option<nat>)
      reads this`fates
    {
      && (forall i :: 0 <= i < |fates| ==> fates[i].sends <= 1)
      && (forall i :: 0 <= i < |fates| && fd != Some(i) ==> fates[i].Closed?)
      && (fd.Some? ==> fd.value < |fates| && fates[fd.value].Open?)
    }

    /** The descriptor is held and has not been passed on. */
    ghost predicate Unsent(fd: nat)
      reads this`fates
    {
      fd < |fates| && fates[fd] == Open(0)
    }

    constructor ()
      ensures OwnsOnly(None) && fates == [] && events == []
    {
      fates, events := [], [];
    }

    ghost method Note(e: WireEvent)
      modifies this`events
      ensures events == old(events) + [e]
    {
      events := events + [e];
    }

    /** A complete message may bring one descriptor. */
    method Receive() returns (fd: Option<nat>)
      requires OwnsOnly(None)
      modifies this`fates
      ensures fates == old(fates) + (if fd.Some? then [Open(0)] else [])
      ensures OwnsOnly(fd) && (fd.Some? ==> Unsent(fd.value))
      ensures fd.Some? ==> fd.value == |old(fates)|
    {
      var brings: bool := *;
      if !brings {
        return None;
      }
      fates := fates + [Open(0)];
      return Some(|fates| - 1);
    }

    method PassOn(fd: nat)
      requires OwnsOnly(Some(fd)) && Unsent(fd)
      modifies this`fates
      ensures fates == old(fates)[fd := Open(1)] && OwnsOnly(Some(fd))
    {
      fates := fates[fd := Open(fates[fd].sends + 1)];
    }

    method Close(fd: nat)
      requires OwnsOnly(Some(fd))
      modifies this`fates
      ensures fates == old(fates)[fd := Closed(old(fates)[fd].sends)] && OwnsOnly(None)
    {
      fates := fates[fd := Closed(fates[fd].sends)];
    }

    /** Reads a message whose descriptor nobody wants. */
    method Drop()
      requires OwnsOnly(None)
      modifies this`fates
      ensures OwnsOnly(None) && old(fates) <= fates
    {
      var fd := Receive();
      if fd.Some? {
        Close(fd.value);
      }
    }
  }
}
