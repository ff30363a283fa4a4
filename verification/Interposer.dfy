/**
 The DRM interposer inside Xorg: it announces ioctls before they reach the
 kernel, replaces a rejected same-mode SETCRTC by a page flip, and drops
 connector property writes that repeat a cached value.
 */
module Interposer {
  import opened Options
  import opened Trace
  import opened Kernel
  import opened PropertyCache
  import opened AgentSession
  import opened Announcement
  import P = PropertyRun
  import Scanout

  const MAX_OBJECT_PROPERTIES := 128

  class Interposer {
    const agent: Agent
    const device: Device
    const cache: Cache
    const suppressNoops: bool
    const pageFlipFallback: bool
    const expectedConnector: nat
    const expectedCrtc: nat
    var sequence: nat
    var steady: bool
    var exited: bool
    /** Where this process began in the ledger. */
    ghost const base: nat
    /** What the agent's observer follows. */
    ghost const leaseConnector: nat
    ghost const leaseCrtc: nat
    /** How many records were sent, and how many acknowledgements came, before. */
    ghost const sentBefore: nat
    ghost const heardBefore: nat

    /** Every record the process has sent was acknowledged, except that it has ended if
        the last one was not. */
    ghost predicate InStep()
      reads this`exited, agent`seen, agent`arrivals
    {
      |agent.seen| - sentBefore == agent.arrivals - heardBefore + if exited then 1 else 0
    }

    ghost predicate Valid()
      reads this, agent, agent.observer, device.ledger, cache, cache.entries
    {
      && agent.Valid() && agent.device == device && cache.Valid()
      && agent.observer.expectedConnector == leaseConnector && agent.observer.expectedCrtc == leaseCrtc
      && sequence < SEQUENCE_RANGE && InStep()
      && agent.SteadyIsCurrent() && (steady ==> agent.traceSteady)
      && base <= |device.ledger.events| && AllCovered(device.ledger.events, base)
      && (agent.Proven() ==> agent.evidence.value.trace <= agent.seen && ProvedIn(device.ledger.events, base))
    }

    /** A new Xorg whose start the agent has begun to follow. */
    constructor (agent: Agent, suppressNoops: bool, pageFlipFallback: bool, connector: nat, crtc: nat)
      requires agent.Valid() && agent.SteadyIsCurrent() && !agent.Proven()
      ensures Valid() && this.agent == agent && fresh(cache) && fresh(cache.entries) && cache.Values() == map[]
      ensures sequence == 1 && !steady && !exited && base == |device.ledger.events|
      ensures leaseConnector == agent.observer.expectedConnector && leaseCrtc == agent.observer.expectedCrtc
      ensures sentBefore == |agent.seen| && heardBefore == agent.arrivals
    {
      this.agent, device := agent, agent.device;
      cache := new Cache();
      this.suppressNoops, this.pageFlipFallback := suppressNoops, pageFlipFallback;
      expectedConnector, expectedCrtc := connector, crtc;
      sequence, steady, exited := 1, false, false;
      base := |agent.device.ledger.events|;
      leaseConnector, leaseCrtc := agent.observer.expectedConnector, agent.observer.expectedCrtc;
      sentBefore, heardBefore := |agent.seen|, agent.arrivals;
    }

    // -------------------------------------------------------------------
    // Exchanging records

    /** What the agent may do by itself at any moment: verify the scanout and, once it
        has, let tracing stop. */
    method AgentTurn()
      requires Valid()
      modifies agent`evidence, agent`verified, agent`traceSteady, device`crtcs, device`flips, device`inspections,
               device.ledger
      ensures Valid()
      ensures NoCalls(old(device.ledger.events), device.ledger.events)
      ensures Announced(device.ledger.events) == Announced(old(device.ledger.events))
      ensures Enclosing(device.ledger.events) == Enclosing(old(device.ledger.events))
      ensures FlipsLanded(old(device.crtcs), old(device.flips), device.crtcs, device.flips)
      ensures old(agent.Proven()) ==> agent.Proven()
    {
      hide AllCovered, Announced, Enclosing;
      LandsNothing(device.crtcs, device.flips);
      if agent.traceSteady {
        return;
      }
      if * {
        ghost var before := device.ledger.events;
        var verified := agent.VerifyScanout();
        if verified {
          AddEvent(before, Proved(agent.evidence.value));
          CoveredSilently(before, device.ledger.events, base);
          assert device.ledger.events[|before|].Proved?;
        }
        return;
      }
      var checked: bool := *;
      if checked && agent.traceStartupOnly && agent.verified {
        agent.traceSteady := true;
      }
    }

    /** Sends one record and waits for its acknowledgement; without one the process
        ends. */
    method Exchange(record: Record)
      requires Valid() && !exited
      modifies this`steady, this`exited, agent`seen, agent`acks, agent`arrivals, agent.observer, device.ledger
      ensures Valid()
      ensures Emitted(old(agent.seen), old(device.ledger.events), [record], agent.seen, device.ledger.events, exited)
    {
      hide AllCovered, Announced, Enclosing;
      ghost var before := device.ledger.events;
      AddEvent(before, Logged(record));
      NoCallsAtAll(before);
      var ack := agent.Answer(record);
      CoveredSilently(before, device.ledger.events, base);
      if ack.None? || ack.value.sequence != record.sequence {
        exited := true;
        return;
      }
      if ack.value.steady {
        steady := true;
      }
    }

    /** One record, with the agent free to act before and after it. */
    method Emit(record: Record)
      requires Valid() && !exited
      modifies this`steady, this`exited, agent`seen, agent`evidence, agent`verified, agent`traceSteady, agent`acks,
               agent`arrivals, agent.observer, device`crtcs, device`flips, device`inspections, device.ledger
      ensures Valid()
      ensures Emitted(old(agent.seen), old(device.ledger.events), [record], agent.seen, device.ledger.events, exited)
      ensures FlipsLanded(old(device.crtcs), old(device.flips), device.crtcs, device.flips)
    {
      hide AllCovered, Announced, Enclosing, FlipsLanded, NoCalls;
      ghost var e0, c0, f0 := device.ledger.events, device.crtcs, device.flips;
      AgentTurn();
      ghost var e1, c1, f1 := device.ledger.events, device.crtcs, device.flips;
      Exchange(record);
      ghost var e2 := device.ledger.events;
      NoCallsTwice(e0, e1, e2);
      if exited {
        return;
      }
      AgentTurn();
      NoCallsTwice(e0, e2, device.ledger.events);
      FlipsLandedTwice(c0, f0, c1, f1, device.crtcs, device.flips);
    }

    method EmitAll(records: seq<Record>)
      requires Valid() && !exited
      modifies this`steady, this`exited, agent`seen, agent`evidence, agent`verified, agent`traceSteady, agent`acks,
               agent`arrivals, agent.observer, device`crtcs, device`flips, device`inspections, device.ledger
      ensures Valid()
      ensures Emitted(old(agent.seen), old(device.ledger.events), records, agent.seen, device.ledger.events, exited)
      ensures FlipsLanded(old(device.crtcs), old(device.flips), device.crtcs, device.flips)
    {
      hide AllCovered, Announced, Enclosing, FlipsLanded, NoCalls, Emitted;
      ghost var s0, e0, c0, f0 := agent.seen, device.ledger.events, device.crtcs, device.flips;
      LandsNothing(c0, f0);
      EmittedNothing(s0, e0);
      for i := 0 to |records|
        invariant Valid() && !exited
        invariant Emitted(s0, e0, records[..i], agent.seen, device.ledger.events, false)
        invariant FlipsLanded(c0, f0, device.crtcs, device.flips)
      {
        ghost var s1, e1, c1, f1 := agent.seen, device.ledger.events, device.crtcs, device.flips;
        Emit(records[i]);
        FlipsLandedTwice(c0, f0, c1, f1, device.crtcs, device.flips);
        EmittedNext(s0, e0, records[..i], s1, e1, records[i], agent.seen, device.ledger.events, exited);
        assert records[..i + 1] == records[..i] + [records[i]];
        if exited {
          EmittedMore(s0, e0, records[..i + 1], records[i + 1..], agent.seen, device.ledger.events);
          assert records[..i + 1] + records[i + 1..] == records;
          return;
        }
      }
      assert records[..|records|] == records;
    }

    method NextSequence() returns (s: nat)
      requires Valid()
      modifies this`sequence
      ensures Valid() && s == old(sequence) && sequence == Following(s)
    {
      s := sequence;
      sequence := Following(sequence);
    }

    // -------------------------------------------------------------------
    // SETCRTC

    lemma CacheIsValid()
      requires Valid()
      ensures cache.Valid()
    {
    }

    /** A covered call keeps everything in order. */
    lemma StillValid(before: seq<Event>, call: SystemCall)
      requires device.ledger.events == before + [Called(call)] && base <= |before|
      requires AllCovered(before, base) && Covered(before, call, base)
      requires agent.Proven() ==> ProvedIn(before, base)
      ensures AllCovered(device.ledger.events, base)
      ensures agent.Proven() ==> ProvedIn(device.ledger.events, base)
    {
      hide AllCovered, Covered, ProvedIn;
      CoveredCall(before, call, base);
      if agent.Proven() {
        ProvedStays(before, device.ledger.events, base);
      }
    }

    /** GETCRTC as part of the fallback. */
    method LookAtCrtc(r: CrtcRequest) returns (report: Option<Crtc>)
      requires Valid() && Enclosing(device.ledger.events) == Some(r)
      modifies device`crtcs, device`flips, device.ledger
      ensures Valid() && Enclosing(device.ledger.events) == Some(r)
      ensures device.ledger.events == old(device.ledger.events) + [Called(SysGetCrtc(r.crtc, report))]
      ensures FlipsLanded(old(device.crtcs), old(device.flips), device.crtcs, device.flips)
      ensures report.Some? ==> r.crtc in device.crtcs && report.value == device.crtcs[r.crtc]
    {
      hide AllCovered, Enclosing, ProvedIn, FlipsLanded;
      ghost var before := device.ledger.events;
      report := device.GetCrtc(r.crtc);
      AddEvent(before, Called(SysGetCrtc(r.crtc, report)));
      StillValid(before, SysGetCrtc(r.crtc, report));
    }

    /** PAGE_FLIP as part of the fallback. */
    method FlipTo(r: CrtcRequest) returns (error: int)
      requires Valid() && Enclosing(device.ledger.events) == Some(r)
      modifies device`flips, device.ledger
      ensures Valid() && Enclosing(device.ledger.events) == Some(r)
      ensures device.ledger.events == old(device.ledger.events) + [Called(SysPageFlip(r.crtc, r.fb, error))]
      ensures error == 0 ==> r.crtc in device.crtcs && device.flips == old(device.flips)[r.crtc := r.fb]
      ensures error != 0 ==> device.flips == old(device.flips)
    {
      hide AllCovered, Enclosing, ProvedIn;
      ghost var before := device.ledger.events;
      error := device.PageFlip(r.crtc, r.fb);
      AddEvent(before, Called(SysPageFlip(r.crtc, r.fb, error)));
      StillValid(before, SysPageFlip(r.crtc, r.fb, error));
    }

    /** Looks at the CRTC until it shows the requested framebuffer, at most 20 times. */
    method AwaitFlip(r: CrtcRequest, ghost current: Crtc) returns (shown: bool, ghost looks: seq<SystemCall>)
      requires Valid() && Enclosing(device.ledger.events) == Some(r)
      requires r.modeValid && RunsSameMode(current, r)
      requires r.crtc in device.crtcs && device.crtcs[r.crtc] == current.(fb := device.crtcs[r.crtc].fb)
      requires r.crtc in device.flips ==> device.flips[r.crtc] == r.fb
      modifies device`crtcs, device`flips, device.ledger
      ensures Valid() && FallbackOnly(old(device.ledger.events), device.ledger.events)
      ensures CallsIn(device.ledger.events) == CallsIn(old(device.ledger.events)) + looks && Looks(looks, r, shown)
      ensures shown ==>
                && ShowsFirmly(device.crtcs, device.flips, r)
                && device.crtcs[r.crtc] == current.(fb := r.fb)
                && ShownSince(device.ledger.events, |old(device.ledger.events)|, r)
    {
      hide AllCovered, Enclosing, ProvedIn, CallsIn, Looks;
      ghost var e0 := device.ledger.events;
      looks := [];
      for attempt := 0 to FLIP_ATTEMPTS
        invariant CallsIn(device.ledger.events) == CallsIn(e0) + looks && |looks| == attempt
        invariant forall i :: 0 <= i < |looks| ==> looks[i].SysGetCrtc? && looks[i].id == r.crtc && !SeesFlip(looks[i], r)
        invariant attempt == FLIP_ATTEMPTS ==> Looks(looks, r, false)
        invariant Valid() && Enclosing(device.ledger.events) == Some(r) && FallbackOnly(e0, device.ledger.events)
        invariant r.crtc in device.crtcs
        invariant device.crtcs[r.crtc] == current.(fb := device.crtcs[r.crtc].fb)
        invariant r.crtc in device.flips ==> device.flips[r.crtc] == r.fb
      {
        ghost var before := device.ledger.events;
        var report := LookAtCrtc(r);
        CallsAppend(before, device.ledger.events[|before|]);
        Unfinished(looks, SysGetCrtc(r.crtc, report), r);
        looks := looks + [SysGetCrtc(r.crtc, report)];
        if report.Some? && report.value.fb == r.fb && report.value.modeValid
           && SameModeTiming(report.value.mode, r.mode) {
          assert ShowsIt(device.ledger.events[|before|].call, r);
          shown := true;
          return;
        }
      }
      shown := false;
    }

    /** Flips to the requested framebuffer when the CRTC already runs the requested
        position and timing: 1 when the flip became visible, 0 when none was accepted,
        -1 when it was accepted and did not become visible. */
    method FlipInstead(r: CrtcRequest) returns (outcome: int, reject: seq<DetailName>, ghost calls: seq<SystemCall>)
      requires Valid() && Enclosing(device.ledger.events) == Some(r) && r.modeValid
      modifies device`crtcs, device`flips, device.ledger
      ensures Valid() && FallbackOnly(old(device.ledger.events), device.ledger.events)
      ensures outcome == 1 ==>
                && ShowsFirmly(device.crtcs, device.flips, r)
                && ShownSince(device.ledger.events, |old(device.ledger.events)|, r)
      ensures outcome == 0 ==> FlipsLanded(old(device.crtcs), old(device.flips), device.crtcs, device.flips)
      ensures -1 <= outcome <= 1 && SetCrtcConnector !in reject && (outcome == 1 <==> reject == [PageFlipFallback])
      ensures CallsIn(device.ledger.events) == CallsIn(old(device.ledger.events)) + calls
      ensures FlipCalls(calls, r, outcome)
    {
      hide AllCovered, Enclosing, ProvedIn, CallsIn, FlipOnlyCalls;
      ghost var e0 := device.ledger.events;
      var current := LookAtCrtc(r);
      calls := [SysGetCrtc(r.crtc, current)];
      CallsAppend(e0, Called(SysGetCrtc(r.crtc, current)));
      if current.None? || !current.value.modeValid || current.value.fb == 0
         || current.value.x != r.x || current.value.y != r.y {
        outcome, reject := 0, [FallbackReject];
        return;
      }
      if !SameModeTiming(current.value.mode, r.mode) {
        outcome, reject := 0, [FallbackMode, FallbackMode];
        return;
      }
      assert RunsSameMode(current.value, r);
      ghost var e1 := device.ledger.events;
      ghost var more;
      outcome, reject, more := FlipNow(r, current.value);
      calls := calls + more;
      FallbackTwice(e0, e1, device.ledger.events);
      if outcome == 1 {
        ShownEarlier(device.ledger.events, |e0|, |e1|, r);
      }
      FlipCallsFrom(SysGetCrtc(r.crtc, current), more, r, outcome);
    }

    /** PAGE_FLIP on a CRTC that already runs the requested position and timing. */
    method FlipNow(r: CrtcRequest, ghost current: Crtc)
      returns (outcome: int, reject: seq<DetailName>, ghost calls: seq<SystemCall>)
      requires Valid() && Enclosing(device.ledger.events) == Some(r) && r.modeValid && RunsSameMode(current, r)
      requires r.crtc in device.crtcs && device.crtcs[r.crtc] == current
      modifies device`crtcs, device`flips, device.ledger
      ensures Valid() && FallbackOnly(old(device.ledger.events), device.ledger.events)
      ensures outcome == 1 ==>
                && ShowsFirmly(device.crtcs, device.flips, r)
                && ShownSince(device.ledger.events, |old(device.ledger.events)|, r)
      ensures outcome == 0 ==> device.crtcs == old(device.crtcs) && device.flips == old(device.flips)
      ensures -1 <= outcome <= 1 && reject == [if outcome == 1 then PageFlipFallback else FallbackReject]
      ensures CallsIn(device.ledger.events) == CallsIn(old(device.ledger.events)) + calls
      ensures FlipOnlyCalls(calls, r, outcome)
    {
      hide AllCovered, Enclosing, ProvedIn, CallsIn, Looks, RunsSameMode, ShowsFirmly, ShownSince;
      ghost var e0 := device.ledger.events;
      var error := FlipTo(r);
      calls := [SysPageFlip(r.crtc, r.fb, error)];
      CallsAppend(e0, Called(SysPageFlip(r.crtc, r.fb, error)));
      if error != 0 {
        outcome, reject := 0, [FallbackReject];
        return;
      }
      ghost var e1 := device.ledger.events;
      var shown;
      ghost var looks;
      shown, looks := AwaitFlip(r, current);
      assert (calls + looks)[1..] == looks;
      calls := calls + looks;
      FallbackTwice(e0, e1, device.ledger.events);
      if shown {
        ShownEarlier(device.ledger.events, |e0|, |e1|, r);
        outcome, reject := 1, [PageFlipFallback];
      } else {
        outcome, reject := -1, [FallbackReject];
      }
    }

    predicate Eligible(arg: Option<CrtcRequest>)
    {
      arg.Some? && WantsExpected(arg.value, expectedCrtc, expectedConnector)
    }

    function Rule(): FallbackRule
    {
      FallbackRule(pageFlipFallback, expectedConnector, expectedCrtc)
    }

    method TryPageFlip(s: nat, arg: Option<CrtcRequest>)
      returns (outcome: int, ghost extras: seq<Record>, ghost calls: seq<SystemCall>)
      requires Valid() && !exited && arg.Some? && Enclosing(device.ledger.events) == arg
      modifies this`steady, this`exited, agent`seen, agent`evidence, agent`verified, agent`traceSteady, agent`acks,
               agent`arrivals, agent.observer, device`crtcs, device`flips, device`inspections, device.ledger
      ensures Valid() && FallbackOnly(old(device.ledger.events), device.ledger.events)
      ensures FallbackDetails(extras, s) && old(agent.seen) <= agent.seen && agent.seen <= old(agent.seen) + extras
      ensures !exited ==> agent.seen == old(agent.seen) + extras
      ensures outcome == 1 ==>
                && Eligible(arg) && ShowsFirmly(device.crtcs, device.flips, arg.value)
                && ShownSince(device.ledger.events, |old(device.ledger.events)|, arg.value)
      ensures outcome == 0 ==> FlipsLanded(old(device.crtcs), old(device.flips), device.crtcs, device.flips)
      ensures -1 <= outcome <= 1
      ensures CallsIn(device.ledger.events) == CallsIn(old(device.ledger.events)) + calls
      ensures if Rule().Applies(arg) then FlipCalls(calls, arg.value, outcome) else calls == [] && outcome == 0
    {
      hide AllCovered, Enclosing, ProvedIn, FlipsLanded, Announced, ShownSince, ShowsFirmly, NoCalls, CallsIn,
           FlipCalls;
      outcome, extras, calls := 0, [], [];
      ghost var c0, f0 := device.crtcs, device.flips;
      LandsNothing(c0, f0);
      if !pageFlipFallback || expectedCrtc == 0 || expectedConnector == 0 {
        return;
      }
      var names: seq<DetailName> := [FallbackReject];
      var r := arg.value;
      if r.crtc == expectedCrtc && r.fb != 0 && r.modeValid && r.readable && |r.connectors| == 1
         && r.connectors[0] == expectedConnector {
        outcome, names, calls := FlipInstead(arg.value);
      }
      extras := FallbackRecords(s, names);
      ghost var e1, c1, f1 := device.ledger.events, device.crtcs, device.flips;
      EmitAll(FallbackRecords(s, names));
      SameCalls(e1, device.ledger.events);
      FallbackTwice(old(device.ledger.events), e1, device.ledger.events);
      if outcome == 1 {
        ShowsStill(c1, f1, device.crtcs, device.flips, arg.value);
        PrefixOfNoCalls(e1, device.ledger.events);
        ShownLater(e1, device.ledger.events, |old(device.ledger.events)|, arg.value);
      }
      if outcome == 0 {
        FlipsLandedTwice(c0, f0, c1, f1, device.crtcs, device.flips);
      }
    }

    /** The system call, once its announcement is durable. */
    method CallSetCrtc(s: nat, arg: Option<CrtcRequest>) returns (error: int)
      requires Valid() && EndsWith(Announced(device.ledger.events), SetCrtcAnnouncement(s, arg))
      modifies device`crtcs, device`flips, device.ledger
      ensures Valid()
      ensures device.ledger.events == old(device.ledger.events) + [Called(SysSetCrtc(arg, error))]
      ensures Enclosing(device.ledger.events) == if error == EINVAL then arg else None
      ensures error == EINVAL ==> arg.Some?
      ensures error == 0 ==> arg.Some? && ShowsFirmly(device.crtcs, device.flips, arg.value)
      ensures error != 0 ==> device.crtcs == old(device.crtcs) && device.flips == old(device.flips)
    {
      hide AllCovered, Enclosing, ProvedIn, Announced, SetCrtcAnnouncement, Covered, EndsWith, ShowsFirmly;
      ghost var before, c0, f0 := device.ledger.events, device.crtcs, device.flips;
      error := device.SetCrtc(arg);
      AddEvent(before, Called(SysSetCrtc(arg, error)));
      SetCrtcCovered(before, s, arg, error, base);
      StillValid(before, SysSetCrtc(arg, error));
      if error == 0 {
        AppliedShows(c0, f0, arg.value);
      }
    }

    /** The call itself and, after EINVAL, its replacement by a page flip. */
    method ExecuteSetCrtc(s: nat, arg: Option<CrtcRequest>)
      returns (error: int, ghost extras: seq<Record>, ghost calls: seq<SystemCall>)
      requires Valid() && !exited
      requires EndsWith(Announced(device.ledger.events), SetCrtcAnnouncement(s, arg))
      modifies this`steady, this`exited, agent`seen, agent`evidence, agent`verified, agent`traceSteady, agent`acks,
               agent`arrivals, agent.observer, device`crtcs, device`flips, device`inspections, device.ledger
      ensures Valid()
      ensures Executed(old(device.ledger.events), device.ledger.events, arg)
      ensures FallbackDetails(extras, s) && old(agent.seen) <= agent.seen && agent.seen <= old(agent.seen) + extras
      ensures !exited ==> agent.seen == old(agent.seen) + extras
      ensures error == 0 ==>
                && arg.Some? && ShowsFirmly(device.crtcs, device.flips, arg.value)
                && ShownSince(device.ledger.events, |old(device.ledger.events)|, arg.value)
      ensures error == EINVAL ==> FlipsLanded(old(device.crtcs), old(device.flips), device.crtcs, device.flips)
      ensures CallsIn(device.ledger.events) == CallsIn(old(device.ledger.events)) + calls
      ensures SetCrtcCalls(calls, arg, Rule().Applies(arg), error)
    {
      hide AllCovered, Enclosing, ProvedIn, Announced, SetCrtcAnnouncement, ShowsFirmly, FlipsLanded, EndsWith, CallsIn,
           FlipCalls;
      extras := [];
      LandsNothing(device.crtcs, device.flips);
      ghost var before := device.ledger.events;
      error := CallSetCrtc(s, arg);
      ghost var after := device.ledger.events;
      ghost var first := SysSetCrtc(arg, error);
      assert after[|before|] == Called(first);
      calls := [first];
      CallsAppend(before, Called(first));
      if error == 0 {
        assert ShowsIt(after[|before|].call, arg.value);
      }
      if error == EINVAL {
        var outcome;
        ghost var more;
        outcome, extras, more := TryPageFlip(s, arg);
        assert ([first] + more)[1..] == more;
        calls := [first] + more;
        assert device.ledger.events[|before|] == after[|before|];
        if outcome == 1 {
          ShownEarlier(device.ledger.events, |before|, |after|, arg.value);
        }
        error := if outcome == 1 then 0 else if outcome == 0 then error else EIO;
      }
      assert FallbackOnly(before + [Called(first)], device.ledger.events);
    }

    /** BEFORE and every connector become durable before the call executes. */
    method AnnounceSetCrtc(s: nat, arg: Option<CrtcRequest>)
      requires Valid() && !exited
      modifies this`steady, this`exited, agent`seen, agent`evidence, agent`verified, agent`traceSteady, agent`acks,
               agent`arrivals, agent.observer, device`crtcs, device`flips, device`inspections, device.ledger
      ensures Valid()
      ensures Emitted(old(agent.seen), old(device.ledger.events), SetCrtcAnnouncement(s, arg),
                      agent.seen, device.ledger.events, exited)
      ensures !exited ==> EndsWith(Announced(device.ledger.events), SetCrtcAnnouncement(s, arg))
      ensures FlipsLanded(old(device.crtcs), old(device.flips), device.crtcs, device.flips)
    {
      hide AllCovered, Announced, SetCrtcAnnouncement, FlipsLanded, EndsWith, NoCalls;
      ghost var log := Announced(device.ledger.events);
      EmitAll(SetCrtcAnnouncement(s, arg));
      EndsWithAppend(log, SetCrtcAnnouncement(s, arg));
    }

    /** One SETCRTC. The agent observes this one commit, or a first part of it if the
        process ends; its result is the result Xorg gets, and success means that the
        kernel shows what was asked for. The call is made exactly once; if the process
        ends before, nothing but flips accepted earlier changed on the display. */
    method IoctlSetCrtc(arg: Option<CrtcRequest>)
      returns (error: int, ghost commit: Scanout.Commit, ghost calls: seq<SystemCall>)
      requires Valid() && !exited
      modifies this`sequence, this`steady, this`exited, agent`seen, agent`evidence, agent`verified, agent`traceSteady,
               agent`acks, agent`arrivals, agent.observer, device`crtcs, device`flips, device`inspections, device.ledger
      ensures Valid() && old(device.ledger.events) <= device.ledger.events
      ensures sequence == Following(old(sequence))
      ensures commit == TracedCommit(old(sequence), arg, commit.extras, commit.result)
      ensures FallbackDetails(commit.extras, commit.sequence)
      ensures var records := Scanout.Records(Scanout.SetCrtcCall(commit));
              && old(agent.seen) <= agent.seen && agent.seen <= old(agent.seen) + records
              && (!exited ==> agent.seen == old(agent.seen) + records)
      ensures !exited ==> (commit.result == 0 <==> error == 0)
      ensures commit.result == 0 ==> arg.Some? && ShownSince(device.ledger.events, |old(device.ledger.events)|, arg.value)
      ensures !exited && error == 0 ==> ShowsFirmly(device.crtcs, device.flips, arg.value)
      ensures || (exited && NoCalls(old(device.ledger.events), device.ledger.events)
                  && FlipsLanded(old(device.crtcs), old(device.flips), device.crtcs, device.flips))
              || (SetCrtcCalls(calls, arg, Rule().Applies(arg), error)
                  && exists e :: Made(old(device.ledger.events), device.ledger.events, SysSetCrtc(arg, e)))
      ensures CallsIn(device.ledger.events) == CallsIn(old(device.ledger.events)) + calls
    {
      hide CallsIn, SetCrtcCalls, AllCovered, Announced, SetCrtcAnnouncement, FlipsLanded, EndsWith, ShowsFirmly,
           ShownSince, TracedCommit, Scanout.Records, SetCrtcResult, Executed, Made, NoCalls;
      error, calls := 0, [];
      ghost var seen, e0 := agent.seen, device.ledger.events;
      var s := NextSequence();
      commit := TracedCommit(s, arg, [], -1);
      CommitFields(s, arg, [], -1);
      AnnounceSetCrtc(s, arg);
      ghost var announcement := SetCrtcAnnouncement(s, arg);
      PrefixOfNoCalls(e0, device.ledger.events);
      SameCalls(e0, device.ledger.events);
      if exited {
        PrefixOfWhole(seen, agent.seen, announcement, [], [SetCrtcResult(s, arg, -1)]);
        return;
      }
      ghost var e1 := device.ledger.events;
      ghost var extras;
      error, extras, calls := PerformSetCrtc(s, arg);
      MadeSetCrtc(e0, e1, device.ledger.events, arg);
      ghost var result := if error == 0 then 0 else -1;
      commit := TracedCommit(s, arg, extras, result);
      CommitFields(s, arg, extras, result);
      PrefixOfTail(seen, agent.seen, announcement, extras, [SetCrtcResult(s, arg, result)]);
      if error == 0 {
        ShownEarlier(device.ledger.events, |e0|, |e1|, arg.value);
      }
    }

    /** The announced call, its fallback and the report of its result. */
    method PerformSetCrtc(s: nat, arg: Option<CrtcRequest>)
      returns (error: int, ghost extras: seq<Record>, ghost calls: seq<SystemCall>)
      requires Valid() && !exited
      requires EndsWith(Announced(device.ledger.events), SetCrtcAnnouncement(s, arg))
      modifies this`steady, this`exited, agent`seen, agent`evidence, agent`verified, agent`traceSteady, agent`acks,
               agent`arrivals, agent.observer, device`crtcs, device`flips, device`inspections, device.ledger
      ensures Valid() && Executed(old(device.ledger.events), device.ledger.events, arg)
      ensures FallbackDetails(extras, s)
      ensures var tail := extras + [SetCrtcResult(s, arg, if error == 0 then 0 else -1)];
              && old(agent.seen) <= agent.seen && agent.seen <= old(agent.seen) + tail
              && (!exited ==> agent.seen == old(agent.seen) + tail)
      ensures error == 0 ==> arg.Some? && ShownSince(device.ledger.events, |old(device.ledger.events)|, arg.value)
      ensures !exited && error == 0 ==> ShowsFirmly(device.crtcs, device.flips, arg.value)
      ensures CallsIn(device.ledger.events) == CallsIn(old(device.ledger.events)) + calls
      ensures SetCrtcCalls(calls, arg, Rule().Applies(arg), error)
    {
      hide AllCovered, Announced, SetCrtcAnnouncement, FlipsLanded, EndsWith, ShowsFirmly, ShownSince,
           SetCrtcResult, FallbackDetails, Executed, NoCalls, CallsIn, SetCrtcCalls;
      ghost var seen, e0 := agent.seen, device.ledger.events;
      error, extras, calls := ExecuteSetCrtc(s, arg);
      var result := SetCrtcResult(s, arg, if error == 0 then 0 else -1);
      PrefixOfMore(seen, agent.seen, extras, [result]);
      if exited {
        return;
      }
      ghost var e1, c1, f1 := device.ledger.events, device.crtcs, device.flips;
      Emit(result);
      SameCalls(e1, device.ledger.events);
      assert seen + extras + [result] == seen + (extras + [result]);
      ExecutedStill(e0, e1, device.ledger.events, arg);
      if error == 0 {
        ShowsStill(c1, f1, device.crtcs, device.flips, arg.value);
        PrefixOfNoCalls(e1, device.ledger.events);
        ShownLater(e1, device.ledger.events, |e0|, arg.value);
      }
    }

    // -------------------------------------------------------------------
    // The other ioctls

    predicate ShouldTrace(request: Request)
      reads this
    {
      !steady || request == ReqSetCrtc
    }

    lemma SteadyIsProved()
      requires Valid() && steady
      ensures ProvedIn(device.ledger.events, base)
    {
    }

    /** Announces a call that is not a SETCRTC, if it is traced. */
    method Announce(request: Request, args: Args, details: seq<Record>) returns (traced: bool, s: nat)
      requires Valid() && !exited && request != ReqSetCrtc && Unrelated(details)
      modifies this`sequence, this`steady, this`exited, agent`seen, agent`evidence, agent`verified, agent`traceSteady,
               agent`acks, agent`arrivals, agent.observer, device`crtcs, device`flips, device`inspections, device.ledger
      ensures Valid()
      ensures traced == old(ShouldTrace(request))
      ensures sequence == if traced then Following(old(sequence)) else old(sequence)
      ensures Extends(old(agent.seen), agent.seen) && NoCalls(old(device.ledger.events), device.ledger.events)
      ensures traced && !exited ==>
                && s == old(sequence)
                && agent.seen == old(agent.seen) + ([Before1(s, request, args)] + details)
                && EndsWith(Announced(device.ledger.events), [Before1(s, request, args)] + details)
      ensures !traced ==> !exited && ProvedIn(device.ledger.events, base)
    {
      hide AllCovered, Announced, EndsWith, NoCalls, Extends, ProvedIn, FlipsLanded, Unrelated;
      traced, s := ShouldTrace(request), 0;
      if traced {
        s := NextSequence();
        var records := [Before1(s, request, args)] + details;
        ghost var seen, log := agent.seen, Announced(device.ledger.events);
        EmitAll(records);
        UnrelatedWith(s, request, args, details);
        ExtendsPart(seen, records, agent.seen);
        EndsWithAppend(log, records);
      } else {
        SteadyIsProved();
        NoCallsAtAll(device.ledger.events);
        ExtendsNothing(agent.seen);
      }
    }

    /** Reports a call's result, if it is traced. */
    method Conclude(traced: bool, request: Request, s: nat, args: Args, error: int)
      requires Valid() && !exited && request != ReqSetCrtc
      modifies this`steady, this`exited, agent`seen, agent`evidence, agent`verified, agent`traceSteady,
               agent`acks, agent`arrivals, agent.observer, device`crtcs, device`flips, device`inspections, device.ledger
      ensures Valid()
      ensures Extends(old(agent.seen), agent.seen) && NoCalls(old(device.ledger.events), device.ledger.events)
      ensures !exited ==> agent.seen == old(agent.seen) + if traced then [AfterRecord(s, request, args, error)] else []
    {
      hide AllCovered, Announced, NoCalls, Extends, FlipsLanded;
      ghost var seen := agent.seen;
      if traced {
        var record := AfterRecord(s, request, args, error);
        Emit(record);
        ExtendsPart(seen, [record], agent.seen);
      } else {
        NoCallsAtAll(device.ledger.events);
        ExtendsNothing(agent.seen);
      }
    }

    method CallOther(traced: bool, s: nat, request: Request, args: Args) returns (error: int)
      requires Valid()
      requires traced ==> EndsWith(Announced(device.ledger.events), [Before1(s, request, args)] + [])
      requires !traced ==> ProvedIn(device.ledger.events, base)
      modifies device.ledger
      ensures Valid() && device.ledger.events == old(device.ledger.events) + [Called(SysOther(request, args, error))]
    {
      hide AllCovered, Announced, EndsWith, ProvedIn, Covered;
      ghost var before := device.ledger.events;
      error := device.Other(request, args);
      OtherCovered(before, SysOther(request, args, error), traced, s, [Before1(s, request, args)] + [], base);
      StillValid(before, SysOther(request, args, error));
    }

    method CallAtomic(traced: bool, s: nat, arg: Option<AtomicRequest>, details: seq<Record>) returns (error: int)
      requires Valid() && AtomicAnnounced(s, arg, details)
      requires traced ==> EndsWith(Announced(device.ledger.events), [Before1(s, ReqAtomic, AtomicArgs(arg))] + details)
      requires !traced ==> ProvedIn(device.ledger.events, base)
      modifies device.ledger
      ensures Valid() && device.ledger.events == old(device.ledger.events) + [Called(SysAtomic(arg, error))]
    {
      hide AllCovered, Announced, EndsWith, ProvedIn, Covered, AtomicAnnounced;
      ghost var before := device.ledger.events;
      error := device.Atomic(arg);
      ghost var records := [Before1(s, ReqAtomic, AtomicArgs(arg))] + details;
      assert records[1..] == details;
      OtherCovered(before, SysAtomic(arg, error), traced, s, records, base);
      StillValid(before, SysAtomic(arg, error));
    }

    method CallSetProperty(traced: bool, s: nat, arg: Option<Write>) returns (error: int)
      requires Valid()
      requires traced ==> EndsWith(Announced(device.ledger.events), [Before1(s, ReqSetProperty, PropertyArgs(arg))] + [])
      requires !traced ==> ProvedIn(device.ledger.events, base)
      modifies device`properties, device.ledger
      ensures Valid() && device.ledger.events == old(device.ledger.events) + [Called(SysSetProperty(arg, error))]
      ensures error == 0 ==>
                arg.Some? && device.properties == old(device.properties)[arg.value.key := arg.value.value]
      ensures error != 0 ==> device.properties == old(device.properties)
    {
      hide AllCovered, Announced, EndsWith, ProvedIn, Covered;
      ghost var before := device.ledger.events;
      error := device.SetProperty(arg);
      OtherCovered(before, SysSetProperty(arg, error), traced, s, [Before1(s, ReqSetProperty, PropertyArgs(arg))] + [], base);
      StillValid(before, SysSetProperty(arg, error));
    }

    method CallGetProperties(traced: bool, s: nat, query: Option<ObjectQuery>) returns (error: int, report: seq<Write>)
      requires Valid()
      requires traced ==> EndsWith(Announced(device.ledger.events), [Before1(s, ReqObjGetProperties, QueryArgs(query))] + [])
      requires !traced ==> ProvedIn(device.ledger.events, base)
      modifies device.ledger
      ensures Valid() && device.ledger.events == old(device.ledger.events) + [Called(SysGetProperties(query, error, report))]
      ensures Accurate(device.properties, report) && ReportOn(query, report) && (error == 0 ==> query.Some?)
    {
      hide AllCovered, Announced, EndsWith, ProvedIn, Covered, Accurate, ReportOn;
      ghost var before := device.ledger.events;
      error, report := device.GetProperties(query);
      OtherCovered(before, SysGetProperties(query, error, report), traced, s,
                   [Before1(s, ReqObjGetProperties, QueryArgs(query))] + [], base);
      StillValid(before, SysGetProperties(query, error, report));
    }

    /** A call without details or compatibility rules. */
    method IoctlOther(request: Request, args: Args) returns (error: int)
      requires Valid() && !exited && request != ReqSetCrtc
      modifies this`sequence, this`steady, this`exited, agent`seen, agent`evidence, agent`verified, agent`traceSteady,
               agent`acks, agent`arrivals, agent.observer, device`crtcs, device`flips, device`inspections, device.ledger
      ensures Valid() && old(device.ledger.events) <= device.ledger.events
      ensures sequence == if old(steady) then old(sequence) else Following(old(sequence))
      ensures Extends(old(agent.seen), agent.seen)
      ensures || (exited && NoCalls(old(device.ledger.events), device.ledger.events))
              || Made(old(device.ledger.events), device.ledger.events, SysOther(request, args, error))
    {
      hide Valid, Announced, EndsWith, ProvedIn, Extends, NoCalls, Made, Unrelated;
      NothingUnrelated();
      error := 0;
      ghost var s0, e0 := agent.seen, device.ledger.events;
      var traced, s := Announce(request, args, []);
      PrefixOfNoCalls(e0, device.ledger.events);
      if exited {
        return;
      }
      ghost var s1, em := agent.seen, device.ledger.events;
      error := CallOther(traced, s, request, args);
      ghost var e1 := device.ledger.events;
      Conclude(traced, request, s, args, error);
      PrefixOfNoCalls(e1, device.ledger.events);
      ExtendsTwice(s0, s1, agent.seen);
      MadeOne(e0, em, SysOther(request, args, error), device.ledger.events);
    }

    /** The nested lists of an atomic commit, flattened in the caller's order. */
    method AtomicDetails(s: nat, arg: Option<AtomicRequest>) returns (details: seq<Record>)
      requires arg.Some? ==> arg.value.Valid()
      ensures AtomicAnnounced(s, arg, details) && Unrelated(details)
    {
      details := [];
      if arg.None? || arg.value.objects == [] {
        return;
      }
      var a := arg.value;
      if |a.objects| > MAX_ATOMIC_OBJECTS {
        return [Record(Detail, s, ReqAtomic, AtomicTruncated, Args(|a.objects|, 0, 0, 0), 0)];
      }
      if !a.countsReadable {
        return;
      }
      var total := 0;
      for o := 0 to |a.objects|
        invariant total == Sum(a.counts, o) <= MAX_ATOMIC_PROPERTIES
      {
        if a.counts[o] > MAX_ATOMIC_PROPERTIES - total {
          SumMonotone(a.counts, o + 1, |a.counts|);
          return [Record(Detail, s, ReqAtomic, AtomicTruncated, Args(|a.objects|, total, a.counts[o], o), 0)];
        }
        total := total + a.counts[o];
      }
      if !a.valuesReadable {
        return;
      }
      var p := 0;
      for o := 0 to |a.objects|
        invariant p == Sum(a.counts, o)
        invariant ListsProperties(s, a, o, details) && Unrelated(details)
      {
        SumMonotone(a.counts, o + 1, |a.counts|);
        var l := 0;
        ghost var whole := details;
        while l < a.counts[o]
          invariant 0 <= l <= a.counts[o] && p == Sum(a.counts, o) + l
          invariant |details| == p && whole <= details && Unrelated(details)
          invariant forall k: nat :: k < l ==> PropertyAt(s, a, o, k, details)
        {
          ghost var before := details;
          details := details + [Record(Detail, s, ReqAtomic, AtomicProperty,
                                       Args(a.objects[o], a.properties[p], a.values[p], l), 0)];
          forall k: nat | k < l + 1
            ensures PropertyAt(s, a, o, k, details)
          {
            assert k < l ==> PropertyAt(s, a, o, k, before);
          }
          l, p := l + 1, p + 1;
        }
        ObjectListed(s, a, o, whole, details);
      }
    }

    /** Between BEFORE and AFTER the agent sees exactly the commit's details. */
    method IoctlAtomic(arg: Option<AtomicRequest>) returns (error: int)
      requires Valid() && !exited && (arg.Some? ==> arg.value.Valid())
      modifies this`sequence, this`steady, this`exited, agent`seen, agent`evidence, agent`verified, agent`traceSteady,
               agent`acks, agent`arrivals, agent.observer, device`crtcs, device`flips, device`inspections, device.ledger
      ensures Valid() && old(device.ledger.events) <= device.ledger.events
      ensures sequence == if old(steady) then old(sequence) else Following(old(sequence))
      ensures Extends(old(agent.seen), agent.seen)
      ensures || (exited && NoCalls(old(device.ledger.events), device.ledger.events))
              || Made(old(device.ledger.events), device.ledger.events, SysAtomic(arg, error))
      ensures !exited && !old(steady) ==>
                && |agent.seen| >= |old(agent.seen)| + 2
                && AtomicAnnounced(old(sequence), arg, agent.seen[|old(agent.seen)| + 1..|agent.seen| - 1])
    {
      hide Valid, Announced, EndsWith, ProvedIn, Extends, NoCalls, Made, AtomicAnnounced, Unrelated;
      error := 0;
      ghost var s0, e0 := agent.seen, device.ledger.events;
      var details := AtomicDetails(sequence, arg);
      var traced, s := Announce(ReqAtomic, AtomicArgs(arg), details);
      PrefixOfNoCalls(e0, device.ledger.events);
      if exited {
        return;
      }
      ghost var s1, em := agent.seen, device.ledger.events;
      if !traced {
        s := sequence;
      }
      error := CallAtomic(traced, s, arg, details);
      ghost var e1 := device.ledger.events;
      Conclude(traced, ReqAtomic, s, AtomicArgs(arg), error);
      PrefixOfNoCalls(e1, device.ledger.events);
      ExtendsTwice(s0, s1, agent.seen);
      MadeOne(e0, em, SysAtomic(arg, error), device.ledger.events);
      if traced && !exited {
        MiddleOf(s0, Before1(s, ReqAtomic, AtomicArgs(arg)), details, AfterRecord(s, ReqAtomic, AtomicArgs(arg), error));
      }
    }

    method RepeatsCached(arg: Option<Write>) returns (drop: bool)
      requires Valid()
      ensures drop <==> suppressNoops && arg.Some? && Repeats(cache.Values(), arg.value)
    {
      drop := false;
      if suppressNoops && arg.Some? {
        drop := cache.IsNoop(arg.value.key, arg.value.value);
      }
    }

    /** A write that repeats the cached value is answered without reaching the kernel.
        A write that is passed on does not refresh the cache. `step` is what the write
        amounts to: `Other` when it failed or the process ended before. */
    method IoctlSetProperty(arg: Option<Write>) returns (error: int, ghost step: P.Step)
      requires Valid() && !exited
      modifies this`sequence, this`steady, this`exited, agent`seen, agent`evidence, agent`verified, agent`traceSteady,
               agent`acks, agent`arrivals, agent.observer, device`crtcs, device`flips, device`inspections,
               device`properties, device.ledger
      ensures Valid() && old(device.ledger.events) <= device.ledger.events
      ensures sequence == if old(steady) then old(sequence) else Following(old(sequence))
      ensures Extends(old(agent.seen), agent.seen)
      ensures cache.Values() == old(cache.Values())
      ensures step == P.Other || (arg.Some? && step == P.Wrote(arg.value))
      ensures !exited ==> (step.Wrote? <==> error == 0)
      ensures device.properties == AfterStep(suppressNoops, old(device.properties), cache.Values(), step)
      ensures WritePassed(suppressNoops && arg.Some? && Repeats(cache.Values(), arg.value), exited,
                          old(device.ledger.events), device.ledger.events, arg, error)
    {
      hide Valid, Announced, EndsWith, ProvedIn, Extends, NoCalls, Repeats, Unrelated, AfterStep, WritePassed;
      CacheIsValid();
      error, step := 0, P.Other;
      ghost var s0, e0, values := agent.seen, device.ledger.events, cache.Values();
      NoStep(suppressNoops, device.properties, values);
      var drop := RepeatsCached(arg);
      var traced, s := Announce(ReqSetProperty, PropertyArgs(arg), SuppressedDetail(sequence, arg, drop));
      PrefixOfNoCalls(e0, device.ledger.events);
      if exited {
        WriteNotReached(drop, e0, device.ledger.events, arg, error);
        return;
      }
      ghost var s1, e1 := agent.seen, device.ledger.events;
      error, step := PassWrite(traced, s, arg, drop, values);
      ghost var e2 := device.ledger.events;
      Conclude(traced, ReqSetProperty, s, PropertyArgs(arg), error);
      PrefixOfNoCalls(e2, device.ledger.events);
      ExtendsTwice(s0, s1, agent.seen);
      WriteDone(drop, exited, e0, e1, e2, device.ledger.events, arg, error);
    }

    /** The write itself, unless it is dropped. */
    method PassWrite(traced: bool, s: nat, arg: Option<Write>, drop: bool, ghost values: map<Key, nat>)
      returns (error: int, ghost step: P.Step)
      requires Valid()
      requires drop <==> suppressNoops && arg.Some? && Repeats(values, arg.value)
      requires !drop && traced ==>
                 EndsWith(Announced(device.ledger.events), [Before1(s, ReqSetProperty, PropertyArgs(arg))] + [])
      requires !traced ==> ProvedIn(device.ledger.events, base)
      modifies device`properties, device.ledger
      ensures Valid()
      ensures device.ledger.events == if drop then old(device.ledger.events)
                                      else old(device.ledger.events) + [Called(SysSetProperty(arg, error))]
      ensures step == if error == 0 && arg.Some? then P.Wrote(arg.value) else P.Other
      ensures error == 0 ==> arg.Some?
      ensures drop ==> error == 0
      ensures device.properties == AfterStep(suppressNoops, old(device.properties), values, step)
    {
      hide AllCovered, Announced, EndsWith, ProvedIn;
      error := 0;
      if !drop {
        error := CallSetProperty(traced, s, arg);
      }
      step := if error == 0 then P.Wrote(arg.value) else P.Other;
    }

    /** Reads an object's properties. A traced, successful read of a connector fills the
        cache with what the kernel reported; an untraced one leaves it alone. `step`
        holds the part of the report that was stored. */
    method IoctlGetProperties(query: Option<ObjectQuery>)
      returns (error: int, report: seq<Write>, ghost step: P.Step)
      requires Valid() && !exited
      modifies this`sequence, this`steady, this`exited, agent`seen, agent`evidence, agent`verified, agent`traceSteady,
               agent`acks, agent`arrivals, agent.observer, device`crtcs, device`flips, device`inspections,
               device.ledger, cache`count, cache.entries
      ensures Valid() && old(device.ledger.events) <= device.ledger.events
      ensures sequence == if old(steady) then old(sequence) else Following(old(sequence))
      ensures Extends(old(agent.seen), agent.seen)
      ensures step == P.Other || (step.Report? && step.report <= report && Accurate(device.properties, step.report))
      ensures cache.Values() == if step.Report? then StoreAll(old(cache.Values()), step.report) else old(cache.Values())
      ensures || (exited && !step.Report? && NoCalls(old(device.ledger.events), device.ledger.events))
              || Made(old(device.ledger.events), device.ledger.events, SysGetProperties(query, error, report))
      ensures ReportOn(query, report) && (step.Report? ==> Storable(query, report))
      ensures !exited ==>
                step == if !old(steady) && error == 0 && Storable(query, report) then P.Report(report) else P.Other
    {
      hide AllCovered, Announced, Extends, NoCalls, Made, StoreAll, Accurate;
      step := P.Other;
      ghost var s0, e0, v0 := agent.seen, device.ledger.events, cache.Values();
      var traced, s;
      traced, s, error, report := ReadProperties(query);
      if exited || !traced || error != 0 {
        return;
      }
      ghost var s1, e1 := agent.seen, device.ledger.events;
      ghost var stored := ListProperties(s, query.value, report);
      PrefixOfNoCalls(e1, device.ledger.events);
      ExtendsTwice(s0, s1, agent.seen);
      MadeStill(e0, e1, SysGetProperties(query, error, report), device.ledger.events);
      if Storable(query, report) {
        step := P.Report(stored);
        AccuratePart(device.properties, stored, report);
      } else {
        StoreNothing(v0);
      }
    }

    /** The announced call and the report of its result. */
    method ReadProperties(query: Option<ObjectQuery>) returns (traced: bool, s: nat, error: int, report: seq<Write>)
      requires Valid() && !exited
      modifies this`sequence, this`steady, this`exited, agent`seen, agent`evidence, agent`verified, agent`traceSteady,
               agent`acks, agent`arrivals, agent.observer, device`crtcs, device`flips, device`inspections, device.ledger
      ensures Valid() && old(device.ledger.events) <= device.ledger.events
      ensures traced == !old(steady)
      ensures sequence == if traced then Following(old(sequence)) else old(sequence)
      ensures Extends(old(agent.seen), agent.seen)
      ensures Accurate(device.properties, report) && ReportOn(query, report)
      ensures !exited && error == 0 ==> query.Some?
      ensures || (exited && NoCalls(old(device.ledger.events), device.ledger.events))
              || Made(old(device.ledger.events), device.ledger.events, SysGetProperties(query, error, report))
    {
      hide Valid, Announced, EndsWith, ProvedIn, Extends, NoCalls, Made, Unrelated;
      error, report := 0, [];
      ghost var s0, e0 := agent.seen, device.ledger.events;
      NothingUnrelated();
      traced, s := Announce(ReqObjGetProperties, QueryArgs(query), []);
      PrefixOfNoCalls(e0, device.ledger.events);
      if exited {
        return;
      }
      ghost var s1, e1 := agent.seen, device.ledger.events;
      error, report := CallGetProperties(traced, s, query);
      ghost var e2 := device.ledger.events;
      Conclude(traced, ReqObjGetProperties, s, AnsweredArgs(query, report), error);
      PrefixOfNoCalls(e2, device.ledger.events);
      ExtendsTwice(s0, s1, agent.seen);
      MadeOne(e0, e1, SysGetProperties(query, error, report), device.ledger.events);
    }

    /** Sends one record per property; `stored` is what went into the cache. */
    method ListProperties(s: nat, query: ObjectQuery, report: seq<Write>) returns (ghost stored: seq<Write>)
      requires Valid() && !exited
      modifies this`steady, this`exited, agent`seen, agent`evidence, agent`verified, agent`traceSteady, agent`acks,
               agent`arrivals, agent.observer, device`crtcs, device`flips, device`inspections, device.ledger,
               cache`count, cache.entries
      ensures Valid()
      ensures Extends(old(agent.seen), agent.seen) && NoCalls(old(device.ledger.events), device.ledger.events)
      ensures stored <= report && cache.Values() == StoreAll(old(cache.Values()), stored)
      ensures !exited ==> stored == if Storable(Some(query), report) then report else []
      ensures !Storable(Some(query), report) ==> stored == []
    {
      hide AllCovered, Announced, Extends, NoCalls, StoreAll;
      var isConnector := query.kind == CONNECTOR_KIND;
      stored := [];
      ghost var s0, e0, v0 := agent.seen, device.ledger.events, cache.Values();
      NoCallsAtAll(e0);
      ExtendsNothing(s0);
      StoreNothing(v0);
      if report == [] {
        return;
      }
      if |report| > MAX_OBJECT_PROPERTIES {
        var record := Record(Detail, s, ReqObjGetProperties, ObjectPropertiesTruncated,
                             Args(query.id, query.kind, |report|, 0), 0);
        Emit(record);
        ExtendsPart(s0, [record], agent.seen);
        return;
      }
      if !query.readable {
        return;
      }
      for i := 0 to |report|
        invariant Valid() && !exited
        invariant Extends(s0, agent.seen) && NoCalls(e0, device.ledger.events)
        invariant stored == if isConnector then report[..i] else []
        invariant cache.Values() == StoreAll(v0, stored)
      {
        ghost var s1, e1 := agent.seen, device.ledger.events;
        StoreOneMore(v0, report, i);
        ListProperty(s, isConnector, report[i], i);
        stored := if isConnector then report[..i + 1] else [];
        ExtendsTwice(s0, s1, agent.seen);
        NoCallsTwice(e0, e1, device.ledger.events);
        if exited {
          return;
        }
      }
      assert report[..|report|] == report;
    }

    method ListProperty(s: nat, isConnector: bool, w: Write, index: nat)
      requires Valid() && !exited
      modifies this`steady, this`exited, agent`seen, agent`evidence, agent`verified, agent`traceSteady, agent`acks,
               agent`arrivals, agent.observer, device`crtcs, device`flips, device`inspections, device.ledger,
               cache`count, cache.entries
      ensures Valid()
      ensures Extends(old(agent.seen), agent.seen) && NoCalls(old(device.ledger.events), device.ledger.events)
      ensures cache.Values() == Cached(old(cache.Values()), isConnector, w)
    {
      hide AllCovered, Announced, Extends, NoCalls;
      ghost var seen := agent.seen;
      CacheProperty(isConnector, w);
      var record := Record(Detail, s, ReqObjGetProperties, ObjectProperty,
                           Args(w.key.connector, w.key.property, w.value, index), 0);
      Emit(record);
      ExtendsPart(seen, [record], agent.seen);
    }

    method CacheProperty(isConnector: bool, w: Write)
      requires Valid()
      modifies cache`count, cache.entries
      ensures Valid() && cache.Values() == Cached(old(cache.Values()), isConnector, w)
    {
      if isConnector {
        var stored := cache.Store(w.key, w.value);
      }
    }
  }

  /** The commit of a SETCRTC with this argument. */
  ghost predicate CommitOf(commit: Scanout.Commit, arg: Option<CrtcRequest>)
  {
    && commit == TracedCommit(commit.sequence, arg, commit.extras, commit.result)
    && FallbackDetails(commit.extras, commit.sequence)
  }

  lemma CommitFields(s: nat, arg: Option<CrtcRequest>, extras: seq<Record>, result: int)
    ensures var c := TracedCommit(s, arg, extras, result);
            && c.sequence == s && c.extras == extras && c.result == result
            && Scanout.Records(Scanout.SetCrtcCall(c)) == SetCrtcAnnouncement(s, arg) + extras + [SetCrtcResult(s, arg, result)]
  {
    CommitPieces(s, arg, extras, result);
  }

  lemma PrefixOfWhole(seen: seq<Record>, now: seq<Record>, a: seq<Record>, x: seq<Record>, r: seq<Record>)
    requires now <= seen + a
    ensures now <= seen + (a + x + r)
  {
    assert seen + (a + x + r) == (seen + a) + (x + r);
  }

  lemma PrefixOfTail(seen: seq<Record>, now: seq<Record>, a: seq<Record>, x: seq<Record>, r: seq<Record>)
    requires seen + a <= now && now <= seen + a + (x + r)
    ensures seen <= now && now <= seen + (a + x + r)
    ensures now == seen + a + (x + r) ==> now == seen + (a + x + r)
  {
    assert seen + (a + x + r) == seen + a + (x + r);
  }

  lemma PrefixOfMore(seen: seq<Record>, now: seq<Record>, x: seq<Record>, r: seq<Record>)
    requires now <= seen + x
    ensures now <= seen + (x + r)
  {
    assert seen + (x + r) == seen + x + r;
  }

  /** The query as the kernel left it: the count is now that of the report. */
  function AnsweredArgs(query: Option<ObjectQuery>, report: seq<Write>): Args
  {
    if query.Some? && report != [] then Args(query.value.id, query.value.kind, |report|, 0) else QueryArgs(query)
  }

  /** A connector's report that is listed, and so stored, in full. */
  predicate Storable(query: Option<ObjectQuery>, report: seq<Write>)
  {
    && query.Some? && query.value.kind == CONNECTOR_KIND && query.value.readable
    && |report| <= MAX_OBJECT_PROPERTIES
  }

  function AfterRecord(s: nat, request: Request, args: Args, error: int): Record
  {
    Record(After, s, request, Unnamed, args, if error == 0 then 0 else -1)
  }

  lemma UnrelatedWith(s: nat, request: Request, args: Args, details: seq<Record>)
    requires request != ReqSetCrtc && Unrelated(details)
    ensures Unrelated([Before1(s, request, args)] + details)
  {
  }

  lemma ExtendsNothing(a: seq<Record>)
    ensures Extends(a, a)
  {
    assert a[|a|..] == [];
  }

  lemma PrefixOfNoCalls(a: seq<Event>, b: seq<Event>)
    requires NoCalls(a, b)
    ensures a <= b
  {
  }

  lemma MiddleOf(seen: seq<Record>, first: Record, details: seq<Record>, last: Record)
    ensures var all := seen + ([first] + details) + [last];
            |all| == |seen| + |details| + 2 && all[|seen| + 1..|all| - 1] == details
  {
  }

  /** The properties after one write, as the filter lets it through. */
  function AfterStep(suppress: bool, properties: map<Key, nat>, cached: map<Key, nat>, step: P.Step): map<Key, nat>
  {
    if step.Wrote? && !(suppress && Repeats(cached, step.write))
    then properties[step.write.key := step.write.value] else properties
  }

  lemma NoStep(suppress: bool, properties: map<Key, nat>, cached: map<Key, nat>)
    ensures AfterStep(suppress, properties, cached, P.Other) == properties
  {
  }

  function Cached(values: map<Key, nat>, isConnector: bool, w: Write): map<Key, nat>
  {
    if isConnector && (w.key in values || |values| < CAPACITY) then values[w.key := w.value] else values
  }

  lemma StoreOneMore(values: map<Key, nat>, report: seq<Write>, i: nat)
    requires i < |report|
    ensures StoreAll(values, report[..i + 1]) == Cached(StoreAll(values, report[..i]), true, report[i])
  {
    assert report[..i + 1][..i] == report[..i];
  }

  function SuppressedDetail(s: nat, arg: Option<Write>, drop: bool): (details: seq<Record>)
    ensures Unrelated(details)
    ensures !drop ==> details == []
  {
    if drop then [Record(Detail, s, ReqSetProperty, SuppressedConnectorNoop, PropertyArgs(arg), 0)] else []
  }

  lemma NothingUnrelated()
    ensures Unrelated([])
  {
  }

  /** A dropped write never reaches the kernel; any other does exactly once, unless the
      process ends before. */
  ghost predicate WritePassed(dropped: bool, exited: bool, before: seq<Event>, after: seq<Event>,
                              arg: Option<Write>, error: int)
  {
    || ((exited || (dropped && arg.Some? && error == 0)) && NoCalls(before, after))
    || (!dropped && Made(before, after, SysSetProperty(arg, error)))
  }

  lemma WriteNotReached(dropped: bool, before: seq<Event>, after: seq<Event>, arg: Option<Write>, error: int)
    requires NoCalls(before, after)
    ensures WritePassed(dropped, true, before, after, arg, error)
  {
  }

  lemma WriteDone(dropped: bool, exited: bool, before: seq<Event>, announced: seq<Event>, called: seq<Event>,
                  after: seq<Event>, arg: Option<Write>, error: int)
    requires NoCalls(before, announced) && NoCalls(called, after)
    requires dropped ==> arg.Some? && error == 0
    requires called == if dropped then announced else announced + [Called(SysSetProperty(arg, error))]
    ensures WritePassed(dropped, exited, before, after, arg, error)
  {
    hide NoCalls, Made;
    if dropped {
      NoCallsTwice(before, announced, after);
    } else {
      MadeOne(before, announced, SysSetProperty(arg, error), after);
    }
  }

  /** The SETCRTC itself, and after it nothing but its fallback. */
  ghost predicate Executed(before: seq<Event>, after: seq<Event>, arg: Option<CrtcRequest>)
  {
    exists e :: FallbackOnly(before + [Called(SysSetCrtc(arg, e))], after)
  }

  lemma ExecutedStill(before: seq<Event>, mid: seq<Event>, after: seq<Event>, arg: Option<CrtcRequest>)
    requires Executed(before, mid, arg) && NoCalls(mid, after)
    ensures Executed(before, after, arg)
  {
    var e :| FallbackOnly(before + [Called(SysSetCrtc(arg, e))], mid);
    FallbackTwice(before + [Called(SysSetCrtc(arg, e))], mid, after);
  }

  lemma MadeSetCrtc(before: seq<Event>, mid: seq<Event>, after: seq<Event>, arg: Option<CrtcRequest>)
    requires NoCalls(before, mid) && Executed(mid, after, arg)
    ensures before <= mid && mid <= after
    ensures exists e :: Made(before, after, SysSetCrtc(arg, e))
  {
    var e :| FallbackOnly(mid + [Called(SysSetCrtc(arg, e))], after);
    MadeOne(before, mid, SysSetCrtc(arg, e), after);
  }

  lemma StoreNothing(values: map<Key, nat>)
    ensures StoreAll(values, []) == values
  {
  }

  lemma AccuratePart(properties: map<Key, nat>, part: seq<Write>, report: seq<Write>)
    requires Accurate(properties, report) && part <= report
    ensures Accurate(properties, part)
  {
  }
}
