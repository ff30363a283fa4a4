/**
 The chroot agent: it relays trace records to the broker, starts Xorg and
 answers the broker's requests.
 */
module AgentSession {
  import opened Options
  import opened Trace
  import opened Kernel
  import Scanout

  const PROBE_NONE := 0
  const PROBE_LEASE_HOLD := 1
  const PROBE_XORG_LEGACY := 2
  const PROBE_XORG_ATOMIC := 3

  predicate XorgProbe(mode: nat)
  {
    mode == PROBE_XORG_LEGACY || mode == PROBE_XORG_ATOMIC
  }

  // ---------------------------------------------------------------------
  // Messages

  datatype AgentRequest =
    | Prepare(id: nat, mode: nat)
    | Start(id: nat, mode: nat, connector: nat, crtc: nat, hasLease: bool)
    | Stop(id: nat)
    | Unknown(id: nat)

  datatype AgentReply = Ready(id: nat, ok: bool) | Failed(id: nat)

  /** Requests the agent can answer READY with success. */
  predicate CanSucceed(request: AgentRequest)
  {
    || (request.Prepare? && XorgProbe(request.mode))
    || (request.Start? && request.hasLease && XorgProbe(request.mode))
    || request.Stop?
  }

  /** What becomes of a record on its way to the broker and back: no answer, perhaps
      after it was logged; some other request in place of the answer; or the answer,
      after it was logged, which may or may not reach the interposer. */
  datatype Hop = Unanswered(logged: bool) | Distracted | Answered(ok: bool, delivered: bool)

  /** An acknowledgement to the interposer. */
  datatype Ack = Ack(sequence: nat, steady: bool)

  /** An acknowledgement that was sent: during which start, whether it tells the
      interposer to stop tracing, and whether that start had been verified. */
  datatype AckNote = AckNote(start: nat, steady: bool, proved: bool)

  // ---------------------------------------------------------------------
  // What a successful start proves

  ghost predicate Justified(e: Evidence)
  {
    var s := Scanout.Observe(Scanout.Initial(e.connector, e.crtc), e.trace);
    && e.crtc != 0
    && s.confirmed && !s.failed && s.fb != 0
    && e.report.modeValid && e.report.fb == s.fb
    && e.report.mode.timing == e.androidMode.timing
  }

  /** In terms of Xorg's own calls: every SETCRTC that lit the leased CRTC
      succeeded with the leased connector, at least one did, and the kernel
      reports the framebuffer of the last one at Android's exact timing. */
  lemma JustifiedMeansScannedOut(e: Evidence, items: seq<Scanout.Item>)
    requires Justified(e) && e.trace == Scanout.Flatten(items)
    requires forall i :: 0 <= i < |items| ==> Scanout.WellFormed(items[i])
    requires Scanout.DistinctSequences(items)
    ensures var commits := Scanout.Enabling(items, e.crtc);
            && commits != []
            && (forall i :: 0 <= i < |commits| ==> Scanout.Good(commits[i], e.connector))
            && e.report.fb == commits[|commits| - 1].fb
            && e.report.mode.timing == e.androidMode.timing
  {
    Scanout.ObserverMatchesScan(items, e.connector, e.crtc);
  }

  /** The same when the verification fell into the middle of a further commit: the
      completed enabling commits all succeeded, and the framebuffer is that of the
      last one, or of the commit under way if that one enables the CRTC too. */
  lemma JustifiedMidCommit(e: Evidence, items: seq<Scanout.Item>, c: Scanout.Commit, k: nat)
    requires k <= |Scanout.ConnectorDetails(c) + c.extras|
    requires Justified(e)
    requires e.trace == Scanout.Flatten(items)
                        + ([Scanout.BeforeRecord(c)] + (Scanout.ConnectorDetails(c) + c.extras)[..k])
    requires forall i :: 0 <= i < |items| ==> Scanout.WellFormed(items[i])
    requires Scanout.WellFormed(Scanout.SetCrtcCall(c))
    requires Scanout.DistinctSequences(items + [Scanout.SetCrtcCall(c)])
    ensures var commits := Scanout.Enabling(items, e.crtc);
            && commits != []
            && (forall i :: 0 <= i < |commits| ==> Scanout.Good(commits[i], e.connector))
            && e.report.fb == if Scanout.Enables(c, e.crtc) then c.fb else commits[|commits| - 1].fb
  {
    var initial := Scanout.Initial(e.connector, e.crtc);
    var s := Scanout.Observe(initial, Scanout.Flatten(items));
    Scanout.SummaryBefore(items, c, e.connector, e.crtc);
    Scanout.ObserveAppend(initial, Scanout.Flatten(items),
                          [Scanout.BeforeRecord(c)] + (Scanout.ConnectorDetails(c) + c.extras)[..k]);
    Scanout.CommitInFlight(s, c, k);
  }

  // ---------------------------------------------------------------------
  // The environment of a start attempt

  /** The leased connector as the kernel describes it. */
  datatype ConnectorInfo = ConnectorInfo(connected: bool, modes: seq<ModeInfo>)

  /** A record and what becomes of it. */
  datatype Sent = Sent(record: Record, hop: Hop)

  /** One turn of the startup loop: the record relayed first, those relayed while
      the readiness command ran, and those relayed while RandR and XInput were
      checked. */
  datatype Turn = Turn(
    alive: bool,
    first: seq<Sent>,
    ready: bool,
    duringReady: seq<Sent>,
    windowsOk: bool,
    duringChecks: seq<Sent>)

  datatype Attempt = Attempt(
    connectorInfo: Option<ConnectorInfo>,
    configWritten: bool,
    leaseDuplicated: bool,
    spawned: bool,
    turns: seq<Turn>,
    sessionStarted: bool)

  // ---------------------------------------------------------------------
  // What a start attempt comes to

  /** Every record was acknowledged by the broker and to the interposer. */
  predicate AllAnswered(records: seq<Sent>)
  {
    forall i :: 0 <= i < |records| ==> records[i].hop == Answered(true, true)
  }

  /** The records of a batch, up to and including the first that is not acknowledged. */
  function Heard(records: seq<Sent>): seq<Record>
  {
    if records == [] then []
    else if records[0].hop != Answered(true, true) then [records[0].record]
    else [records[0].record] + Heard(records[1..])
  }

  /** The records heard in the first turns, none of which ended the loop. */
  function HeardIn(turns: seq<Turn>, n: nat): seq<Record>
    requires n <= |turns|
  {
    if n == 0 then [] else HeardIn(turns, n - 1) + Heard(turns[n - 1].first) + Heard(turns[n - 1].duringReady)
  }

  /** What the trace says when the readiness command of turn `n` has finished. */
  function StateIn(connector: nat, crtc: nat, turns: seq<Turn>, n: nat): Scanout.State
    requires n < |turns|
  {
    Scanout.Observe(Scanout.Initial(connector, crtc),
                    HeardIn(turns, n) + Heard(turns[n].first) + Heard(turns[n].duringReady))
  }

  /** Xorg lives and its records arrive, but it is not ready, or has not committed. */
  predicate Undecided(turn: Turn, state: Scanout.State)
  {
    && turn.alive && AllAnswered(turn.first)
    && (turn.ready && AllAnswered(turn.duringReady) ==> !state.failed && !state.confirmed)
  }

  /** Xorg is ready, its commits succeeded, the windows are right, and every record
      arrived. */
  predicate Passes(turn: Turn, state: Scanout.State)
  {
    && turn.alive && turn.ready && turn.windowsOk
    && AllAnswered(turn.first) && AllAnswered(turn.duringReady) && AllAnswered(turn.duringChecks)
    && state.confirmed && !state.failed && state.fb != 0
  }

  /** The kernel shows this framebuffer at this timing on the CRTC. */
  predicate Scans(look: Inspection, crtc: nat, fb: nat, mode: ModeInfo)
  {
    && look.crtc == crtc && look.report.Some? && look.report.value.modeValid && look.report.value.fb == fb
    && SameModeTiming(look.report.value.mode, mode)
  }

  /** The first turn that decides is one that passes, with the scanout seen. */
  ghost predicate ShownIn(connector: nat, crtc: nat, turns: seq<Turn>, look: Inspection, mode: ModeInfo, n: nat)
    requires n < |turns|
  {
    && UndecidedUpTo(connector, crtc, turns, n)
    && Passes(turns[n], StateIn(connector, crtc, turns, n))
    && Scans(look, crtc, StateIn(connector, crtc, turns, n).fb, mode)
  }

  ghost predicate Shown(connector: nat, crtc: nat, turns: seq<Turn>, look: Inspection, mode: ModeInfo)
  {
    exists n :: 0 <= n < |turns| && ShownIn(connector, crtc, turns, look, mode, n)
  }

  ghost predicate UndecidedUpTo(connector: nat, crtc: nat, turns: seq<Turn>, n: nat)
    requires n <= |turns|
  {
    forall j :: 0 <= j < n ==> Undecided(turns[j], StateIn(connector, crtc, turns, j))
  }

  /** The first turn that decides decides everything. */
  lemma {:induction false} FirstDecides(connector: nat, crtc: nat, turns: seq<Turn>, n: nat, look: Inspection,
                                        mode: ModeInfo)
    requires n < |turns| && UndecidedUpTo(connector, crtc, turns, n)
    requires !Undecided(turns[n], StateIn(connector, crtc, turns, n))
    ensures Shown(connector, crtc, turns, look, mode)
            <==> Passes(turns[n], StateIn(connector, crtc, turns, n))
                 && Scans(look, crtc, StateIn(connector, crtc, turns, n).fb, mode)
  {
    hide StateIn, Scans;
    if k :| 0 <= k < |turns| && ShownIn(connector, crtc, turns, look, mode, k) {
      assert k >= n;
    }
    var state := StateIn(connector, crtc, turns, n);
    if Passes(turns[n], state) && Scans(look, crtc, state.fb, mode) {
      assert ShownIn(connector, crtc, turns, look, mode, n);
    }
  }

  lemma {:induction false} NothingHeard(connector: nat, crtc: nat, turns: seq<Turn>)
    ensures HeardIn(turns, 0) == [] && UndecidedUpTo(connector, crtc, turns, 0)
  {
  }

  lemma {:induction false} StillUndecided(connector: nat, crtc: nat, turns: seq<Turn>, n: nat)
    requires n < |turns| && UndecidedUpTo(connector, crtc, turns, n)
    requires Undecided(turns[n], StateIn(connector, crtc, turns, n))
    ensures UndecidedUpTo(connector, crtc, turns, n + 1)
  {
  }

  /** The mode of the CRTC counts as Android's if the connected sink advertises it. */
  ghost predicate Usable(info: ConnectorInfo, report: Option<Crtc>)
  {
    && info.connected && report.Some? && report.value.modeValid
    && report.value.mode.timing.hdisplay > 0 && report.value.mode.timing.vdisplay > 0
    && exists m :: m in info.modes && SameModeTiming(report.value.mode, m)
  }

  class Agent {
    const observer: Scanout.Observer
    const device: Device
    var traceStartupOnly: bool
    var startsSession: bool
    var probeMode: nat
    var androidMode: ModeInfo
    var androidModeValid: bool
    var holdsLease: bool
    var traceSteady: bool
    /** The start under way got past the scanout check. */
    var verified: bool
    /** How often an Xorg start got as far as following its records. */
    ghost var starts: nat
    /** Records observed since the last start. */
    ghost var seen: seq<Record>
    /** The latest successful verification. */
    ghost var evidence: Option<Evidence>
    /** Every acknowledgement sent to an interposer. */
    ghost var acks: seq<AckNote>
    /** How many of them arrived in time. */
    ghost var arrivals: nat

    ghost predicate Valid()
      reads this, observer
    {
      && observer.View() == Scanout.Observe(
           Scanout.Initial(observer.expectedConnector, observer.expectedCrtc), seen)
      && (evidence.Some? ==> Justified(evidence.value) && evidence.value.start <= starts)
      && (traceSteady ==> evidence.Some?)
      && (verified ==> evidence.Some? && evidence.value.start == starts)
    }

    /** The interposer is told to skip tracing only for an Xorg that was itself
        verified. */
    ghost predicate SteadyIsCurrent()
      reads this
    {
      traceSteady ==> evidence.Some? && evidence.value.start == starts
    }

    constructor (device: Device, traceStartupOnly: bool, startsSession: bool)
      ensures Valid() && this.device == device && fresh(observer)
      ensures !traceSteady && acks == [] && evidence == None && seen == []
    {
      observer := new Scanout.Observer();
      this.device, this.traceStartupOnly, this.startsSession := device, traceStartupOnly, startsSession;
      probeMode, androidMode, androidModeValid := PROBE_NONE, ZERO_MODE, false;
      holdsLease, traceSteady, verified := false, false, false;
      starts, seen, evidence, acks, arrivals := 0, [], None, [], 0;
    }

    /** A new agent process registers. */
    method Restart(traceStartupOnly: bool, startsSession: bool)
      modifies this, observer
      ensures Valid() && SteadyIsCurrent() && !traceSteady && evidence == None
    {
      observer.Expect(0, 0);
      this.traceStartupOnly, this.startsSession := traceStartupOnly, startsSession;
      probeMode, androidMode, androidModeValid := PROBE_NONE, ZERO_MODE, false;
      holdsLease, traceSteady, verified := false, false, false;
      starts, seen, evidence, acks, arrivals := 0, [], None, [], 0;
    }

    // -------------------------------------------------------------------
    // Relaying trace records

    /** The start under way has been verified. */
    ghost predicate Proven()
      reads this
    {
      evidence.Some? && evidence.value.start == starts
    }

    /** The broker's side: it syncs the record to its log before it answers. */
    method BrokerHop(record: Record, hop: Hop) returns (acknowledged: bool)
      modifies device.ledger
      ensures device.ledger.events ==
              old(device.ledger.events) + if hop.Answered? || (hop.Unanswered? && hop.logged) then [Logged(record)] else []
      ensures acknowledged <==> hop.Answered? && hop.ok
    {
      if hop.Answered? || (hop.Unanswered? && hop.logged) {
        device.ledger.Add(Logged(record));
      }
      return hop.Answered? && hop.ok;
    }

    /** Nothing is acknowledged to the interposer unless the broker has it. */
    method Relay(record: Record, hop: Hop) returns (ack: Option<Ack>)
      requires Valid()
      modifies this`seen, this`acks, observer, device.ledger
      ensures Valid()
      ensures observer.expectedConnector == old(observer.expectedConnector)
      ensures observer.expectedCrtc == old(observer.expectedCrtc)
      ensures seen == old(seen) + [record]
      ensures device.ledger.events ==
              old(device.ledger.events) + if hop.Answered? || (hop.Unanswered? && hop.logged) then [Logged(record)] else []
      ensures ack == if hop == Answered(true, true) then Some(Ack(record.sequence, traceSteady)) else None
      ensures acks == old(acks) + if ack.Some? then [AckNote(starts, traceSteady, Proven())] else []
    {
      observer.ObserveRecord(record);
      assert (seen + [record])[..|seen|] == seen;
      seen := seen + [record];
      var acknowledged := BrokerHop(record, hop);
      if acknowledged && hop.delivered {
        acks := acks + [AckNote(starts, traceSteady, Proven())];
        return Some(Ack(record.sequence, traceSteady));
      }
      return None;
    }

    /** What the interposer hears back about a record, if anything. */
    method Answer(record: Record) returns (ack: Option<Ack>)
      requires Valid()
      modifies this`seen, this`acks, this`arrivals, observer, device.ledger
      ensures Valid()
      ensures observer.expectedConnector == old(observer.expectedConnector)
      ensures observer.expectedCrtc == old(observer.expectedCrtc)
      ensures seen == old(seen) + [record]
      ensures device.ledger.events == old(device.ledger.events) + [Logged(record)]
              || (ack.None? && device.ledger.events == old(device.ledger.events))
      ensures ack.Some? ==> ack.value == Ack(record.sequence, traceSteady)
      ensures arrivals == if ack.Some? then old(arrivals) + 1 else old(arrivals)
    {
      var hop: Hop := *;
      ack := Relay(record, hop);
      var arrives: bool := *;
      if !arrives {
        ack := None;
      }
      if ack.Some? {
        arrivals := arrivals + 1;
      }
    }

    /** The acknowledgements since `from` belong to this start, and the unverified ones
        carry the given flag. */
    ghost predicate AckedAs(from: nat, steady: bool)
      reads this
    {
      && from <= |acks|
      && forall k :: from <= k < |acks| ==>
           acks[k].start == starts && (!acks[k].proved ==> acks[k].steady == steady)
    }

    /** Relays a batch; stops at the first record that is not acknowledged. */
    method RelayAll(records: seq<Sent>, ghost from: nat, ghost steadyBefore: bool) returns (ok: bool)
      requires Valid() && AckedAs(from, steadyBefore) && (Proven() || traceSteady == steadyBefore)
      modifies this`seen, this`acks, observer, device.ledger
      ensures Valid() && AckedAs(from, steadyBefore) && old(acks) <= acks && seen == old(seen) + Heard(records)
      ensures observer.expectedConnector == old(observer.expectedConnector)
      ensures observer.expectedCrtc == old(observer.expectedCrtc)
      ensures ok <==> AllAnswered(records)
    {
      for i := 0 to |records|
        invariant Valid() && AckedAs(from, steadyBefore) && old(acks) <= acks
        invariant old(seen) + Heard(records) == seen + Heard(records[i..])
        invariant observer.expectedConnector == old(observer.expectedConnector)
        invariant observer.expectedCrtc == old(observer.expectedCrtc)
        invariant forall j :: 0 <= j < i ==> records[j].hop == Answered(true, true)
      {
        var ack := Relay(records[i].record, records[i].hop);
        assert records[i..][1..] == records[i + 1..];
        if ack.None? {
          return false;
        }
      }
      return true;
    }

    // -------------------------------------------------------------------
    // Starting Xorg

    static method Advertised(mode: ModeInfo, modes: seq<ModeInfo>) returns (found: bool)
      ensures found <==> exists m :: m in modes && SameModeTiming(mode, m)
    {
      for i := 0 to |modes|
        invariant forall j :: 0 <= j < i ==> !SameModeTiming(mode, modes[j])
      {
        if SameModeTiming(mode, modes[i]) {
          assert modes[i] in modes;
          return true;
        }
      }
      return false;
    }

    method ReadAndroidMode(connector: nat, crtc: nat, info: Option<ConnectorInfo>) returns (ok: bool)
      requires Valid()
      modifies this`androidMode, device`crtcs, device`flips, device`inspections
      ensures Valid()
      ensures connector == 0 || crtc == 0 || info.None? ==>
                !ok && androidMode == old(androidMode) && device.inspections == old(device.inspections)
      ensures connector != 0 && crtc != 0 && info.Some? ==>
                && |device.inspections| == |old(device.inspections)| + 1 && old(device.inspections) <= device.inspections
                && var report := device.inspections[|old(device.inspections)|].report;
                   && androidMode == (if Usable(info.value, report) then report.value.mode else old(androidMode))
                   && (ok <==> report.Some? && info.value.connected
                               && androidMode.timing.hdisplay > 0 && androidMode.timing.vdisplay > 0)
      ensures androidMode != old(androidMode) ==>
                && info.Some? && info.value.connected
                && crtc in device.crtcs && device.crtcs[crtc].modeValid
                && androidMode == device.crtcs[crtc].mode
                && exists m :: m in info.value.modes && SameModeTiming(androidMode, m)
    {
      if connector == 0 || crtc == 0 || info.None? {
        return false;
      }
      var report := device.Inspect(crtc);
      if report.None? {
        return false;
      }
      var advertised := false;
      if report.value.modeValid {
        advertised := Advertised(report.value.mode, info.value.modes);
      }
      if info.value.connected && report.value.modeValid && report.value.mode.timing.hdisplay > 0
         && report.value.mode.timing.vdisplay > 0 && advertised {
        androidMode := report.value.mode;
      }
      return info.value.connected && androidMode.timing.hdisplay > 0 && androidMode.timing.vdisplay > 0;
    }

    /** True only when the kernel itself reports the followed framebuffer at
        Android's timing on the leased CRTC. */
    method VerifyScanout() returns (ok: bool)
      requires Valid()
      modifies this`evidence, this`verified, device`crtcs, device`flips, device`inspections, device.ledger
      ensures Valid()
      ensures FlipsLanded(old(device.crtcs), old(device.flips), device.crtcs, device.flips)
      ensures old(device.inspections) <= device.inspections && |device.inspections| <= |old(device.inspections)| + 1
      ensures ok <==>
                && observer.confirmed && !observer.failed && holdsLease && observer.fb != 0 && androidModeValid
                && |old(device.inspections)| < |device.inspections|
                && Scans(device.inspections[|old(device.inspections)|], observer.expectedCrtc, observer.fb, androidMode)
      ensures !ok ==>
                && evidence == old(evidence) && verified == old(verified)
                && device.ledger.events == old(device.ledger.events)
      ensures ok ==> evidence.Some? && device.ledger.events == old(device.ledger.events) + [Proved(evidence.value)]
      ensures ok ==>
                && evidence.Some?
                && evidence.value.start == starts
                && evidence.value.connector == observer.expectedConnector
                && evidence.value.crtc == observer.expectedCrtc
                && evidence.value.trace == seen
                && evidence.value.androidMode == androidMode
                && observer.expectedCrtc in device.crtcs
                && evidence.value.report == device.crtcs[observer.expectedCrtc]
    {
      LandsNothing(device.crtcs, device.flips);
      if !observer.confirmed || observer.failed || !holdsLease || observer.fb == 0 || !androidModeValid {
        return false;
      }
      Scanout.NothingExpected(observer.expectedConnector, observer.expectedCrtc, seen);
      var current := device.Inspect(observer.expectedCrtc);
      if current.None? {
        return false;
      }
      if !current.value.modeValid || current.value.fb != observer.fb
         || !SameModeTiming(current.value.mode, androidMode) {
        return false;
      }
      evidence := Some(Evidence(starts, observer.expectedConnector, observer.expectedCrtc, seen,
                                androidMode, current.value));
      device.ledger.Add(Proved(evidence.value));
      verified := true;
      return true;
    }

    /** A start gets going: Android's mode is known, from this look or an earlier one, and
        everything it needs is there. */
    ghost predicate CanBegin(connector: nat, crtc: nat, attempt: Attempt, look: nat)
      requires look < |device.inspections|
      reads this`androidMode, device`inspections
    {
      && connector != 0 && crtc != 0 && attempt.connectorInfo.Some? && attempt.connectorInfo.value.connected
      && device.inspections[look].report.Some?
      && androidMode.timing.hdisplay > 0 && androidMode.timing.vdisplay > 0
      && attempt.configWritten && attempt.leaseDuplicated && attempt.spawned
    }

    /** The start got going and the first turn that decides passes; the agent looked at
        the CRTC once for Android's mode and once for the scanout, and if it starts a
        session, that worked. */
    ghost predicate Convinced(connector: nat, crtc: nat, attempt: Attempt, from: nat)
      reads this`androidMode, this`startsSession, device`inspections
    {
      && |device.inspections| == from + 2 && CanBegin(connector, crtc, attempt, from)
      && Shown(connector, crtc, attempt.turns, device.inspections[from + 1], androidMode)
      && (startsSession ==> attempt.sessionStarted)
    }

    /** The first part of a start: the agent expects the leased objects and follows a
        new trace. From here on, until a verification, the steady flag is honest if and
        only if it was not set before. */
    method BeginXorg(connector: nat, crtc: nat, attempt: Attempt) returns (begun: bool)
      requires Valid()
      modifies this`androidMode, this`androidModeValid, this`holdsLease, this`verified, this`starts, this`seen,
               observer, device`crtcs, device`flips, device`inspections
      ensures Valid()
      ensures old(device.inspections) <= device.inspections && |device.inspections| <= |old(device.inspections)| + 1
      ensures begun <==>
                && |old(device.inspections)| < |device.inspections|
                && CanBegin(connector, crtc, attempt, |old(device.inspections)|)
      ensures begun ==> androidModeValid && holdsLease && observer.View() == Scanout.Initial(connector, crtc)
      ensures begun ==>
                && starts == old(starts) + 1 && seen == [] && !Proven()
                && observer.expectedConnector == connector && observer.expectedCrtc == crtc
                && (SteadyIsCurrent() <==> !old(traceSteady))
      ensures !begun ==> starts == old(starts) || (starts == old(starts) + 1 && !Proven())
    {
      var read := ReadAndroidMode(connector, crtc, attempt.connectorInfo);
      if !read || !attempt.configWritten {
        return false;
      }
      androidModeValid := true;
      observer.Expect(connector, crtc);
      verified := false;
      starts, seen := starts + 1, [];
      if !attempt.leaseDuplicated {
        return false;
      }
      holdsLease := true;
      return attempt.spawned;
    }

    /** Success, and switching tracing off, only with evidence for this very start. An
        acknowledgement sent before the verification tells the new Xorg to stop tracing
        if and only if the flag was set when START came. */
    method StartXorg(connector: nat, crtc: nat, attempt: Attempt) returns (ok: bool)
      requires Valid()
      modifies this`androidMode, this`androidModeValid, this`holdsLease, this`traceSteady, this`verified,
               this`starts, this`seen, this`evidence, this`acks, observer,
               device`crtcs, device`flips, device`inspections, device.ledger
      ensures Valid()
      ensures ok <==> Convinced(connector, crtc, attempt, |old(device.inspections)|)
      ensures ok ==>
                && starts == old(starts) + 1
                && evidence.Some? && evidence.value.start == starts
                && evidence.value.connector == connector && evidence.value.crtc == crtc
                && evidence.value.trace <= seen
      ensures ok ==> traceSteady == (old(traceSteady) || traceStartupOnly)
      ensures traceSteady && !old(traceSteady) ==> traceStartupOnly && Proven()
      ensures |acks| > |old(acks)| ==> starts == old(starts) + 1
      ensures starts >= old(starts)
      ensures AckedAs(|old(acks)|, old(traceSteady)) && old(acks) <= acks
    {
      hide Scanout.Observe, Undecided, Passes, Scans, Shown, Justified, Usable;
      ghost var from, steadyBefore := |acks|, traceSteady;
      var begun := BeginXorg(connector, crtc, attempt);
      if !begun {
        return false;
      }
      ok := FollowXorg(connector, crtc, attempt, from, steadyBefore);
    }

    /** The startup loop: true when the first turn that decides is a good one. */
    method FollowXorg(connector: nat, crtc: nat, attempt: Attempt, ghost from: nat, ghost steadyBefore: bool)
      returns (ok: bool)
      requires Valid() && AckedAs(from, steadyBefore) && !Proven() && traceSteady == steadyBefore
      requires androidModeValid && holdsLease && seen == []
      requires observer.expectedConnector == connector && observer.expectedCrtc == crtc
      modifies this`traceSteady, this`verified, this`seen, this`evidence, this`acks, observer,
               device`crtcs, device`flips, device`inspections, device.ledger
      ensures Valid() && AckedAs(from, steadyBefore) && old(acks) <= acks
      ensures old(device.inspections) <= device.inspections
      ensures ok <==>
                && |device.inspections| == |old(device.inspections)| + 1
                && Shown(connector, crtc, attempt.turns, device.inspections[|old(device.inspections)|], androidMode)
                && (startsSession ==> attempt.sessionStarted)
      ensures ok || (traceSteady && !steadyBefore) ==>
                && Proven() && evidence.value.connector == connector && evidence.value.crtc == crtc
                && evidence.value.trace <= seen
      ensures ok ==> traceSteady == (steadyBefore || traceStartupOnly)
      ensures traceSteady && !steadyBefore ==> traceStartupOnly
      ensures |device.inspections| <= |old(device.inspections)| + 1
    {
      hide Scanout.Observe, Undecided, UndecidedUpTo, Passes, Scans, Shown, Valid, AckedAs, Heard, StateIn, StateAfter;
      var turns := attempt.turns;
      NothingHeard(connector, crtc, turns);
      for i := 0 to |turns|
        invariant Valid() && AckedAs(from, steadyBefore) && old(acks) <= acks && !Proven()
        invariant observer.expectedConnector == connector && observer.expectedCrtc == crtc
        invariant traceSteady == steadyBefore && seen == HeardIn(turns, i)
        invariant device.inspections == old(device.inspections)
        invariant UndecidedUpTo(connector, crtc, turns, i)
      {
        SameState(connector, crtc, turns, i);
        var verdict := WatchXorg(turns[i], attempt.sessionStarted, from, steadyBefore);
        if verdict.Some? {
          if |device.inspections| > |old(device.inspections)| {
            FirstDecides(connector, crtc, turns, i, device.inspections[|old(device.inspections)|], androidMode);
          }
          return verdict.value;
        }
        StillUndecided(connector, crtc, turns, i);
      }
      return false;
    }

    static lemma SameState(connector: nat, crtc: nat, turns: seq<Turn>, n: nat)
      requires n < |turns|
      ensures StateAfter(connector, crtc, HeardIn(turns, n), turns[n]) == StateIn(connector, crtc, turns, n)
    {
    }

    /** What the trace says after `before` and the records of a turn up to the end of its
        readiness command. */
    static function StateAfter(connector: nat, crtc: nat, before: seq<Record>, turn: Turn): Scanout.State
    {
      Scanout.Observe(Scanout.Initial(connector, crtc), before + Heard(turn.first) + Heard(turn.duringReady))
    }

    /** One turn of the startup loop; absent when the loop goes on. */
    method WatchXorg(turn: Turn, sessionStarted: bool, ghost from: nat, ghost steadyBefore: bool)
      returns (verdict: Option<bool>)
      requires Valid() && AckedAs(from, steadyBefore) && !Proven() && traceSteady == steadyBefore
      requires androidModeValid && holdsLease
      modifies this`traceSteady, this`verified, this`seen, this`evidence, this`acks, observer,
               device`crtcs, device`flips, device`inspections, device.ledger
      ensures Valid() && AckedAs(from, steadyBefore) && old(acks) <= acks
      ensures observer.expectedConnector == old(observer.expectedConnector)
      ensures observer.expectedCrtc == old(observer.expectedCrtc)
      ensures old(device.inspections) <= device.inspections && |device.inspections| <= |old(device.inspections)| + 1
      ensures verdict.None? ==> device.inspections == old(device.inspections)
      ensures verdict.None? ==> seen == old(seen) + Heard(turn.first) + Heard(turn.duringReady)
      ensures verdict.None? <==>
                Undecided(turn, StateAfter(observer.expectedConnector, observer.expectedCrtc, old(seen), turn))
      ensures verdict == Some(true) <==>
                && Passes(turn, StateAfter(observer.expectedConnector, observer.expectedCrtc, old(seen), turn))
                && |old(device.inspections)| < |device.inspections|
                && Scans(device.inspections[|old(device.inspections)|], observer.expectedCrtc,
                         StateAfter(observer.expectedConnector, observer.expectedCrtc, old(seen), turn).fb, androidMode)
                && (startsSession ==> sessionStarted)
      ensures verdict == Some(true) ==> traceSteady == (steadyBefore || traceStartupOnly)
      ensures verdict.None? ==> traceSteady == old(traceSteady) && !Proven()
      ensures verdict == Some(true) || (traceSteady && !old(traceSteady)) ==>
                && Proven()
                && evidence.value.connector == observer.expectedConnector
                && evidence.value.crtc == observer.expectedCrtc
                && evidence.value.trace <= seen
      ensures traceSteady && !old(traceSteady) ==> traceStartupOnly
    {
      hide Scanout.Observe, Scans, Heard, Justified;
      if !turn.alive {
        return Some(false);
      }
      var relayed := RelayAll(turn.first, from, steadyBefore);
      if !relayed {
        return Some(false);
      }
      var answered := RelayAll(turn.duringReady, from, steadyBefore);
      if !answered || !turn.ready {
        return None;
      }
      verdict := CheckXorg(turn, sessionStarted, from, steadyBefore);
    }

    /** Xorg is ready: does it show what it should? */
    method CheckXorg(turn: Turn, sessionStarted: bool, ghost from: nat, ghost steadyBefore: bool)
      returns (verdict: Option<bool>)
      requires Valid() && AckedAs(from, steadyBefore) && !Proven() && traceSteady == steadyBefore
      requires androidModeValid && holdsLease
      modifies this`traceSteady, this`verified, this`seen, this`evidence, this`acks, observer,
               device`crtcs, device`flips, device`inspections, device.ledger
      ensures Valid() && AckedAs(from, steadyBefore) && old(acks) <= acks
      ensures observer.expectedConnector == old(observer.expectedConnector)
      ensures observer.expectedCrtc == old(observer.expectedCrtc)
      ensures old(device.inspections) <= device.inspections && |device.inspections| <= |old(device.inspections)| + 1
      ensures verdict.None? ==> device.inspections == old(device.inspections) && seen == old(seen)
      ensures verdict.None? <==> !old(observer.failed) && !old(observer.confirmed)
      ensures verdict == Some(true) <==>
                && old(observer.confirmed) && !old(observer.failed) && old(observer.fb) != 0
                && |old(device.inspections)| < |device.inspections|
                && Scans(device.inspections[|old(device.inspections)|], observer.expectedCrtc, old(observer.fb),
                         androidMode)
                && AllAnswered(turn.duringChecks) && turn.windowsOk && (startsSession ==> sessionStarted)
      ensures verdict == Some(true) ==> traceSteady == (steadyBefore || traceStartupOnly)
      ensures verdict.None? ==> traceSteady == old(traceSteady) && !Proven()
      ensures verdict == Some(true) || (traceSteady && !old(traceSteady)) ==>
                && Proven()
                && evidence.value.connector == observer.expectedConnector
                && evidence.value.crtc == observer.expectedCrtc
                && evidence.value.trace <= seen
      ensures traceSteady && !old(traceSteady) ==> traceStartupOnly
    {
      hide Scanout.Observe, Scans, Heard, Justified;
      if observer.failed {
        return Some(false);
      }
      if !observer.confirmed {
        return None;
      }
      var verified := VerifyScanout();
      if !verified {
        return Some(false);
      }
      var checked := RelayAll(turn.duringChecks, from, steadyBefore);
      if !checked || !turn.windowsOk {
        return Some(false);
      }
      if traceStartupOnly {
        traceSteady := true;
      }
      return Some(!startsSession || sessionStarted);
    }

    method CleanupSession()
      requires Valid()
      modifies this`holdsLease, this`traceSteady
      ensures Valid() && !traceSteady && !holdsLease
    {
      holdsLease, traceSteady := false, false;
    }

    /** Preparation forgets every verdict about an earlier Xorg. */
    method PrepareSession(mode: nat, prepared: bool) returns (ok: bool)
      requires Valid()
      modifies this`androidMode, this`androidModeValid, this`traceSteady, this`seen, observer
      ensures Valid()
      ensures ok <==> XorgProbe(mode) && prepared
      ensures XorgProbe(mode) ==> !traceSteady && !observer.confirmed && androidMode == ZERO_MODE
    {
      if !XorgProbe(mode) {
        return false;
      }
      androidMode, androidModeValid := ZERO_MODE, false;
      observer.Expect(0, 0);
      seen := [];
      traceSteady := false;
      return prepared;
    }

    /** Every request gets exactly one reply that carries its identifier, and a
        START is answered READY only with fresh evidence for its own objects. */
    method Dispatch(request: AgentRequest, prepared: bool, attempt: Attempt)
      returns (reply: AgentReply)
      requires Valid()
      modifies this, observer, device`crtcs, device`flips, device`inspections, device.ledger
      ensures Valid()
      ensures reply.id == request.id
      ensures reply.Ready? && reply.ok ==> CanSucceed(request)
      ensures request.Prepare? ==> reply == Ready(request.id, XorgProbe(request.mode) && prepared)
      ensures request.Start? ==>
                (reply.Ready? <==>
                   && request.hasLease && request.mode == old(probeMode) && XorgProbe(request.mode)
                   && Convinced(request.connector, request.crtc, attempt, |old(device.inspections)|))
      ensures request.Start? && reply.Ready? ==>
                && reply.ok && request.hasLease && request.mode == old(probeMode)
                && starts == old(starts) + 1
                && evidence.Some? && Justified(evidence.value) && evidence.value.start == starts
                && evidence.value.connector == request.connector
                && evidence.value.crtc == request.crtc
                && evidence.value.trace <= seen
      ensures request.Stop? ==> reply == Ready(request.id, true) && !traceSteady && !holdsLease
      ensures request.Start? ==>
                if reply.Ready? then traceSteady == (old(traceSteady) || traceStartupOnly)
                else !traceSteady && !holdsLease
      ensures probeMode == if request.Prepare? then (if reply.ok then request.mode else PROBE_NONE)
                           else if request.Stop? then PROBE_NONE else old(probeMode)
      ensures request.Unknown? ==> reply == Failed(request.id)
      ensures old(SteadyIsCurrent()) ==> SteadyIsCurrent()
      ensures starts >= old(starts)
      ensures AckedAs(|old(acks)|, old(traceSteady)) && old(acks) <= acks
      ensures !request.Start? ==> acks == old(acks)
    {
      match request
      case Prepare(id, mode) =>
        var ok := PrepareSession(mode, prepared);
        if !ok {
          CleanupSession();
        }
        probeMode := if ok then mode else PROBE_NONE;
        reply := Ready(id, ok);
      case Start(id, mode, connector, crtc, hasLease) =>
        var ok := false;
        if hasLease && mode == probeMode && XorgProbe(mode) {
          ok := StartXorg(connector, crtc, attempt);
        }
        if !ok {
          CleanupSession();
        }
        reply := if ok then Ready(id, true) else Failed(id);
      case Stop(id) =>
        CleanupSession();
        probeMode := PROBE_NONE;
        reply := Ready(id, true);
      case Unknown(id) =>
        reply := Failed(id);
    }
  }

  lemma LandsNothing(crtcs: map<nat, Crtc>, flips: map<nat, nat>)
    ensures FlipsLanded(crtcs, flips, crtcs, flips)
  {
  }

  /** A START that comes while tracing is switched off: as soon as the new Xorg's first
      record is acknowledged, it is told not to trace, before anything was verified. */
  method UnverifiedXorgStopsTracing(agent: Agent, connector: nat, crtc: nat, attempt: Attempt, record: Record)
    returns (begun: bool, ack: Option<Ack>)
    requires agent.Valid() && agent.traceSteady
    modifies agent, agent.observer, agent.device`crtcs, agent.device`flips, agent.device`inspections,
             agent.device.ledger
    ensures begun ==>
              && ack == Some(Ack(record.sequence, true))
              && agent.acks == old(agent.acks) + [AckNote(old(agent.starts) + 1, true, false)]
  {
    ack := None;
    begun := agent.BeginXorg(connector, crtc, attempt);
    if begun {
      ack := agent.Relay(record, Answered(true, true));
    }
  }
}
