/**
 The part of the DRM device that Xorg, the interposer and the agent look at, and
 the order in which records became durable and system calls reached it.
 */
module Kernel {
  import opened Options
  import opened PropertyCache
  import opened Trace

  const EINVAL := 22
  const EIO := 5
  const EFAULT := 14

  /** The twelve mode fields that define a timing. */
  datatype Timing = Timing(
    clock: nat, hdisplay: nat, hsyncStart: nat, hsyncEnd: nat, htotal: nat, hskew: nat,
    vdisplay: nat, vsyncStart: nat, vsyncEnd: nat, vtotal: nat, vscan: nat, flags: nat)

  datatype ModeInfo = ModeInfo(timing: Timing, vrefresh: nat, kind: nat, name: string)

  const ZERO_MODE := ModeInfo(Timing(0, 0, 0, 0, 0, 0, 0, 0, 0, 0, 0, 0), 0, 0, "")

  predicate SameModeTiming(left: ModeInfo, right: ModeInfo)
  {
    && left.timing.clock == right.timing.clock
    && left.timing.hdisplay == right.timing.hdisplay
    && left.timing.hsyncStart == right.timing.hsyncStart
    && left.timing.hsyncEnd == right.timing.hsyncEnd
    && left.timing.htotal == right.timing.htotal
    && left.timing.hskew == right.timing.hskew
    && left.timing.vdisplay == right.timing.vdisplay
    && left.timing.vsyncStart == right.timing.vsyncStart
    && left.timing.vsyncEnd == right.timing.vsyncEnd
    && left.timing.vtotal == right.timing.vtotal
    && left.timing.vscan == right.timing.vscan
    && left.timing.flags == right.timing.flags
  }

  datatype Crtc = Crtc(fb: nat, x: nat, y: nat, modeValid: bool, mode: ModeInfo, connectors: set<nat>)

  /** The argument of a SETCRTC; `readable` tells whether its connector list is. */
  datatype CrtcRequest = CrtcRequest(
    crtc: nat, fb: nat, x: nat, y: nat, modeValid: bool, mode: ModeInfo, connectors: seq<nat>, readable: bool)

  /** The argument of an atomic commit: objects, how many properties each has, and
      the flat lists of properties and values. */
  datatype AtomicRequest = AtomicRequest(
    flags: nat, objects: seq<nat>, counts: seq<nat>, properties: seq<nat>, values: seq<nat>,
    countsReadable: bool, valuesReadable: bool)
  {
    ghost predicate Valid()
    {
      |objects| == |counts| && |properties| == |values| == Sum(counts, |counts|)
    }
  }

  /** The kind of a connector in a property query. */
  const CONNECTOR_KIND := 0xc0c0c0c0

  /** The argument of a property query; `readable` tells whether the lists it fills are. */
  datatype ObjectQuery = ObjectQuery(id: nat, kind: nat, count: nat, readable: bool)

  /** Every entry of the report is about the object that was asked for. */
  predicate ReportOn(query: Option<ObjectQuery>, report: seq<Write>)
  {
    report != [] ==> query.Some? && forall i :: 0 <= i < |report| ==> report[i].key.connector == query.value.id
  }

  /** The sum of the first `n` counts. */
  function Sum(counts: seq<nat>, n: nat): nat
    requires n <= |counts|
  {
    if n == 0 then 0 else Sum(counts, n - 1) + counts[n - 1]
  }

  /** What an accepted SETCRTC makes the CRTC scan out. */
  function Applied(r: CrtcRequest): Crtc
  {
    Crtc(r.fb, r.x, r.y, r.modeValid, r.mode, set c | c in r.connectors)
  }

  /** The CRTC shows the requested framebuffer at the requested position with
      the requested timing. */
  ghost predicate Shows(c: Crtc, r: CrtcRequest)
  {
    c.fb == r.fb && c.x == r.x && c.y == r.y && c.modeValid == r.modeValid
    && c.mode.timing == r.mode.timing
  }

  /** Between two looks at the device only flips accepted earlier may complete,
      and a flip changes nothing but the framebuffer. */
  ghost predicate FlipsLanded(crtcs: map<nat, Crtc>, flips: map<nat, nat>,
                              crtcs': map<nat, Crtc>, flips': map<nat, nat>)
  {
    && crtcs'.Keys == crtcs.Keys
    && flips'.Keys <= flips.Keys
    && (forall id :: id in flips' ==> flips'[id] == flips[id])
    && forall id :: id in crtcs ==>
         crtcs'[id] == crtcs[id] || (id in flips && crtcs'[id] == crtcs[id].(fb := flips[id]))
  }

  lemma FlipsLandedTwice(crtcs: map<nat, Crtc>, flips: map<nat, nat>, crtcs': map<nat, Crtc>, flips': map<nat, nat>,
                         crtcs'': map<nat, Crtc>, flips'': map<nat, nat>)
    requires FlipsLanded(crtcs, flips, crtcs', flips') && FlipsLanded(crtcs', flips', crtcs'', flips'')
    ensures FlipsLanded(crtcs, flips, crtcs'', flips'')
  {
  }

  /** The CRTC shows the request and no pending flip can change that. */
  ghost predicate ShowsFirmly(crtcs: map<nat, Crtc>, flips: map<nat, nat>, r: CrtcRequest)
  {
    && r.crtc in crtcs && Shows(crtcs[r.crtc], r)
    && (r.crtc in flips ==> flips[r.crtc] == r.fb)
  }

  lemma AppliedShows(crtcs: map<nat, Crtc>, flips: map<nat, nat>, r: CrtcRequest)
    ensures ShowsFirmly(crtcs[r.crtc := Applied(r)], flips - {r.crtc}, r)
  {
  }

  lemma ShowsStill(crtcs: map<nat, Crtc>, flips: map<nat, nat>, crtcs': map<nat, Crtc>, flips': map<nat, nat>,
                   r: CrtcRequest)
    requires ShowsFirmly(crtcs, flips, r) && FlipsLanded(crtcs, flips, crtcs', flips')
    ensures ShowsFirmly(crtcs', flips', r)
  {
  }

  // ---------------------------------------------------------------------
  // What happened in which order

  /** A system call of Xorg's process, with its outcome. */
  datatype SystemCall =
    | SysSetCrtc(crtcArg: Option<CrtcRequest>, error: int)
    | SysGetCrtc(id: nat, crtc: Option<Crtc>)
    | SysPageFlip(id: nat, fb: nat, error: int)
    | SysSetProperty(writeArg: Option<Write>, error: int)
    | SysGetProperties(query: Option<ObjectQuery>, error: int, report: seq<Write>)
    | SysAtomic(atomicArg: Option<AtomicRequest>, error: int)
    | SysOther(request: Request, args: Args, error: int)

  /** What a successful verification saw: which start attempt it belongs to, the
      records relayed since, Android's mode, and the kernel's report. */
  datatype Evidence = Evidence(
    start: nat,
    connector: nat,
    crtc: nat,
    trace: seq<Record>,
    androidMode: ModeInfo,
    report: Crtc)

  /** A record became durable in the broker's log, a system call of Xorg reached the
      kernel, or the agent verified the scanout. */
  datatype Event = Logged(record: Record) | Called(call: SystemCall) | Proved(evidence: Evidence)

  class Ledger {
    ghost var events: seq<Event>

    constructor ()
      ensures events == []
    {
      events := [];
    }

    ghost method Add(e: Event)
      modifies this
      ensures events == old(events) + [e]
    {
      events := events + [e];
    }
  }

  /** What the agent saw when it looked at a CRTC. */
  datatype Inspection = Inspection(crtc: nat, report: Option<Crtc>)

  /** Every method but `Report` and `Inspect` is a system call of Xorg's process and
      enters the ledger by itself. */
  class Device {
    const ledger: Ledger
    var crtcs: map<nat, Crtc>
    /** Page flips the kernel accepted and has not shown yet. */
    var flips: map<nat, nat>
    var properties: map<Key, nat>
    /** The agent's own looks, oldest first. */
    ghost var inspections: seq<Inspection>

    constructor (crtcs: map<nat, Crtc>, properties: map<Key, nat>)
      ensures this.crtcs == crtcs && this.flips == map[] && this.properties == properties
      ensures fresh(ledger) && ledger.events == []
    {
      ledger := new Ledger();
      this.crtcs, this.flips, this.properties, inspections := crtcs, map[], properties, [];
    }

    /** The state of a CRTC, unless the kernel refuses. A flip that is under way may
        land at any time. */
    method Report(id: nat) returns (report: Option<Crtc>)
      modifies this`crtcs, this`flips
      ensures FlipsLanded(old(crtcs), old(flips), crtcs, flips)
      ensures report.Some? ==> id in crtcs && report.value == crtcs[id]
    {
      if * {
        if id in flips && id in crtcs {
          crtcs := crtcs[id := crtcs[id].(fb := flips[id])];
          flips := flips - {id};
        }
      }
      if id !in crtcs {
        return None;
      }
      if * {
        return None;
      }
      return Some(crtcs[id]);
    }

    /** GETCRTC on the agent's own duplicate of the lease. */
    method Inspect(id: nat) returns (report: Option<Crtc>)
      modifies this`crtcs, this`flips, this`inspections
      ensures FlipsLanded(old(crtcs), old(flips), crtcs, flips)
      ensures report.Some? ==> id in crtcs && report.value == crtcs[id]
      ensures inspections == old(inspections) + [Inspection(id, report)]
    {
      report := Report(id);
      inspections := inspections + [Inspection(id, report)];
    }

    method GetCrtc(id: nat) returns (report: Option<Crtc>)
      modifies this`crtcs, this`flips, ledger
      ensures FlipsLanded(old(crtcs), old(flips), crtcs, flips)
      ensures report.Some? ==> id in crtcs && report.value == crtcs[id]
      ensures ledger.events == old(ledger.events) + [Called(SysGetCrtc(id, report))]
    {
      report := Report(id);
      ledger.Add(Called(SysGetCrtc(id, report)));
    }

    method SetCrtc(arg: Option<CrtcRequest>) returns (error: int)
      modifies this`crtcs, this`flips, ledger
      ensures error >= 0
      ensures error == 0 ==>
                && arg.Some? && crtcs == old(crtcs)[arg.value.crtc := Applied(arg.value)]
                && flips == old(flips) - {arg.value.crtc}
      ensures error != 0 ==> crtcs == old(crtcs) && flips == old(flips)
      ensures arg.None? ==> error == EFAULT
      ensures ledger.events == old(ledger.events) + [Called(SysSetCrtc(arg, error))]
    {
      var e :| e >= 0;
      error := if arg.Some? then e else EFAULT;
      if error == 0 {
        crtcs := crtcs[arg.value.crtc := Applied(arg.value)];
        flips := flips - {arg.value.crtc};
      }
      ledger.Add(Called(SysSetCrtc(arg, error)));
    }

    method PageFlip(id: nat, fb: nat) returns (error: int)
      modifies this`flips, ledger
      ensures error >= 0
      ensures error == 0 ==> id in crtcs && flips == old(flips)[id := fb]
      ensures error != 0 ==> flips == old(flips)
      ensures ledger.events == old(ledger.events) + [Called(SysPageFlip(id, fb, error))]
    {
      var e :| e >= 0;
      error := if id in crtcs then e else EINVAL;
      if error == 0 {
        flips := flips[id := fb];
      }
      ledger.Add(Called(SysPageFlip(id, fb, error)));
    }

    /** Reads an object's properties: some of its current values. */
    method GetProperties(query: Option<ObjectQuery>) returns (error: int, report: seq<Write>)
      modifies ledger
      ensures error >= 0 && (query.None? ==> error != 0) && (error != 0 ==> report == [])
      ensures Accurate(properties, report) && ReportOn(query, report)
      ensures ledger.events == old(ledger.events) + [Called(SysGetProperties(query, error, report))]
    {
      var e :| e >= 0;
      error, report := if query.Some? then e else EFAULT, [];
      if error == 0 {
        report :| Accurate(properties, report) && ReportOn(query, report) by {
          assert Accurate(properties, []) && ReportOn(query, []);
        }
      }
      ledger.Add(Called(SysGetProperties(query, error, report)));
    }

    method SetProperty(arg: Option<Write>) returns (error: int)
      modifies this`properties, ledger
      ensures error >= 0
      ensures error == 0 ==> arg.Some? && properties == old(properties)[arg.value.key := arg.value.value]
      ensures error != 0 ==> properties == old(properties)
      ensures ledger.events == old(ledger.events) + [Called(SysSetProperty(arg, error))]
    {
      var e :| e >= 0;
      error := if arg.Some? then e else EFAULT;
      if error == 0 {
        properties := properties[arg.value.key := arg.value.value];
      }
      ledger.Add(Called(SysSetProperty(arg, error)));
    }

    /** What an atomic commit does to the display is left open. */
    method Atomic(arg: Option<AtomicRequest>) returns (error: int)
      modifies ledger
      ensures ledger.events == old(ledger.events) + [Called(SysAtomic(arg, error))]
    {
      error := *;
      ledger.Add(Called(SysAtomic(arg, error)));
    }

    method Other(request: Request, args: Args) returns (error: int)
      modifies ledger
      ensures ledger.events == old(ledger.events) + [Called(SysOther(request, args, error))]
    {
      error := *;
      ledger.Add(Called(SysOther(request, args, error)));
    }
  }

  // ---------------------------------------------------------------------
  // Replacing a rejected modeset by a page flip

  /** What the fallback asks of the request. */
  predicate WantsExpected(r: CrtcRequest, crtc: nat, connector: nat)
  {
    r.crtc == crtc && r.fb != 0 && r.modeValid && r.readable && r.connectors == [connector]
  }

  /** What it asks of the CRTC as the kernel reports it. */
  predicate RunsSameMode(current: Crtc, r: CrtcRequest)
  {
    && current.modeValid && current.fb != 0 && current.x == r.x && current.y == r.y
    && SameModeTiming(current.mode, r.mode)
  }

  /** A flip on a CRTC that passes the fallback's tests shows what the modeset asked
      for. It equals the modeset in full if and only if the CRTC already drove exactly
      the requested connectors, which no test looks at, and the untimed mode fields
      agree. */
  lemma FlipEqualsModeset(current: Crtc, r: CrtcRequest)
    requires r.modeValid && RunsSameMode(current, r)
    ensures Shows(current.(fb := r.fb), r)
    ensures current.(fb := r.fb) == Applied(r)
            <==> current.connectors == (set c | c in r.connectors) && current.mode == r.mode
  {
  }

  /** A CRTC lighting connector 7 passes every test of the fallback for a request that
      names connector 31, and after the flip it still lights connector 7. */
  lemma FlipCanKeepOtherConnector(mode: ModeInfo)
    ensures var current := Crtc(100, 0, 0, true, mode, {7});
            var r := CrtcRequest(1, 200, 0, 0, true, mode, [31], true);
            && WantsExpected(r, 1, 31) && RunsSameMode(current, r)
            && Shows(current.(fb := r.fb), r)
            && current.(fb := r.fb).connectors != Applied(r).connectors
  {
    var r := CrtcRequest(1, 200, 0, 0, true, mode, [31], true);
    assert r.connectors[0] == 31;
    assert 31 in Applied(r).connectors;
  }
}
