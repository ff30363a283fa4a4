/**
 Which records announce which system call, and when every call in a ledger was
 announced.
 */
module Announcement {
  import opened Options
  import opened Trace
  import opened Kernel
  import opened PropertyCache
  import opened AgentSession
  import Scanout

  const MAX_CRTC_CONNECTORS := 16
  const MAX_ATOMIC_OBJECTS := 32
  const MAX_ATOMIC_PROPERTIES := 128

  // ---------------------------------------------------------------------
  // What a SETCRTC trace looks like

  /** The connectors that get a detail record of their own. */
  function NamedConnectors(arg: Option<CrtcRequest>): seq<nat>
  {
    if arg.Some? && arg.value.readable && |arg.value.connectors| <= MAX_CRTC_CONNECTORS then arg.value.connectors else []
  }

  function TracedCommit(sequence: nat, arg: Option<CrtcRequest>, extras: seq<Record>, result: int): Scanout.Commit
  {
    match arg
    case None => Scanout.Commit(sequence, 0, 0, 0, 0, [], extras, result)
    case Some(r) =>
      Scanout.Commit(sequence, r.crtc, r.fb, if r.modeValid then 1 else 0, |r.connectors|,
                     NamedConnectors(arg), extras, result)
  }

  /** BEFORE and one detail per named connector. */
  function SetCrtcAnnouncement(sequence: nat, arg: Option<CrtcRequest>): seq<Record>
  {
    var c := TracedCommit(sequence, arg, [], 0);
    [Scanout.BeforeRecord(c)] + Scanout.ConnectorDetails(c)
  }

  function SetCrtcResult(sequence: nat, arg: Option<CrtcRequest>, result: int): Record
  {
    Scanout.AfterRecord(TracedCommit(sequence, arg, [], result))
  }

  ghost predicate FallbackDetails(extras: seq<Record>, sequence: nat)
  {
    forall i :: 0 <= i < |extras| ==>
      && extras[i].phase == Detail && extras[i].name != SetCrtcConnector
      && extras[i].sequence == sequence && extras[i].request == ReqSetCrtc
  }

  function FallbackRecords(sequence: nat, names: seq<DetailName>): (records: seq<Record>)
    ensures SetCrtcConnector !in names ==> FallbackDetails(records, sequence)
  {
    seq(|names|, i requires 0 <= i < |names| =>
      Record(Detail, sequence, ReqSetCrtc, names[i], Args(0, 0, 0, 0), 0))
  }

  /** A commit's records are its announcement, its fallback details and its result. */
  lemma CommitPieces(s: nat, arg: Option<CrtcRequest>, extras: seq<Record>, result: int)
    ensures Scanout.Records(Scanout.SetCrtcCall(TracedCommit(s, arg, extras, result)))
            == SetCrtcAnnouncement(s, arg) + extras + [SetCrtcResult(s, arg, result)]
  {
    var c := TracedCommit(s, arg, extras, result);
    var plain := TracedCommit(s, arg, [], 0);
    SameDetails(plain, c);
    Pieces([Scanout.BeforeRecord(c)], Scanout.ConnectorDetails(c), extras, [Scanout.AfterRecord(c)]);
  }

  lemma SameDetails(a: Scanout.Commit, b: Scanout.Commit)
    requires a.sequence == b.sequence && a.crtc == b.crtc && a.connectors == b.connectors
    ensures Scanout.ConnectorDetails(a) == Scanout.ConnectorDetails(b)
  {
  }

  lemma Pieces(a: seq<Record>, b: seq<Record>, c: seq<Record>, d: seq<Record>)
    ensures a + (b + c) + d == (a + b) + c + d
  {
  }

  // ---------------------------------------------------------------------
  // What an atomic commit's trace looks like

  lemma {:induction false} SumMonotone(counts: seq<nat>, m: nat, n: nat)
    requires m <= n <= |counts|
    ensures Sum(counts, m) <= Sum(counts, n)
    decreases n
  {
    if m < n {
      SumMonotone(counts, m, n - 1);
    }
  }

  /** Property `l` of object `o`, found at its place in the flat lists. */
  function AtomicDetail(sequence: nat, a: AtomicRequest, o: nat, l: nat): Record
    requires a.Valid() && o < |a.objects| && l < a.counts[o]
  {
    SumMonotone(a.counts, o + 1, |a.counts|);
    var p := Sum(a.counts, o) + l;
    Record(Detail, sequence, ReqAtomic, AtomicProperty,
           Args(a.objects[o], a.properties[p], a.values[p], l), 0)
  }

  ghost predicate PropertyAt(sequence: nat, a: AtomicRequest, o: nat, l: nat, details: seq<Record>)
    requires a.Valid() && o < |a.objects| && l < a.counts[o]
  {
    Sum(a.counts, o) + l < |details| && details[Sum(a.counts, o) + l] == AtomicDetail(sequence, a, o, l)
  }

  /** The details list every property of every object exactly once, in order. */
  ghost predicate ListsProperties(sequence: nat, a: AtomicRequest, n: nat, details: seq<Record>)
    requires a.Valid() && n <= |a.objects|
  {
    && |details| == Sum(a.counts, n)
    && forall o: nat, l: nat :: o < n && l < a.counts[o] ==> PropertyAt(sequence, a, o, l, details)
  }

  lemma ObjectListed(s: nat, a: AtomicRequest, o: nat, whole: seq<Record>, details: seq<Record>)
    requires a.Valid() && o < |a.objects| && ListsProperties(s, a, o, whole) && whole <= details
    requires |details| == Sum(a.counts, o + 1)
    requires forall k: nat :: k < a.counts[o] ==> PropertyAt(s, a, o, k, details)
    ensures ListsProperties(s, a, o + 1, details)
  {
    forall q: nat, l: nat | q < o + 1 && l < a.counts[q]
      ensures PropertyAt(s, a, q, l, details)
    {
      if q < o {
        assert PropertyAt(s, a, q, l, whole);
      }
    }
  }

  /** Whether a commit is small enough to be listed in full. */
  predicate Listable(a: AtomicRequest)
  {
    |a.objects| <= MAX_ATOMIC_OBJECTS && |a.counts| == |a.objects| && Sum(a.counts, |a.counts|) <= MAX_ATOMIC_PROPERTIES
  }

  ghost predicate AtomicAnnounced(sequence: nat, arg: Option<AtomicRequest>, details: seq<Record>)
  {
    if arg.None? || arg.value.objects == [] then details == []
    else if |arg.value.objects| > MAX_ATOMIC_OBJECTS then
      |details| == 1 && details[0].name == AtomicTruncated
    else if !arg.value.countsReadable then details == []
    else if !Listable(arg.value) then |details| == 1 && details[0].name == AtomicTruncated
    else if !arg.value.valuesReadable then details == []
    else arg.value.Valid() && ListsProperties(sequence, arg.value, |arg.value.objects|, details)
  }

  function AtomicArgs(arg: Option<AtomicRequest>): Args
  {
    if arg.Some? then Args(arg.value.flags, |arg.value.objects|, 0, 0) else Args(0, 0, 0, 0)
  }

  function PropertyArgs(arg: Option<Write>): Args
  {
    if arg.Some? then Args(arg.value.key.connector, arg.value.key.property, arg.value.value, 0) else Args(0, 0, 0, 0)
  }

  function QueryArgs(query: Option<ObjectQuery>): Args
  {
    if query.Some? then Args(query.value.id, query.value.kind, query.value.count, 0) else Args(0, 0, 0, 0)
  }

  function Before1(s: nat, request: Request, args: Args): Record
  {
    Record(Before, s, request, Unnamed, args, 0)
  }

  // ---------------------------------------------------------------------
  // Records that announce a call

  /** The records are the whole announcement of the call under sequence number `s`. */
  ghost predicate Announces(call: SystemCall, s: nat, records: seq<Record>)
  {
    match call
    case SysSetCrtc(arg, _) => records == SetCrtcAnnouncement(s, arg)
    case SysAtomic(arg, _) =>
      |records| > 0 && records[0] == Before1(s, ReqAtomic, AtomicArgs(arg)) && AtomicAnnounced(s, arg, records[1..])
    case SysSetProperty(arg, _) => records == [Before1(s, ReqSetProperty, PropertyArgs(arg))]
    case SysGetProperties(query, _, _) => records == [Before1(s, ReqObjGetProperties, QueryArgs(query))]
    case SysOther(request, args, _) => records == [Before1(s, request, args)]
    case _ => false
  }

  /** The records that became durable since the last system call. */
  function Announced(events: seq<Event>): seq<Record>
  {
    if events == [] then []
    else
      var n := |events| - 1;
      match events[n]
      case Called(_) => []
      case Logged(record) => Announced(events[..n]) + [record]
      case Proved(_) => Announced(events[..n])
  }

  /** The rejected SETCRTC that the next system call may still belong to. */
  function Enclosing(events: seq<Event>): Option<CrtcRequest>
  {
    if events == [] then None
    else
      var n := |events| - 1;
      match events[n]
      case Called(SysSetCrtc(arg, error)) => if error == EINVAL then arg else None
      case Called(SysGetCrtc(_, _)) => Enclosing(events[..n])
      case Called(SysPageFlip(_, _, _)) => Enclosing(events[..n])
      case Proved(_) => Enclosing(events[..n])
      case _ => None
  }

  ghost predicate EndsWith(log: seq<Record>, tail: seq<Record>)
  {
    |tail| <= |log| && log[|log| - |tail|..] == tail
  }

  predicate IsFallback(call: SystemCall)
  {
    call.SysGetCrtc? || call.SysPageFlip?
  }

  /** The call's whole announcement is the last thing that became durable, and no
      other call came in between. */
  ghost predicate TracedCall(past: seq<Event>, call: SystemCall)
  {
    exists s, records :: Announces(call, s, records) && EndsWith(Announced(past), records)
  }

  /** The startup was proved in this past. */
  ghost predicate ProvedIn(past: seq<Event>, base: nat)
  {
    exists j :: base <= j < |past| && past[j].Proved? && Justified(past[j].evidence)
  }

  /** The look at, or the flip to, what a rejected SETCRTC asked for. */
  ghost predicate WithinSetCrtc(past: seq<Event>, call: SystemCall)
  {
    match Enclosing(past)
    case None => false
    case Some(r) =>
      || (call.SysGetCrtc? && call.id == r.crtc)
      || (call.SysPageFlip? && call.id == r.crtc && call.fb == r.fb)
  }

  /** Either the call was announced in full; or it skipped that after a proved startup
      and is no SETCRTC; or it is a part of the fallback of a SETCRTC that was. */
  ghost predicate Covered(past: seq<Event>, call: SystemCall, base: nat)
  {
    if IsFallback(call) then WithinSetCrtc(past, call)
    else TracedCall(past, call) || (!call.SysSetCrtc? && ProvedIn(past, base))
  }

  /** Every call from `base` on was covered when it was made. */
  ghost predicate AllCovered(events: seq<Event>, base: nat)
  {
    forall i :: base <= i < |events| && events[i].Called? ==> Covered(events[..i], events[i].call, base)
  }

  /** No system call in between. */
  ghost predicate NoCalls(before: seq<Event>, after: seq<Event>)
  {
    before <= after && forall i :: |before| <= i < |after| ==> !after[i].Called?
  }

  lemma NoCallsAtAll(a: seq<Event>)
    ensures NoCalls(a, a)
  {
  }

  lemma NoCallsTwice(a: seq<Event>, b: seq<Event>, c: seq<Event>)
    requires NoCalls(a, b) && NoCalls(b, c)
    ensures NoCalls(a, c)
  {
    forall i | |a| <= i < |c|
      ensures !c[i].Called?
    {
      assert i < |b| ==> c[i] == b[i];
    }
  }

  /** No system call in between but those of a fallback. */
  ghost predicate FallbackOnly(before: seq<Event>, after: seq<Event>)
  {
    before <= after && forall i :: |before| <= i < |after| && after[i].Called? ==> IsFallback(after[i].call)
  }

  lemma FallbackTwice(a: seq<Event>, b: seq<Event>, c: seq<Event>)
    requires FallbackOnly(a, b) && (FallbackOnly(b, c) || NoCalls(b, c))
    ensures FallbackOnly(a, c)
  {
    forall i | |a| <= i < |c| && c[i].Called?
      ensures IsFallback(c[i].call)
    {
      assert i < |b| ==> c[i] == b[i];
    }
  }

  /** Exactly this call was made, followed, if it is a SETCRTC, by its fallback. */
  ghost predicate Made(before: seq<Event>, after: seq<Event>, call: SystemCall)
  {
    exists i: nat :: MadeAt(before, after, call, i)
  }

  ghost predicate MadeAt(before: seq<Event>, after: seq<Event>, call: SystemCall, i: nat)
  {
    && before <= after && |before| <= i < |after| && after[i] == Called(call)
    && (forall j :: |before| <= j < i ==> !after[j].Called?)
    && (forall j :: i < j < |after| && after[j].Called? ==> call.SysSetCrtc? && IsFallback(after[j].call))
  }

  lemma MadeOne(before: seq<Event>, mid: seq<Event>, call: SystemCall, after: seq<Event>)
    requires NoCalls(before, mid)
    requires NoCalls(mid + [Called(call)], after) || (call.SysSetCrtc? && FallbackOnly(mid + [Called(call)], after))
    ensures Made(before, after, call)
  {
    assert forall j :: |before| <= j < |mid| ==> after[j] == mid[j];
    assert MadeAt(before, after, call, |mid|);
  }

  lemma MadeStill(before: seq<Event>, mid: seq<Event>, call: SystemCall, after: seq<Event>)
    requires Made(before, mid, call) && NoCalls(mid, after)
    ensures Made(before, after, call)
  {
    var i: nat :| MadeAt(before, mid, call, i);
    assert forall j :: |before| <= j < |mid| ==> after[j] == mid[j];
    assert MadeAt(before, after, call, i);
  }

  lemma CoveredSilently(before: seq<Event>, after: seq<Event>, base: nat)
    requires AllCovered(before, base) && NoCalls(before, after)
    ensures AllCovered(after, base)
  {
    hide Covered;
    forall i | base <= i < |after| && after[i].Called?
      ensures Covered(after[..i], after[i].call, base)
    {
      assert i < |before|;
      assert after[..i] == before[..i];
    }
  }

  lemma CoveredCall(events: seq<Event>, call: SystemCall, base: nat)
    requires AllCovered(events, base) && (base <= |events| ==> Covered(events, call, base))
    ensures AllCovered(events + [Called(call)], base)
  {
    hide Covered;
    var all := events + [Called(call)];
    forall i | base <= i < |all| && all[i].Called?
      ensures Covered(all[..i], all[i].call, base)
    {
      if i < |events| {
        assert all[..i] == events[..i];
      } else {
        assert all[..i] == events;
      }
    }
  }

  lemma AddEvent(events: seq<Event>, e: Event)
    ensures var all := events + [e];
            && (e.Proved? ==> Announced(all) == Announced(events) && Enclosing(all) == Enclosing(events))
            && (e.Logged? ==> Announced(all) == Announced(events) + [e.record] && Enclosing(all) == None)
            && (e.Called? && IsFallback(e.call) ==> Announced(all) == [] && Enclosing(all) == Enclosing(events))
            && (e.Called? && e.call.SysSetCrtc? ==>
                  Enclosing(all) == if e.call.error == EINVAL then e.call.crtcArg else None)
            && (!e.Called? ==> NoCalls(events, all))
  {
    assert (events + [e])[..|events|] == events;
  }

  lemma ProvedStays(before: seq<Event>, after: seq<Event>, base: nat)
    requires before <= after && ProvedIn(before, base)
    ensures ProvedIn(after, base)
  {
    var j :| base <= j < |before| && before[j].Proved? && Justified(before[j].evidence);
    assert after[j] == before[j];
  }

  /** The calls of a fallback are exactly those that nothing of their own announces:
      whenever one may come, no record became durable since the last call. */
  lemma {:induction false} FallbackUnannounced(events: seq<Event>)
    ensures Enclosing(events).Some? ==> Announced(events) == []
    decreases |events|
  {
    if events != [] {
      FallbackUnannounced(events[..|events| - 1]);
    }
  }

  /** A look at the CRTC after EINVAL: covered, and by no announcement. */
  lemma FallbackLookUnannounced(past: seq<Event>, r: CrtcRequest, report: Option<Crtc>, base: nat)
    requires past != [] && past[|past| - 1] == Called(SysSetCrtc(Some(r), EINVAL))
    ensures Covered(past, SysGetCrtc(r.crtc, report), base)
    ensures Announced(past) == [] && !TracedCall(past, SysGetCrtc(r.crtc, report))
  {
  }

  lemma SetCrtcCovered(past: seq<Event>, s: nat, arg: Option<CrtcRequest>, error: int, base: nat)
    requires EndsWith(Announced(past), SetCrtcAnnouncement(s, arg))
    ensures Covered(past, SysSetCrtc(arg, error), base)
  {
    hide Announced, SetCrtcAnnouncement, EndsWith;
    assert Announces(SysSetCrtc(arg, error), s, SetCrtcAnnouncement(s, arg));
  }

  /** A call other than SETCRTC that was announced, or came after a proved startup. */
  lemma OtherCovered(past: seq<Event>, call: SystemCall, traced: bool, s: nat, records: seq<Record>, base: nat)
    requires !call.SysSetCrtc? && !IsFallback(call)
    requires traced ==> Announces(call, s, records) && EndsWith(Announced(past), records)
    requires !traced ==> ProvedIn(past, base)
    ensures Covered(past, call, base)
  {
  }

  lemma EndsWithAppend(log: seq<Record>, tail: seq<Record>)
    ensures EndsWith(log + tail, tail)
  {
    assert (log + tail)[|log + tail| - |tail|..] == tail;
  }

  // ---------------------------------------------------------------------
  // Sending several records

  /** The agent saw a first part of the records and, unless the process ended, all of
      them, each of which became durable; no system call came in between. */
  ghost predicate Emitted(seen: seq<Record>, events: seq<Event>, records: seq<Record>,
                          seen': seq<Record>, events': seq<Event>, exited: bool)
  {
    && seen <= seen' && seen' <= seen + records
    && NoCalls(events, events')
    && (!exited ==> seen' == seen + records && Announced(events') == Announced(events) + records)
  }

  lemma EmittedNothing(seen: seq<Record>, events: seq<Event>)
    ensures Emitted(seen, events, [], seen, events, false)
  {
  }

  lemma EmittedNext(seen: seq<Record>, events: seq<Event>, records: seq<Record>, seen': seq<Record>, events': seq<Event>,
                    record: Record, seen'': seq<Record>, events'': seq<Event>, exited: bool)
    requires Emitted(seen, events, records, seen', events', false)
    requires Emitted(seen', events', [record], seen'', events'', exited)
    ensures Emitted(seen, events, records + [record], seen'', events'', exited)
  {
    hide Announced, NoCalls;
    NoCallsTwice(events, events', events'');
    assert seen' + [record] == seen + (records + [record]);
    assert Announced(events) + records + [record] == Announced(events) + (records + [record]);
  }

  lemma EmittedMore(seen: seq<Record>, events: seq<Event>, records: seq<Record>, more: seq<Record>,
                    seen': seq<Record>, events': seq<Event>)
    requires Emitted(seen, events, records, seen', events', true)
    ensures Emitted(seen, events, records + more, seen', events', true)
  {
    assert seen + (records + more) == seen + records + more;
  }

  // ---------------------------------------------------------------------
  // Records the scanout observer does not follow

  ghost predicate Unrelated(records: seq<Record>)
  {
    forall i :: 0 <= i < |records| ==> records[i].request != ReqSetCrtc
  }

  /** The agent saw some further records, none about a SETCRTC. */
  ghost predicate Extends(before: seq<Record>, after: seq<Record>)
  {
    before <= after && Unrelated(after[|before|..])
  }

  lemma ExtendsTwice(a: seq<Record>, b: seq<Record>, c: seq<Record>)
    requires Extends(a, b) && Extends(b, c)
    ensures Extends(a, c)
  {
    assert c[|a|..] == b[|a|..] + c[|b|..];
  }

  lemma ExtendsPart(a: seq<Record>, records: seq<Record>, b: seq<Record>)
    requires Unrelated(records) && a <= b && b <= a + records
    ensures Extends(a, b)
  {
    forall i | 0 <= i < |b| - |a|
      ensures b[|a|..][i].request != ReqSetCrtc
    {
      assert b[|a|..][i] == (a + records)[|a| + i] == records[i];
    }
  }

  // ---------------------------------------------------------------------
  // What a call left in the ledger

  /** From some point on, the kernel accepted the request or reported it as shown. */
  ghost predicate ShownSince(events: seq<Event>, from: nat, r: CrtcRequest)
  {
    exists j :: from <= j < |events| && events[j].Called? && ShowsIt(events[j].call, r)
  }

  ghost predicate ShowsIt(call: SystemCall, r: CrtcRequest)
  {
    || call == SysSetCrtc(Some(r), 0)
    || (call.SysGetCrtc? && call.id == r.crtc && call.crtc.Some? && Shows(call.crtc.value, r))
  }

  lemma ShownEarlier(events: seq<Event>, from: nat, later: nat, r: CrtcRequest)
    requires from <= later && ShownSince(events, later, r)
    ensures ShownSince(events, from, r)
  {
  }

  lemma ShownLater(before: seq<Event>, after: seq<Event>, from: nat, r: CrtcRequest)
    requires before <= after && ShownSince(before, from, r)
    ensures ShownSince(after, from, r)
  {
    var j :| from <= j < |before| && before[j].Called? && ShowsIt(before[j].call, r);
    assert after[j] == before[j];
  }

  // ---------------------------------------------------------------------
  // The system calls alone

  function CallsIn(events: seq<Event>): seq<SystemCall>
  {
    if events == [] then []
    else
      var n := |events| - 1;
      CallsIn(events[..n]) + if events[n].Called? then [events[n].call] else []
  }

  lemma {:induction false} CallsAppend(events: seq<Event>, e: Event)
    ensures CallsIn(events + [e]) == CallsIn(events) + if e.Called? then [e.call] else []
  {
    assert (events + [e])[..|events|] == events;
  }

  lemma {:induction false} SameCalls(before: seq<Event>, after: seq<Event>)
    requires NoCalls(before, after)
    ensures CallsIn(after) == CallsIn(before)
    decreases |after|
  {
    if |after| > |before| {
      SameCalls(before, after[..|after| - 1]);
    } else {
      assert after == before;
    }
  }

  // ---------------------------------------------------------------------
  // The fallback, call by call

  const FLIP_ATTEMPTS := 20

  /** A look that finds the requested framebuffer at the requested timing. */
  predicate SeesFlip(call: SystemCall, r: CrtcRequest)
  {
    && call.SysGetCrtc? && call.id == r.crtc && call.crtc.Some?
    && call.crtc.value.fb == r.fb && call.crtc.value.modeValid && SameModeTiming(call.crtc.value.mode, r.mode)
  }

  /** At most 20 looks at the CRTC, ending with the first that finds the request. */
  ghost predicate Looks(calls: seq<SystemCall>, r: CrtcRequest, shown: bool)
  {
    && 0 < |calls| <= FLIP_ATTEMPTS
    && (forall i :: 0 <= i < |calls| ==> calls[i].SysGetCrtc? && calls[i].id == r.crtc)
    && (forall i :: 0 <= i < |calls| - 1 ==> !SeesFlip(calls[i], r))
    && (if shown then SeesFlip(calls[|calls| - 1], r)
        else |calls| == FLIP_ATTEMPTS && !SeesFlip(calls[|calls| - 1], r))
  }

  /** A look at the CRTC; if it runs the requested position and timing, a PAGE_FLIP to
      the requested framebuffer; and if that is accepted, looks until it shows. The
      outcome is 0 when no flip was accepted, 1 when it showed, and -1 when 20 looks did
      not find it. */
  ghost predicate FlipCalls(calls: seq<SystemCall>, r: CrtcRequest, outcome: int)
  {
    && calls != [] && calls[0].SysGetCrtc? && calls[0].id == r.crtc
    && if calls[0].crtc.None? || !RunsSameMode(calls[0].crtc.value, r) then |calls| == 1 && outcome == 0
       else FlipOnlyCalls(calls[1..], r, outcome)
  }

  ghost predicate FlipOnlyCalls(calls: seq<SystemCall>, r: CrtcRequest, outcome: int)
  {
    && calls != [] && calls[0].SysPageFlip? && calls[0].id == r.crtc && calls[0].fb == r.fb
    && if calls[0].error != 0 then |calls| == 1 && outcome == 0
       else (outcome == 1 || outcome == -1) && Looks(calls[1..], r, outcome == 1)
  }

  lemma {:induction false} FlipCallsFrom(look: SystemCall, more: seq<SystemCall>, r: CrtcRequest, outcome: int)
    requires look.SysGetCrtc? && look.id == r.crtc && look.crtc.Some? && RunsSameMode(look.crtc.value, r)
    requires FlipOnlyCalls(more, r, outcome)
    ensures FlipCalls([look] + more, r, outcome)
  {
    hide FlipOnlyCalls, RunsSameMode;
    assert ([look] + more)[1..] == more;
  }

  /** Whom the fallback is meant for, if it is switched on. */
  datatype FallbackRule = FallbackRule(enabled: bool, connector: nat, crtc: nat)
  {
    predicate Applies(arg: Option<CrtcRequest>)
    {
      enabled && crtc != 0 && connector != 0 && arg.Some? && WantsExpected(arg.value, crtc, connector)
    }
  }

  /** Between two points of the ledger the process made exactly these calls. */
  ghost predicate CallsBetween(before: seq<Event>, after: seq<Event>, calls: seq<SystemCall>)
  {
    CallsIn(after) == CallsIn(before) + calls
  }

  /** A whole SETCRTC happened between two points of the ledger. */
  ghost predicate SetCrtcBetween(before: seq<Event>, after: seq<Event>, arg: Option<CrtcRequest>, fallback: bool,
                                 error: int)
  {
    exists calls :: CallsBetween(before, after, calls) && SetCrtcCalls(calls, arg, fallback, error)
  }

  /** All calls a SETCRTC comes to: itself, and its fallback exactly if the kernel
      answered EINVAL and the fallback applies. The caller's error is the kernel's,
      unless a flip was accepted: then none if it showed, and EIO if it did not. */
  ghost predicate SetCrtcCalls(calls: seq<SystemCall>, arg: Option<CrtcRequest>, fallback: bool, error: int)
  {
    && calls != [] && calls[0].SysSetCrtc? && calls[0].crtcArg == arg
    && if calls[0].error != EINVAL || arg.None? || !fallback then |calls| == 1 && error == calls[0].error
       else
         || (error == 0 && FlipCalls(calls[1..], arg.value, 1))
         || (error == EINVAL && FlipCalls(calls[1..], arg.value, 0))
         || (error == EIO && FlipCalls(calls[1..], arg.value, -1))
  }

  lemma {:induction false} Unfinished(looks: seq<SystemCall>, look: SystemCall, r: CrtcRequest)
    requires |looks| < FLIP_ATTEMPTS && look.SysGetCrtc? && look.id == r.crtc
    requires forall i :: 0 <= i < |looks| ==> looks[i].SysGetCrtc? && looks[i].id == r.crtc && !SeesFlip(looks[i], r)
    ensures SeesFlip(look, r) ==> Looks(looks + [look], r, true)
    ensures !SeesFlip(look, r) && |looks| + 1 == FLIP_ATTEMPTS ==> Looks(looks + [look], r, false)
    ensures !SeesFlip(look, r) ==>
              forall i :: 0 <= i < |looks + [look]| ==>
                (looks + [look])[i].SysGetCrtc? && (looks + [look])[i].id == r.crtc && !SeesFlip((looks + [look])[i], r)
  {
    hide SeesFlip;
    var all := looks + [look];
    assert forall i :: 0 <= i < |looks| ==> all[i] == looks[i];
  }
}
