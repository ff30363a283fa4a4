/**
 Every run of an Xorg under the interposer, from its start: any sequence of
 ioctls, with the agent free to verify the scanout and to let tracing stop at any
 moment.
 */
module TracedRun {
  import opened Options
  import opened Trace
  import opened Kernel
  import opened PropertyCache
  import opened AgentSession
  import opened Announcement
  import I = Interposer
  import P = PropertyRun
  import Scanout

  datatype Call =
    | SetCrtc(arg: Option<CrtcRequest>)
    | Atomic(commit: Option<AtomicRequest>)
    | SetProperty(write: Option<Write>)
    | GetProperties(query: Option<ObjectQuery>)
    | Other(request: Request, args: Args)
  {
    ghost predicate Valid()
    {
      && (Atomic? && commit.Some? ==> commit.value.Valid())
      && (Other? ==> request != ReqSetCrtc)
    }
  }

  // ---------------------------------------------------------------------
  // Records and the calls behind them

  /** The item is what the agent sees of this call: the commit with the caller's own
      argument, or records that the observer does not follow. */
  ghost predicate Reflects(item: Scanout.Item, call: Call)
  {
    if call.SetCrtc?
    then && item.SetCrtcCall? && I.CommitOf(item.commit, call.arg)
    else && item.Unrelated? && Scanout.WellFormed(item)
  }

  /** A successful SETCRTC was shown between two points of the ledger. */
  ghost predicate ShownIfDone(item: Scanout.Item, call: Call, events: seq<Event>, from: nat, to: nat)
  {
    call.SetCrtc? && item.SetCrtcCall? && item.commit.result == 0 ==>
      && call.arg.Some? && to <= |events|
      && ShownSince(events[..to], from, call.arg.value)
  }

  lemma ShownIfDoneLater(item: Scanout.Item, call: Call, before: seq<Event>, after: seq<Event>, from: nat, to: nat)
    requires ShownIfDone(item, call, before, from, to) && before <= after && to <= |before|
    ensures ShownIfDone(item, call, after, from, to)
  {
    assert after[..to] == before[..to];
  }

  lemma FlattenPush(items: seq<Scanout.Item>, item: Scanout.Item)
    ensures Scanout.Flatten(items + [item]) == Scanout.Flatten(items) + Scanout.Records(item)
  {
    assert (items + [item])[..|items|] == items;
  }

  /** What one ioctl adds, and the next sequence number. */
  ghost predicate OneCall(item: Scanout.Item, s: nat, next: nat)
  {
    if item.SetCrtcCall?
    then item.commit.sequence == s && FallbackDetails(item.commit.extras, s) && next == Following(s)
    else Scanout.WellFormed(item) && (next == s || next == Following(s))
  }

  /** Commits carry increasing, nonzero sequence numbers below the next one. */
  ghost predicate Ordered(items: seq<Scanout.Item>, next: nat)
  {
    && Scanout.DistinctSequences(items)
    && forall i :: 0 <= i < |items| ==>
         Scanout.WellFormed(items[i]) && (items[i].SetCrtcCall? ==> items[i].commit.sequence < next)
  }

  lemma OrderedStep(items: seq<Scanout.Item>, item: Scanout.Item, s: nat, next: nat)
    requires Ordered(items, s) && OneCall(item, s, next)
    requires 1 <= s && s + 1 < SEQUENCE_RANGE
    ensures Ordered(items + [item], next) && s <= next <= s + 1
  {
    var all := items + [item];
    forall i | 0 <= i < |all|
      ensures Scanout.WellFormed(all[i]) && (all[i].SetCrtcCall? ==> all[i].commit.sequence < next)
    {
      assert i < |items| ==> all[i] == items[i];
    }
  }

  lemma OrderedPart(items: seq<Scanout.Item>, next: nat, k: nat)
    requires Ordered(items, next) && k <= |items|
    ensures Ordered(items[..k], next)
  {
  }

  // ---------------------------------------------------------------------
  // What stands behind a stop of tracing

  /** The verification fell into call `k`, which is an enabling SETCRTC. */
  ghost predicate UnderWay(e: Evidence, items: seq<Scanout.Item>, k: nat)
    requires k <= |items|
  {
    && k < |items| && items[k].SetCrtcCall? && Scanout.Enables(items[k].commit, e.crtc)
    && |e.trace| > |Scanout.Flatten(items[..k])|
  }

  /** After `k` calls and perhaps a part of the next one, every enabling commit that
      had completed had succeeded with the leased connector, there was one, and the
      kernel showed the framebuffer of the last one, or of the one under way, at
      Android's timing. */
  ghost predicate ShownAt(e: Evidence, items: seq<Scanout.Item>, k: nat)
    requires k <= |items|
  {
    var commits := Scanout.Enabling(items[..k], e.crtc);
    && Scanout.Flatten(items[..k]) <= e.trace
    && (k < |items| ==> e.trace <= Scanout.Flatten(items[..k + 1]))
    && commits != []
    && (forall i :: 0 <= i < |commits| ==> Scanout.Good(commits[i], e.connector))
    && e.report.fb == (if UnderWay(e, items, k) then items[k].commit.fb else commits[|commits| - 1].fb)
    && e.report.mode.timing == e.androidMode.timing
  }

  ghost predicate ScannedOut(e: Evidence, items: seq<Scanout.Item>)
  {
    exists k: nat :: k <= |items| && ShownAt(e, items, k)
  }

  /** A part of a trace ends inside some call. */
  lemma {:induction false} EndsInside(items: seq<Scanout.Item>, trace: seq<Record>) returns (k: nat)
    requires trace <= Scanout.Flatten(items)
    ensures k <= |items| && Scanout.Flatten(items[..k]) <= trace
    ensures k < |items| ==> trace < Scanout.Flatten(items[..k]) + Scanout.Records(items[k])
    ensures k == |items| ==> trace == Scanout.Flatten(items)
    decreases |items|
  {
    hide Scanout.Records;
    if items == [] {
      k := 0;
      return;
    }
    var n := |items| - 1;
    var front := Scanout.Flatten(items[..n]);
    assert items[..n + 1] == items;
    if trace == Scanout.Flatten(items) {
      k := n + 1;
    } else if |trace| >= |front| {
      k := n;
      assert trace[..|front|] == front;
    } else {
      assert trace <= front;
      k := EndsInside(items[..n], trace);
      assert items[..n][..k] == items[..k];
    }
  }

  /** Any verification, wherever it fell, in terms of Xorg's own calls. */
  lemma JustifiedAnywhere(e: Evidence, items: seq<Scanout.Item>, next: nat)
    requires Justified(e) && e.trace <= Scanout.Flatten(items) && Ordered(items, next)
    ensures ScannedOut(e, items)
  {
    hide Justified, Scanout.Flatten, Scanout.Enabling, Scanout.Records, Ordered;
    var k := EndsInside(items, e.trace);
    OrderedPart(items, next, k);
    if k == |items| {
      assert items[..k] == items;
      AtBoundary(e, items, k, next);
    } else {
      FlattenPush(items[..k], items[k]);
      assert items[..k + 1] == items[..k] + [items[k]];
      if e.trace == Scanout.Flatten(items[..k]) {
        AtBoundary(e, items, k, next);
      } else if items[k].Unrelated? {
        WithinOther(e, items, k, next);
      } else {
        WithinCommit(e, items, k, next);
      }
    }
    assert ShownAt(e, items, k);
  }

  lemma AtBoundary(e: Evidence, items: seq<Scanout.Item>, k: nat, next: nat)
    requires k <= |items| && Justified(e) && e.trace == Scanout.Flatten(items[..k]) && Ordered(items, next)
    requires k < |items| ==> e.trace <= Scanout.Flatten(items[..k + 1])
    ensures ShownAt(e, items, k)
  {
    hide Justified, Scanout.Flatten, Scanout.Enabling;
    OrderedPart(items, next, k);
    JustifiedMeansScannedOut(e, items[..k]);
  }

  lemma EnablingUnrelated(items: seq<Scanout.Item>, other: Scanout.Item, crtc: nat)
    requires other.Unrelated?
    ensures Scanout.Enabling(items + [other], crtc) == Scanout.Enabling(items, crtc)
  {
    assert (items + [other])[..|items|] == items;
  }

  lemma WithinOther(e: Evidence, items: seq<Scanout.Item>, k: nat, next: nat)
    requires k < |items| && items[k].Unrelated? && Justified(e) && Ordered(items, next)
    requires Scanout.Flatten(items[..k]) <= e.trace && e.trace <= Scanout.Flatten(items[..k]) + Scanout.Records(items[k])
    requires Scanout.Flatten(items[..k + 1]) == Scanout.Flatten(items[..k]) + Scanout.Records(items[k])
    ensures ShownAt(e, items, k)
  {
    hide Justified, Scanout.Flatten, Scanout.Enabling, Scanout.Good;
    var done := items[..k];
    var whole := Scanout.Flatten(done);
    var part := Scanout.Unrelated(e.trace[|whole|..]);
    assert forall i :: 0 <= i < |part.records| ==> part.records[i] == items[k].records[i];
    assert Scanout.WellFormed(items[k]);
    FlattenPush(done, part);
    assert e.trace == whole + part.records;
    JustifiedMeansScannedOut(e, done + [part]);
    EnablingUnrelated(done, part, e.crtc);
  }

  lemma WithinCommit(e: Evidence, items: seq<Scanout.Item>, k: nat, next: nat)
    requires k < |items| && items[k].SetCrtcCall? && Justified(e) && Ordered(items, next)
    requires Scanout.Flatten(items[..k]) < e.trace && e.trace < Scanout.Flatten(items[..k]) + Scanout.Records(items[k])
    requires Scanout.Flatten(items[..k + 1]) == Scanout.Flatten(items[..k]) + Scanout.Records(items[k])
    ensures ShownAt(e, items, k)
  {
    hide Justified, Scanout.Flatten, Scanout.Enabling, Scanout.ConnectorDetails, Scanout.WellFormed, Scanout.Records;
    CommitLength(items[k].commit);
    var done, c := items[..k], items[k].commit;
    var whole, details := Scanout.Flatten(done), Scanout.ConnectorDetails(c) + c.extras;
    var m := |e.trace| - |whole| - 1;
    PartOfCommit(c, m);
    assert e.trace[|whole|..] == Scanout.Records(items[k])[..m + 1];
    assert e.trace == whole + ([Scanout.BeforeRecord(c)] + details[..m]);
    OrderedPart(items, next, k + 1);
    assert done + [Scanout.SetCrtcCall(c)] == items[..k + 1];
    assert Scanout.WellFormed(items[k]);
    JustifiedMidCommit(e, done, c, m);
    JustifiedTiming(e);
  }

  lemma CommitLength(c: Scanout.Commit)
    ensures |Scanout.Records(Scanout.SetCrtcCall(c))| == |Scanout.ConnectorDetails(c) + c.extras| + 2
  {
  }

  lemma PartOfCommit(c: Scanout.Commit, m: nat)
    requires m <= |Scanout.ConnectorDetails(c) + c.extras|
    ensures m + 1 <= |Scanout.Records(Scanout.SetCrtcCall(c))|
    ensures Scanout.Records(Scanout.SetCrtcCall(c))[..m + 1]
            == [Scanout.BeforeRecord(c)] + (Scanout.ConnectorDetails(c) + c.extras)[..m]
  {
  }

  lemma JustifiedTiming(e: Evidence)
    requires Justified(e)
    ensures e.report.mode.timing == e.androidMode.timing
  {
  }

  // ---------------------------------------------------------------------
  // One call

  /** The step is this call's own: a write of the caller's, or a stored report that the
      kernel gave during the call. */
  ghost predicate StepOf(step: P.Step, call: Call, events: seq<Event>, from: nat)
  {
    match step
    case Wrote(w) => call == SetProperty(Some(w))
    case Report(report) => 
      call.GetProperties? && call.query.Some? && call.query.value.kind == CONNECTOR_KIND
      && ReportedSince(events, from, call.query, report)
    case Other => true
  }

  ghost predicate ReportedSince(events: seq<Event>, from: nat, query: Option<ObjectQuery>, report: seq<Write>)
  {
    exists j :: from <= j < |events| && events[j].Called? && events[j].call.SysGetProperties?
                && events[j].call.query == query && report <= events[j].call.report
  }

  lemma ReportFound(before: seq<Event>, events: seq<Event>, query: Option<ObjectQuery>, error: int,
                    report: seq<Write>, stored: seq<Write>)
    requires Made(before, events, SysGetProperties(query, error, report)) && stored <= report
    ensures ReportedSince(events, |before|, query, stored)
  {
    var i: nat :| MadeAt(before, events, SysGetProperties(query, error, report), i);
    assert events[i].Called?;
  }

  /** What the kernel got of the call: exactly its own system call, and for a SETCRTC
      perhaps its fallback; of a dropped write nothing. */
  ghost predicate Passed(call: Call, error: int, before: seq<Event>, after: seq<Event>, rule: FallbackRule)
  {
    match call
    case SetCrtc(arg) =>
      (exists e :: Made(before, after, SysSetCrtc(arg, e))) && SetCrtcBetween(before, after, arg, rule.Applies(arg), error)
    case Atomic(commit) => Made(before, after, SysAtomic(commit, error))
    case SetProperty(write) =>
      Made(before, after, SysSetProperty(write, error)) || (error == 0 && write.Some? && NoCalls(before, after))
    case GetProperties(query) => exists report :: Made(before, after, SysGetProperties(query, error, report))
    case Other(request, args) => Made(before, after, SysOther(request, args, error))
  }

  lemma WriteIsPassed(before: seq<Event>, after: seq<Event>, arg: Option<Write>, error: int, dropped: bool, exited: bool)
    requires I.WritePassed(dropped, exited, before, after, arg, error)
    ensures (exited && NoCalls(before, after)) || forall rule :: Passed(SetProperty(arg), error, before, after, rule)
  {
    hide NoCalls, Made;
  }

  /** The properties and the cache after a step. */
  ghost predicate PropertiesMoved(suppress: bool, step: P.Step, properties: map<Key, nat>, cached: map<Key, nat>,
                                  properties': map<Key, nat>, cached': map<Key, nat>)
  {
    && properties' == I.AfterStep(suppress, properties, cached, step)
    && cached' == (if step.Report? then StoreAll(cached, step.report) else cached)
    && (step.Report? ==> Accurate(properties, step.report))
  }

  method PerformProperty(x: I.Interposer, call: Call) returns (error: int, ghost step: P.Step)
    requires x.Valid() && !x.exited && call.Valid() && !call.SetCrtc?
    modifies x`sequence, x`steady, x`exited, x.agent`seen, x.agent`evidence, x.agent`verified, x.agent`traceSteady,
             x.agent`acks, x.agent`arrivals, x.agent.observer, x.device`crtcs, x.device`flips, x.device`inspections,
             x.device`properties, x.device.ledger, x.cache`count, x.cache.entries
    ensures x.Valid() && old(x.device.ledger.events) <= x.device.ledger.events
    ensures x.sequence == old(x.sequence) || x.sequence == Following(old(x.sequence))
    ensures Extends(old(x.agent.seen), x.agent.seen)
    ensures StepOf(step, call, x.device.ledger.events, |old(x.device.ledger.events)|)
    ensures || (x.exited && NoCalls(old(x.device.ledger.events), x.device.ledger.events))
            || Passed(call, error, old(x.device.ledger.events), x.device.ledger.events, x.Rule())
    ensures PropertiesMoved(x.suppressNoops, step, old(x.device.properties), old(x.cache.Values()),
                    x.device.properties, x.cache.Values())
    ensures call.SetProperty? && !x.exited ==> (step.Wrote? <==> error == 0)
  {
    hide x.Valid, Announced, Extends, StoreAll, Accurate, AtomicAnnounced, NoCalls, Made, I.WritePassed, ReportedSince;
    x.CacheIsValid();
    step := P.Other;
    match call {
      case Atomic(arg) =>
        error := x.IoctlAtomic(arg);
      case SetProperty(arg) =>
        error, step := x.IoctlSetProperty(arg);
        WriteIsPassed(old(x.device.ledger.events), x.device.ledger.events, arg, error,
                      x.suppressNoops && arg.Some? && Repeats(old(x.cache.Values()), arg.value), x.exited);
      case GetProperties(query) =>
        var report;
        error, report, step := x.IoctlGetProperties(query);
        if step.Report? {
          ReportFound(old(x.device.ledger.events), x.device.ledger.events, query, error, report, step.report);
        }
      case Other(request, args) =>
        error := x.IoctlOther(request, args);
    }
  }

  /** One ioctl, what the agent saw of it, and what it did to the properties. */
  method Perform(x: I.Interposer, call: Call) returns (error: int, ghost item: Scanout.Item, ghost step: P.Step)
    requires x.Valid() && !x.exited && call.Valid()
    modifies x`sequence, x`steady, x`exited, x.agent`seen, x.agent`evidence, x.agent`verified, x.agent`traceSteady,
             x.agent`acks, x.agent`arrivals, x.agent.observer, x.device`crtcs, x.device`flips, x.device`inspections,
             x.device`properties, x.device.ledger, x.cache`count, x.cache.entries
    ensures x.Valid() && old(x.device.ledger.events) <= x.device.ledger.events
    ensures OneCall(item, old(x.sequence), x.sequence) && Reflects(item, call)
    ensures old(x.agent.seen) <= x.agent.seen && x.agent.seen <= old(x.agent.seen) + Scanout.Records(item)
    ensures !x.exited ==> x.agent.seen == old(x.agent.seen) + Scanout.Records(item)
    ensures !x.exited && call.SetCrtc? ==> (item.commit.result == 0 <==> error == 0)
    ensures ShownIfDone(item, call, x.device.ledger.events, |old(x.device.ledger.events)|, |x.device.ledger.events|)
    ensures StepOf(step, call, x.device.ledger.events, |old(x.device.ledger.events)|)
    ensures || (x.exited && NoCalls(old(x.device.ledger.events), x.device.ledger.events))
            || Passed(call, error, old(x.device.ledger.events), x.device.ledger.events, x.Rule())
    ensures PropertiesMoved(x.suppressNoops, step, old(x.device.properties), old(x.cache.Values()),
                    x.device.properties, x.cache.Values())
    ensures call.SetProperty? && !x.exited ==> (step.Wrote? <==> error == 0)
  {
    hide AllCovered, Announced, StoreAll, Accurate, NoCalls, Made, FlipsLanded, ShowsFirmly, ShownSince, TracedCommit,
         FallbackDetails, CallsIn, SetCrtcCalls;
    ghost var seen := x.agent.seen;
    if call.SetCrtc? {
      step := P.Other;
      ghost var commit, calls;
      error, commit, calls := x.IoctlSetCrtc(call.arg);
      SequenceOf(old(x.sequence), call.arg, commit.extras, commit.result);
      assert CallsBetween(old(x.device.ledger.events), x.device.ledger.events, calls);
      item := Scanout.SetCrtcCall(commit);
      assert x.device.ledger.events[..|x.device.ledger.events|] == x.device.ledger.events;
    } else {
      error, step := PerformProperty(x, call);
      item := Scanout.Unrelated(x.agent.seen[|seen|..]);
    }
  }

  lemma SequenceOf(s: nat, arg: Option<CrtcRequest>, extras: seq<Record>, result: int)
    ensures TracedCommit(s, arg, extras, result).sequence == s
  {
  }

  // ---------------------------------------------------------------------
  // Whole runs

  /** A run call by call: what the agent saw, what it did to the properties, and where
      each call begins in the ledger; the last mark is the end. */
  datatype History = History(rule: FallbackRule, items: seq<Scanout.Item>, steps: seq<P.Step>, marks: seq<nat>)

  /** Call `i` of the run, its result and its traces. */
  ghost predicate CallTold(h: History, calls: seq<Call>, errors: seq<int>, events: seq<Event>, i: nat, exited: bool)
    requires i < |h.items| == |h.steps| == |errors| <= |calls| && |h.marks| == |h.items| + 1
  {
    var finished := !exited || i < |h.items| - 1;
    && Reflects(h.items[i], calls[i])
    && ShownIfDone(h.items[i], calls[i], events, h.marks[i], h.marks[i + 1])
    && h.marks[i + 1] <= |events| && StepOf(h.steps[i], calls[i], events[..h.marks[i + 1]], h.marks[i])
    && (finished && calls[i].SetCrtc? ==> (h.items[i].commit.result == 0 <==> errors[i] == 0))
    && (finished && calls[i].SetProperty? ==> (h.steps[i].Wrote? <==> errors[i] == 0))
    && h.marks[i] <= h.marks[i + 1]
    && (finished ==> Passed(calls[i], errors[i], events[..h.marks[i]], events[..h.marks[i + 1]], h.rule))
  }

  /** The history is that of these calls; all but perhaps the last came to an end. */
  ghost predicate Told(h: History, calls: seq<Call>, errors: seq<int>, events: seq<Event>, exited: bool)
  {
    && |h.items| == |h.steps| == |errors| <= |calls| && |h.marks| == |h.items| + 1
    && h.marks[|h.items|] == |events|
    && forall i :: 0 <= i < |h.items| ==> CallTold(h, calls, errors, events, i, exited)
  }

  lemma CallStays(h: History, calls: seq<Call>, errors: seq<int>, events: seq<Event>, i: nat,
                  item: Scanout.Item, step: P.Step, error: int, events': seq<Event>, exited: bool)
    requires |h.items| == |h.steps| == |errors| < |calls| && |h.marks| == |h.items| + 1 && i < |h.items|
    requires CallTold(h, calls, errors, events, i, false) && events <= events'
    ensures CallTold(History(h.rule, h.items + [item], h.steps + [step], h.marks + [|events'|]),
                     calls, errors + [error], events', i, exited)
  {
    hide Reflects, StepOf, ShownIfDone, Passed;
    ShownIfDoneLater(h.items[i], calls[i], events, events', h.marks[i], h.marks[i + 1]);
    assert events'[..h.marks[i + 1]] == events[..h.marks[i + 1]];
    assert events'[..h.marks[i]] == events[..h.marks[i]];
  }

  lemma ToldNext(h: History, calls: seq<Call>, errors: seq<int>, events: seq<Event>,
                 item: Scanout.Item, step: P.Step, error: int, events': seq<Event>, exited: bool)
    requires Told(h, calls, errors, events, false) && |h.items| < |calls| && events <= events'
    requires Reflects(item, calls[|h.items|])
    requires ShownIfDone(item, calls[|h.items|], events', |events|, |events'|)
    requires StepOf(step, calls[|h.items|], events', |events|)
    requires !exited && calls[|h.items|].SetCrtc? ==> (item.commit.result == 0 <==> error == 0)
    requires !exited && calls[|h.items|].SetProperty? ==> (step.Wrote? <==> error == 0)
    requires !exited ==> Passed(calls[|h.items|], error, events, events', h.rule)
    ensures Told(History(h.rule, h.items + [item], h.steps + [step], h.marks + [|events'|]),
                 calls, errors + [error], events', exited)
  {
    hide Reflects, StepOf, ShownIfDone, CallTold, Passed;
    var h' := History(h.rule, h.items + [item], h.steps + [step], h.marks + [|events'|]);
    var n := |h.items|;
    forall i | 0 <= i < n + 1
      ensures CallTold(h', calls, errors + [error], events', i, exited)
    {
      if i < n {
        CallStays(h, calls, errors, events, i, item, step, error, events', exited);
      } else {
        assert events'[..h'.marks[n]] == events;
        LastTold(h', calls, errors + [error], events', n, exited);
      }
    }
  }

  lemma LastTold(h: History, calls: seq<Call>, errors: seq<int>, events: seq<Event>, n: nat, exited: bool)
    requires |h.items| == |h.steps| == |errors| == n + 1 <= |calls| && |h.marks| == n + 2 && h.marks[n + 1] == |events|
    requires Reflects(h.items[n], calls[n])
    requires ShownIfDone(h.items[n], calls[n], events, h.marks[n], |events|)
    requires StepOf(h.steps[n], calls[n], events, h.marks[n])
    requires !exited && calls[n].SetCrtc? ==> (h.items[n].commit.result == 0 <==> errors[n] == 0)
    requires !exited && calls[n].SetProperty? ==> (h.steps[n].Wrote? <==> errors[n] == 0)
    requires h.marks[n] <= |events| && (!exited ==> Passed(calls[n], errors[n], events[..h.marks[n]], events, h.rule))
    ensures CallTold(h, calls, errors, events, n, exited)
  {
    hide Reflects, StepOf, ShownIfDone, Passed;
    assert events[..|events|] == events;
  }

  /** The observer's records are those of the items, whose numbers are in order. */
  ghost predicate Seen(items: seq<Scanout.Item>, seen: seq<Record>, next: nat, exited: bool)
  {
    && Ordered(items, next)
    && seen <= Scanout.Flatten(items) && (!exited ==> seen == Scanout.Flatten(items))
  }

  lemma SeenNext(items: seq<Scanout.Item>, seen: seq<Record>, s: nat, item: Scanout.Item,
                 seen': seq<Record>, next: nat, exited: bool)
    requires Seen(items, seen, s, false) && OneCall(item, s, next) && 1 <= s && s + 1 < SEQUENCE_RANGE
    requires seen' <= seen + Scanout.Records(item) && (!exited ==> seen' == seen + Scanout.Records(item))
    ensures Seen(items + [item], seen', next, exited) && s <= next <= s + 1
  {
    hide Ordered, OneCall, Scanout.Records, Scanout.Flatten;
    FlattenPush(items, item);
    OrderedStep(items, item, s, next);
  }

  /** The properties and the cache follow the steps. */
  ghost predicate PropertiesFollow(suppress: bool, first: map<Key, nat>, steps: seq<P.Step>,
                                   properties: map<Key, nat>, cached: map<Key, nat>)
  {
    && cached == P.Snapshots(steps)
    && properties == (if suppress then P.Filtered(first, steps) else P.Direct(first, steps))
    && (suppress ==> P.Truthful(first, steps))
  }

  lemma PropertiesNext(suppress: bool, first: map<Key, nat>, steps: seq<P.Step>, step: P.Step,
                       properties: map<Key, nat>, cached: map<Key, nat>,
                       properties': map<Key, nat>, cached': map<Key, nat>)
    requires PropertiesFollow(suppress, first, steps, properties, cached)
    requires PropertiesMoved(suppress, step, properties, cached, properties', cached')
    ensures PropertiesFollow(suppress, first, steps + [step], properties', cached')
  {
    hide StoreAll, Accurate, Repeats, P.Snapshots, P.Filtered, P.Direct, P.Truthful;
    P.StepAdds(first, steps, step);
    if suppress {
      P.TruthfulNext(first, steps, step);
    }
  }

  /** With the filter on, the run ends with the properties that all writes would have
      given, if and only if no last write puts back a stored value after another write
      moved it away. */
  lemma FilterInvisible(first: map<Key, nat>, steps: seq<P.Step>, properties: map<Key, nat>, cached: map<Key, nat>)
    requires PropertiesFollow(true, first, steps, properties, cached)
    ensures properties == P.Direct(first, steps) <==> forall key :: !P.PutBack(steps, key)
  {
    P.SuppressionInvisible(first, steps);
  }

  /** Whatever an Xorg calls from its start:
      every system call that reached the kernel was announced in full under its own
      number, or came after a proved startup and was no SETCRTC, or belongs to the
      fallback of an announced SETCRTC;
      call by call, the kernel got exactly this call, once, unless it is a write that the
      filter drops; the agent saw this call's own records; and a SETCRTC that succeeded
      was shown by the kernel during the call;
      the properties are those that the filter leads to.
      As long as the 32-bit sequence number has not wrapped, what the agent's observer
      concludes is the verdict over the commits as Xorg made them, and any proof rests
      on a moment at which the display scanned out Xorg's framebuffer. */
  method Run(x: I.Interposer, calls: seq<Call>) returns (errors: seq<int>, ghost h: History)
    requires x.Valid() && !x.exited && x.sequence == 1 && x.base == |x.device.ledger.events|
    requires x.agent.seen == [] && x.leaseCrtc != 0 && !x.agent.Proven() && x.cache.Values() == map[]
    requires forall i :: 0 <= i < |calls| ==> calls[i].Valid()
    modifies x`sequence, x`steady, x`exited, x.agent`seen, x.agent`evidence, x.agent`verified, x.agent`traceSteady,
             x.agent`acks, x.agent`arrivals, x.agent.observer, x.device`crtcs, x.device`flips, x.device`inspections,
             x.device`properties, x.device.ledger, x.cache`count, x.cache.entries
    ensures x.Valid() && AllCovered(x.device.ledger.events, |old(x.device.ledger.events)|)
    ensures h.rule == x.Rule() && x.InStep()
    ensures Told(h, calls, errors, x.device.ledger.events, x.exited) && (!x.exited ==> |errors| == |calls|)
    ensures PropertiesFollow(x.suppressNoops, old(x.device.properties), h.steps, x.device.properties, x.cache.Values())
    ensures |calls| + 1 < SEQUENCE_RANGE && !x.exited ==>
              && x.agent.seen == Scanout.Flatten(h.items)
              && Scanout.Verdict(x.agent.observer.View(), Scanout.Enabling(h.items, x.leaseCrtc))
    ensures |calls| + 1 < SEQUENCE_RANGE ==> Ordered(h.items, x.sequence) && x.agent.seen <= Scanout.Flatten(h.items)
    ensures |calls| + 1 < SEQUENCE_RANGE && x.agent.Proven() ==> ScannedOut(x.agent.evidence.value, h.items)
    ensures x.steady ==> x.agent.Proven()
  {
    hide AllCovered, Told, PropertiesFollow, PropertiesMoved, Seen, OneCall, Reflects, ShownIfDone, StepOf,
         Scanout.Flatten, Scanout.Records, Scanout.Verdict, Scanout.Enabling, ScannedOut, Justified, Passed, NoCalls;
    errors, h := [], History(x.Rule(), [], [], [|x.device.ledger.events|]);
    ghost var within, first := |calls| + 1 < SEQUENCE_RANGE, x.device.properties;
    Starts(x.Rule(), calls, x.device.ledger.events, x.suppressNoops, first);
    for i := 0 to |calls|
      invariant x.Valid() && !x.exited && |h.items| == |errors| == i && h.rule == x.Rule()
      invariant Told(h, calls, errors, x.device.ledger.events, false)
      invariant PropertiesFollow(x.suppressNoops, first, h.steps, x.device.properties, x.cache.Values())
      invariant within ==> 1 <= x.sequence <= i + 1 && Seen(h.items, x.agent.seen, x.sequence, false)
    {
      ghost var s, seen, events := x.sequence, x.agent.seen, x.device.ledger.events;
      ghost var properties, cached := x.device.properties, x.cache.Values();
      var error;
      ghost var item, step;
      error, item, step := Perform(x, calls[i]);
      ToldNext(h, calls, errors, events, item, step, error, x.device.ledger.events, x.exited);
      PropertiesNext(x.suppressNoops, first, h.steps, step, properties, cached, x.device.properties, x.cache.Values());
      if within {
        SeenNext(h.items, seen, s, item, x.agent.seen, x.sequence, x.exited);
      }
      errors := errors + [error];
      h := History(h.rule, h.items + [item], h.steps + [step], h.marks + [|x.device.ledger.events|]);
      if x.exited {
        if within {
          Conclusions(x, h.items, true);
        }
        return;
      }
    }
    if within {
      Conclusions(x, h.items, false);
    }
  }

  lemma Starts(rule: FallbackRule, calls: seq<Call>, events: seq<Event>, suppress: bool, first: map<Key, nat>)
    ensures Told(History(rule, [], [], [|events|]), calls, [], events, false)
    ensures PropertiesFollow(suppress, first, [], first, map[])
    ensures Seen([], [], 1, false)
  {
  }

  lemma Conclusions(x: I.Interposer, items: seq<Scanout.Item>, exited: bool)
    requires x.Valid() && x.leaseCrtc != 0 && Seen(items, x.agent.seen, x.sequence, exited)
    ensures Ordered(items, x.sequence) && x.agent.seen <= Scanout.Flatten(items)
    ensures x.agent.Proven() ==> ScannedOut(x.agent.evidence.value, items)
    ensures !exited ==>
              && x.agent.seen == Scanout.Flatten(items)
              && Scanout.Verdict(x.agent.observer.View(), Scanout.Enabling(items, x.leaseCrtc))
  {
    hide AllCovered, Scanout.Flatten, Scanout.Verdict, Scanout.Enabling, ScannedOut, Justified, ProvedIn;
    if x.agent.Proven() {
      JustifiedAnywhere(x.agent.evidence.value, items, x.sequence);
    }
    if !exited {
      Scanout.ObserverMatchesScan(items, x.leaseConnector, x.leaseCrtc);
    }
  }
}
