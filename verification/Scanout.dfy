/**
 The agent's incremental observer of Xorg's SETCRTC records, and the scan over
 whole commits that it computes.
 */
module Scanout {
  import opened Trace

  datatype State = State(
    expectedConnector: nat,
    expectedCrtc: nat,
    sequence: nat,
    fb: nat,
    connectorSeen: bool,
    confirmed: bool,
    failed: bool)

  function Initial(connector: nat, crtc: nat): State
  {
    State(connector, crtc, 0, 0, false, false, false)
  }

  function Step(s: State, r: Record): State
  {
    if s.expectedCrtc == 0 || r.request != ReqSetCrtc then s
    else if r.phase == Before && r.args.a0 == s.expectedCrtc && r.args.a1 != 0 && r.args.a3 != 0
            && (s.sequence == 0 || s.confirmed) then
      s.(sequence := r.sequence, fb := r.args.a1, connectorSeen := false)
    else if r.sequence != s.sequence then s
    else if r.phase == Detail && r.name == SetCrtcConnector && r.args.a2 == s.expectedConnector then
      s.(connectorSeen := true)
    else if r.phase == After then
      if r.result == 0 && s.connectorSeen then s.(confirmed := true) else s.(failed := true)
    else s
  }

  function Observe(s: State, records: seq<Record>): State
  {
    if records == [] then s
    else
      var n := |records| - 1;
      Step(Observe(s, records[..n]), records[n])
  }

  /** The agent's globals that follow Xorg's scanout. */
  class Observer {
    var expectedConnector: nat
    var expectedCrtc: nat
    var sequence: nat
    var fb: nat
    var connectorSeen: bool
    var confirmed: bool
    var failed: bool

    ghost function View(): State
      reads this
    {
      State(expectedConnector, expectedCrtc, sequence, fb, connectorSeen, confirmed, failed)
    }

    constructor ()
      ensures View() == Initial(0, 0)
    {
      expectedConnector, expectedCrtc, sequence, fb := 0, 0, 0, 0;
      connectorSeen, confirmed, failed := false, false, false;
    }

    method Expect(connector: nat, crtc: nat)
      modifies this
      ensures View() == Initial(connector, crtc)
    {
      expectedConnector, expectedCrtc, sequence, fb := connector, crtc, 0, 0;
      connectorSeen, confirmed, failed := false, false, false;
    }

    method ObserveRecord(r: Record)
      modifies this
      ensures View() == Step(old(View()), r)
    {
      if expectedCrtc == 0 || r.request != ReqSetCrtc {
        return;
      }
      if r.phase == Before && r.args.a0 == expectedCrtc && r.args.a1 != 0 && r.args.a3 != 0
         && (sequence == 0 || confirmed) {
        sequence := r.sequence;
        fb := r.args.a1;
        connectorSeen := false;
        return;
      }
      if r.sequence != sequence {
        return;
      }
      if r.phase == Detail && r.name == SetCrtcConnector && r.args.a2 == expectedConnector {
        connectorSeen := true;
      } else if r.phase == After {
        if r.result == 0 && connectorSeen {
          confirmed := true;
        } else {
          failed := true;
        }
      }
    }
  }

  // ---------------------------------------------------------------------
  // Whole commits

  /** One SETCRTC call as the interposer traces it. `connectors` are those it named
      in detail records, `count` is the number the caller asked for, and `extras`
      are further detail records, such as those of the page-flip fallback. */
  datatype Commit = Commit(
    sequence: nat,
    crtc: nat,
    fb: nat,
    modeValid: nat,
    count: nat,
    connectors: seq<nat>,
    extras: seq<Record>,
    result: int)

  /** One SETCRTC, or the records of calls the observer does not follow. */
  datatype Item = SetCrtcCall(commit: Commit) | Unrelated(records: seq<Record>)

  ghost predicate WellFormed(item: Item)
  {
    match item
    case SetCrtcCall(c) =>
      && c.sequence != 0
      && forall i :: 0 <= i < |c.extras| ==>
           && c.extras[i].phase == Detail && c.extras[i].name != SetCrtcConnector
           && c.extras[i].sequence == c.sequence && c.extras[i].request == ReqSetCrtc
    case Unrelated(records) => forall i :: 0 <= i < |records| ==> records[i].request != ReqSetCrtc
  }

  function ConnectorDetails(c: Commit): seq<Record>
  {
    seq(|c.connectors|, i requires 0 <= i < |c.connectors| =>
      Record(Detail, c.sequence, ReqSetCrtc, SetCrtcConnector, Args(c.crtc, i, c.connectors[i], 0), 0))
  }

  function BeforeRecord(c: Commit): Record
  {
    Record(Before, c.sequence, ReqSetCrtc, Unnamed, Args(c.crtc, c.fb, c.count, c.modeValid), 0)
  }

  function AfterRecord(c: Commit): Record
  {
    Record(After, c.sequence, ReqSetCrtc, Unnamed, Args(c.crtc, c.fb, c.count, c.modeValid), c.result)
  }

  function Records(item: Item): seq<Record>
  {
    match item
    case SetCrtcCall(c) => [BeforeRecord(c)] + (ConnectorDetails(c) + c.extras) + [AfterRecord(c)]
    case Unrelated(records) => records
  }

  function Flatten(items: seq<Item>): seq<Record>
  {
    if items == [] then []
    else Flatten(items[..|items| - 1]) + Records(items[|items| - 1])
  }

  ghost predicate DistinctSequences(items: seq<Item>)
  {
    forall i, j :: 0 <= i < j < |items| && items[i].SetCrtcCall? && items[j].SetCrtcCall? ==>
      items[i].commit.sequence != items[j].commit.sequence
  }

  /** A commit that lights up the leased CRTC with a framebuffer and a mode. */
  predicate Enables(c: Commit, crtc: nat)
  {
    c.crtc == crtc && c.fb != 0 && c.modeValid != 0
  }

  predicate Good(c: Commit, connector: nat)
  {
    c.result == 0 && connector in c.connectors
  }

  function Enabling(items: seq<Item>, crtc: nat): seq<Commit>
  {
    if items == [] then []
    else
      var last := items[|items| - 1];
      Enabling(items[..|items| - 1], crtc)
      + if last.SetCrtcCall? && Enables(last.commit, crtc) then [last.commit] else []
  }

  // ---------------------------------------------------------------------
  // The observer on one commit

  lemma {:induction false} ObserveAppend(s: State, a: seq<Record>, b: seq<Record>)
    ensures Observe(s, a + b) == Observe(Observe(s, a), b)
    decreases |b|
  {
    if b == [] {
      assert a + b == a;
    } else {
      var n := |b| - 1;
      assert (a + b)[..|a| + n] == a + b[..n];
      ObserveAppend(s, a, b[..n]);
    }
  }

  /** Without an expected CRTC no record is followed. */
  lemma {:induction false} NothingExpected(connector: nat, crtc: nat, records: seq<Record>)
    ensures crtc == 0 ==> Observe(Initial(connector, crtc), records) == Initial(connector, crtc)
    decreases |records|
  {
    if records != [] {
      NothingExpected(connector, crtc, records[..|records| - 1]);
    }
  }

  /** Records of other requests change nothing. */
  lemma {:induction false} PassBy(s: State, records: seq<Record>)
    requires forall i :: 0 <= i < |records| ==> records[i].request != ReqSetCrtc
    ensures Observe(s, records) == s
    decreases |records|
  {
    if records != [] {
      PassBy(s, records[..|records| - 1]);
    }
  }

  predicate Tracks(s: State, c: Commit)
  {
    Enables(c, s.expectedCrtc) && (s.sequence == 0 || s.confirmed)
  }

  /** Details of a commit that is not followed change nothing. */
  lemma {:induction false} IgnoreRecords(s: State, records: seq<Record>, sequence: nat)
    requires s.sequence != sequence
    requires forall i :: 0 <= i < |records| ==> records[i].sequence == sequence && records[i].phase != Before
    ensures Observe(s, records) == s
    decreases |records|
  {
    if records != [] {
      IgnoreRecords(s, records[..|records| - 1], sequence);
    }
  }

  /** Details of the followed commit only record whether its connector came by. */
  lemma {:induction false} FollowDetails(s: State, records: seq<Record>)
    requires s.expectedCrtc != 0
    requires forall i :: 0 <= i < |records| ==>
               records[i].sequence == s.sequence && records[i].phase == Detail && records[i].request == ReqSetCrtc
    ensures Observe(s, records) == s.(connectorSeen := s.connectorSeen
              || exists i :: 0 <= i < |records| && Names(records[i], s.expectedConnector))
    decreases |records|
  {
    if records != [] {
      var n := |records| - 1;
      FollowDetails(s, records[..n]);
      if Names(records[n], s.expectedConnector) {
      } else if exists i :: 0 <= i < |records| && Names(records[i], s.expectedConnector) {
        var i :| 0 <= i < |records| && Names(records[i], s.expectedConnector);
        assert records[..n][i] == records[i];
      } else {
        assert forall i :: 0 <= i < n ==> records[..n][i] == records[i];
      }
    }
  }

  predicate Names(r: Record, connector: nat)
  {
    r.name == SetCrtcConnector && r.args.a2 == connector
  }

  lemma ConnectorNamed(c: Commit, connector: nat)
    requires WellFormed(SetCrtcCall(c))
    ensures var details := ConnectorDetails(c) + c.extras;
            (exists i :: 0 <= i < |details| && Names(details[i], connector)) <==> connector in c.connectors
  {
    var details := ConnectorDetails(c) + c.extras;
    if connector in c.connectors {
      var i :| 0 <= i < |c.connectors| && c.connectors[i] == connector;
      assert Names(details[i], connector);
    }
    if exists i :: 0 <= i < |details| && Names(details[i], connector) {
      var i :| 0 <= i < |details| && Names(details[i], connector);
      assert i < |c.connectors|;
    }
  }

  /** The state once a commit has begun and `k` of its details were relayed. */
  lemma CommitInFlight(s: State, c: Commit, k: nat)
    requires s.expectedCrtc != 0 && s.sequence != c.sequence && WellFormed(SetCrtcCall(c))
    requires k <= |ConnectorDetails(c) + c.extras|
    ensures var details := (ConnectorDetails(c) + c.extras)[..k];
            Observe(s, [BeforeRecord(c)] + details) ==
            if Tracks(s, c) then
              s.(sequence := c.sequence, fb := c.fb, connectorSeen :=
                 exists i :: 0 <= i < |details| && Names(details[i], s.expectedConnector))
            else s
  {
    var details := (ConnectorDetails(c) + c.extras)[..k];
    ObserveAppend(s, [BeforeRecord(c)], details);
    assert [BeforeRecord(c)][..0] == [];
    assert Observe(s, [BeforeRecord(c)]) == Step(s, BeforeRecord(c));
    if Tracks(s, c) {
      FollowDetails(Step(s, BeforeRecord(c)), details);
    } else {
      IgnoreRecords(s, details, c.sequence);
    }
  }

  lemma CommitEffect(s: State, c: Commit)
    requires s.expectedCrtc != 0 && s.sequence != c.sequence && WellFormed(SetCrtcCall(c))
    ensures Observe(s, Records(SetCrtcCall(c))) ==
            if Tracks(s, c) then
              s.(sequence := c.sequence, fb := c.fb,
                 connectorSeen := s.expectedConnector in c.connectors,
                 confirmed := s.confirmed || Good(c, s.expectedConnector),
                 failed := s.failed || !Good(c, s.expectedConnector))
            else s
  {
    var details := ConnectorDetails(c) + c.extras;
    CommitInFlight(s, c, |details|);
    assert details[..|details|] == details;
    ConnectorNamed(c, s.expectedConnector);
    var head := [BeforeRecord(c)] + details;
    assert Records(SetCrtcCall(c)) == head + [AfterRecord(c)];
    assert (head + [AfterRecord(c)])[..|head|] == head;
  }

  // ---------------------------------------------------------------------
  // The observer on every trace

  /** The verdict a reader of the whole commit list would give. */
  ghost predicate Verdict(s: State, commits: seq<Commit>)
  {
    && (s.confirmed <==> commits != [] && Good(commits[0], s.expectedConnector))
    && (s.failed <==> exists i :: 0 <= i < |commits| && !Good(commits[i], s.expectedConnector))
    && (s.confirmed ==> s.fb == commits[|commits| - 1].fb)
  }

  ghost predicate Summary(s: State, commits: seq<Commit>)
  {
    && Verdict(s, commits)
    && (commits == [] ==> s.sequence == 0)
    && (commits != [] ==>
          s.sequence == if s.confirmed then commits[|commits| - 1].sequence else commits[0].sequence)
  }

  lemma {:induction false} EnablingListed(items: seq<Item>, crtc: nat, k: nat)
    requires k < |Enabling(items, crtc)|
    ensures exists i :: 0 <= i < |items| && items[i] == SetCrtcCall(Enabling(items, crtc)[k])
    decreases |items|
  {
    var n := |items| - 1;
    if k < |Enabling(items[..n], crtc)| {
      EnablingListed(items[..n], crtc, k);
      var i :| 0 <= i < n && items[..n][i] == SetCrtcCall(Enabling(items, crtc)[k]);
      assert items[i] == SetCrtcCall(Enabling(items, crtc)[k]);
    } else {
      assert items[n] == SetCrtcCall(Enabling(items, crtc)[k]);
    }
  }

  lemma {:induction false} ObserverSummary(items: seq<Item>, connector: nat, crtc: nat)
    requires crtc != 0
    requires forall i :: 0 <= i < |items| ==> WellFormed(items[i])
    requires DistinctSequences(items)
    ensures var s := Observe(Initial(connector, crtc), Flatten(items));
            && s.expectedConnector == connector && s.expectedCrtc == crtc
            && Summary(s, Enabling(items, crtc))
    decreases |items|
  {
    if items != [] {
      var n := |items| - 1;
      var earlier, last := items[..n], items[n];
      ObserverSummary(earlier, connector, crtc);
      var s := Observe(Initial(connector, crtc), Flatten(earlier));
      var commits := Enabling(earlier, crtc);
      ObserveAppend(Initial(connector, crtc), Flatten(earlier), Records(last));
      match last
      case Unrelated(records) =>
        PassBy(s, records);
        assert Enabling(items, crtc) == commits;
      case SetCrtcCall(c) =>
        UnusedSequence(items, crtc, s);
        CommitEffect(s, c);
        if Enables(c, crtc) {
          AddCommit(s, commits, c);
          assert Enabling(items, crtc) == commits + [c];
        } else {
          assert Enabling(items, crtc) == commits;
        }
    }
  }

  lemma UnusedSequence(items: seq<Item>, crtc: nat, s: State)
    requires items != [] && DistinctSequences(items)
    requires forall i :: 0 <= i < |items| ==> WellFormed(items[i])
    requires items[|items| - 1].SetCrtcCall?
    requires Summary(s, Enabling(items[..|items| - 1], crtc))
    ensures s.sequence != items[|items| - 1].commit.sequence
    ensures s.sequence == 0 ==> Enabling(items[..|items| - 1], crtc) == []
  {
    var n := |items| - 1;
    var commits := Enabling(items[..n], crtc);
    if commits != [] {
      EnablingListed(items[..n], crtc, 0);
      EnablingListed(items[..n], crtc, |commits| - 1);
    }
  }

  /** The observer when a further commit begins: it follows none of that number. */
  lemma SummaryBefore(items: seq<Item>, c: Commit, connector: nat, crtc: nat)
    requires crtc != 0 && WellFormed(SetCrtcCall(c))
    requires forall i :: 0 <= i < |items| ==> WellFormed(items[i])
    requires DistinctSequences(items + [SetCrtcCall(c)])
    ensures var s := Observe(Initial(connector, crtc), Flatten(items));
            && s.expectedConnector == connector && s.expectedCrtc == crtc && s.sequence != c.sequence
            && Summary(s, Enabling(items, crtc))
  {
    var all := items + [SetCrtcCall(c)];
    assert all[..|items|] == items;
    assert forall i :: 0 <= i < |items| ==> all[i] == items[i];
    ObserverSummary(items, connector, crtc);
    UnusedSequence(all, crtc, Observe(Initial(connector, crtc), Flatten(items)));
  }

  lemma AddCommit(s: State, commits: seq<Commit>, c: Commit)
    requires Summary(s, commits) && s.expectedCrtc == c.crtc && Enables(c, c.crtc)
    requires s.sequence == 0 ==> commits == []
    ensures Summary(
              if Tracks(s, c) then
                s.(sequence := c.sequence, fb := c.fb,
                   connectorSeen := s.expectedConnector in c.connectors,
                   confirmed := s.confirmed || Good(c, s.expectedConnector),
                   failed := s.failed || !Good(c, s.expectedConnector))
              else s,
              commits + [c])
  {
    var all := commits + [c];
    assert all[|all| - 1] == c;
    assert commits != [] ==> all[0] == commits[0];
    if exists i :: 0 <= i < |commits| && !Good(commits[i], s.expectedConnector) {
      var i :| 0 <= i < |commits| && !Good(commits[i], s.expectedConnector);
      assert !Good(all[i], s.expectedConnector);
    }
    if exists i :: 0 <= i < |all| && !Good(all[i], s.expectedConnector) {
      var i :| 0 <= i < |all| && !Good(all[i], s.expectedConnector);
      assert i < |commits| ==> !Good(commits[i], s.expectedConnector);
    }
  }

  /** On every trace of contiguous commits the incremental observer reaches the
      verdict of the scan over the enabling commits. */
  lemma ObserverMatchesScan(items: seq<Item>, connector: nat, crtc: nat)
    requires crtc != 0
    requires forall i :: 0 <= i < |items| ==> WellFormed(items[i])
    requires DistinctSequences(items)
    ensures var s := Observe(Initial(connector, crtc), Flatten(items));
            s.expectedConnector == connector && Verdict(s, Enabling(items, crtc))
  {
    ObserverSummary(items, connector, crtc);
  }
}
