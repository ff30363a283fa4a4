/**
 What a list of input events means for its source, read off the list as a whole:
 which events are lost, which one decides the level of a key, and what is passed on.
 */
module EventMeaning {
  import opened Options
  import opened FanIn
  import opened InputBridge

  predicate NoReport(events: seq<InEvent>, from: nat, to: nat)
    requires to <= |events|
  {
    forall k :: from <= k < to ==> !events[k].SynReport?
  }

  /** Before event `n` the kernel has dropped events, and no SYN_REPORT has come since. */
  ghost predicate Lost(s: Source, events: seq<InEvent>, n: nat)
    requires n <= |events|
  {
    || (s.dropping && NoReport(events, 0, n))
    || exists d :: 0 <= d < n && events[d].SynDropped? && NoReport(events, d + 1, n)
  }

  /** The SYN_REPORT after a loss at which the kernel does not tell the key levels. */
  ghost predicate Unrecoverable(s: Source, events: seq<InEvent>, r: nat)
    requires r < |events|
  {
    events[r] == SynReport(None) && Lost(s, events, r)
  }

  ghost predicate GivenUpBy(s: Source, events: seq<InEvent>, n: nat)
    requires n <= |events|
  {
    exists r :: 0 <= r < n && Unrecoverable(s, events, r)
  }

  /** An event decides the level of a forwarded key: its press or release, or the
      SYN_REPORT after a loss. */
  ghost predicate Decides(s: Source, events: seq<InEvent>, k: nat, c: nat)
    requires k < |events| && c < KEY_CNT
  {
    && Mapped(s, c)
    && if Lost(s, events, k) then events[k].SynReport? && events[k].levels.Some?
       else events[k].KeyEvent? && events[k].code == c && (events[k].value == 0 || events[k].value == 1)
  }

  function DecidedLevel(e: InEvent, c: nat): bool
    requires c < KEY_CNT
  {
    match e
    case KeyEvent(_, value) => value == 1
    case SynReport(levels) => levels.Some? && levels.value[c]
    case _ => false
  }

  ghost predicate LastDecides(s: Source, events: seq<InEvent>, n: nat, k: nat, c: nat)
    requires k < n <= |events| && c < KEY_CNT
  {
    Decides(s, events, k, c) && forall j :: k < j < n ==> !Decides(s, events, j, c)
  }

  /** The level of a key after `n` events: what the last deciding event says, or what
      it was. */
  ghost predicate LevelAfter(s: Source, events: seq<InEvent>, n: nat, c: nat, level: bool)
    requires n <= |events| && c < KEY_CNT
  {
    || (level == s.pressed[c] && forall k :: 0 <= k < n ==> !Decides(s, events, k, c))
    || exists k :: 0 <= k < n && LastDecides(s, events, n, k, c) && level == DecidedLevel(events[k], c)
  }

  /** What an event that is not lost passes on to a device. */
  ghost function PassedTo(s: Source, events: seq<InEvent>, n: nat, toMouse: bool): seq<Out>
    requires n < |events|
  {
    var role := if toMouse then s.mouse else s.keyboard;
    match events[n]
    case MscScan(scan) => if role then [Scan(scan)] else []
    case RelEvent(axis, delta, supported) => if role && toMouse && supported then [Motion(axis, delta)] else []
    case KeyEvent(code, value) =>
      if value == 2 && Mapped(s, code) && IsButton(code) == toMouse && LevelAfter(s, events, n, code, true)
      then [Key(code, 2)] else []
    case _ => []
  }

  // ---------------------------------------------------------------------
  // One more event

  lemma {:induction false} LostNext(s: Source, events: seq<InEvent>, n: nat)
    requires n < |events|
    ensures events[n].SynDropped? ==> Lost(s, events, n + 1)
    ensures events[n].SynReport? ==> !Lost(s, events, n + 1)
    ensures !events[n].SynDropped? && !events[n].SynReport? ==> Lost(s, events, n + 1) == Lost(s, events, n)
  {
    if events[n].SynDropped? {
      assert NoReport(events, n + 1, n + 1);
    } else if !events[n].SynReport? {
      if d :| 0 <= d < n && events[d].SynDropped? && NoReport(events, d + 1, n) {
        assert NoReport(events, d + 1, n + 1);
      }
      if d :| 0 <= d < n + 1 && events[d].SynDropped? && NoReport(events, d + 1, n + 1) {
        assert NoReport(events, d + 1, n);
      }
    }
  }

  lemma {:induction false} LevelNext(s: Source, events: seq<InEvent>, n: nat, c: nat, level: bool)
    requires n < |events| && c < KEY_CNT && LevelAfter(s, events, n, c, level)
    ensures LevelAfter(s, events, n + 1, c, if Decides(s, events, n, c) then DecidedLevel(events[n], c) else level)
  {
    hide Decides;
    if Decides(s, events, n, c) {
      assert LastDecides(s, events, n + 1, n, c);
    } else if k :| 0 <= k < n && LastDecides(s, events, n, k, c) && level == DecidedLevel(events[k], c) {
      assert LastDecides(s, events, n + 1, k, c);
    }
  }

  lemma {:induction false} OneLevel(s: Source, events: seq<InEvent>, n: nat, c: nat)
    requires n <= |events| && c < KEY_CNT
    ensures !(LevelAfter(s, events, n, c, true) && LevelAfter(s, events, n, c, false))
  {
    hide Decides;
  }

  lemma {:induction false} GivenUpNext(s: Source, events: seq<InEvent>, n: nat)
    requires n < |events|
    ensures GivenUpBy(s, events, n + 1) <==> GivenUpBy(s, events, n) || Unrecoverable(s, events, n)
  {
    hide Unrecoverable;
  }

  /** The source's own view of the next event, key by key. */
  lemma {:induction false} StepDecides(s: Source, now: Source, events: seq<InEvent>, n: nat, c: nat)
    requires n < |events| && c < KEY_CNT
    requires now == s.(pressed := now.pressed, dropping := Lost(s, events, n))
    requires Follow(now, events[n]).Some?
    ensures Follow(now, events[n]).value.0[c]
            == if Decides(s, events, n, c) then DecidedLevel(events[n], c) else now.pressed[c]
  {
    hide Lost;
  }

  // ---------------------------------------------------------------------
  // Whole lists

  /** A source is given up exactly at the first loss that cannot be made good. Until
      then it knows whether events are being lost, and has every key at the level of
      the last event that decides it. */
  lemma {:induction false} Followed(s: Source, events: seq<InEvent>, n: nat)
    requires n <= |events|
    ensures FollowAll(s, events[..n]).None? <==> GivenUpBy(s, events, n)
    ensures FollowAll(s, events[..n]).Some? ==>
              && FollowAll(s, events[..n]).value.1 == Lost(s, events, n)
              && forall c :: 0 <= c < KEY_CNT ==>
                   LevelAfter(s, events, n, c, FollowAll(s, events[..n]).value.0[c])
    decreases n
  {
    hide Lost, LevelAfter, Unrecoverable, Decides;
    if n == 0 {
      NothingYet(s, events);
    } else {
      Followed(s, events, n - 1);
      assert events[..n][..n - 1] == events[..n - 1];
      GivenUpNext(s, events, n - 1);
      LostNext(s, events, n - 1);
      if FollowAll(s, events[..n - 1]).Some? {
        FollowedStep(s, events, n - 1);
      }
    }
  }

  lemma {:induction false} NothingYet(s: Source, events: seq<InEvent>)
    ensures !GivenUpBy(s, events, 0) && Lost(s, events, 0) == s.dropping
    ensures forall c :: 0 <= c < KEY_CNT ==> LevelAfter(s, events, 0, c, s.pressed[c])
  {
  }

  lemma {:induction false} FollowedStep(s: Source, events: seq<InEvent>, n: nat)
    requires n < |events| && FollowAll(s, events[..n]).Some?
    requires FollowAll(s, events[..n]).value.1 == Lost(s, events, n)
    requires forall c :: 0 <= c < KEY_CNT ==> LevelAfter(s, events, n, c, FollowAll(s, events[..n]).value.0[c])
    ensures var r := FollowAll(s, events[..n]).value;
            var next := Follow(s.(pressed := r.0, dropping := r.1), events[n]);
            && (next.None? <==> Unrecoverable(s, events, n))
            && (next.Some? ==>
                  && next.value.1 == Lost(s, events, n + 1)
                  && forall c :: 0 <= c < KEY_CNT ==> LevelAfter(s, events, n + 1, c, next.value.0[c]))
  {
    hide FollowAll, LevelAfter, Decides;
    var r := FollowAll(s, events[..n]).value;
    var now := s.(pressed := r.0, dropping := r.1);
    LostNext(s, events, n);
    if Follow(now, events[n]).Some? {
      forall c | 0 <= c < KEY_CNT
        ensures LevelAfter(s, events, n + 1, c, Follow(now, events[n]).value.0[c])
      {
        StepDecides(s, now, events, n, c);
        LevelNext(s, events, n, c, r.0[c]);
      }
    }
  }

  /** A device gets from a source exactly what the events that are not lost pass on to
      it, until the source is given up. */
  lemma {:induction false} SentMeans(s: Source, events: seq<InEvent>, n: nat, toMouse: bool)
    requires n < |events|
    ensures SentBy(s, events[..n + 1], toMouse)
            == if GivenUpBy(s, events, n) || Lost(s, events, n) then SentBy(s, events[..n], toMouse)
               else SentBy(s, events[..n], toMouse) + PassedTo(s, events, n, toMouse)
  {
    hide Lost, LevelAfter, GivenUpBy, FollowAll, SentBy;
    Followed(s, events, n);
    SentOneMore(s, events, n, toMouse);
    if FollowAll(s, events[..n]).Some? {
      var r := FollowAll(s, events[..n]).value;
      if events[n].KeyEvent? && events[n].code < KEY_CNT {
        OneLevel(s, events, n, events[n].code);
        assert LevelAfter(s, events, n, events[n].code, r.0[events[n].code]);
      }
    }
  }

  lemma {:induction false} SentOneMore(s: Source, events: seq<InEvent>, n: nat, toMouse: bool)
    requires n < |events|
    ensures SentBy(s, events[..n + 1], toMouse) == SentBy(s, events[..n], toMouse)
            + match FollowAll(s, events[..n])
              case None => []
              case Some(r) => Sent(s.(pressed := r.0, dropping := r.1), events[n], toMouse)
  {
    hide FollowAll, Sent;
    assert events[..n + 1][..n] == events[..n];
  }

  // ---------------------------------------------------------------------
  // Loss and recovery

  /** Events up to a loss, more events without a SYN_REPORT, and then one. */
  function LossAfter(pre: seq<InEvent>, mid: seq<InEvent>, levels: Option<Row>): seq<InEvent>
  {
    pre + [SynDropped] + mid + [SynReport(levels)]
  }

  /** Everything between the loss and the SYN_REPORT is lost. */
  lemma {:induction false} LostInBetween(s: Source, pre: seq<InEvent>, mid: seq<InEvent>, levels: Option<Row>, k: nat)
    requires |pre| < k <= |pre| + 1 + |mid| && NoReport(mid, 0, |mid|)
    ensures Lost(s, LossAfter(pre, mid, levels), k)
  {
    var all, d := LossAfter(pre, mid, levels), |pre|;
    assert all[d].SynDropped?;
    forall j | d + 1 <= j < k
      ensures !all[j].SynReport?
    {
      assert all[j] == mid[j - d - 1];
    }
    assert NoReport(all, d + 1, k);
  }

  lemma {:induction false} NotGivenUpBefore(s: Source, pre: seq<InEvent>, mid: seq<InEvent>, levels: Option<Row>)
    requires FollowAll(s, pre).Some? && NoReport(mid, 0, |mid|)
    ensures !GivenUpBy(s, LossAfter(pre, mid, levels), |pre| + 1 + |mid|)
  {
    hide Lost, LevelAfter, FollowAll;
    var all, d := LossAfter(pre, mid, levels), |pre|;
    assert all[..d] == pre;
    Followed(s, all, d);
    forall r | 0 <= r < d + 1 + |mid|
      ensures !Unrecoverable(s, all, r)
    {
      if r > d {
        assert all[r] == mid[r - d - 1];
      }
    }
  }

  /** After a loss a source that learns the key levels has every key it forwards at
      that level and every other key as it was, and goes on; what came in between has
      reached neither device. A source that does not learn them is given up. */
  lemma {:induction false} LossRecovered(s: Source, pre: seq<InEvent>, mid: seq<InEvent>, levels: Row)
    requires FollowAll(s, pre).Some? && NoReport(mid, 0, |mid|)
    ensures FollowAll(s, LossAfter(pre, mid, None)).None?
    ensures FollowAll(s, LossAfter(pre, mid, Some(levels))).Some?
    ensures var r := FollowAll(s, LossAfter(pre, mid, Some(levels))).value;
            !r.1 && forall c :: 0 <= c < KEY_CNT ==> r.0[c] == if Mapped(s, c) then levels[c] else s.pressed[c]
    ensures forall toMouse :: SentBy(s, LossAfter(pre, mid, Some(levels)), toMouse) == SentBy(s, pre, toMouse)
  {
    LossUnrecovered(s, pre, mid);
    LossReconciled(s, pre, mid, levels);
    SentNothingLost(s, pre, mid, Some(levels), true);
    SentNothingLost(s, pre, mid, Some(levels), false);
    forall toMouse
      ensures SentBy(s, LossAfter(pre, mid, Some(levels)), toMouse) == SentBy(s, pre, toMouse)
    {
    }
  }

  lemma {:induction false} LossUnrecovered(s: Source, pre: seq<InEvent>, mid: seq<InEvent>)
    requires NoReport(mid, 0, |mid|)
    ensures FollowAll(s, LossAfter(pre, mid, None)).None?
  {
    hide FollowAll, LevelAfter, Lost;
    var all, last := LossAfter(pre, mid, None), |pre| + 1 + |mid|;
    LostInBetween(s, pre, mid, None, last);
    assert all[..|all|] == all;
    Followed(s, all, |all|);
    assert Unrecoverable(s, all, last);
  }

  lemma {:induction false} LossReconciled(s: Source, pre: seq<InEvent>, mid: seq<InEvent>, levels: Row)
    requires FollowAll(s, pre).Some? && NoReport(mid, 0, |mid|)
    ensures FollowAll(s, LossAfter(pre, mid, Some(levels))).Some?
    ensures var r := FollowAll(s, LossAfter(pre, mid, Some(levels))).value;
            !r.1 && forall c :: 0 <= c < KEY_CNT ==> r.0[c] == if Mapped(s, c) then levels[c] else s.pressed[c]
  {
    hide FollowAll, Lost;
    var all, last := LossAfter(pre, mid, Some(levels)), |pre| + 1 + |mid|;
    NotGivenUpBefore(s, pre, mid, Some(levels));
    LostInBetween(s, pre, mid, Some(levels), last);
    LostNext(s, all, last);
    GivenUpNext(s, all, last);
    assert all[..|all|] == all;
    Followed(s, all, |all|);
    var row := FollowAll(s, all).value.0;
    forall c | 0 <= c < KEY_CNT
      ensures row[c] == if Mapped(s, c) then levels[c] else s.pressed[c]
    {
      if Mapped(s, c) {
        assert LastDecides(s, all, |all|, last, c);
        assert LevelAfter(s, all, |all|, c, levels[c]);
        OneLevel(s, all, |all|, c);
      }
      assert LevelAfter(s, all, |all|, c, row[c]);
    }
  }

  lemma {:induction false} SentNothingLost(s: Source, pre: seq<InEvent>, mid: seq<InEvent>, levels: Option<Row>,
                                           toMouse: bool)
    requires NoReport(mid, 0, |mid|)
    ensures SentBy(s, LossAfter(pre, mid, levels), toMouse) == SentBy(s, pre, toMouse)
  {
    hide SentBy, Lost, GivenUpBy, LevelAfter;
    var all := LossAfter(pre, mid, levels);
    var k := |pre|;
    assert all[..k] == pre;
    while k < |all|
      invariant |pre| <= k <= |all| && SentBy(s, all[..k], toMouse) == SentBy(s, pre, toMouse)
    {
      SentMeans(s, all, k, toMouse);
      if k > |pre| {
        LostInBetween(s, pre, mid, levels, k);
      }
      k := k + 1;
    }
    assert all[..k] == all;
  }

  /** Without a loss a key the source forwards is at the level of its last press or
      release, and any other key as it was; nothing gives the source up. */
  lemma {:induction false} LastEdgeDecides(s: Source, events: seq<InEvent>, c: nat)
    requires !s.dropping && c < KEY_CNT
    requires forall k :: 0 <= k < |events| ==> !events[k].SynDropped?
    ensures FollowAll(s, events).Some? && !FollowAll(s, events).value.1
    ensures forall k :: 0 <= k < |events| && Mapped(s, c) && IsEdge(events[k], c)
                        && (forall j :: k < j < |events| ==> !IsEdge(events[j], c)) ==>
              FollowAll(s, events).value.0[c] == (events[k].value == 1)
    ensures !Mapped(s, c) || (forall k :: 0 <= k < |events| ==> !IsEdge(events[k], c)) ==>
              FollowAll(s, events).value.0[c] == s.pressed[c]
  {
    hide FollowAll;
    assert events[..|events|] == events;
    Followed(s, events, |events|);
    forall k | 0 <= k <= |events|
      ensures !Lost(s, events, k)
    {
    }
    assert !GivenUpBy(s, events, |events|);
    var row := FollowAll(s, events).value.0;
    assert LevelAfter(s, events, |events|, c, row[c]);
    forall k | 0 <= k < |events|
      ensures Decides(s, events, k, c) <==> Mapped(s, c) && IsEdge(events[k], c)
    {
    }
    if k :| 0 <= k < |events| && Mapped(s, c) && IsEdge(events[k], c)
            && forall j :: k < j < |events| ==> !IsEdge(events[j], c) {
      assert LastDecides(s, events, |events|, k, c);
      assert LevelAfter(s, events, |events|, c, events[k].value == 1);
      OneLevel(s, events, |events|, c);
    }
  }

  /** A press or release of this key. */
  predicate IsEdge(e: InEvent, c: nat)
  {
    e.KeyEvent? && e.code == c && (e.value == 0 || e.value == 1)
  }

  // ---------------------------------------------------------------------
  // A turn of the bridge

  ghost predicate Stays(s: Source, poll: Poll)
  {
    match poll
    case Idle => true
    case Error => false
    case Events(events, clean) => clean && !GivenUpBy(s, events, |events|)
  }

  /** The key is down for this source after what its poll brought. */
  ghost predicate DownAfter(s: Source, poll: Poll, c: nat)
    requires c < KEY_CNT
  {
    match poll
    case Events(events, _) => LevelAfter(s, events, |events|, c, true)
    case _ => s.pressed[c]
  }

  ghost predicate HeldBy(s: Source, poll: Poll, c: nat)
    requires c < KEY_CNT
  {
    Stays(s, poll) && DownAfter(s, poll, c)
  }

  lemma {:induction false} PollMeans(s: Source, poll: Poll, c: nat)
    requires c < KEY_CNT
    ensures Survives(s, poll) <==> Stays(s, poll)
    ensures Survives(s, poll) ==> (Polled(s, poll).pressed[c] <==> DownAfter(s, poll, c))
  {
    hide FollowAll, LevelAfter, GivenUpBy;
    if poll.Events? {
      var events := poll.events;
      assert events[..|events|] == events;
      Followed(s, events, |events|);
      if FollowAll(s, events).Some? {
        OneLevel(s, events, |events|, c);
        assert LevelAfter(s, events, |events|, c, FollowAll(s, events).value.0[c]);
      }
    }
  }

  lemma {:induction false} AnySurvivor(sources: seq<Source>, polls: seq<Poll>, c: nat)
    requires |sources| == |polls| && c < KEY_CNT
    ensures Any(Rows(Survivors(sources, polls)), c)
            <==> exists i :: 0 <= i < |sources| && HeldBy(sources[i], polls[i], c)
    decreases |sources|
  {
    hide Survives, Polled, Stays, DownAfter;
    if sources != [] {
      AnySurvivor(sources[1..], polls[1..], c);
      PollMeans(sources[0], polls[0], c);
      var rest := Survivors(sources[1..], polls[1..]);
      if Survives(sources[0], polls[0]) {
        AnyOfMore(Polled(sources[0], polls[0]), rest, c);
      } else {
        assert [] + rest == rest;
      }
      HeldByMore(sources, polls, c);
    }
  }

  lemma {:induction false} AnyOfMore(s: Source, rest: seq<Source>, c: nat)
    requires c < KEY_CNT
    ensures Any(Rows([s] + rest), c) <==> s.pressed[c] || Any(Rows(rest), c)
  {
    var all := Rows([s] + rest);
    assert all[0] == s.pressed && forall i :: 0 <= i < |rest| ==> all[i + 1] == Rows(rest)[i];
    if j :| 0 <= j < |rest| && Rows(rest)[j][c] {
      assert all[j + 1][c];
    }
    if j :| 0 < j < |all| && all[j][c] {
      assert Rows(rest)[j - 1][c];
    }
  }

  lemma {:induction false} HeldByMore(sources: seq<Source>, polls: seq<Poll>, c: nat)
    requires 0 < |sources| == |polls| && c < KEY_CNT
    ensures (exists i :: 0 <= i < |sources| && HeldBy(sources[i], polls[i], c))
            <==> HeldBy(sources[0], polls[0], c)
                 || exists i :: 0 <= i < |sources[1..]| && HeldBy(sources[1..][i], polls[1..][i], c)
  {
    hide HeldBy;
    if i :| 0 <= i < |sources[1..]| && HeldBy(sources[1..][i], polls[1..][i], c) {
      assert HeldBy(sources[i + 1], polls[i + 1], c);
    }
    if i :| 0 <= i < |sources| && HeldBy(sources[i], polls[i], c) && i > 0 {
      assert HeldBy(sources[1..][i - 1], polls[1..][i - 1], c);
    }
  }

  /** After every turn a reader of the two streams sees a key down if and only if it is
      down for some source that stays, going by the events of that turn. */
  lemma {:induction false} ReaderSees(v: TurnView, c: nat)
    requires Faithful(v) && c < KEY_CNT
    ensures Down(if IsButton(c) then v.mouse else v.keyboard, c)
            <==> exists i :: 0 <= i < |v.before| && HeldBy(v.before[i], v.polls[i], c)
    ensures !Down(if IsButton(c) then v.keyboard else v.mouse, c)
  {
    hide HeldBy, Survivors;
    AnySurvivor(v.before, v.polls, c);
    assert Rows(Bares(v.after)) == Rows(v.after);
  }
}
