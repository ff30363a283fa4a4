/**
 The capture analyser: the longest readable run of frames, its run-length
 holds, and the accounting of updates, skipped frames and discontinuities.
 */
module Cadence {
  import opened Options
  import opened GrayCode

  datatype DecodedFrame = DecodedFrame(ptsMs: real, top: Option<nat>, bottom: Option<nat>)
  {
    predicate Valid()
    {
      top.Some? && bottom.Some?
    }
  }

  datatype Hold = Hold(id: nat, durationMs: real, frames: nat)

  datatype Report = Report(
    valid: seq<DecodedFrame>,
    durationMs: real,
    torn: nat,
    holds: seq<Hold>,
    updates: nat,
    sourceSkips: nat,
    discontinuities: nat,
    captureDuplicates: int)

  // ---------------------------------------------------------------------
  // The longest valid run

  ghost predicate AllValid(frames: seq<DecodedFrame>, lo: int, hi: int)
  {
    0 <= lo <= hi <= |frames| && forall k :: lo <= k < hi ==> frames[k].Valid()
  }

  /** `run` is a longest contiguous slice of readable frames, and the earliest
      of those when several are equally long. */
  ghost predicate IsLongestValidRun(frames: seq<DecodedFrame>, run: seq<DecodedFrame>, lo: nat)
  {
    && lo + |run| <= |frames|
    && run == frames[lo..lo + |run|]
    && AllValid(frames, lo, lo + |run|)
    && (forall i, j :: AllValid(frames, i, j) ==> j - i <= |run|)
    && (forall i, j :: AllValid(frames, i, j) && j - i == |run| > 0 ==> lo <= i)
  }

  /** The runs collected so far: where each starts, and which run owns each
      readable frame before `upTo`. */
  ghost predicate Collected(frames: seq<DecodedFrame>, upTo: int, runs: seq<seq<DecodedFrame>>,
                            starts: seq<nat>, owner: seq<nat>)
  {
    && 0 <= upTo <= |frames|
    && |starts| == |runs| && |owner| == upTo
    && (forall r :: 0 <= r < |runs| ==>
          && runs[r] != []
          && starts[r] + |runs[r]| <= upTo
          && runs[r] == frames[starts[r]..starts[r] + |runs[r]|]
          && AllValid(frames, starts[r], starts[r] + |runs[r]|)
          && (starts[r] + |runs[r]| < |frames| ==> !frames[starts[r] + |runs[r]|].Valid()))
    && (forall r, s :: 0 <= r < s < |runs| ==> starts[r] < starts[s])
    && (forall k :: 0 <= k < upTo && frames[k].Valid() ==>
          owner[k] < |runs| && starts[owner[k]] <= k < starts[owner[k]] + |runs[owner[k]]|)
  }

  lemma CloseRun(frames: seq<DecodedFrame>, begin: int, runs: seq<seq<DecodedFrame>>,
                 starts: seq<nat>, owner: seq<nat>, end: int)
    requires Collected(frames, begin, runs, starts, owner)
    requires AllValid(frames, begin, end) && begin < end
    requires end < |frames| ==> !frames[end].Valid()
    ensures Collected(frames, end, runs + [frames[begin..end]], starts + [begin],
                      owner + Repeat(|runs|, end - begin))
  {
  }

  lemma SkipUnreadable(frames: seq<DecodedFrame>, upTo: int, runs: seq<seq<DecodedFrame>>,
                       starts: seq<nat>, owner: seq<nat>)
    requires Collected(frames, upTo, runs, starts, owner)
    requires upTo < |frames| && !frames[upTo].Valid()
    ensures Collected(frames, upTo + 1, runs, starts, owner + [0])
  {
  }

  lemma NothingYet(frames: seq<DecodedFrame>)
    ensures Collected(frames, 0, [], [], [])
  {
  }

  method CollectRuns(frames: seq<DecodedFrame>)
    returns (runs: seq<seq<DecodedFrame>>, ghost starts: seq<nat>, ghost owner: seq<nat>)
    ensures Collected(frames, |frames|, runs, starts, owner)
    ensures exists s, o :: Collected(frames, |frames|, runs, s, o)
  {
    hide Collected;
    runs, starts, owner := [], [], [];
    NothingYet(frames);
    var current: seq<DecodedFrame> := [];
    ghost var begin: nat := 0;
    for n := 0 to |frames|
      invariant begin + |current| == n
      invariant current == frames[begin..n] && AllValid(frames, begin, n)
      invariant Collected(frames, begin, runs, starts, owner)
    {
      if frames[n].Valid() {
        current := current + [frames[n]];
      } else {
        if current != [] {
          CloseRun(frames, begin, runs, starts, owner, n);
          starts, owner := starts + [begin], owner + Repeat(|runs|, n - begin);
          runs := runs + [current];
          current := [];
        }
        SkipUnreadable(frames, n, runs, starts, owner);
        owner := owner + [0];
        begin := n + 1;
      }
    }
    if current != [] {
      CloseRun(frames, begin, runs, starts, owner, |frames|);
      starts, owner := starts + [begin], owner + Repeat(|runs|, |frames| - begin);
      runs := runs + [current];
    }
  }

  method LongestValidRun(frames: seq<DecodedFrame>) returns (run: seq<DecodedFrame>, ghost lo: nat)
    ensures IsLongestValidRun(frames, run, lo)
    ensures exists start :: IsLongestValidRun(frames, run, start)
  {
    hide Collected, IsLongestValidRun;
    ghost var starts, owner;
    var runs;
    runs, starts, owner := CollectRuns(frames);
    if runs == [] {
      run, lo := [], 0;
      NoneIsLongest(frames, starts, owner);
      return;
    }
    var best := 0;
    for r := 1 to |runs|
      invariant 0 <= best < r
      invariant FirstLongest(runs, best, r)
    {
      if |runs[r]| > |runs[best]| {
        best := r;
      }
    }
    BestIsLongest(frames, runs, starts, owner, best);
    run, lo := runs[best], starts[best];
  }

  /** Among the first `n` runs, `best` is the first of the longest. */
  ghost predicate FirstLongest(runs: seq<seq<DecodedFrame>>, best: int, n: int)
  {
    && 0 <= best < n <= |runs|
    && (forall s :: 0 <= s < n ==> |runs[s]| <= |runs[best]|)
    && (forall s :: 0 <= s < n && |runs[s]| == |runs[best]| ==> best <= s)
  }

  lemma NoneIsLongest(frames: seq<DecodedFrame>, starts: seq<nat>, owner: seq<nat>)
    requires Collected(frames, |frames|, [], starts, owner)
    ensures IsLongestValidRun(frames, [], 0)
  {
    NothingCollected(frames, starts, owner);
    forall i, j | AllValid(frames, i, j)
      ensures j - i <= 0
    {
      if i < |frames| {
        StopsAtUnreadable(frames, i, j, i);
      }
    }
  }

  lemma BestIsLongest(frames: seq<DecodedFrame>, runs: seq<seq<DecodedFrame>>, starts: seq<nat>,
                      owner: seq<nat>, best: nat)
    requires Collected(frames, |frames|, runs, starts, owner) && FirstLongest(runs, best, |runs|)
    ensures |starts| == |runs| && IsLongestValidRun(frames, runs[best], starts[best])
  {
    var run, lo := runs[best], starts[best];
    forall i, j | AllValid(frames, i, j) && i < j
      ensures j - i <= |run| && (j - i == |run| ==> lo <= i)
    {
      assert frames[i].Valid();
      SliceInOwner(frames, runs, starts, owner, i, j);
    }
  }

  lemma SliceInOwner(frames: seq<DecodedFrame>, runs: seq<seq<DecodedFrame>>, starts: seq<nat>,
                     owner: seq<nat>, i: int, j: int)
    requires Collected(frames, |frames|, runs, starts, owner)
    requires AllValid(frames, i, j) && i < j
    ensures owner[i] < |runs|
    ensures starts[owner[i]] <= i && j <= starts[owner[i]] + |runs[owner[i]]|
  {
    assert frames[i].Valid();
    var end := starts[owner[i]] + |runs[owner[i]]|;
    if end < |frames| {
      StopsAtUnreadable(frames, i, j, end);
    }
  }

  lemma StopsAtUnreadable(frames: seq<DecodedFrame>, i: int, j: int, k: int)
    requires AllValid(frames, i, j)
    requires 0 <= k < |frames| && !frames[k].Valid()
    ensures !(i <= k < j)
  {
  }

  lemma NothingCollected(frames: seq<DecodedFrame>, starts: seq<nat>, owner: seq<nat>)
    requires Collected(frames, |frames|, [], starts, owner)
    ensures forall k :: 0 <= k < |frames| ==> !frames[k].Valid()
  {
  }

  // ---------------------------------------------------------------------
  // Holds: the run-length encoding of the identifiers

  function Ids(valid: seq<DecodedFrame>): (ids: seq<nat>)
    requires forall f :: f in valid ==> f.top.Some?
    ensures |ids| == |valid|
  {
    seq(|valid|, i requires 0 <= i < |valid| => valid[i].top.value)
  }

  function Repeat(id: nat, n: nat): (ids: seq<nat>)
    ensures |ids| == n
  {
    seq(n, _ => id)
  }

  function Expand(holds: seq<Hold>): seq<nat>
  {
    if holds == [] then [] else Expand(holds[..|holds| - 1]) + Repeat(holds[|holds| - 1].id, holds[|holds| - 1].frames)
  }

  function TotalDuration(holds: seq<Hold>): real
  {
    if holds == [] then 0.0
    else TotalDuration(holds[..|holds| - 1]) + holds[|holds| - 1].durationMs
  }

  ghost predicate Canonical(holds: seq<Hold>)
  {
    && (forall i :: 0 <= i < |holds| ==> holds[i].frames > 0)
    && (forall i :: 0 < i < |holds| ==> holds[i - 1].id != holds[i].id)
  }

  /** The transition list of a hold list: each pair of neighbouring identifiers. */
  ghost predicate TransitionsOf(holds: seq<Hold>, transitions: seq<(nat, nat)>)
  {
    && |holds| > 0 && |transitions| == |holds| - 1
    && forall i :: 0 <= i < |transitions| ==>
         transitions[i].0 == holds[i].id && transitions[i].1 == holds[i + 1].id
  }

  /** Closed holds, and one of another identifier still open. */
  ghost predicate OpenAfter(holds: seq<Hold>, openId: nat)
  {
    Canonical(holds) && (holds != [] ==> holds[|holds| - 1].id != openId)
  }

  /** One transition per closed hold, the last one into the open hold. */
  ghost predicate Linked(holds: seq<Hold>, transitions: seq<(nat, nat)>, openId: nat)
  {
    && |transitions| == |holds|
    && (forall i :: 0 <= i < |holds| ==> transitions[i].0 == holds[i].id)
    && (forall i :: 0 <= i < |holds| - 1 ==> transitions[i].1 == holds[i + 1].id)
    && (holds != [] ==> transitions[|holds| - 1].1 == openId)
  }

  /** The holds closed so far and the one still open, after some frames. */
  ghost predicate Holding(ids: seq<nat>, holds: seq<Hold>, transitions: seq<(nat, nat)>,
                          openId: nat, openFrames: nat)
  {
    && openFrames > 0 && OpenAfter(holds, openId) && Linked(holds, transitions, openId)
    && Expand(holds) + Repeat(openId, openFrames) == ids
  }

  lemma KeepHolding(ids: seq<nat>, holds: seq<Hold>, transitions: seq<(nat, nat)>,
                    openId: nat, openFrames: nat)
    requires Holding(ids, holds, transitions, openId, openFrames)
    ensures Holding(ids + [openId], holds, transitions, openId, openFrames + 1)
  {
    assert Repeat(openId, openFrames + 1) == Repeat(openId, openFrames) + [openId];
  }

  lemma CloseHold(holds: seq<Hold>, closed: Hold)
    requires OpenAfter(holds, closed.id) && closed.frames > 0
    ensures Canonical(holds + [closed])
  {
  }

  lemma LinkNext(holds: seq<Hold>, transitions: seq<(nat, nat)>, closed: Hold, id: nat)
    requires Linked(holds, transitions, closed.id)
    ensures Linked(holds + [closed], transitions + [(closed.id, id)], id)
  {
    var all, links := holds + [closed], transitions + [(closed.id, id)];
    forall i | 0 <= i < |all| - 1
      ensures links[i].1 == all[i + 1].id
    {
      assert links[i] == transitions[i];
      assert i + 1 < |holds| ==> all[i + 1] == holds[i + 1];
    }
  }

  lemma NextHold(ids: seq<nat>, holds: seq<Hold>, transitions: seq<(nat, nat)>,
                 closed: Hold, id: nat)
    requires Holding(ids, holds, transitions, closed.id, closed.frames) && id != closed.id
    ensures Holding(ids + [id], holds + [closed], transitions + [(closed.id, id)], id, 1)
  {
    CloseHold(holds, closed);
    LinkNext(holds, transitions, closed, id);
    ExtendHolds(holds, closed);
    assert Repeat(id, 1) == [id];
  }

  lemma LastHold(ids: seq<nat>, holds: seq<Hold>, transitions: seq<(nat, nat)>, last: Hold)
    requires Holding(ids, holds, transitions, last.id, last.frames)
    ensures Canonical(holds + [last]) && TransitionsOf(holds + [last], transitions)
    ensures Expand(holds + [last]) == ids
  {
    CloseHold(holds, last);
    ExtendHolds(holds, last);
    var all := holds + [last];
    forall i | 0 <= i < |transitions|
      ensures transitions[i].0 == all[i].id && transitions[i].1 == all[i + 1].id
    {
      assert all[i] == holds[i];
      assert i + 1 < |holds| ==> all[i + 1] == holds[i + 1];
    }
  }

  lemma FirstHold(ids: seq<nat>)
    requires ids != []
    ensures Holding(ids[..1], [], [], ids[0], 1)
  {
    assert Repeat(ids[0], 1) == ids[..1];
  }

  lemma NextId(valid: seq<DecodedFrame>, n: nat)
    requires (forall f :: f in valid ==> f.top.Some?) && n < |valid|
    ensures valid[n].top.Some? && Ids(valid)[..n + 1] == Ids(valid)[..n] + [valid[n].top.value]
  {
    assert valid[n] in valid;
  }

  /** The frame a hold starts with: all frames of the earlier holds come before it. */
  function StartOf(holds: seq<Hold>, i: nat): nat
    requires i <= |holds|
  {
    if i == 0 then 0 else StartOf(holds, i - 1) + holds[i - 1].frames
  }

  /** A hold lasts from its first frame to the first frame of the next one. */
  ghost predicate LastsToNext(holds: seq<Hold>, valid: seq<DecodedFrame>, i: nat)
    requires i < |holds|
  {
    && StartOf(holds, i) < |valid| && StartOf(holds, i + 1) < |valid|
    && holds[i].durationMs == valid[StartOf(holds, i + 1)].ptsMs - valid[StartOf(holds, i)].ptsMs
  }

  /** So do the first `n` holds, and there are frames left. */
  ghost predicate Clocked(holds: seq<Hold>, n: nat, valid: seq<DecodedFrame>)
  {
    && n <= |holds| && StartOf(holds, n) < |valid|
    && forall i :: 0 <= i < n ==> LastsToNext(holds, valid, i)
  }

  /** So does every hold but the last, which lasts until one frame interval after the
      last frame. */
  ghost predicate Timed(holds: seq<Hold>, valid: seq<DecodedFrame>, nominalMs: real)
  {
    var last := |holds| - 1;
    && last >= 0 && Clocked(holds, last, valid) && StartOf(holds, |holds|) == |valid|
    && holds[last].durationMs == valid[|valid| - 1].ptsMs - valid[StartOf(holds, last)].ptsMs + nominalMs
  }

  lemma {:induction false} StartOfPrefix(holds: seq<Hold>, hold: Hold, i: nat)
    requires i <= |holds|
    ensures StartOf(holds + [hold], i) == StartOf(holds, i)
  {
    if i > 0 {
      StartOfPrefix(holds, hold, i - 1);
      assert (holds + [hold])[i - 1] == holds[i - 1];
    }
  }

  /** Another hold changes nothing about the earlier ones. */
  lemma {:induction false} ClockedBefore(holds: seq<Hold>, hold: Hold, valid: seq<DecodedFrame>)
    requires Clocked(holds, |holds|, valid)
    ensures Clocked(holds + [hold], |holds|, valid)
    ensures StartOf(holds + [hold], |holds|) == StartOf(holds, |holds|)
    ensures StartOf(holds + [hold], |holds| + 1) == StartOf(holds, |holds|) + hold.frames
  {
    var all := holds + [hold];
    StartOfPrefix(holds, hold, |holds|);
    forall i | 0 <= i < |holds|
      ensures LastsToNext(all, valid, i)
    {
      StartOfPrefix(holds, hold, i);
      StartOfPrefix(holds, hold, i + 1);
      assert LastsToNext(holds, valid, i) && all[i] == holds[i];
    }
  }

  lemma {:induction false} ClockedNext(holds: seq<Hold>, valid: seq<DecodedFrame>, closed: Hold)
    requires Clocked(holds, |holds|, valid) && StartOf(holds, |holds|) + closed.frames < |valid|
    requires closed.durationMs ==
             valid[StartOf(holds, |holds|) + closed.frames].ptsMs - valid[StartOf(holds, |holds|)].ptsMs
    ensures Clocked(holds + [closed], |holds| + 1, valid)
    ensures StartOf(holds + [closed], |holds| + 1) == StartOf(holds, |holds|) + closed.frames
  {
    ClockedBefore(holds, closed, valid);
    assert LastsToNext(holds + [closed], valid, |holds|) by {
      hide StartOf;
    }
  }

  lemma {:induction false} TimedLast(holds: seq<Hold>, valid: seq<DecodedFrame>, last: Hold, nominalMs: real)
    requires Clocked(holds, |holds|, valid) && StartOf(holds, |holds|) + last.frames == |valid|
    requires last.durationMs == valid[|valid| - 1].ptsMs - valid[StartOf(holds, |holds|)].ptsMs + nominalMs
    ensures Timed(holds + [last], valid, nominalMs)
  {
    hide StartOf, LastsToNext;
    ClockedBefore(holds, last, valid);
  }

  lemma {:induction false} ClockedTotal(holds: seq<Hold>, n: nat, valid: seq<DecodedFrame>)
    requires Clocked(holds, n, valid)
    ensures TotalDuration(holds[..n]) == valid[StartOf(holds, n)].ptsMs - valid[0].ptsMs
  {
    if n > 0 {
      assert LastsToNext(holds, valid, n - 1);
      ClockedTotal(holds, n - 1, valid);
      assert holds[..n][..n - 1] == holds[..n - 1];
    }
  }

  /** The durations add up to the span of the capture. */
  lemma {:induction false} DurationsAddUp(holds: seq<Hold>, valid: seq<DecodedFrame>, nominalMs: real)
    requires Timed(holds, valid, nominalMs)
    ensures TotalDuration(holds) == valid[|valid| - 1].ptsMs - valid[0].ptsMs + nominalMs
  {
    ClockedTotal(holds, |holds| - 1, valid);
  }

  method CollectHolds(valid: seq<DecodedFrame>, nominalMs: real)
    returns (holds: seq<Hold>, transitions: seq<(nat, nat)>)
    requires valid != []
    requires forall f :: f in valid ==> f.top.Some?
    ensures Canonical(holds) && Expand(holds) == Ids(valid)
    ensures TransitionsOf(holds, transitions)
    ensures Timed(holds, valid, nominalMs)
  {
    hide Holding, Expand, Canonical, TransitionsOf, Timed, LastsToNext;
    holds, transitions := [], [];
    var holdId := valid[0].top.value;
    var holdStartedMs := valid[0].ptsMs;
    var holdFrames := 1;
    var previousId := holdId;
    ghost var ids := Ids(valid);
    FirstHold(ids);
    for n := 1 to |valid|
      invariant previousId == holdId
      invariant Holding(ids[..n], holds, transitions, holdId, holdFrames)
      invariant Clocked(holds, |holds|, valid)
      invariant StartOf(holds, |holds|) + holdFrames == n
      invariant holdStartedMs == valid[StartOf(holds, |holds|)].ptsMs
    {
      assert valid[n] in valid;
      var currentId := valid[n].top.value;
      NextId(valid, n);
      if currentId == holdId {
        KeepHolding(ids[..n], holds, transitions, holdId, holdFrames);
        holdFrames := holdFrames + 1;
      } else {
        var closed := Hold(holdId, valid[n].ptsMs - holdStartedMs, holdFrames);
        NextHold(ids[..n], holds, transitions, closed, currentId);
        ClockedNext(holds, valid, closed);
        holds := holds + [closed];
        transitions := transitions + [(previousId, currentId)];
        previousId := currentId;
        holdId := currentId;
        holdStartedMs := valid[n].ptsMs;
        holdFrames := 1;
      }
    }
    assert ids[..|valid|] == ids;
    var last := Hold(holdId, valid[|valid| - 1].ptsMs - holdStartedMs + nominalMs, holdFrames);
    LastHold(ids, holds, transitions, last);
    TimedLast(holds, valid, last, nominalMs);
    holds := holds + [last];
  }

  /** The first and last identifiers of a capture head and close its holds. */
  lemma EndsOfExpansion(holds: seq<Hold>)
    requires Canonical(holds) && holds != []
    ensures Expand(holds) != []
    ensures Expand(holds)[0] == holds[0].id
    ensures Expand(holds)[|Expand(holds)| - 1] == holds[|holds| - 1].id
  {
    LastRun(holds);
    if |holds| > 1 {
      EndsOfExpansion(holds[..|holds| - 1]);
    }
  }

  lemma ExtendHolds(holds: seq<Hold>, hold: Hold)
    ensures Expand(holds + [hold]) == Expand(holds) + Repeat(hold.id, hold.frames)
    ensures TotalDuration(holds + [hold]) == TotalDuration(holds) + hold.durationMs
  {
    assert (holds + [hold])[..|holds|] == holds;
  }

  /** A sequence of identifiers has one canonical run-length encoding. */
  lemma {:induction false} RunLengthUnique(a: seq<Hold>, b: seq<Hold>)
    requires Canonical(a) && Canonical(b) && Expand(a) == Expand(b)
    ensures |a| == |b|
    ensures forall i :: 0 <= i < |a| ==> a[i].id == b[i].id && a[i].frames == b[i].frames
    decreases |a|
  {
    ExpandEmpty(a);
    ExpandEmpty(b);
    if a != [] && b != [] {
      var m, n := |a| - 1, |b| - 1;
      LastRun(a);
      LastRun(b);
      MaximalTailUnique(Expand(a), a[m].id, a[m].frames, b[n].id, b[n].frames);
      var len := |Expand(a)|;
      assert Expand(a[..m]) == Expand(a)[..len - a[m].frames];
      assert Expand(b[..n]) == Expand(b)[..len - b[n].frames];
      RunLengthUnique(a[..m], b[..n]);
    }
  }

  lemma ExpandEmpty(holds: seq<Hold>)
    requires Canonical(holds)
    ensures Expand(holds) == [] <==> holds == []
  {
  }

  /** The longest tail of equal identifiers has length `n`. */
  ghost predicate MaximalTail(ids: seq<nat>, id: nat, n: nat)
  {
    && 0 < n <= |ids|
    && (forall k :: |ids| - n <= k < |ids| ==> ids[k] == id)
    && (n < |ids| ==> ids[|ids| - 1 - n] != id)
  }

  lemma MaximalTailUnique(ids: seq<nat>, id: nat, n: nat, id': nat, n': nat)
    requires MaximalTail(ids, id, n) && MaximalTail(ids, id', n')
    ensures id == id' && n == n'
  {
    assert ids[|ids| - 1] == id == id';
  }

  lemma LastRun(holds: seq<Hold>)
    requires Canonical(holds) && holds != []
    ensures MaximalTail(Expand(holds), holds[|holds| - 1].id, holds[|holds| - 1].frames)
  {
    var m := |holds| - 1;
    if m > 0 {
      var before := holds[..m];
      assert Expand(before) == Expand(before[..m - 1]) + Repeat(before[m - 1].id, before[m - 1].frames);
    }
  }

  lemma {:induction false} ExpandLength(holds: seq<Hold>)
    requires Canonical(holds)
    ensures |holds| <= |Expand(holds)|
  {
    if holds != [] {
      ExpandLength(holds[..|holds| - 1]);
    }
  }

  // ---------------------------------------------------------------------
  // Skips and discontinuities

  function Delta(previous: nat, current: nat): int
  {
    (current - previous) % ID_RANGE
  }

  predicate Forward(step: (nat, nat))
  {
    1 <= Delta(step.0, step.1) < 0x8000
  }

  function Skips(transitions: seq<(nat, nat)>): nat
  {
    if transitions == [] then 0
    else
      var last := transitions[|transitions| - 1];
      Skips(transitions[..|transitions| - 1])
      + if Forward(last) then Delta(last.0, last.1) - 1 else 0
  }

  function Discontinuities(transitions: seq<(nat, nat)>): nat
  {
    if transitions == [] then 0
    else Discontinuities(transitions[..|transitions| - 1])
         + if Forward(transitions[|transitions| - 1]) then 0 else 1
  }

  method Account(transitions: seq<(nat, nat)>) returns (sourceSkips: nat, discontinuities: nat)
    ensures sourceSkips == Skips(transitions)
    ensures discontinuities == Discontinuities(transitions)
  {
    sourceSkips, discontinuities := 0, 0;
    for n := 0 to |transitions|
      invariant sourceSkips == Skips(transitions[..n])
      invariant discontinuities == Discontinuities(transitions[..n])
    {
      assert transitions[..n + 1][..n] == transitions[..n];
      var delta := Delta(transitions[n].0, transitions[n].1);
      if 1 <= delta < 0x8000 {
        sourceSkips := sourceSkips + delta - 1;
      } else {
        discontinuities := discontinuities + 1;
      }
    }
    assert transitions[..|transitions|] == transitions;
  }

  /** Without a discontinuity the counts explain the whole distance between the
      first and the last identifier. */
  lemma {:induction false} CountsExplainDistance(holds: seq<Hold>, transitions: seq<(nat, nat)>)
    requires TransitionsOf(holds, transitions)
    requires Discontinuities(transitions) == 0
    ensures (holds[0].id + |transitions| + Skips(transitions)) % ID_RANGE
            == holds[|holds| - 1].id % ID_RANGE
    decreases |holds|
  {
    if |holds| > 1 {
      var m := |holds| - 1;
      CountsExplainDistance(holds[..m], transitions[..m - 1]);
      var p, c := holds[m - 1].id, holds[m].id;
      assert transitions[m - 1] == (p, c);
      var sum := holds[0].id + (m - 1) + Skips(transitions[..m - 1]);
      ModuloStep(sum, p, c);
    }
  }

  lemma ModuloStep(sum: nat, p: nat, c: nat)
    requires sum % ID_RANGE == p % ID_RANGE
    ensures (sum + Delta(p, c)) % ID_RANGE == c % ID_RANGE
  {
    var a, b := sum / ID_RANGE, p / ID_RANGE;
    var q := (c - p) / ID_RANGE;
    assert c - p == q * ID_RANGE + Delta(p, c);
    assert sum + Delta(p, c) == c + (a - b - q) * ID_RANGE;
    ModuloMultiple(c, a - b - q);
  }

  lemma ModuloMultiple(n: int, k: int)
    ensures (n + k * ID_RANGE) % ID_RANGE == n % ID_RANGE
  {
  }

  // ---------------------------------------------------------------------
  // What a skip means

  /** Numbers in order, never jumping by half the identifier range or more. */
  ghost predicate Advancing(shown: seq<nat>)
  {
    forall i :: 0 < i < |shown| ==> shown[i - 1] <= shown[i] < shown[i - 1] + 0x8000
  }

  /** Source frames shown in order, all within one stretch of 65536 frames in which
      the band counts up. */
  ghost predicate SteadyCapture(shown: seq<nat>)
  {
    && Advancing(shown)
    && forall i :: 0 <= i < |shown| ==> Climbing(shown[i], shown[0] / (2 * ID_RANGE))
  }

  predicate Climbing(frame: nat, cycle: nat)
  {
    frame / (2 * ID_RANGE) == cycle && frame % (2 * ID_RANGE) < ID_RANGE
  }

  function Shown(shown: seq<nat>): set<nat>
  {
    set n | n in shown
  }

  function Range(first: nat, last: int): (range: set<nat>)
    ensures forall n: nat :: n in range <==> first <= n <= last
    ensures |range| == if first <= last then last - first + 1 else 0
    decreases last - first
  {
    if last < first then {} else Range(first, last - 1) + {last}
  }

  /** The source frames between the first and the last one captured that no
      captured frame shows. */
  function Missed(shown: seq<nat>): set<nat>
    requires shown != []
  {
    Range(shown[0], shown[|shown| - 1]) - Shown(shown)
  }

  /** On a steady capture the analyser reports no discontinuity, and its skip
      count is exactly the number of source frames that were never captured. */
  lemma SkipsAreMissedFrames(shown: seq<nat>, holds: seq<Hold>, transitions: seq<(nat, nat)>)
    requires shown != [] && SteadyCapture(shown)
    requires Canonical(holds) && TransitionsOf(holds, transitions)
    requires |Expand(holds)| == |shown|
    requires forall i :: 0 <= i < |shown| ==> Expand(holds)[i] == CapturedId(shown[i])
    ensures Discontinuities(transitions) == 0
    ensures Skips(transitions) == |Missed(shown)|
  {
    hide Expand, Canonical, Shown, Missed, Skips, Discontinuities, CapturedId;
    var ids := Expand(holds);
    ReadShifted(shown, ids);
    SteadySteps(holds, transitions);
    EndsOfExpansion(holds);
    DistinctShown(holds);
    ShiftShown(shown, ids, 2 * ID_RANGE * (shown[0] / (2 * ID_RANGE)));
    CountMissed(shown);
  }

  lemma ShiftedFrame(frame: nat, cycle: nat)
    requires Climbing(frame, cycle)
    ensures frame == CapturedId(frame) + 2 * ID_RANGE * cycle
  {
    CapturedIdInCycle(frame);
  }

  /** Counting up, the band shows the source frame less whole cycles. */
  lemma ReadShifted(shown: seq<nat>, ids: seq<nat>)
    requires SteadyCapture(shown) && |ids| == |shown| > 0
    requires forall i :: 0 <= i < |shown| ==> ids[i] == CapturedId(shown[i])
    ensures forall i :: 0 <= i < |shown| ==> shown[i] == ids[i] + 2 * ID_RANGE * (shown[0] / (2 * ID_RANGE))
    ensures Advancing(ids)
  {
    var base := 2 * ID_RANGE * (shown[0] / (2 * ID_RANGE));
    forall i | 0 <= i < |shown|
      ensures shown[i] == ids[i] + base
    {
      ShiftedFrame(shown[i], shown[0] / (2 * ID_RANGE));
    }
  }

  /** Shifting the numbers does not change how many different ones there are. */
  lemma {:induction false} ShiftShown(shown: seq<nat>, ids: seq<nat>, base: nat)
    requires |ids| == |shown|
    requires forall i :: 0 <= i < |shown| ==> shown[i] == ids[i] + base
    ensures |Shown(shown)| == |Shown(ids)|
    decreases |shown|
  {
    hide Shown;
    if shown == [] {
      assert shown == ids;
    } else {
      var n := |shown| - 1;
      ShiftShown(shown[..n], ids[..n], base);
      ShownLast(shown);
      ShownLast(ids);
      LastSeen(shown, ids, base);
      SizeWith(Shown(shown[..n]), shown[n]);
      SizeWith(Shown(ids[..n]), ids[n]);
    }
  }

  lemma SizeWith(s: set<nat>, n: nat)
    ensures |s + {n}| == if n in s then |s| else |s| + 1
  {
    if n in s {
      assert s + {n} == s;
    }
  }

  lemma ShownLast(shown: seq<nat>)
    requires shown != []
    ensures var n := |shown| - 1;
            Shown(shown) == Shown(shown[..n]) + {shown[n]}
  {
    var n := |shown| - 1;
    assert shown == shown[..n] + [shown[n]];
  }

  lemma LastSeen(shown: seq<nat>, ids: seq<nat>, base: nat)
    requires |ids| == |shown| > 0
    requires forall i :: 0 <= i < |shown| ==> shown[i] == ids[i] + base
    ensures var n := |shown| - 1;
            shown[n] in Shown(shown[..n]) <==> ids[n] in Shown(ids[..n])
  {
    var n := |shown| - 1;
    if ids[n] in ids[..n] {
      var k :| 0 <= k < n && ids[..n][k] == ids[n];
      assert shown[..n][k] == shown[n];
    }
    if shown[n] in shown[..n] {
      var k :| 0 <= k < n && shown[..n][k] == shown[n];
      assert ids[..n][k] == ids[n];
    }
  }

  lemma CountMissed(shown: seq<nat>)
    requires shown != [] && Advancing(shown)
    ensures |Missed(shown)| == shown[|shown| - 1] - shown[0] + 1 - |Shown(shown)|
  {
    ShownWithinRange(shown);
    var range := Range(shown[0], shown[|shown| - 1]);
    assert range == Shown(shown) + Missed(shown);
  }

  lemma ShownWithinRange(shown: seq<nat>)
    requires shown != [] && Advancing(shown)
    ensures Shown(shown) <= Range(shown[0], shown[|shown| - 1])
    ensures shown[0] <= shown[|shown| - 1]
  {
    Increasing(shown, 0, |shown| - 1);
    forall n | n in Shown(shown)
      ensures shown[0] <= n <= shown[|shown| - 1]
    {
      var i :| 0 <= i < |shown| && shown[i] == n;
      Increasing(shown, 0, i);
      Increasing(shown, i, |shown| - 1);
    }
  }

  lemma {:induction false} Increasing(shown: seq<nat>, j: nat, k: nat)
    requires j <= k < |shown|
    requires forall i :: 0 < i < |shown| ==> shown[i - 1] <= shown[i]
    ensures shown[j] <= shown[k]
    decreases k
  {
    if j < k {
      Increasing(shown, j, k - 1);
    }
  }

  /** Each hold of a steady capture is one new source frame. */
  lemma {:induction false} DistinctShown(holds: seq<Hold>)
    requires Canonical(holds) && Advancing(Expand(holds))
    ensures |Shown(Expand(holds))| == |holds|
    decreases |holds|
  {
    if holds != [] {
      var m := |holds| - 1;
      var earlier := Expand(holds[..m]);
      assert earlier == Expand(holds)[..|earlier|];
      DistinctShown(holds[..m]);
      NewestIsLargest(holds);
      ShowOneMore(earlier, holds[m].id, holds[m].frames);
    }
  }

  lemma ShowOneMore(earlier: seq<nat>, id: nat, n: nat)
    requires n > 0
    requires forall k :: 0 <= k < |earlier| ==> earlier[k] < id
    ensures |Shown(earlier + Repeat(id, n))| == |Shown(earlier)| + 1
  {
    assert Repeat(id, n)[0] == id;
    assert Shown(earlier + Repeat(id, n)) == Shown(earlier) + {id};
    assert id !in Shown(earlier);
  }

  lemma NewestIsLargest(holds: seq<Hold>)
    requires Canonical(holds) && Advancing(Expand(holds)) && holds != []
    ensures var earlier := Expand(holds[..|holds| - 1]);
            forall k :: 0 <= k < |earlier| ==> earlier[k] < holds[|holds| - 1].id
  {
    var m := |holds| - 1;
    var ids, earlier := Expand(holds), Expand(holds[..m]);
    var cut := |earlier|;
    assert ids[cut] == holds[m].id;
    if m > 0 {
      LastRun(holds[..m]);
      assert ids[cut - 1] == earlier[cut - 1] == holds[m - 1].id;
      forall k | 0 <= k < cut
        ensures earlier[k] < holds[m].id
      {
        Increasing(ids, k, cut - 1);
        assert ids[k] == earlier[k];
      }
    }
  }

  /** Every transition of a steady capture is a forward step of its exact size. */
  lemma {:induction false} SteadySteps(holds: seq<Hold>, transitions: seq<(nat, nat)>)
    requires Canonical(holds) && TransitionsOf(holds, transitions)
    requires Advancing(Expand(holds))
    ensures Discontinuities(transitions) == 0
    ensures holds[|holds| - 1].id == holds[0].id + Skips(transitions) + |transitions|
    decreases |holds|
  {
    var m := |holds| - 1;
    if m > 0 {
      SteadyBefore(holds);
      SteadySteps(holds[..m], transitions[..m - 1]);
      LastStep(holds);
      StepSize(holds[m - 1].id, holds[m].id);
      assert transitions[m - 1] == (holds[m - 1].id, holds[m].id);
    }
  }

  lemma SteadyBefore(holds: seq<Hold>)
    requires Canonical(holds) && Advancing(Expand(holds)) && holds != []
    ensures Advancing(Expand(holds[..|holds| - 1]))
  {
    var before := Expand(holds[..|holds| - 1]);
    assert before == Expand(holds)[..|before|];
  }

  /** The last two holds meet at neighbouring frames. */
  lemma LastStep(holds: seq<Hold>)
    requires Canonical(holds) && Advancing(Expand(holds)) && |holds| > 1
    ensures holds[|holds| - 2].id < holds[|holds| - 1].id < holds[|holds| - 2].id + 0x8000
  {
    var m := |holds| - 1;
    var ids, cut := Expand(holds), |Expand(holds[..m])|;
    LastRun(holds[..m]);
    assert ids[cut] == holds[m].id;
    assert ids[cut - 1] == holds[m - 1].id;
  }

  lemma StepSize(p: nat, c: nat)
    requires p < c < p + 0x8000
    ensures Delta(p, c) == c - p && Forward((p, c))
  {
  }

  // ---------------------------------------------------------------------
  // The report

  function Transitions(holds: seq<Hold>): seq<(nat, nat)>
    requires holds != []
  {
    seq(|holds| - 1, i requires 0 <= i < |holds| - 1 => (holds[i].id, holds[i + 1].id))
  }

  /** Every figure of the report, in terms of the frames. */
  ghost predicate Describes(r: Report, frames: seq<DecodedFrame>, nominal: real)
  {
    && (exists lo :: IsLongestValidRun(frames, r.valid, lo))
    && r.valid != []
    && (forall f :: f in r.valid ==> f.Valid())
    && Canonical(r.holds) && Expand(r.holds) == Ids(r.valid) && r.holds != []
    && Timed(r.holds, r.valid, nominal)
    && r.updates == |r.holds| - 1
    && r.captureDuplicates == |r.valid| - |r.holds| >= 0
    && r.torn == |TornFrames(r.valid)|
    && r.durationMs == (if TotalDuration(r.holds) < nominal then nominal else TotalDuration(r.holds))
    && r.sourceSkips == Skips(Transitions(r.holds))
    && r.discontinuities == Discontinuities(Transitions(r.holds))
  }

  lemma OnlyTransitions(holds: seq<Hold>, transitions: seq<(nat, nat)>)
    requires TransitionsOf(holds, transitions)
    ensures transitions == Transitions(holds)
  {
  }

  lemma TransitionsFit(holds: seq<Hold>)
    requires holds != []
    ensures TransitionsOf(holds, Transitions(holds))
  {
  }

  /** Without a discontinuity the report's counts explain the distance between its
      first and last identifier. */
  lemma ReportExplainsDistance(r: Report, frames: seq<DecodedFrame>, nominal: real)
    requires Describes(r, frames, nominal) && r.discontinuities == 0
    ensures (r.valid[0].top.value + r.updates + r.sourceSkips) % ID_RANGE
            == r.valid[|r.valid| - 1].top.value % ID_RANGE
  {
    hide Expand, Canonical, TransitionsOf, Transitions, Skips, Discontinuities, TotalDuration, IsLongestValidRun,
         Timed;
    TransitionsFit(r.holds);
    CountsExplainDistance(r.holds, Transitions(r.holds));
    EndsOfExpansion(r.holds);
  }

  /** When the frames of the chosen run show a steady capture, the report has no
      discontinuity and its skips are the source frames never captured. */
  lemma ReportOnSteadyCapture(r: Report, frames: seq<DecodedFrame>, nominal: real, shown: seq<nat>)
    requires Describes(r, frames, nominal)
    requires |shown| == |r.valid| && SteadyCapture(shown)
    requires forall i :: 0 <= i < |shown| ==> r.valid[i].top == Some(CapturedId(shown[i]))
    ensures r.discontinuities == 0 && r.sourceSkips == |Missed(shown)|
  {
    TransitionsFit(r.holds);
    SkipsAreMissedFrames(shown, r.holds, Transitions(r.holds));
  }

  /** Python raises when no frame is readable; the report is then absent. */
  method Analyse(frames: seq<DecodedFrame>, captureFps: real) returns (report: Option<Report>)
    requires captureFps > 0.0
    ensures report.None? <==> forall f :: f in frames ==> !f.Valid()
    ensures report.Some? ==> Describes(report.value, frames, 1000.0 / captureFps)
  {
    var valid;
    ghost var lo;
    valid, lo := LongestValidRun(frames);
    if valid == [] {
      forall f | f in frames
        ensures !f.Valid()
      {
        var i :| 0 <= i < |frames| && frames[i] == f;
        assert f.Valid() ==> AllValid(frames, i, i + 1);
      }
      return None;
    }
    assert valid[0] in frames && valid[0].Valid();
    var nominalMs := 1000.0 / captureFps;
    var span := valid[|valid| - 1].ptsMs - valid[0].ptsMs + nominalMs;
    var torn := CountTorn(valid);
    var holds, transitions := CollectHolds(valid, nominalMs);
    var skips, discontinuities := Account(transitions);
    ExpandLength(holds);
    DurationsAddUp(holds, valid, nominalMs);
    OnlyTransitions(holds, transitions);
    report := Some(Report(valid, if nominalMs < span then span else nominalMs, torn, holds,
                          |holds| - 1, skips, discontinuities, |valid| - |holds|));
  }

  function TornFrames(valid: seq<DecodedFrame>): set<nat>
  {
    set i: nat | i < |valid| && valid[i].top != valid[i].bottom
  }

  method CountTorn(valid: seq<DecodedFrame>) returns (torn: nat)
    ensures torn == |TornFrames(valid)|
  {
    torn := 0;
    for n := 0 to |valid|
      invariant torn == |TornFrames(valid[..n])|
    {
      if valid[n].top != valid[n].bottom {
        assert TornFrames(valid[..n + 1]) == TornFrames(valid[..n]) + {n};
        torn := torn + 1;
      } else {
        assert TornFrames(valid[..n + 1]) == TornFrames(valid[..n]);
      }
    }
    assert valid[..|valid|] == valid;
  }
}
