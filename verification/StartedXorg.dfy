/**
 Where the two halves meet: a START that the broker took for accepted, and the Xorg
 whose calls the interposer passed on.
 */
module StartedXorg {
  import opened Options
  import opened Trace
  import opened Kernel
  import opened AgentSession
  import opened AgentLink
  import opened Announcement
  import R = TracedRun
  import Scanout

  /** Call `i` of Xorg asked for this framebuffer on this CRTC. */
  ghost predicate AskedFor(calls: seq<R.Call>, i: int, crtc: nat, fb: nat)
  {
    && 0 <= i < |calls| && calls[i].SetCrtc? && calls[i].arg.Some?
    && calls[i].arg.value.crtc == crtc && calls[i].arg.value.fb == fb && calls[i].arg.value.modeValid
  }

  /** When the records behind an accepted START are those of an interposed Xorg, or a
      first part of them, then at the verification all its completed enabling SETCRTCs
      had succeeded on the leased connector, and the kernel showed, at Android's timing
      and on the leased CRTC, a framebuffer that this Xorg asked for itself. */
  lemma StartShowsXorg(evidence: Option<Evidence>, starts: nat, seen: seq<Record>, start: AgentRequest,
                       h: R.History, calls: seq<R.Call>, errors: seq<int>, events: seq<Event>, next: nat, exited: bool)
    requires Verified(evidence, starts, seen, start)
    requires R.Told(h, calls, errors, events, exited) && R.Ordered(h.items, next)
    requires seen <= Scanout.Flatten(h.items)
    ensures evidence.value.connector == start.connector && evidence.value.crtc == start.crtc
    ensures R.ScannedOut(evidence.value, h.items)
    ensures exists i :: AskedFor(calls, i, start.crtc, evidence.value.report.fb)
  {
    hide Justified, R.Ordered, R.CallTold, Scanout.Flatten, Scanout.Enabling;
    var e := evidence.value;
    R.JustifiedAnywhere(e, h.items, next);
    var k: nat :| k <= |h.items| && R.ShownAt(e, h.items, k);
    var i := k;
    if !R.UnderWay(e, h.items, k) {
      var commits := Scanout.Enabling(h.items[..k], e.crtc);
      i := EnabledBy(h.items[..k], e.crtc, |commits| - 1);
    }
    CallAsked(h, calls, errors, events, i, exited, e.crtc);
    assert AskedFor(calls, i, start.crtc, e.report.fb);
  }

  /** Each enabling commit is one of the items, and enables. */
  lemma {:induction false} EnabledBy(items: seq<Scanout.Item>, crtc: nat, k: int) returns (i: nat)
    requires 0 <= k < |Scanout.Enabling(items, crtc)|
    ensures i < |items| && items[i] == Scanout.SetCrtcCall(Scanout.Enabling(items, crtc)[k])
    ensures Scanout.Enables(items[i].commit, crtc)
    decreases |items|
  {
    var n := |items| - 1;
    if k < |Scanout.Enabling(items[..n], crtc)| {
      i := EnabledBy(items[..n], crtc, k);
    } else {
      i := n;
    }
  }

  lemma CallAsked(h: R.History, calls: seq<R.Call>, errors: seq<int>, events: seq<Event>, i: nat, exited: bool, crtc: nat)
    requires R.Told(h, calls, errors, events, exited) && i < |h.items|
    requires h.items[i].SetCrtcCall? && Scanout.Enables(h.items[i].commit, crtc)
    ensures AskedFor(calls, i, crtc, h.items[i].commit.fb)
  {
    hide R.ShownIfDone, R.StepOf, R.Passed;
    assert R.CallTold(h, calls, errors, events, i, exited);
    assert R.Reflects(h.items[i], calls[i]);
  }
}
