/**
 The broker's decisions as an append-only log. Entries refer to what they rest on by
 position: to a reply of the composer, a command of a client or a durable state of
 the stored mode. An entry that leads to a START carries the length of the wire log.
 */
module ArmingLog {
  import opened Options
  import opened Clients
  import opened Clock
  import opened ComposerLink
  import opened PreferredMode
  import opened Wire

  const MODE_POLL_MS := 250
  const MODE_STABLE_SAMPLES := 3
  const REFRESH_TOLERANCE := 100

  datatype Event =
    | ArmAccepted(command: nat, answered: nat)
    | ArmEnded
    | ModeConfigured(command: nat, mode: Mode)
    | SawDisconnected(reply: nat, moments: nat)
    | ModeApplied(mode: Mode, moment: nat)
    | Polled(time: int, answer: Option<nat>, status: Status, agent: bool)
    | AutoStart(mode: Mode, at: nat)
    | RootProbe(command: nat, probe: nat, at: nat)

  /** Connected at the requested mode, within 100 mHz; any mode when native. */
  predicate ModeMatches(status: Status, requested: Mode)
  {
    && status.connected && status.activeMode
    && (requested == NATIVE
        || (&& status.mode.width == requested.width && status.mode.height == requested.height
            && -REFRESH_TOLERANCE <= status.mode.refreshMillihz - requested.refreshMillihz <= REFRESH_TOLERANCE))
  }

  predicate GoodPoll(e: Event, mode: Mode)
  {
    e.Polled? && e.answer.Some? && e.agent && e.status.leaseReady && ModeMatches(e.status, mode)
  }

  function Polls(log: seq<Event>): seq<Event>
  {
    if log == [] then []
    else
      var n := |log| - 1;
      Polls(log[..n]) + if log[n].Polled? then [log[n]] else []
  }

  /** The last `k` polls were all good and at least 250 ms apart. */
  ghost predicate Stable(polls: seq<Event>, k: int, mode: Mode)
  {
    && 0 <= k <= |polls|
    && (forall j :: |polls| - k <= j < |polls| ==> GoodPoll(polls[j], mode))
    && (forall i, j :: |polls| - k <= i < j < |polls| ==>
          polls[i].Polled? && polls[j].Polled? && polls[j].time >= polls[i].time + MODE_POLL_MS)
  }

  predicate EndsArming(e: Event)
  {
    e.ArmAccepted? || e.ArmEnded? || e.ModeConfigured?
  }

  /** The current arming was accepted at `arm` and is still the same one. */
  ghost predicate ArmedSince(log: seq<Event>, arm: nat)
  {
    arm < |log| && log[arm].ArmAccepted? && forall i :: arm < i < |log| ==> !EndsArming(log[i])
  }

  /** In this arming the display was seen unplugged and then the mode applied. */
  ghost predicate AppliedUnplugged(log: seq<Event>, arm: nat, saw: nat, applied: nat, mode: Mode)
  {
    arm < saw < applied < |log| && log[saw].SawDisconnected?
    && log[applied].ModeApplied? && log[applied].mode == mode
  }

  /** What the log must show before Xorg may be started automatically. */
  ghost predicate StartJustified(log: seq<Event>, mode: Mode)
  {
    exists arm: nat, saw: nat, applied: nat ::
      && ArmedSince(log, arm)
      && AppliedUnplugged(log, arm, saw, applied, mode)
      && Stable(Polls(log[applied..]), MODE_STABLE_SAMPLES, mode)
  }

  ghost predicate AutoStartsJustified(log: seq<Event>)
  {
    forall i :: 0 <= i < |log| && log[i].AutoStart? ==> StartJustified(log[..i], log[i].mode)
  }

  // ---------------------------------------------------------------------
  // What the entries rest on

  /** The composer's replies, the clients' commands, the durable states of the stored
      mode, and the clock. */
  datatype Sources = Sources(replies: seq<ReplyRead>, commands: seq<Command>, moments: seq<Moment>, now: nat)

  ghost predicate Extends(before: Sources, after: Sources)
  {
    && before.replies <= after.replies && before.commands <= after.commands
    && before.moments <= after.moments && before.now <= after.now
  }

  /** The reply an entry rests on. */
  function ReplyOf(e: Event): Option<nat>
  {
    match e
    case SawDisconnected(reply, _) => Some(reply)
    case Polled(_, answer, _, _) => answer
    case _ => None
  }

  /** An entry that a command allows once. */
  predicate Takes(e: Event)
  {
    e.ArmAccepted? || e.RootProbe?
  }

  /** An answer to a STATUS request sent at this time that reports this status. */
  predicate StatusReply(a: ReplyRead, status: Status, time: int)
  {
    a.op == OpStatus && a.reply.status == status && a.sentAt == time
  }

  /** What the entry refers to exists and says what the entry says. */
  ghost predicate Backed(e: Event, src: Sources)
  {
    match e
    case ArmAccepted(command, answered) =>
      command < |src.commands| && AsksToArm(src.commands[command]) && answered <= |src.replies|
    case ArmEnded => true
    case ModeConfigured(command, mode) =>
      command < |src.commands| && AsksForMode(src.commands[command], mode)
    case SawDisconnected(reply, moments) =>
      && reply < |src.replies| && src.replies[reply].op == OpStatus
      && !src.replies[reply].reply.status.connected && moments <= |src.moments|
    case ModeApplied(mode, moment) =>
      && moment < |src.moments|
      && src.moments[moment].durable.preferred == mode && src.moments[moment].durable.journal.Saved?
    case Polled(time, answer, status, _) =>
      && time <= src.now
      && (answer.Some? ==> answer.value < |src.replies| && StatusReply(src.replies[answer.value], status, time))
    case AutoStart(_, _) => true
    case RootProbe(command, probe, _) =>
      command < |src.commands| && src.commands[command] == Command(CmdProbe(probe), true)
  }

  /** A reply is used after it came: not across an arming, and by one poll only. A
      command arms or probes once. The mode is applied after the unplug was seen. */
  predicate InOrder(e: Event, f: Event)
  {
    && (ReplyOf(f).Some? ==>
          && (e.ArmAccepted? ==> e.answered <= ReplyOf(f).value)
          && (ReplyOf(e).Some? ==> ReplyOf(e).value <= ReplyOf(f).value)
          && (e.Polled? && e.answer.Some? && f.Polled? ==> e.answer.value < f.answer.value))
    && (Takes(e) && Takes(f) ==> e.command < f.command)
    && (e.SawDisconnected? && f.ModeApplied? ==> e.moments <= f.moment)
  }

  ghost predicate Honest(log: seq<Event>, src: Sources)
  {
    && (forall i :: 0 <= i < |log| ==> Backed(log[i], src))
    && (forall i, j :: 0 <= i < j < |log| ==> InOrder(log[i], log[j]))
  }

  /** Nothing in the log rests on a reply from position `n` on. */
  ghost predicate Bounded(log: seq<Event>, n: int)
  {
    forall i :: 0 <= i < |log| ==>
      && (log[i].ArmAccepted? ==> log[i].answered <= n)
      && (ReplyOf(log[i]).Some? ==> ReplyOf(log[i]).value < n)
  }

  /** No command from position `n` on has armed or probed. */
  ghost predicate Unused(log: seq<Event>, n: int)
  {
    forall i :: 0 <= i < |log| && Takes(log[i]) ==> log[i].command < n
  }

  /** Every unplug was seen before durable state `n`. */
  ghost predicate Early(log: seq<Event>, n: int)
  {
    forall i :: 0 <= i < |log| && log[i].SawDisconnected? ==> log[i].moments <= n
  }

  /** The entries from position `from` on rest on replies from position `n` on. */
  ghost predicate RestsOnLater(log: seq<Event>, from: int, n: nat)
  {
    forall i :: 0 <= from <= i < |log| && ReplyOf(log[i]).Some? ==> n <= ReplyOf(log[i]).value
  }

  lemma RestsOnNothing(log: seq<Event>, n: nat)
    ensures RestsOnLater(log, |log|, n)
  {
  }

  lemma RestsOnLaterAppend(log: seq<Event>, from: int, n: nat, e: Event)
    requires RestsOnLater(log, from, n) && (ReplyOf(e).Some? ==> n <= ReplyOf(e).value)
    ensures RestsOnLater(log + [e], from, n)
  {
  }

  lemma HonestGrows(log: seq<Event>, before: Sources, after: Sources)
    requires Honest(log, before) && Extends(before, after)
    ensures Honest(log, after)
    ensures Bounded(log, |before.replies|) && Unused(log, |before.commands|) && Early(log, |before.moments|)
  {
    forall i | 0 <= i < |log|
      ensures Backed(log[i], after)
      ensures log[i].ArmAccepted? ==> log[i].answered <= |before.replies|
      ensures ReplyOf(log[i]).Some? ==> ReplyOf(log[i]).value < |before.replies|
      ensures Takes(log[i]) ==> log[i].command < |before.commands|
      ensures log[i].SawDisconnected? ==> log[i].moments <= |before.moments|
    {
      assert Backed(log[i], before);
    }
  }

  lemma HonestAppend(log: seq<Event>, src: Sources, e: Event)
    requires Honest(log, src) && Backed(e, src)
    requires ReplyOf(e).Some? ==> Bounded(log, ReplyOf(e).value)
    requires Takes(e) ==> Unused(log, e.command)
    requires e.ModeApplied? ==> Early(log, e.moment)
    ensures Honest(log + [e], src)
  {
    var all := log + [e];
    forall i, j | 0 <= i < j < |all|
      ensures InOrder(all[i], all[j])
    {
      assert j < |log| ==> InOrder(log[i], log[j]);
    }
  }

  /** The unplug is noted right after the poll that showed it. */
  lemma HonestUnplug(log: seq<Event>, src: Sources, poll: Event, saw: Event)
    requires Honest(log, src) && saw.SawDisconnected? && Bounded(log, saw.reply)
    requires poll.Polled? && poll.answer == Some(saw.reply)
    requires Backed(poll, src) && Backed(saw, src)
    ensures Honest(log + [poll] + [saw], src)
  {
    HonestAppend(log, src, poll);
    var first, all := log + [poll], log + [poll] + [saw];
    forall i, j | 0 <= i < j < |all|
      ensures InOrder(all[i], all[j])
    {
      assert j < |first| ==> InOrder(first[i], first[j]);
    }
    forall i | 0 <= i < |all|
      ensures Backed(all[i], src)
    {
      assert i < |first| ==> Backed(first[i], src);
    }
  }

  /** What an automatic start comes down to, in the words of those it rests on: a
      client's command to arm; since then a STATUS reply that said disconnected; the
      requested mode in force at a later moment, with the old one journaled; and three
      different later STATUS requests, each sent at least 250 ms after the one before,
      that were all answered with connected at the requested mode and ready for a
      lease. */
  ghost predicate RestsOn(src: Sources, arm: Event, unplug: nat, moment: nat, a: nat, b: nat, c: nat, mode: Mode)
  {
    && arm.ArmAccepted? && arm.command < |src.commands| && AsksToArm(src.commands[arm.command])
    && arm.answered <= unplug < a < b < c < |src.replies|
    && src.replies[unplug].op == OpStatus && !src.replies[unplug].reply.status.connected
    && moment < |src.moments|
    && src.moments[moment].durable.preferred == mode && src.moments[moment].durable.journal.Saved?
    && MatchingReply(src.replies[a], mode) && MatchingReply(src.replies[b], mode) && MatchingReply(src.replies[c], mode)
    && src.replies[a].sentAt + MODE_POLL_MS <= src.replies[b].sentAt
    && src.replies[b].sentAt + MODE_POLL_MS <= src.replies[c].sentAt <= src.now
  }

  predicate MatchingReply(a: ReplyRead, mode: Mode)
  {
    var status := a.reply.status;
    && a.op == OpStatus && status.connected && status.activeMode && status.leaseReady
    && (mode != NATIVE ==>
          && status.mode.width == mode.width && status.mode.height == mode.height
          && mode.refreshMillihz - 100 <= status.mode.refreshMillihz <= mode.refreshMillihz + 100)
  }

  lemma StartRestsOn(log: seq<Event>, src: Sources, mode: Mode)
    requires Honest(log, src) && StartJustified(log, mode)
    ensures exists arm: nat, unplug: nat, moment: nat, a: nat, b: nat, c: nat ::
              ArmedSince(log, arm) && RestsOn(src, log[arm], unplug, moment, a, b, c, mode)
  {
    var arm: nat, saw: nat, applied: nat :|
      && ArmedSince(log, arm)
      && AppliedUnplugged(log, arm, saw, applied, mode)
      && Stable(Polls(log[applied..]), MODE_STABLE_SAMPLES, mode);
    assert log[arm].ArmAccepted?;
    hide Honest, ArmedSince, Polls, MatchingReply;
    var polls := Polls(log[applied..]);
    var n := |polls|;
    LaterReplies(log, src, saw, applied, n - 3, mode);
    LaterReplies(log, src, saw, applied, n - 2, mode);
    UnplugReply(log, src, arm, saw, applied);
    assert RestsOn(src, log[arm], log[saw].reply, log[applied].moment,
                   polls[n - 3].answer.value, polls[n - 2].answer.value, polls[n - 1].answer.value, mode);
  }

  lemma UnplugReply(log: seq<Event>, src: Sources, arm: nat, saw: nat, applied: nat)
    requires Honest(log, src) && arm < saw < applied < |log|
    requires log[arm].ArmAccepted? && log[saw].SawDisconnected? && log[applied].ModeApplied?
    ensures Backed(log[arm], src) && Backed(log[saw], src) && Backed(log[applied], src)
    ensures log[arm].answered <= log[saw].reply
  {
    assert InOrder(log[arm], log[saw]);
  }

  /** Two successive good polls rest on two successive matching replies. */
  lemma LaterReplies(log: seq<Event>, src: Sources, saw: nat, applied: nat, a: int, mode: Mode)
    requires Honest(log, src) && saw < applied < |log| && log[saw].SawDisconnected?
    requires 0 <= a < a + 1 < |Polls(log[applied..])|
    requires GoodPoll(Polls(log[applied..])[a], mode) && GoodPoll(Polls(log[applied..])[a + 1], mode)
    ensures var polls := Polls(log[applied..]);
            var x, y := polls[a].answer.value, polls[a + 1].answer.value;
            && log[saw].reply < x < y < |src.replies|
            && MatchingReply(src.replies[x], mode) && MatchingReply(src.replies[y], mode)
            && src.replies[x].sentAt == polls[a].time
            && src.replies[y].sentAt == polls[a + 1].time <= src.now
  {
    hide Polls;
    var i, j := PollsOrdered(log[applied..], a, a + 1);
    GoodReply(log, src, saw, applied + i, mode);
    GoodReply(log, src, saw, applied + j, mode);
    assert InOrder(log[applied + i], log[applied + j]);
  }

  lemma GoodReply(log: seq<Event>, src: Sources, saw: nat, p: nat, mode: Mode)
    requires Honest(log, src) && saw < p < |log|
    requires log[saw].SawDisconnected? && GoodPoll(log[p], mode)
    ensures log[p].answer.value < |src.replies| && MatchingReply(src.replies[log[p].answer.value], mode)
    ensures src.replies[log[p].answer.value].sentAt == log[p].time <= src.now
    ensures log[saw].reply < log[p].answer.value
  {
    assert Backed(log[p], src) && Backed(log[saw], src);
    assert InOrder(log[saw], log[p]);
  }

  // ---------------------------------------------------------------------
  // Why a START was sent

  predicate IsCause(e: Event)
  {
    e.AutoStart? || e.RootProbe?
  }

  /** The entry was made before START `k`, and no other START was sent in between. */
  ghost predicate CausedBy(events: seq<WireEvent>, log: seq<Event>, k: nat, i: nat)
  {
    && i < |log| && IsCause(log[i]) && log[i].at <= k < |events|
    && forall j :: log[i].at <= j < k ==> !events[j].Started?
  }

  ghost predicate HasCause(events: seq<WireEvent>, log: seq<Event>, k: nat)
  {
    exists i: nat :: CausedBy(events, log, k, i)
  }

  /** Every START has a cause of its own: a justified automatic start or a command of
      root. */
  ghost predicate Caused(events: seq<WireEvent>, log: seq<Event>)
  {
    forall k: nat :: k < |events| && events[k].Started? ==> HasCause(events, log, k)
  }

  /** The last entry allows a START now. */
  ghost predicate Due(events: seq<WireEvent>, log: seq<Event>)
  {
    log != [] && IsCause(log[|log| - 1]) && log[|log| - 1].at == |events|
  }

  ghost predicate CauseSince(log: seq<Event>, from: nat)
  {
    exists i :: from <= i < |log| && IsCause(log[i])
  }

  lemma CauseEarlier(log: seq<Event>, from: nat, later: nat)
    requires from <= later
    ensures CauseSince(log, later) ==> CauseSince(log, from)
  {
  }

  lemma CauseStays(log: seq<Event>, log': seq<Event>, from: nat)
    requires log <= log'
    ensures CauseSince(log, from) ==> CauseSince(log', from)
  {
    if i :| from <= i < |log| && IsCause(log[i]) {
      assert IsCause(log'[i]);
    }
  }

  lemma CausedLater(events: seq<WireEvent>, log: seq<Event>, log': seq<Event>)
    requires Caused(events, log) && log <= log'
    ensures Caused(events, log')
  {
    forall k: nat | k < |events| && events[k].Started?
      ensures HasCause(events, log', k)
    {
      assert HasCause(events, log, k);
      var i: nat :| CausedBy(events, log, k, i);
      assert CausedBy(events, log', k, i);
    }
  }

  lemma CausedAppend(events: seq<WireEvent>, log: seq<Event>, e: WireEvent)
    requires Caused(events, log) && (e.Started? ==> Due(events, log))
    ensures Caused(events + [e], log)
  {
    var all := events + [e];
    forall k: nat | k < |all| && all[k].Started?
      ensures HasCause(all, log, k)
    {
      if k < |events| {
        assert HasCause(events, log, k);
        var i: nat :| CausedBy(events, log, k, i);
        assert CausedBy(all, log, k, i);
      } else {
        assert CausedBy(all, log, k, |log| - 1);
      }
    }
  }

  /** Two STARTs never share a cause. */
  lemma OwnCause(events: seq<WireEvent>, log: seq<Event>, k: nat, l: nat, i: nat)
    requires k < l < |events| && events[k].Started?
    requires CausedBy(events, log, k, i)
    ensures !CausedBy(events, log, l, i)
  {
  }

  /** Two polls stand in the log in the order in which they are counted. */
  lemma {:induction false} PollsOrdered(log: seq<Event>, a: int, b: int) returns (i: nat, j: nat)
    requires 0 <= a < b < |Polls(log)|
    ensures i < j < |log| && log[i] == Polls(log)[a] && log[j] == Polls(log)[b]
  {
    var n := |log| - 1;
    var before := Polls(log[..n]);
    if b < |before| {
      i, j := PollsOrdered(log[..n], a, b);
    } else {
      i := PollAt(log[..n], a);
      j := n;
    }
  }

  lemma {:induction false} PollAt(log: seq<Event>, a: int) returns (i: nat)
    requires 0 <= a < |Polls(log)|
    ensures i < |log| && log[i] == Polls(log)[a]
  {
    var n := |log| - 1;
    if a < |Polls(log[..n])| {
      i := PollAt(log[..n], a);
    } else {
      i := n;
    }
  }

  // ---------------------------------------------------------------------
  // Appending

  lemma PollsAppend(log: seq<Event>, from: nat, e: Event)
    requires from <= |log|
    ensures Polls((log + [e])[from..]) == Polls(log[from..]) + (if e.Polled? then [e] else [])
  {
    var tail := (log + [e])[from..];
    assert tail[..|tail| - 1] == log[from..];
  }

  lemma AutoStartsAppend(log: seq<Event>, e: Event)
    requires AutoStartsJustified(log)
    requires e.AutoStart? ==> StartJustified(log, e.mode)
    ensures AutoStartsJustified(log + [e])
  {
    var all := log + [e];
    forall i | 0 <= i < |all| && all[i].AutoStart?
      ensures StartJustified(all[..i], all[i].mode)
    {
      if i < |log| {
        assert all[..i] == log[..i];
      } else {
        assert all[..i] == log;
      }
    }
  }

  lemma StableExtend(polls: seq<Event>, k: int, mode: Mode, e: Event)
    requires Stable(polls, k, mode) && GoodPoll(e, mode)
    requires k > 0 ==> e.time >= polls[|polls| - 1].time + MODE_POLL_MS
    ensures Stable(polls + [e], k + 1, mode) && (polls + [e])[|polls|] == e
  {
  }

  /** The broker's arming fields. */
  class Arming {
    const composer: ComposerLink
    const listener: Listener
    const store: ModeStore
    var armed: bool
    var preferenceApplied: bool
    var replugRequired: bool
    var requested: Mode
    var stableSamples: int
    var nextModePoll: int
    ghost var log: seq<Event>
    ghost var armAt: nat
    ghost var sawAt: nat
    ghost var applyAt: nat

    ghost function Seen(): Sources
      reads composer`answers, listener`received, store`history, composer.clock`now
    {
      Sources(composer.answers, listener.received, store.history, composer.clock.now)
    }

    /** What the fields promise about the log. */
    ghost predicate Fields()
      reads this
    {
      && AutoStartsJustified(log)
      && (armed ==> ArmedSince(log, armAt))
      && (preferenceApplied ==> armed && AppliedUnplugged(log, armAt, sawAt, applyAt, requested))
      && (replugRequired ==> armed)
      && stableSamples >= 0
      && (stableSamples > 0 ==>
            && preferenceApplied && !replugRequired
            && Stable(Polls(log[applyAt..]), stableSamples, requested)
            && LastPoll() + MODE_POLL_MS <= nextModePoll)
    }

    ghost predicate Valid()
      reads this, composer`answers, listener`received, store`history, composer.clock`now
    {
      Fields() && Honest(log, Seen())
    }

    ghost function LastPoll(): int
      requires applyAt <= |log| && Stable(Polls(log[applyAt..]), stableSamples, requested) && stableSamples > 0
      reads this
    {
      var polls := Polls(log[applyAt..]);
      polls[|polls| - 1].time
    }

    /** The composer has just answered a STATUS request sent now, and nothing rests on
        that answer yet. */
    ghost predicate JustAnswered(status: Status)
      reads this`log, composer`answers, composer.clock`now
    {
      var n := |composer.answers| - 1;
      n >= 0 && StatusReply(composer.answers[n], status, composer.clock.now) && Bounded(log, n)
    }

    /** The command received last. */
    ghost predicate Asked(request: ClientRequest, root: bool)
      reads listener`received
    {
      listener.received != [] && listener.received[|listener.received| - 1] == Command(request, root)
    }

    /** Nothing rests on the last command yet. */
    ghost predicate Awaiting()
      reads this`log, listener`received
    {
      listener.received != [] && Unused(log, |listener.received| - 1)
    }

    constructor (composer: ComposerLink, listener: Listener, store: ModeStore, requested: Mode)
      ensures Valid() && !armed && !preferenceApplied && !replugRequired && log == []
      ensures this.requested == requested
      ensures this.composer == composer && this.listener == listener && this.store == store
    {
      this.composer, this.listener, this.store := composer, listener, store;
      armed, preferenceApplied, replugRequired := false, false, false;
      this.requested := requested;
      stableSamples, nextModePoll := 0, 0;
      log, armAt, sawAt, applyAt := [], 0, 0, 0;
    }

    method Configure(mode: Mode)
      requires Valid() && !armed
      requires listener.received != [] && AsksForMode(listener.received[|listener.received| - 1], mode)
      modifies this`requested, this`log
      ensures Valid() && requested == mode
      ensures log == old(log) + [ModeConfigured(|listener.received| - 1, mode)]
    {
      hide Honest, Stable, AutoStartsJustified;
      ghost var e := ModeConfigured(|listener.received| - 1, mode);
      AutoStartsAppend(log, e);
      HonestAppend(log, Seen(), e);
      requested := mode;
      log := log + [e];
    }

    method Accept()
      requires Valid() && !armed && Awaiting() && AsksToArm(listener.received[|listener.received| - 1])
      modifies this`armed, this`stableSamples, this`nextModePoll, this`log, this`armAt
      ensures Valid() && armed
      ensures log == old(log) + [ArmAccepted(|listener.received| - 1, |composer.answers|)]
    {
      hide Honest, Stable, AutoStartsJustified;
      ghost var e := ArmAccepted(|listener.received| - 1, |composer.answers|);
      AutoStartsAppend(log, e);
      HonestAppend(log, Seen(), e);
      log, armAt := log + [e], |log|;
      armed, stableSamples, nextModePoll := true, 0, 0;
    }

    method End()
      requires Valid()
      modifies this`armed, this`preferenceApplied, this`replugRequired, this`stableSamples, this`log
      ensures Valid() && !armed && !preferenceApplied && !replugRequired && log == old(log) + [ArmEnded]
    {
      hide Honest, Stable, AutoStartsJustified;
      AutoStartsAppend(log, ArmEnded);
      HonestAppend(log, Seen(), ArmEnded);
      log := log + [ArmEnded];
      armed, preferenceApplied, replugRequired, stableSamples := false, false, false, 0;
    }

    method RequireReplug()
      requires Valid() && armed && !preferenceApplied
      modifies this`replugRequired
      ensures Valid() && replugRequired
    {
      hide Honest, AutoStartsJustified;
      replugRequired := true;
    }

    method ForgetReplug()
      requires Valid()
      modifies this`replugRequired
      ensures Valid() && !replugRequired
    {
      hide Honest, AutoStartsJustified;
      replugRequired := false;
    }

    /** An unplug restarts the wait for a stable mode. */
    method Preserve()
      requires Valid()
      modifies this`replugRequired, this`stableSamples, this`nextModePoll
      ensures Valid()
      ensures !replugRequired && stableSamples == 0 && nextModePoll == 0
    {
      hide Honest, AutoStartsJustified;
      replugRequired, stableSamples, nextModePoll := false, 0, 0;
    }

    /** The entry for the reply just read, which says disconnected. */
    ghost function SawNow(): Event
      requires composer.answers != []
      reads composer`answers, store`history
    {
      SawDisconnected(|composer.answers| - 1, |store.history|)
    }

    /** The STATUS reply to an arming says disconnected. */
    method SeeDisconnected()
      requires Valid() && armed && !preferenceApplied
      requires JustAnswered(composer.status) && !composer.status.connected
      modifies this`log, this`stableSamples, this`sawAt
      ensures Valid() && stableSamples == 0
      ensures log == old(log) + [SawNow()] && sawAt == |log| - 1
    {
      hide Honest, Stable, AutoStartsJustified;
      ghost var e := SawNow();
      AutoStartsAppend(log, e);
      HonestAppend(log, Seen(), e);
      log, sawAt := log + [e], |log|;
      stableSamples := 0;
    }

    /** The requested mode has just been put in force. */
    method SetApplied()
      requires Valid() && armed && !preferenceApplied
      requires log != [] && log[|log| - 1].SawDisconnected? && sawAt == |log| - 1
      requires store.Valid() && store.preferred == requested && store.journal.Saved?
      requires Early(log, |store.history| - 1)
      modifies this`log, this`applyAt, this`preferenceApplied
      ensures Valid() && preferenceApplied && log == old(log) + [ModeApplied(requested, |store.history| - 1)]
    {
      hide Honest, Stable, AutoStartsJustified;
      ghost var e := ModeApplied(requested, |store.history| - 1);
      AutoStartsAppend(log, e);
      HonestAppend(log, Seen(), e);
      log, applyAt := log + [e], |log|;
      preferenceApplied := true;
    }

    /** The entry of a poll that was answered just now. */
    ghost function PollNow(now: int, agent: bool): Event
      reads composer`answers, composer`status
      requires composer.answers != []
    {
      Polled(now, Some(|composer.answers| - 1), composer.status, agent)
    }

    /** A poll without an answer. */
    method PollFailed(agent: bool, now: int)
      requires Valid() && armed && now == composer.clock.now
      modifies this`log, this`stableSamples, this`nextModePoll
      ensures Valid() && stableSamples == 0 && nextModePoll == now + MODE_POLL_MS
      ensures log == old(log) + [Polled(now, None, composer.status, agent)]
    {
      hide Honest, Stable, AutoStartsJustified;
      ghost var e := Polled(now, None, composer.status, agent);
      AutoStartsAppend(log, e);
      HonestAppend(log, Seen(), e);
      log := log + [e];
      stableSamples, nextModePoll := 0, now + MODE_POLL_MS;
    }

    method PollBad(agent: bool, now: int)
      requires Valid() && armed && JustAnswered(composer.status) && now == composer.clock.now
      modifies this`log, this`stableSamples, this`nextModePoll
      ensures Valid() && stableSamples == 0 && nextModePoll == now + MODE_POLL_MS
      ensures log == old(log) + [PollNow(now, agent)]
    {
      hide Honest, Stable, AutoStartsJustified;
      ghost var e := PollNow(now, agent);
      AutoStartsAppend(log, e);
      HonestAppend(log, Seen(), e);
      log := log + [e];
      stableSamples, nextModePoll := 0, now + MODE_POLL_MS;
    }

    /** The poll finds the display unplugged. */
    method PollUnplugged(agent: bool, now: int)
      requires Valid() && armed && JustAnswered(composer.status) && now == composer.clock.now
      requires !composer.status.connected
      modifies this`log, this`stableSamples, this`nextModePoll, this`sawAt
      ensures Valid() && stableSamples == 0 && nextModePoll == now + MODE_POLL_MS
      ensures log == old(log) + [PollNow(now, agent)] + [SawNow()]
      ensures !preferenceApplied ==> sawAt == |log| - 1
    {
      hide Honest, Stable, AutoStartsJustified;
      ghost var e, saw := PollNow(now, agent), SawNow();
      AutoStartsAppend(log, e);
      AutoStartsAppend(log + [e], saw);
      HonestUnplug(log, Seen(), e, saw);
      log := log + [e] + [saw];
      if !preferenceApplied {
        sawAt := |log| - 1;
      }
      stableSamples, nextModePoll := 0, now + MODE_POLL_MS;
    }

    /** The display is connected before the mode was applied. The samples are not
        reset here, and need not be. */
    method PollReplug(agent: bool, now: int)
      requires Valid() && armed && JustAnswered(composer.status) && now == composer.clock.now
      requires replugRequired || !preferenceApplied
      modifies this`log, this`nextModePoll
      ensures Valid() && nextModePoll == now + MODE_POLL_MS && log == old(log) + [PollNow(now, agent)]
    {
      hide Honest, Stable, AutoStartsJustified;
      ghost var e := PollNow(now, agent);
      AutoStartsAppend(log, e);
      HonestAppend(log, Seen(), e);
      log := log + [e];
      nextModePoll := now + MODE_POLL_MS;
    }

    method PollGood(agent: bool, now: int)
      requires Valid() && armed && preferenceApplied && !replugRequired
      requires JustAnswered(composer.status) && now == composer.clock.now
      requires GoodPoll(PollNow(now, agent), requested) && now >= nextModePoll
      modifies this`log, this`stableSamples, this`nextModePoll
      ensures Valid() && stableSamples == old(stableSamples) + 1 && nextModePoll == now + MODE_POLL_MS
      ensures log == old(log) + [PollNow(now, agent)]
    {
      hide Honest, AutoStartsJustified, Polls, Stable;
      ghost var e := PollNow(now, agent);
      AutoStartsAppend(log, e);
      HonestAppend(log, Seen(), e);
      PollsAppend(log, applyAt, e);
      StableExtend(Polls(log[applyAt..]), stableSamples, requested, e);
      log := log + [e];
      stableSamples, nextModePoll := stableSamples + 1, now + MODE_POLL_MS;
    }

    /** An automatic start is about to be attempted. */
    method NoteAutoStart()
      requires Valid() && stableSamples >= MODE_STABLE_SAMPLES
      modifies this`log
      ensures Valid() && log == old(log) + [AutoStart(requested, |composer.wire.events|)]
    {
      hide Honest, AutoStartsJustified, Polls;
      ghost var e := AutoStart(requested, |composer.wire.events|);
      StableFewer(Polls(log[applyAt..]), stableSamples, MODE_STABLE_SAMPLES, requested);
      assert StartJustified(log, requested);
      AutoStartsAppend(log, e);
      HonestAppend(log, Seen(), e);
      PollsAppend(log, applyAt, e);
      log := log + [e];
    }

    /** Root's command to start Xorg is about to be carried out. */
    method NoteRootProbe(probe: nat)
      requires Valid() && Asked(CmdProbe(probe), true) && Awaiting()
      modifies this`log
      ensures Valid()
      ensures log == old(log) + [RootProbe(|listener.received| - 1, probe, |composer.wire.events|)]
    {
      hide Honest, AutoStartsJustified, Polls;
      ghost var e := RootProbe(|listener.received| - 1, probe, |composer.wire.events|);
      AutoStartsAppend(log, e);
      HonestAppend(log, Seen(), e);
      if stableSamples > 0 {
        PollsAppend(log, applyAt, e);
      }
      log := log + [e];
    }
  }

  lemma StableFewer(polls: seq<Event>, k: int, l: int, mode: Mode)
    requires Stable(polls, k, mode) && 0 <= l <= k
    ensures Stable(polls, l, mode)
  {
  }
}
