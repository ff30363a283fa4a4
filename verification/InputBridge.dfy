/**
 The input bridge: many physical keyboards and mice behind one virtual keyboard
 and one virtual mouse.

 A write that uinput refuses is still an attempted write; the streams below are
 the attempted writes.
 */
module InputBridge {
  import opened Options
  import opened FanIn

  datatype InEvent =
    | SynDropped
    | SynReport(levels: Option<Row>)
    | KeyEvent(code: nat, value: int)
    | RelEvent(axis: nat, delta: int, supported: bool)
    | MscScan(scan: nat)
    | OtherEvent

  /** What one poll of a source brings: nothing, an error, or events that are
      followed by a clean end of data or by an error. SYN_REPORT carries the key
      levels the kernel would answer if asked right then. */
  datatype Poll = Idle | Error | Events(events: seq<InEvent>, clean: bool)

  datatype Source = Source(
    path: string, mouse: bool, keyboard: bool, pressed: Row,
    dropping: bool, pendingMouse: bool, pendingKeyboard: bool)

  predicate Mapped(s: Source, code: nat)
  {
    code < KEY_CNT && if IsButton(code) then s.mouse else s.keyboard
  }

  // ---------------------------------------------------------------------
  // What a source's own keys do, without looking at any other source

  function Pressed(s: Source, code: nat, value: int): Row
  {
    if Mapped(s, code) && (value == 0 || value == 1) then s.pressed[code := value == 1] else s.pressed
  }

  function Reconciled(s: Source, levels: Row): Row
  {
    seq(KEY_CNT, c requires 0 <= c < KEY_CNT => if Mapped(s, c) then levels[c] else s.pressed[c])
  }

  /** The levels once the keys below `n` have been reconciled. */
  function ReconciledBelow(s: Source, levels: Row, n: nat): Row
  {
    seq(KEY_CNT, c requires 0 <= c < KEY_CNT => if c < n && Mapped(s, c) then levels[c] else s.pressed[c])
  }

  lemma ReconcileStep(s: Source, levels: Row, n: nat)
    requires n < KEY_CNT
    ensures var row := ReconciledBelow(s, levels, n);
            ReconciledBelow(s, levels, n + 1) == if Mapped(s, n) then row[n := levels[n]] else row
  {
  }

  lemma ReconcileEnds(s: Source, levels: Row)
    ensures ReconciledBelow(s, levels, 0) == s.pressed
    ensures ReconciledBelow(s, levels, KEY_CNT) == Reconciled(s, levels)
  {
  }

  /** The key levels and the recovery flag after one event; absent when the
      source has to be given up. */
  function Follow(s: Source, e: InEvent): Option<(Row, bool)>
  {
    match e
    case SynDropped => Some((s.pressed, true))
    case SynReport(levels) =>
      if !s.dropping then Some((s.pressed, false))
      else if levels.None? then None
      else Some((Reconciled(s, levels.value), false))
    case KeyEvent(code, value) =>
      Some((if s.dropping then s.pressed else Pressed(s, code, value), s.dropping))
    case _ => Some((s.pressed, s.dropping))
  }

  /** Events that move no key, among them every event that is being dropped. */
  predicate Unkeyed(s: Source, e: InEvent)
  {
    !e.SynReport? && (e.KeyEvent? ==> s.dropping)
  }

  /** A repeat goes to the device of its key, if the source itself holds the key. */
  function RepeatTo(s: Source, code: nat, value: int, toMouse: bool): seq<Out>
  {
    if value == 2 && Mapped(s, code) && s.pressed[code] && IsButton(code) == toMouse then [Key(code, 2)] else []
  }

  /** The motion, scan code or repeat an event adds to the mouse's stream, unless
      events are being dropped. */
  function ToMouse(s: Source, e: InEvent): seq<Out>
  {
    if s.dropping || !s.mouse then []
    else if e.MscScan? then [Scan(e.scan)]
    else if e.RelEvent? && e.supported then [Motion(e.axis, e.delta)]
    else if e.KeyEvent? then RepeatTo(s, e.code, e.value, true)
    else []
  }

  function ToKeyboard(s: Source, e: InEvent): seq<Out>
  {
    if s.dropping || !s.keyboard then []
    else if e.MscScan? then [Scan(e.scan)]
    else if e.KeyEvent? then RepeatTo(s, e.code, e.value, false)
    else []
  }

  function FollowAll(s: Source, events: seq<InEvent>): Option<(Row, bool)>
    decreases |events|
  {
    if events == [] then Some((s.pressed, s.dropping))
    else
      var n := |events| - 1;
      match FollowAll(s, events[..n])
      case None => None
      case Some(r) => Follow(s.(pressed := r.0, dropping := r.1), events[n])
  }

  function Sent(s: Source, e: InEvent, toMouse: bool): seq<Out>
  {
    if toMouse then ToMouse(s, e) else ToKeyboard(s, e)
  }

  /** The motion, scan codes and repeats that a list of events sends to a device, up to the one
      that gives the source up. */
  function SentBy(s: Source, events: seq<InEvent>, toMouse: bool): seq<Out>
    decreases |events|
  {
    if events == [] then []
    else
      var n := |events| - 1;
      SentBy(s, events[..n], toMouse)
      + match FollowAll(s, events[..n])
        case None => []
        case Some(r) => Sent(s.(pressed := r.0, dropping := r.1), events[n], toMouse)
  }

  function SentPolled(s: Source, poll: Poll, toMouse: bool): seq<Out>
  {
    if poll.Events? then SentBy(s, poll.events, toMouse) else []
  }

  /** What one poll of all sources sends; the last source is polled first. */
  function SentAll(sources: seq<Source>, polls: seq<Poll>, toMouse: bool): seq<Out>
    requires |sources| == |polls|
  {
    if sources == [] then []
    else SentAll(sources[1..], polls[1..], toMouse) + SentPolled(sources[0], polls[0], toMouse)
  }

  predicate Survives(s: Source, poll: Poll)
  {
    match poll
    case Idle => true
    case Error => false
    case Events(events, clean) => clean && FollowAll(s, events).Some?
  }

  /** A source without the memory of unfinished frames. */
  function Bare(s: Source): Source
  {
    Source(s.path, s.mouse, s.keyboard, s.pressed, s.dropping, false, false)
  }

  function Bares(sources: seq<Source>): (bares: seq<Source>)
    ensures |bares| == |sources|
  {
    seq(|sources|, i requires 0 <= i < |sources| => Bare(sources[i]))
  }

  /** A surviving source after its poll: its keys and its recovery flag are where
      the events lead. */
  function Polled(s: Source, poll: Poll): Source
    requires Survives(s, poll)
  {
    if poll.Idle? then Bare(s) else Moved(s, FollowAll(s, poll.events).value)
  }

  function Moved(s: Source, r: (Row, bool)): Source
  {
    Source(s.path, s.mouse, s.keyboard, r.0, r.1, false, false)
  }

  /** The sources that stay, in order, each moved by its own poll. */
  function Survivors(sources: seq<Source>, polls: seq<Poll>): seq<Source>
    requires |sources| == |polls|
  {
    if sources == [] then []
    else (if Survives(sources[0], polls[0]) then [Polled(sources[0], polls[0])] else [])
         + Survivors(sources[1..], polls[1..])
  }

  function Paths(sources: seq<Source>): (paths: seq<string>)
    ensures |paths| == |sources|
  {
    seq(|sources|, i requires 0 <= i < |sources| => sources[i].path)
  }

  function Rows(sources: seq<Source>): (rows: seq<Row>)
    ensures |rows| == |sources|
  {
    seq(|sources|, i requires 0 <= i < |sources| => sources[i].pressed)
  }

  /** A press or release moves its own key and no other. */
  lemma EdgeMoves(out: seq<Out>, code: nat, value: nat)
    requires value < 2
    ensures forall c: nat :: Down(out + [Key(code, value)], c) == if c == code then value == 1 else Down(out, c)
  {
    forall c: nat
      ensures Down(out + [Key(code, value)], c) == if c == code then value == 1 else Down(out, c)
    {
      DownAppend(out, Key(code, value), c);
    }
  }

  // ---------------------------------------------------------------------
  // One virtual device

  class VirtualDevice {
    var holders: seq<nat>
    var out: seq<Out>

    /** A reader of the stream sees a key down exactly while it has holders. */
    ghost predicate Valid()
      reads this
    {
      && |holders| == KEY_CNT
      && Alternating(out)
      && forall c: nat :: Down(out, c) <==> c < KEY_CNT && holders[c] > 0
    }

    constructor ()
      ensures Valid() && out == [] && holders == seq(KEY_CNT, _ => 0)
    {
      holders, out := seq(KEY_CNT, _ => 0), [];
    }

    method Emit(e: Out)
      requires Valid() && !e.Key?
      modifies this`out
      ensures Valid() && out == old(out) + [e]
    {
      AlternatingAppend(out, e);
      forall c: nat ensures Down(out + [e], c) == Down(out, c) { DownAppend(out, e, c); }
      out := out + [e];
    }

    method Repeat(code: nat)
      requires Valid() && code < KEY_CNT && holders[code] > 0
      modifies this`out
      ensures Valid() && out == old(out) + [Key(code, 2)]
    {
      var e := Key(code, 2);
      AlternatingAppend(out, e);
      forall c: nat ensures Down(out + [e], c) == Down(out, c) { DownAppend(out, e, c); }
      out := out + [e];
    }

    method AddHolder(code: nat) returns (emitted: bool)
      requires Valid() && code < KEY_CNT
      modifies this
      ensures Valid() && holders == old(holders)[code := old(holders)[code] + 1]
      ensures out == old(out) + if emitted then [Key(code, 1)] else []
      ensures emitted <==> old(holders)[code] == 0
    {
      hide Down, Alternating;
      emitted := holders[code] == 0;
      if emitted {
        var e := Key(code, 1);
        AlternatingAppend(out, e);
        EdgeMoves(out, code, 1);
        out := out + [e];
      }
      holders := holders[code := holders[code] + 1];
    }

    method DropHolder(code: nat) returns (emitted: bool)
      requires Valid() && code < KEY_CNT && holders[code] > 0
      modifies this
      ensures Valid() && holders == old(holders)[code := old(holders)[code] - 1]
      ensures out == old(out) + if emitted then [Key(code, 0)] else []
      ensures emitted <==> old(holders)[code] == 1
    {
      hide Down, Alternating;
      holders := holders[code := holders[code] - 1];
      emitted := holders[code] == 0;
      if emitted {
        var e := Key(code, 0);
        AlternatingAppend(out, e);
        EdgeMoves(out, code, 0);
        out := out + [e];
      }
    }

    /** Releases whatever is still held; silent when nothing is. */
    method ReleaseKeys()
      requires Valid()
      modifies this
      ensures Valid() && forall c: nat :: !Down(out, c)
      ensures (forall c :: 0 <= c < KEY_CNT ==> old(holders)[c] == 0) ==> out == old(out)
    {
      var changed := false;
      for code := 0 to KEY_CNT
        invariant Valid()
        invariant forall c :: 0 <= c < code ==> holders[c] == 0
        invariant forall c :: code <= c < KEY_CNT ==> holders[c] == old(holders)[c]
        invariant (forall c :: 0 <= c < KEY_CNT ==> old(holders)[c] == 0) ==> out == old(out) && !changed
      {
        if holders[code] != 0 {
          holders := holders[code := 1];
          var emitted := DropHolder(code);
          changed := true;
        }
      }
      if changed {
        Emit(Sync);
      }
    }
  }

  // ---------------------------------------------------------------------
  // All sources

  /** Only keys a source may forward can be pressed. */
  ghost predicate WellMapped(s: Source)
  {
    forall c :: 0 <= c < KEY_CNT && s.pressed[c] ==> Mapped(s, c)
  }

  /** The holder counts of one device are the numbers of sources pressing. */
  ghost predicate Counted(holders: seq<nat>, rows: seq<Row>, buttons: bool)
  {
    && |holders| == KEY_CNT
    && forall c :: 0 <= c < KEY_CNT ==> holders[c] == if IsButton(c) == buttons then Count(rows, c) else 0
  }

  lemma RowsUpdate(sources: seq<Source>, i: nat, s: Source)
    requires i < |sources|
    ensures Rows(sources[i := s]) == Rows(sources)[i := s.pressed]
  {
  }

  /** The counts after row `i` changes one key, device by device. */
  lemma CountedUpdate(holders: seq<nat>, rows: seq<Row>, buttons: bool, i: nat, row: Row, code: nat)
    requires i < |rows| && code < KEY_CNT && row == rows[i][code := !rows[i][code]]
    requires Counted(holders, rows, buttons)
    ensures IsButton(code) != buttons ==> Counted(holders, rows[i := row], buttons)
    ensures IsButton(code) == buttons && row[code] ==>
              Counted(holders[code := holders[code] + 1], rows[i := row], buttons)
    ensures IsButton(code) == buttons && !row[code] ==>
              holders[code] > 0 && Counted(holders[code := holders[code] - 1], rows[i := row], buttons)
  {
    forall c | 0 <= c < KEY_CNT
      ensures Count(rows[i := row], c) == if c != code then Count(rows, c)
                                          else if row[code] then Count(rows, c) + 1 else Count(rows, c) - 1
    {
      CountUpdate(rows, i, row, c);
    }
    CountUpdate(rows, i, row, code);
  }

  /** Only source `i` changed; everything but its pending flags is given. */
  ghost predicate OnlyMoved(before: seq<Source>, after: seq<Source>, i: nat, pressed: Row, dropping: bool)
  {
    && i < |before| == |after|
    && after == before[i := after[i]]
    && after[i] == before[i].(pressed := pressed, dropping := dropping,
                              pendingMouse := after[i].pendingMouse,
                              pendingKeyboard := after[i].pendingKeyboard)
  }

  lemma MovedTwice(a: seq<Source>, b: seq<Source>, c: seq<Source>, i: nat,
                   r1: Row, d1: bool, r2: Row, d2: bool)
    requires OnlyMoved(a, b, i, r1, d1) && OnlyMoved(b, c, i, r2, d2)
    ensures OnlyMoved(a, c, i, r2, d2)
  {
  }

  ghost predicate MousePending(sources: seq<Source>)
  {
    exists i :: 0 <= i < |sources| && sources[i].pendingMouse
  }

  ghost predicate KeyboardPending(sources: seq<Source>)
  {
    exists i :: 0 <= i < |sources| && sources[i].pendingKeyboard
  }

  lemma StillPending(before: seq<Source>, i: nat, s: Source)
    requires i < |before|
    ensures (before[i].pendingMouse ==> s.pendingMouse) && (MousePending(before) || s.pendingMouse) ==>
              MousePending(before[i := s])
    ensures (before[i].pendingKeyboard ==> s.pendingKeyboard) && (KeyboardPending(before) || s.pendingKeyboard) ==>
              KeyboardPending(before[i := s])
  {
    var after := before[i := s];
    assert after[i] == s;
    if j :| 0 <= j < |before| && before[j].pendingMouse {
      assert j != i ==> after[j].pendingMouse;
    }
    if j :| 0 <= j < |before| && before[j].pendingKeyboard {
      assert j != i ==> after[j].pendingKeyboard;
    }
  }

  /** Removing a source that has nothing pending. */
  lemma PendingWithout(before: seq<Source>, i: nat)
    requires i < |before| && !before[i].pendingMouse && !before[i].pendingKeyboard
    ensures MousePending(before) ==> MousePending(before[..i] + before[i + 1..])
    ensures KeyboardPending(before) ==> KeyboardPending(before[..i] + before[i + 1..])
  {
    var after := before[..i] + before[i + 1..];
    if j :| 0 <= j < |before| && before[j].pendingMouse {
      assert after[if j < i then j else j - 1].pendingMouse;
    }
    if j :| 0 <= j < |before| && before[j].pendingKeyboard {
      assert after[if j < i then j else j - 1].pendingKeyboard;
    }
  }

  /** What a change of the shared level has to be announced as. */
  function Edge(was: bool, now: bool, code: nat): seq<Out>
  {
    if was == now then [] else [Key(code, if now then 1 else 0)]
  }

  /** A repeat reaches the key's device exactly while the source itself holds it. */
  ghost predicate Repeated(s: Source, code: nat, mouseBefore: seq<Out>, mouseAfter: seq<Out>,
                           keyboardBefore: seq<Out>, keyboardAfter: seq<Out>)
    requires code < KEY_CNT
  {
    && mouseAfter == (if s.pressed[code] && IsButton(code) then mouseBefore + [Key(code, 2)] else mouseBefore)
    && keyboardAfter == (if s.pressed[code] && !IsButton(code) then keyboardBefore + [Key(code, 2)] else keyboardBefore)
  }

  /** A device announced the change of a key's shared level, or nothing when the key
      belongs to the other device. */
  ghost predicate Announced(before: seq<Source>, after: seq<Source>, code: nat,
                            outBefore: seq<Out>, outAfter: seq<Out>, buttons: bool)
    requires code < KEY_CNT
  {
    if IsButton(code) == buttons
    then outAfter == outBefore + Edge(Count(Rows(before), code) > 0, Count(Rows(after), code) > 0, code)
    else outAfter == outBefore
  }

  lemma EdgeOfFlip(rows: seq<Row>, i: nat, row: Row, code: nat)
    requires i < |rows| && code < KEY_CNT && row == rows[i][code := !rows[i][code]]
    ensures Edge(Count(rows, code) > 0, Count(rows[i := row], code) > 0, code)
            == if row[code] then if Count(rows, code) == 0 then [Key(code, 1)] else []
               else if Count(rows, code) == 1 then [Key(code, 0)] else []
  {
    CountUpdate(rows, i, row, code);
    if rows[i][code] {
      CountPressed(rows, i, code);
    }
  }

  /** One turn: what a scan found, the sources before and after the polls, and the
      streams then. */
  datatype TurnView = TurnView(
    found: seq<Found>, before: seq<Source>, polls: seq<Poll>, after: seq<Source>,
    mouseBefore: seq<Out>, keyboardBefore: seq<Out>, mouse: seq<Out>, keyboard: seq<Out>)

  /** Each source is where its own events lead, or gone; a reader of the streams sees
      for every key whether one of them holds it; and the motion, scan codes and repeats
      of all sources, and nothing else of that kind, were added to the devices of their roles. */
  ghost predicate Faithful(v: TurnView)
  {
    && |v.polls| == |v.before|
    && Bares(v.after) == Survivors(v.before, v.polls)
    && Moves(v.mouse) == Moves(v.mouseBefore) + SentAll(v.before, v.polls, true)
    && Moves(v.keyboard) == Moves(v.keyboardBefore) + SentAll(v.before, v.polls, false)
    && forall c: nat :: c < KEY_CNT ==>
         && (Down(v.mouse, c) <==> IsButton(c) && Any(Rows(v.after), c))
         && (Down(v.keyboard, c) <==> !IsButton(c) && Any(Rows(v.after), c))
  }

  /** A device node found by a scan: its roles, and whether it lets itself be grabbed. */
  datatype Found = Found(path: string, mouse: bool, keyboard: bool, grabbed: bool)

  /** A device is new if its node is not in use, and of use if it has a role and could
      be grabbed. It joins with no key pressed. */
  function Joined(sources: seq<Source>, f: Found): seq<Source>
  {
    if f.path !in Paths(sources) && f.grabbed && (f.mouse || f.keyboard)
    then sources + [Source(f.path, f.mouse, f.keyboard, AllUp(), false, false, false)] else sources
  }

  /** The sources after a scan found these nodes, in this order. */
  function Scanned(sources: seq<Source>, found: seq<Found>): seq<Source>
  {
    if found == [] then sources else Joined(Scanned(sources, found[..|found| - 1]), found[|found| - 1])
  }

  ghost predicate NewlyJoined(s: Source)
  {
    (s.mouse || s.keyboard) && forall c :: 0 <= c < KEY_CNT ==> !s.pressed[c]
  }

  ghost predicate NoTwins(sources: seq<Source>)
  {
    forall i, j :: 0 <= i < j < |sources| ==> sources[i].path != sources[j].path
  }

  /** A scan keeps the sources there are, in place, and adds only sources with a role
      and no key pressed; no node is ever grabbed twice, and a node that is of use is
      not missed. */
  lemma {:induction false} ScanAdds(sources: seq<Source>, found: seq<Found>)
    ensures sources <= Scanned(sources, found)
    ensures forall i :: |sources| <= i < |Scanned(sources, found)| ==> NewlyJoined(Scanned(sources, found)[i])
    ensures NoTwins(sources) ==> NoTwins(Scanned(sources, found))
    ensures forall f :: f in found && f.grabbed && (f.mouse || f.keyboard) ==> f.path in Paths(Scanned(sources, found))
    decreases |found|
  {
    if found != [] {
      var n := |found| - 1;
      var most := Scanned(sources, found[..n]);
      ScanAdds(sources, found[..n]);
      JoinKeepsPaths(most, found[n]);
      forall f | f in found && f.grabbed && (f.mouse || f.keyboard)
        ensures f.path in Paths(Joined(most, found[n]))
      {
        assert f == found[n] || f in found[..n];
      }
    }
  }

  lemma {:induction false} JoinKeepsPaths(sources: seq<Source>, f: Found)
    ensures forall p :: p in Paths(sources) ==> p in Paths(Joined(sources, f))
    ensures f.grabbed && (f.mouse || f.keyboard) ==> f.path in Paths(Joined(sources, f))
    ensures NoTwins(sources) ==> NoTwins(Joined(sources, f))
  {
    var all := Joined(sources, f);
    forall i | 0 <= i < |sources|
      ensures Paths(all)[i] == Paths(sources)[i] == sources[i].path
    {
    }
    if all != sources {
      assert Paths(all)[|sources|] == f.path;
      forall i | 0 <= i < |sources|
        ensures sources[i].path != f.path
      {
        assert Paths(sources)[i] in Paths(sources);
      }
    }
  }

  /** The input devices as the kernel presents them. */
  class Devices {
    /** What each scan found and what each poll of the sources brought. */
    ghost var scans: seq<seq<Found>>
    ghost var polled: seq<seq<Poll>>

    constructor ()
      ensures scans == [] && polled == []
    {
      scans, polled := [], [];
    }

    /** Nothing is found when it is not yet time to look. */
    method Scan() returns (found: seq<Found>)
      modifies this`scans
      ensures scans == old(scans) + [found]
    {
      found := *;
      scans := scans + [found];
    }

    method PollSources(n: nat) returns (polls: seq<Poll>)
      modifies this`polled
      ensures |polls| == n && polled == old(polled) + [polls]
    {
      var brought: seq<Poll> :| |brought| == n by {
        assert |seq(n, _ => Idle)| == n;
      }
      polls := brought;
      polled := polled + [polls];
    }
  }

  /** Each turn starts from the sources the turn before left. */
  ghost predicate Linked(first: seq<Source>, views: seq<TurnView>)
  {
    forall t :: 0 <= t < |views| ==> StartsFromLast(first, views, t)
  }

  ghost predicate StartsFromLast(first: seq<Source>, views: seq<TurnView>, t: nat)
    requires t < |views|
  {
    views[t].before == Scanned(LeftBy(first, views, t), views[t].found)
  }

  function LeftBy(first: seq<Source>, views: seq<TurnView>, t: nat): seq<Source>
    requires t <= |views|
  {
    if t == 0 then first else views[t - 1].after
  }

  /** The turns show what the scans found and the polls brought, and nothing else. */
  ghost predicate Attentive(views: seq<TurnView>, scansBefore: seq<seq<Found>>, scans: seq<seq<Found>>,
                            polledBefore: seq<seq<Poll>>, polled: seq<seq<Poll>>)
  {
    && |scans| == |scansBefore| + |views| && |polled| == |polledBefore| + |views|
    && scansBefore <= scans && polledBefore <= polled
    && forall t :: 0 <= t < |views| ==>
         views[t].found == scans[|scansBefore| + t] && views[t].polls == polled[|polledBefore| + t]
  }

  lemma LinkedStart(first: seq<Source>)
    ensures Linked(first, [])
  {
  }

  lemma LinkedNext(first: seq<Source>, views: seq<TurnView>, view: TurnView)
    requires Linked(first, views) && view.before == Scanned(LeftBy(first, views, |views|), view.found)
    ensures Linked(first, views + [view])
    ensures LeftBy(first, views + [view], |views| + 1) == view.after
  {
    hide Scanned;
    var all := views + [view];
    forall t | 0 <= t < |all|
      ensures StartsFromLast(first, all, t)
    {
      if t > 0 {
        assert all[t - 1] == views[t - 1];
      }
      if t < |views| {
        assert all[t] == views[t];
        assert StartsFromLast(first, views, t);
      }
    }
  }

  class Bridge {
    const mouse: VirtualDevice
    const keyboard: VirtualDevice
    const devices: Devices
    var sources: seq<Source>

    /** The devices agree with the sources, and an unfinished frame is remembered by
        a source that will finish it. */
    ghost predicate Valid()
      reads this, mouse, keyboard
    {
      && mouse != keyboard && mouse.Valid() && keyboard.Valid()
      && Counted(mouse.holders, Rows(sources), true)
      && Counted(keyboard.holders, Rows(sources), false)
      && (forall i :: 0 <= i < |sources| ==> WellMapped(sources[i]))
      && (Unsynced(mouse.out) ==> MousePending(sources))
      && (Unsynced(keyboard.out) ==> KeyboardPending(sources))
    }

    constructor ()
      ensures Valid() && sources == [] && fresh(mouse) && fresh(keyboard) && fresh(devices)
      ensures mouse.out == [] && keyboard.out == []
    {
      mouse := new VirtualDevice();
      keyboard := new VirtualDevice();
      devices := new Devices();
      sources := [];
    }

    /** The refinement: what a reader of the two streams sees is the plain OR. */
    lemma LevelIsOr(code: nat)
      requires Valid() && code < KEY_CNT
      ensures Down(mouse.out, code) <==> IsButton(code) && Any(Rows(sources), code)
      ensures Down(keyboard.out, code) <==> !IsButton(code) && Any(Rows(sources), code)
    {
      CountIsAny(Rows(sources), code);
    }

    method ChangeKey(i: nat, code: nat, value: int)
      requires Valid() && i < |sources|
      modifies this, mouse, keyboard
      ensures Valid()
      ensures OnlyMoved(old(sources), sources, i, Pressed(old(sources)[i], code, value), old(sources)[i].dropping)
      ensures value != 2 && Mapped(old(sources)[i], code) ==>
                && Announced(old(sources), sources, code, old(mouse.out), mouse.out, true)
                && Announced(old(sources), sources, code, old(keyboard.out), keyboard.out, false)
      ensures value == 2 && Mapped(old(sources)[i], code) ==>
                Repeated(old(sources)[i], code, old(mouse.out), mouse.out, old(keyboard.out), keyboard.out)
      ensures Moves(mouse.out) == Moves(old(mouse.out)) + RepeatTo(old(sources)[i], code, value, true)
      ensures Moves(keyboard.out) == Moves(old(keyboard.out)) + RepeatTo(old(sources)[i], code, value, false)
      ensures !Mapped(old(sources)[i], code) ==>
                mouse.out == old(mouse.out) && keyboard.out == old(keyboard.out)
    {
      hide Moves, Down, Alternating, Counted, Count, Unsynced, MousePending, KeyboardPending, WellMapped;
      var s := sources[i];
      if !Mapped(s, code) {
        return;
      }
      ghost var was := sources;
      if value == 2 {
        if s.pressed[code] {
          Repeat(i, code);
        }
        MovesRepeated(s, code, old(mouse.out), mouse.out, old(keyboard.out), keyboard.out);
      } else {
        if value == 1 && !s.pressed[code] {
          Press(i, code);
        } else if value == 0 && s.pressed[code] {
          Unpress(i, code);
        }
        MovesAnnounced(was, sources, code, old(mouse.out), mouse.out, true);
        MovesAnnounced(was, sources, code, old(keyboard.out), keyboard.out, false);
      }
    }

    method Press(i: nat, code: nat)
      requires Valid() && i < |sources| && Mapped(sources[i], code) && !sources[i].pressed[code]
      modifies this, mouse, keyboard
      ensures Valid()
      ensures OnlyMoved(old(sources), sources, i, old(sources)[i].pressed[code := true], old(sources)[i].dropping)
      ensures Announced(old(sources), sources, code, old(mouse.out), mouse.out, true)
      ensures Announced(old(sources), sources, code, old(keyboard.out), keyboard.out, false)
    {
      if IsButton(code) {
        PressButton(i, code);
      } else {
        PressKey(i, code);
      }
    }

    method PressButton(i: nat, code: nat)
      requires Valid() && i < |sources| && IsButton(code) && !sources[i].pressed[code] && sources[i].mouse
      modifies this`sources, mouse
      ensures Valid()
      ensures OnlyMoved(old(sources), sources, i, old(sources)[i].pressed[code := true], old(sources)[i].dropping)
      ensures Announced(old(sources), sources, code, old(mouse.out), mouse.out, true)
    {
      hide Down, Alternating;
      var s := sources[i].(pressed := sources[i].pressed[code := true]);
      EdgeOfFlip(Rows(sources), i, s.pressed, code);
      CountedUpdate(mouse.holders, Rows(sources), true, i, s.pressed, code);
      CountedUpdate(keyboard.holders, Rows(sources), false, i, s.pressed, code);
      var emitted := mouse.AddHolder(code);
      Settle(i, s.(pendingMouse := s.pendingMouse || emitted));
    }

    method PressKey(i: nat, code: nat)
      requires Valid() && i < |sources| && code < KEY_CNT
      requires !sources[i].pressed[code] && sources[i].keyboard && !IsButton(code)
      modifies this`sources, keyboard
      ensures Valid()
      ensures OnlyMoved(old(sources), sources, i, old(sources)[i].pressed[code := true], old(sources)[i].dropping)
      ensures Announced(old(sources), sources, code, old(keyboard.out), keyboard.out, false)
    {
      hide Down, Alternating;
      var s := sources[i].(pressed := sources[i].pressed[code := true]);
      EdgeOfFlip(Rows(sources), i, s.pressed, code);
      CountedUpdate(mouse.holders, Rows(sources), true, i, s.pressed, code);
      CountedUpdate(keyboard.holders, Rows(sources), false, i, s.pressed, code);
      var emitted := keyboard.AddHolder(code);
      Settle(i, s.(pendingKeyboard := s.pendingKeyboard || emitted));
    }

    method Unpress(i: nat, code: nat)
      requires Valid() && i < |sources| && Mapped(sources[i], code) && sources[i].pressed[code]
      modifies this, mouse, keyboard
      ensures Valid()
      ensures OnlyMoved(old(sources), sources, i, old(sources)[i].pressed[code := false], old(sources)[i].dropping)
      ensures Announced(old(sources), sources, code, old(mouse.out), mouse.out, true)
      ensures Announced(old(sources), sources, code, old(keyboard.out), keyboard.out, false)
    {
      if IsButton(code) {
        UnpressButton(i, code);
      } else {
        UnpressKey(i, code);
      }
    }

    method UnpressButton(i: nat, code: nat)
      requires Valid() && i < |sources| && IsButton(code) && sources[i].pressed[code] && sources[i].mouse
      modifies this`sources, mouse
      ensures Valid()
      ensures OnlyMoved(old(sources), sources, i, old(sources)[i].pressed[code := false], old(sources)[i].dropping)
      ensures Announced(old(sources), sources, code, old(mouse.out), mouse.out, true)
    {
      hide Down, Alternating;
      var s := sources[i].(pressed := sources[i].pressed[code := false]);
      EdgeOfFlip(Rows(sources), i, s.pressed, code);
      CountedUpdate(mouse.holders, Rows(sources), true, i, s.pressed, code);
      CountedUpdate(keyboard.holders, Rows(sources), false, i, s.pressed, code);
      var emitted := mouse.DropHolder(code);
      Settle(i, s.(pendingMouse := s.pendingMouse || emitted));
    }

    method UnpressKey(i: nat, code: nat)
      requires Valid() && i < |sources| && code < KEY_CNT
      requires sources[i].pressed[code] && sources[i].keyboard && !IsButton(code)
      modifies this`sources, keyboard
      ensures Valid()
      ensures OnlyMoved(old(sources), sources, i, old(sources)[i].pressed[code := false], old(sources)[i].dropping)
      ensures Announced(old(sources), sources, code, old(keyboard.out), keyboard.out, false)
    {
      hide Down, Alternating;
      var s := sources[i].(pressed := sources[i].pressed[code := false]);
      EdgeOfFlip(Rows(sources), i, s.pressed, code);
      CountedUpdate(mouse.holders, Rows(sources), true, i, s.pressed, code);
      CountedUpdate(keyboard.holders, Rows(sources), false, i, s.pressed, code);
      var emitted := keyboard.DropHolder(code);
      Settle(i, s.(pendingKeyboard := s.pendingKeyboard || emitted));
    }

    /** The source's test of its own key makes the test of the count redundant. */
    method Repeat(i: nat, code: nat)
      requires Valid() && i < |sources| && Mapped(sources[i], code) && sources[i].pressed[code]
      modifies this, mouse, keyboard
      ensures Valid()
      ensures OnlyMoved(old(sources), sources, i, old(sources)[i].pressed, old(sources)[i].dropping)
      ensures Repeated(old(sources)[i], code, old(mouse.out), mouse.out, old(keyboard.out), keyboard.out)
    {
      CountPressed(Rows(sources), i, code);
      var s := sources[i];
      assert Rows(sources)[i := s.pressed] == Rows(sources);
      if IsButton(code) {
        mouse.Repeat(code);
        s := s.(pendingMouse := true);
      } else {
        keyboard.Repeat(code);
        s := s.(pendingKeyboard := true);
      }
      Settle(i, s);
    }

    /** Stores source `i` back after its device was updated. */
    method Settle(i: nat, s: Source)
      requires mouse != keyboard && mouse.Valid() && keyboard.Valid() && i < |sources|
      requires Counted(mouse.holders, Rows(sources)[i := s.pressed], true)
      requires Counted(keyboard.holders, Rows(sources)[i := s.pressed], false)
      requires forall j :: 0 <= j < |sources| && j != i ==> WellMapped(sources[j])
      requires WellMapped(s)
      requires sources[i].pendingMouse ==> s.pendingMouse
      requires sources[i].pendingKeyboard ==> s.pendingKeyboard
      requires Unsynced(mouse.out) ==> s.pendingMouse || MousePending(sources)
      requires Unsynced(keyboard.out) ==> s.pendingKeyboard || KeyboardPending(sources)
      modifies this`sources
      ensures Valid() && sources == old(sources)[i := s]
    {
      StillPending(sources, i, s);
      RowsUpdate(sources, i, s);
      sources := sources[i := s];
    }

    /** Ends the source's frame on every device it has touched. */
    method FlushFrame(i: nat)
      requires Valid() && i < |sources|
      modifies this, mouse`out, keyboard`out
      ensures Valid()
      ensures OnlyMoved(old(sources), sources, i, old(sources)[i].pressed, old(sources)[i].dropping)
      ensures !sources[i].pendingMouse && !sources[i].pendingKeyboard
      ensures mouse.out == old(mouse.out) + if old(sources)[i].pendingMouse then [Sync] else []
      ensures keyboard.out == old(keyboard.out) + if old(sources)[i].pendingKeyboard then [Sync] else []
      ensures Moves(mouse.out) == Moves(old(mouse.out)) && Moves(keyboard.out) == Moves(old(keyboard.out))
    {
      hide Down, Alternating, Moves;
      MovesAppend(mouse.out, Sync);
      MovesAppend(keyboard.out, Sync);
      var s := sources[i];
      if s.pendingMouse {
        mouse.Emit(Sync);
      }
      if s.pendingKeyboard {
        keyboard.Emit(Sync);
      }
      assert !s.pendingMouse && Unsynced(mouse.out) ==> MousePending(sources);
      assert Rows(sources)[i := s.pressed] == Rows(sources);
      var flushed := s.(pendingMouse := false, pendingKeyboard := false);
      StillPending(sources, i, flushed);
      RowsUpdate(sources, i, flushed);
      sources := sources[i := flushed];
    }

    method SetDropping(i: nat, dropping: bool)
      requires Valid() && i < |sources|
      modifies this`sources
      ensures Valid()
      ensures OnlyMoved(old(sources), sources, i, old(sources)[i].pressed, dropping)
    {
      var s := sources[i].(dropping := dropping);
      assert Rows(sources)[i := s.pressed] == Rows(sources);
      Settle(i, s);
    }

    /** Moves every forwarded key of the source to the level the kernel reports. */
    method ReconcileKeys(i: nat, levels: Row)
      requires Valid() && i < |sources|
      modifies this, mouse, keyboard
      ensures Valid()
      ensures Moves(mouse.out) == Moves(old(mouse.out)) && Moves(keyboard.out) == Moves(old(keyboard.out))
      ensures OnlyMoved(old(sources), sources, i, Reconciled(old(sources)[i], levels), old(sources)[i].dropping)
    {
      hide Moves;
      ghost var was := sources[i];
      ReconcileEnds(was, levels);
      for code := 0 to KEY_CNT
        invariant Valid()
        invariant Moves(mouse.out) == Moves(old(mouse.out)) && Moves(keyboard.out) == Moves(old(keyboard.out))
        invariant OnlyMoved(old(sources), sources, i, ReconciledBelow(was, levels, code), was.dropping)
      {
        ReconcileStep(was, levels, code);
        ghost var before := sources;
        ReconcileKey(i, code, levels[code]);
        MovedTwice(old(sources), before, sources, i, ReconciledBelow(was, levels, code), was.dropping,
                   ReconciledBelow(was, levels, code + 1), was.dropping);
      }
    }

    method ReconcileKey(i: nat, code: nat, level: bool)
      requires Valid() && i < |sources| && code < KEY_CNT
      modifies this, mouse, keyboard
      ensures Valid()
      ensures Moves(mouse.out) == Moves(old(mouse.out)) && Moves(keyboard.out) == Moves(old(keyboard.out))
      ensures OnlyMoved(old(sources), sources, i,
                        if Mapped(old(sources)[i], code) then old(sources)[i].pressed[code := level]
                        else old(sources)[i].pressed,
                        old(sources)[i].dropping)
    {
      hide Moves;
      if Mapped(sources[i], code) && level != sources[i].pressed[code] {
        ChangeKey(i, code, if level then 1 else 0);
      }
    }

    /** Forwards motion or a scan code to the mouse. */
    method ForwardToMouse(i: nat, e: Out)
      requires Valid() && i < |sources| && (e.Motion? || e.Scan?)
      modifies this, mouse`out
      ensures Valid() && mouse.out == old(mouse.out) + [e]
      ensures Moves(mouse.out) == Moves(old(mouse.out)) + [e]
      ensures OnlyMoved(old(sources), sources, i, old(sources)[i].pressed, old(sources)[i].dropping)
    {
      var s := sources[i].(pendingMouse := true);
      assert Rows(sources)[i := s.pressed] == Rows(sources);
      MovesAppend(mouse.out, e);
      mouse.Emit(e);
      Settle(i, s);
    }

    method ForwardToKeyboard(i: nat, e: Out)
      requires Valid() && i < |sources| && (e.Motion? || e.Scan?)
      modifies this, keyboard`out
      ensures Valid() && keyboard.out == old(keyboard.out) + [e]
      ensures Moves(keyboard.out) == Moves(old(keyboard.out)) + [e]
      ensures OnlyMoved(old(sources), sources, i, old(sources)[i].pressed, old(sources)[i].dropping)
    {
      var s := sources[i].(pendingKeyboard := true);
      assert Rows(sources)[i := s.pressed] == Rows(sources);
      MovesAppend(keyboard.out, e);
      keyboard.Emit(e);
      Settle(i, s);
    }

    /** One event of one source; false when the source has to be given up. */
    method ForwardEvent(i: nat, e: InEvent) returns (stay: bool)
      requires Valid() && i < |sources|
      modifies this, mouse, keyboard
      ensures Valid() && |sources| == |old(sources)|
      ensures stay <==> Follow(old(sources)[i], e).Some?
      ensures stay ==> var r := Follow(old(sources)[i], e).value; OnlyMoved(old(sources), sources, i, r.0, r.1)
      ensures !stay ==> sources == old(sources)
      ensures stay && e.SynReport? ==> !sources[i].pendingMouse && !sources[i].pendingKeyboard
      ensures Unkeyed(old(sources)[i], e) ==>
                && mouse.out == old(mouse.out) + ToMouse(old(sources)[i], e)
                && keyboard.out == old(keyboard.out) + ToKeyboard(old(sources)[i], e)
      ensures e.KeyEvent? && !old(sources)[i].dropping && Mapped(old(sources)[i], e.code) && e.value != 2 ==>
                && Announced(old(sources), sources, e.code, old(mouse.out), mouse.out, true)
                && Announced(old(sources), sources, e.code, old(keyboard.out), keyboard.out, false)
      ensures e.SynReport? && !old(sources)[i].dropping ==>
                && mouse.out == old(mouse.out) + (if old(sources)[i].pendingMouse then [Sync] else [])
                && keyboard.out == old(keyboard.out) + (if old(sources)[i].pendingKeyboard then [Sync] else [])
      ensures Moves(mouse.out) == Moves(old(mouse.out)) + ToMouse(old(sources)[i], e)
      ensures Moves(keyboard.out) == Moves(old(keyboard.out)) + ToKeyboard(old(sources)[i], e)
    {
      hide Moves;
      var s := sources[i];
      stay := true;
      match e
      case SynDropped =>
        SetDropping(i, true);
      case SynReport(levels) =>
        if s.dropping {
          if levels.None? {
            return false;
          }
          ReconcileKeys(i, levels.value);
          SetDropping(i, false);
        }
        FlushFrame(i);
      case KeyEvent(code, value) =>
        if !s.dropping {
          ChangeKey(i, code, value);
        }
      case RelEvent(axis, delta, supported) =>
        if !s.dropping && s.mouse && supported {
          ForwardToMouse(i, Motion(axis, delta));
        }
      case MscScan(scan) =>
        if !s.dropping {
          if s.mouse {
            ForwardToMouse(i, Scan(scan));
          }
          if s.keyboard {
            ForwardToKeyboard(i, Scan(scan));
          }
        }
      case OtherEvent =>
    }

    /** The whole result of one poll; false when the source has to be given up. */
    method ForwardEvents(i: nat, poll: Poll) returns (stay: bool)
      requires Valid() && i < |sources|
      modifies this, mouse, keyboard
      ensures Valid() && |sources| == |old(sources)|
      ensures OnlyMoved(old(sources), sources, i, sources[i].pressed, sources[i].dropping)
      ensures stay <==> Survives(old(sources)[i], poll)
      ensures Moves(mouse.out) == Moves(old(mouse.out)) + SentPolled(old(sources)[i], poll, true)
      ensures Moves(keyboard.out) == Moves(old(keyboard.out)) + SentPolled(old(sources)[i], poll, false)
      ensures stay ==> Bare(sources[i]) == Polled(old(sources)[i], poll)
    {
      hide Moves, FollowAll;
      match poll
      case Idle =>
        return true;
      case Error =>
        return false;
      case Events(events, clean) =>
        var kept := ForwardAll(i, events);
        return kept && clean;
    }

    /** A list of events, up to the first one that gives the source up. */
    method ForwardAll(i: nat, events: seq<InEvent>) returns (stay: bool)
      requires Valid() && i < |sources|
      modifies this, mouse, keyboard
      ensures Valid() && |sources| == |old(sources)|
      ensures OnlyMoved(old(sources), sources, i, sources[i].pressed, sources[i].dropping)
      ensures Moves(mouse.out) == Moves(old(mouse.out)) + SentBy(old(sources)[i], events, true)
      ensures Moves(keyboard.out) == Moves(old(keyboard.out)) + SentBy(old(sources)[i], events, false)
      ensures stay <==> FollowAll(old(sources)[i], events).Some?
      ensures stay ==> FollowAll(old(sources)[i], events) == Some((sources[i].pressed, sources[i].dropping))
    {
      hide Follow, Moves, FollowAll, SentBy, ToMouse, ToKeyboard;
      SentNothing(sources[i], events);
      ghost var was, all := sources[i], sources;
      for n := 0 to |events|
        invariant Valid() && |sources| == |all|
        invariant OnlyMoved(all, sources, i, sources[i].pressed, sources[i].dropping)
        invariant FollowAll(was, events[..n]) == Some((sources[i].pressed, sources[i].dropping))
        invariant Moves(mouse.out) == Moves(old(mouse.out)) + SentBy(was, events[..n], true)
        invariant Moves(keyboard.out) == Moves(old(keyboard.out)) + SentBy(was, events[..n], false)
      {
        FollowNext(was, sources[i], events, n);
        SentNext(was, sources[i], events, n, true);
        SentNext(was, sources[i], events, n, false);
        ghost var before := sources;
        var kept := ForwardEvent(i, events[n]);
        if !kept {
          GivenUp(was, events, n + 1);
          SentEnds(was, events, n + 1, true);
          SentEnds(was, events, n + 1, false);
          return false;
        }
        MovedTwice(all, before, sources, i, before[i].pressed, before[i].dropping,
                   sources[i].pressed, sources[i].dropping);
      }
      assert events[..|events|] == events;
      return true;
    }

    /** Releases everything the source holds, ends its frame and forgets it. */
    method Disconnect(i: nat)
      requires Valid() && i < |sources|
      modifies this, mouse, keyboard
      ensures Valid()
      ensures Moves(mouse.out) == Moves(old(mouse.out)) && Moves(keyboard.out) == Moves(old(keyboard.out))
      ensures sources == old(sources)[..i] + old(sources)[i + 1..]
    {
      hide Down, Alternating, Moves;
      ghost var was := sources[i];
      for code := 0 to KEY_CNT
        invariant Valid()
        invariant Moves(mouse.out) == Moves(old(mouse.out)) && Moves(keyboard.out) == Moves(old(keyboard.out))
        invariant |sources| == |old(sources)|
        invariant OnlyMoved(old(sources), sources, i, sources[i].pressed, was.dropping)
        invariant forall c :: 0 <= c < code ==> !sources[i].pressed[c]
      {
        if sources[i].pressed[code] {
          ghost var before := sources;
          ChangeKey(i, code, 0);
          MovedTwice(old(sources), before, sources, i, before[i].pressed, was.dropping,
                     sources[i].pressed, was.dropping);
        }
      }
      FlushFrame(i);
      Forget(i);
    }

    method Forget(i: nat)
      requires Valid() && i < |sources|
      requires !sources[i].pendingMouse && !sources[i].pendingKeyboard
      requires forall c :: 0 <= c < KEY_CNT ==> !sources[i].pressed[c]
      modifies this`sources
      ensures Valid() && sources == old(sources)[..i] + old(sources)[i + 1..]
    {
      var rest := sources[..i] + sources[i + 1..];
      assert Rows(rest) == Rows(sources)[..i] + Rows(sources)[i + 1..];
      forall c | 0 <= c < KEY_CNT
        ensures Count(Rows(rest), c) == Count(Rows(sources), c)
      {
        CountRemove(Rows(sources), i, c);
      }
      PendingWithout(sources, i);
      sources := rest;
    }

    /** A scan adds a device it has not grabbed yet; a device without a role, or one
        that cannot be grabbed, is left alone. */
    method Connect(f: Found)
      requires Valid()
      modifies this`sources
      ensures Valid() && sources == Joined(old(sources), f)
    {
      var known := Known(f.path);
      if known || !(f.mouse || f.keyboard) || !f.grabbed {
        return;
      }
      var s := Source(f.path, f.mouse, f.keyboard, AllUp(), false, false, false);
      assert Rows(sources + [s]) == Rows(sources) + [AllUp()];
      forall c | 0 <= c < KEY_CNT
        ensures Count(Rows(sources + [s]), c) == Count(Rows(sources), c)
      {
        CountAppend(Rows(sources), AllUp(), c);
      }
      PendingAppend(sources, s);
      sources := sources + [s];
    }

    method Known(path: string) returns (known: bool)
      ensures known <==> path in Paths(sources)
    {
      for i := 0 to |sources|
        invariant path !in Paths(sources)[..i]
      {
        if sources[i].path == path {
          assert Paths(sources)[i] == path;
          return true;
        }
      }
      assert Paths(sources)[..|sources|] == Paths(sources);
      return false;
    }

    /** Polls one source and drops it if it has to be given up. */
    method PollOne(i: nat, poll: Poll)
      requires Valid() && i < |sources|
      modifies this, mouse, keyboard
      ensures Valid() && i <= |sources|
      ensures Moves(mouse.out) == Moves(old(mouse.out)) + SentPolled(old(sources)[i], poll, true)
      ensures Moves(keyboard.out) == Moves(old(keyboard.out)) + SentPolled(old(sources)[i], poll, false)
      ensures sources[..i] == old(sources)[..i]
      ensures if Survives(old(sources)[i], poll)
              then && i < |sources| && sources[i + 1..] == old(sources)[i + 1..]
                   && Bare(sources[i]) == Polled(old(sources)[i], poll)
              else sources[i..] == old(sources)[i + 1..]
    {
      hide Moves, SentPolled;
      var stay := ForwardEvents(i, poll);
      if !stay {
        Disconnect(i);
      }
    }

    /** Polls all sources from the last to the first, so that removing one does not
        shift those still to be polled: each source gets its own poll result. */
    method PollAll(polls: seq<Poll>)
      requires Valid() && |polls| == |sources|
      modifies this, mouse, keyboard
      ensures Valid()
      ensures Bares(sources) == Survivors(old(sources), polls)
      ensures Moves(mouse.out) == Moves(old(mouse.out)) + SentAll(old(sources), polls, true)
      ensures Moves(keyboard.out) == Moves(old(keyboard.out)) + SentAll(old(sources), polls, false)
    {
      hide Survives, Polled, Bare, Moves, SentPolled, SentAll, Survivors, Bares;
      NothingPolled(sources, polls);
      var i := |sources|;
      ghost var was := sources;
      while i > 0
        invariant Valid() && 0 <= i <= |was| && i <= |sources|
        invariant sources[..i] == was[..i]
        invariant Bares(sources[i..]) == Survivors(was[i..], polls[i..])
        invariant Moves(mouse.out) == Moves(old(mouse.out)) + SentAll(was[i..], polls[i..], true)
        invariant Moves(keyboard.out) == Moves(old(keyboard.out)) + SentAll(was[i..], polls[i..], false)
      {
        i := i - 1;
        ghost var before := sources;
        assert before[i] == was[i];
        PollOne(i, polls[i]);
        PolledStep(was, polls, before, sources, i);
        SentStep(was, polls, i, true);
        SentStep(was, polls, i, false);
        assert sources[..i] == before[..i] == was[..i];
      }
      assert sources[0..] == sources && was[0..] == was && polls[0..] == polls;
    }

    /** Any run of the bridge: scans, polls and hot-unplugs in any order, then a stop.
        In every turn each source is moved by its own poll, and what a reader sees is
        the OR of the moved sources. At the end both streams are complete and every
        press has its release. */
    method Run(turns: nat) returns (ghost views: seq<TurnView>)
      requires Valid()
      modifies this, mouse, keyboard, devices
      ensures Valid() && sources == []
      ensures |views| == turns && Linked(old(sources), views)
      ensures forall t :: 0 <= t < turns ==> Faithful(views[t])
      ensures Attentive(views, old(devices.scans), devices.scans, old(devices.polled), devices.polled)
      ensures forall c: nat :: Edges(mouse.out, c, 1) == Edges(mouse.out, c, 0)
      ensures forall c: nat :: Edges(keyboard.out, c, 1) == Edges(keyboard.out, c, 0)
      ensures Alternating(mouse.out) && Alternating(keyboard.out)
      ensures !Unsynced(mouse.out) && !Unsynced(keyboard.out)
    {
      hide Linked, Attentive;
      views := Turns(turns);
      Shutdown();
      forall c: nat
        ensures Edges(mouse.out, c, 1) == Edges(mouse.out, c, 0)
        ensures Edges(keyboard.out, c, 1) == Edges(keyboard.out, c, 0)
      {
        PressesMatchReleases(mouse.out, c);
        PressesMatchReleases(keyboard.out, c);
      }
    }

    method Turns(turns: nat) returns (ghost views: seq<TurnView>)
      requires Valid()
      modifies this, mouse, keyboard, devices
      ensures Valid() && |views| == turns && Linked(old(sources), views)
      ensures Attentive(views, old(devices.scans), devices.scans, old(devices.polled), devices.polled)
      ensures forall t :: 0 <= t < turns ==> Faithful(views[t])
    {
      hide Faithful, Linked, Scanned;
      views := [];
      ghost var first := sources;
      LinkedStart(first);
      for n := 0 to turns
        invariant Valid() && |views| == n && Linked(first, views)
        invariant sources == LeftBy(first, views, n)
        invariant Attentive(views, old(devices.scans), devices.scans, old(devices.polled), devices.polled)
        invariant forall t :: 0 <= t < n ==> Faithful(views[t])
      {
        ghost var view := Turn();
        LinkedNext(first, views, view);
        views := views + [view];
      }
    }

    /** A scan, then one poll of every source. */
    method Turn() returns (ghost view: TurnView)
      requires Valid()
      modifies this, mouse, keyboard, devices
      ensures Valid() && Faithful(view)
      ensures view.before == Scanned(old(sources), view.found) && sources == view.after
      ensures devices.scans == old(devices.scans) + [view.found]
      ensures devices.polled == old(devices.polled) + [view.polls]
    {
      hide Moves, SentAll, Scanned;
      var found := devices.Scan();
      Adopt(found);
      ghost var before, mouseOut, keyboardOut := sources, mouse.out, keyboard.out;
      var polls := devices.PollSources(|sources|);
      PollAll(polls);
      view := TurnView(found, before, polls, sources, mouseOut, keyboardOut, mouse.out, keyboard.out);
      forall c: nat | c < KEY_CNT
        ensures Down(mouse.out, c) <==> IsButton(c) && Any(Rows(sources), c)
        ensures Down(keyboard.out, c) <==> !IsButton(c) && Any(Rows(sources), c)
      {
        LevelIsOr(c);
      }
    }

    /** Takes in what a scan found, one node after the other. */
    method Adopt(found: seq<Found>)
      requires Valid()
      modifies this`sources
      ensures Valid() && sources == Scanned(old(sources), found)
    {
      hide Joined;
      for n := 0 to |found|
        invariant Valid() && sources == Scanned(old(sources), found[..n])
      {
        assert found[..n + 1][..n] == found[..n];
        Connect(found[n]);
      }
      assert found[..|found|] == found;
    }

    /** Stopping disconnects every source, after which every key is up, both streams
        are synced and the final release of keys is silent. */
    method Shutdown()
      requires Valid()
      modifies this, mouse, keyboard
      ensures sources == [] && Valid()
      ensures forall c: nat :: !Down(mouse.out, c) && !Down(keyboard.out, c)
      ensures !Unsynced(mouse.out) && !Unsynced(keyboard.out)
    {
      while sources != []
        invariant Valid()
        decreases |sources|
      {
        Disconnect(|sources| - 1);
      }
      ghost var mouseOut, keyboardOut := mouse.out, keyboard.out;
      keyboard.ReleaseKeys();
      mouse.ReleaseKeys();
      assert mouse.out == mouseOut && keyboard.out == keyboardOut;
    }
  }

  lemma MovesAnnounced(before: seq<Source>, after: seq<Source>, code: nat,
                       outBefore: seq<Out>, outAfter: seq<Out>, buttons: bool)
    requires code < KEY_CNT && Announced(before, after, code, outBefore, outAfter, buttons)
    ensures Moves(outAfter) == Moves(outBefore)
  {
    hide Moves;
    MovesAppend(outBefore, Key(code, 0));
    MovesAppend(outBefore, Key(code, 1));
    assert outBefore + [] == outBefore;
  }

  lemma MovesRepeated(s: Source, code: nat, mouseBefore: seq<Out>, mouseAfter: seq<Out>,
                      keyboardBefore: seq<Out>, keyboardAfter: seq<Out>)
    requires code < KEY_CNT && Repeated(s, code, mouseBefore, mouseAfter, keyboardBefore, keyboardAfter)
    requires Mapped(s, code)
    ensures Moves(mouseAfter) == Moves(mouseBefore) + RepeatTo(s, code, 2, true)
    ensures Moves(keyboardAfter) == Moves(keyboardBefore) + RepeatTo(s, code, 2, false)
  {
    hide Moves;
    MovesAppend(mouseBefore, Key(code, 2));
    MovesAppend(keyboardBefore, Key(code, 2));
  }

  lemma SentNothing(s: Source, events: seq<InEvent>)
    ensures FollowAll(s, events[..0]) == Some((s.pressed, s.dropping))
    ensures SentBy(s, events[..0], true) == [] && SentBy(s, events[..0], false) == []
  {
  }

  lemma SentNext(was: Source, now: Source, events: seq<InEvent>, n: nat, toMouse: bool)
    requires n < |events|
    requires now == was.(pressed := now.pressed, dropping := now.dropping,
                         pendingMouse := now.pendingMouse, pendingKeyboard := now.pendingKeyboard)
    requires FollowAll(was, events[..n]) == Some((now.pressed, now.dropping))
    ensures SentBy(was, events[..n + 1], toMouse) == SentBy(was, events[..n], toMouse)
            + if toMouse then ToMouse(now, events[n]) else ToKeyboard(now, events[n])
  {
    hide FollowAll;
    assert events[..n + 1][..n] == events[..n];
  }

  lemma {:induction false} SentEnds(s: Source, events: seq<InEvent>, n: nat, toMouse: bool)
    requires n <= |events| && FollowAll(s, events[..n]).None?
    ensures SentBy(s, events, toMouse) == SentBy(s, events[..n], toMouse)
    decreases |events|
  {
    if n == |events| {
      assert events[..n] == events;
    } else {
      var m := |events| - 1;
      assert events[..m][..n] == events[..n];
      SentEnds(s, events[..m], n, toMouse);
      GivenUp(s, events[..m], n);
    }
  }

  lemma NothingPolled(sources: seq<Source>, polls: seq<Poll>)
    requires |sources| == |polls|
    ensures var none, noPolls := sources[|sources|..], polls[|sources|..];
            && Bares(none) == Survivors(none, noPolls)
            && SentAll(none, noPolls, true) == [] && SentAll(none, noPolls, false) == []
  {
  }

  lemma SentStep(sources: seq<Source>, polls: seq<Poll>, i: nat, toMouse: bool)
    requires i < |sources| == |polls|
    ensures SentAll(sources[i..], polls[i..], toMouse)
            == SentAll(sources[i + 1..], polls[i + 1..], toMouse) + SentPolled(sources[i], polls[i], toMouse)
  {
    assert sources[i..][1..] == sources[i + 1..] && polls[i..][1..] == polls[i + 1..];
  }

  lemma SurvivorsStep(sources: seq<Source>, polls: seq<Poll>, i: nat)
    requires i < |sources| == |polls|
    ensures Survivors(sources[i..], polls[i..])
            == (if Survives(sources[i], polls[i]) then [Polled(sources[i], polls[i])] else [])
               + Survivors(sources[i + 1..], polls[i + 1..])
  {
    assert sources[i..][1..] == sources[i + 1..] && polls[i..][1..] == polls[i + 1..];
  }

  /** Polling one more source extends the part already polled. */
  lemma PolledStep(was: seq<Source>, polls: seq<Poll>, before: seq<Source>, after: seq<Source>, i: nat)
    requires i < |was| == |polls| && i < |before| && i <= |after| && before[i] == was[i]
    requires Bares(before[i + 1..]) == Survivors(was[i + 1..], polls[i + 1..])
    requires if Survives(was[i], polls[i])
             then i < |after| && after[i + 1..] == before[i + 1..] && Bare(after[i]) == Polled(was[i], polls[i])
             else after[i..] == before[i + 1..]
    ensures Bares(after[i..]) == Survivors(was[i..], polls[i..])
  {
    hide Survives, Polled, Bare, Survivors, Bares;
    SurvivorsStep(was, polls, i);
    BaresStep(after, i);
  }

  lemma BaresStep(sources: seq<Source>, i: nat)
    requires i <= |sources|
    ensures i < |sources| ==> Bares(sources[i..]) == [Bare(sources[i])] + Bares(sources[i + 1..])
  {
  }

  lemma PendingAppend(before: seq<Source>, s: Source)
    ensures MousePending(before) ==> MousePending(before + [s])
    ensures KeyboardPending(before) ==> KeyboardPending(before + [s])
  {
    if j :| 0 <= j < |before| && before[j].pendingMouse {
      assert (before + [s])[j].pendingMouse;
    }
    if j :| 0 <= j < |before| && before[j].pendingKeyboard {
      assert (before + [s])[j].pendingKeyboard;
    }
  }

  lemma FollowIgnoresPending(was: Source, now: Source, e: InEvent)
    requires now == was.(pressed := now.pressed, dropping := now.dropping,
                         pendingMouse := now.pendingMouse, pendingKeyboard := now.pendingKeyboard)
    ensures Follow(was.(pressed := now.pressed, dropping := now.dropping), e) == Follow(now, e)
  {
    var plain := was.(pressed := now.pressed, dropping := now.dropping);
    if e.SynReport? && e.levels.Some? {
      assert Reconciled(plain, e.levels.value) == Reconciled(now, e.levels.value);
    }
  }

  lemma FollowNext(was: Source, now: Source, events: seq<InEvent>, n: nat)
    requires n < |events|
    requires now == was.(pressed := now.pressed, dropping := now.dropping,
                         pendingMouse := now.pendingMouse, pendingKeyboard := now.pendingKeyboard)
    requires FollowAll(was, events[..n]) == Some((now.pressed, now.dropping))
    ensures FollowAll(was, events[..n + 1]) == Follow(now, events[n])
  {
    hide Follow;
    assert events[..n + 1][..n] == events[..n];
    FollowIgnoresPending(was, now, events[n]);
  }

  lemma {:induction false} GivenUp(s: Source, events: seq<InEvent>, n: nat)
    requires n <= |events| && FollowAll(s, events[..n]).None?
    ensures FollowAll(s, events).None?
    decreases |events|
  {
    if n == |events| {
      assert events[..n] == events;
    } else {
      assert events[..|events| - 1][..n] == events[..n];
      GivenUp(s, events[..|events| - 1], n);
    }
  }
}
