/**
 The arithmetic of sharing one virtual device: how many sources press a key,
 whether any does, and what a reader of the emitted stream sees.
 */
module FanIn {
  const KEY_CNT := 768
  const BTN_MOUSE := 0x110
  const BTN_TASK := 0x117

  predicate IsButton(code: nat)
  {
    BTN_MOUSE <= code <= BTN_TASK
  }

  // ---------------------------------------------------------------------
  // Key levels of several sources

  type Row = row: seq<bool> | |row| == KEY_CNT witness seq(KEY_CNT, _ => false)

  /** No key is down. */
  function AllUp(): Row
  {
    seq(KEY_CNT, _ => false)
  }

  function Count(rows: seq<Row>, code: nat): nat
    requires code < KEY_CNT
  {
    if rows == [] then 0
    else Count(rows[..|rows| - 1], code) + if rows[|rows| - 1][code] then 1 else 0
  }

  /** The plain meaning of fan-in: some source holds the key down. */
  ghost predicate Any(rows: seq<Row>, code: nat)
    requires code < KEY_CNT
  {
    exists i :: 0 <= i < |rows| && rows[i][code]
  }

  lemma {:induction false} CountIsAny(rows: seq<Row>, code: nat)
    requires code < KEY_CNT
    ensures Count(rows, code) > 0 <==> Any(rows, code)
    decreases |rows|
  {
    if rows != [] {
      var n := |rows| - 1;
      CountIsAny(rows[..n], code);
      if Any(rows[..n], code) {
        var i :| 0 <= i < n && rows[..n][i][code];
        assert rows[i][code];
      }
      if Any(rows, code) && !rows[n][code] {
        var i :| 0 <= i < |rows| && rows[i][code];
        assert rows[..n][i][code];
      }
    }
  }

  /** Replacing one row moves the count by the change of that row. */
  lemma {:induction false} CountUpdate(rows: seq<Row>, i: nat, row: Row, code: nat)
    requires i < |rows| && code < KEY_CNT
    ensures Count(rows[i := row], code)
            == Count(rows, code) + (if row[code] then 1 else 0) - (if rows[i][code] then 1 else 0)
    decreases |rows|
  {
    var n := |rows| - 1;
    if i == n {
      assert rows[i := row][..n] == rows[..n];
    } else {
      CountUpdate(rows[..n], i, row, code);
      assert rows[i := row][..n] == rows[..n][i := row];
    }
  }

  lemma {:induction false} CountRemove(rows: seq<Row>, i: nat, code: nat)
    requires i < |rows| && code < KEY_CNT
    ensures Count(rows[..i] + rows[i + 1..], code)
            == Count(rows, code) - (if rows[i][code] then 1 else 0)
    decreases |rows|
  {
    var n := |rows| - 1;
    var rest := rows[..i] + rows[i + 1..];
    if i == n {
      assert rest == rows[..n];
    } else {
      CountRemove(rows[..n], i, code);
      assert rest[..n - 1] == rows[..n][..i] + rows[..n][i + 1..];
      assert rest[n - 1] == rows[n];
    }
  }

  lemma CountAppend(rows: seq<Row>, row: Row, code: nat)
    requires code < KEY_CNT
    ensures Count(rows + [row], code) == Count(rows, code) + if row[code] then 1 else 0
  {
    assert (rows + [row])[..|rows|] == rows;
  }

  lemma CountPressed(rows: seq<Row>, i: nat, code: nat)
    requires i < |rows| && code < KEY_CNT && rows[i][code]
    ensures Count(rows, code) > 0
  {
    CountIsAny(rows, code);
  }

  // ---------------------------------------------------------------------
  // The emitted stream

  datatype Out = Key(code: nat, value: int) | Motion(axis: nat, delta: int) | Scan(code: nat) | Sync

  /** The level a reader of the stream has for a key. */
  predicate Down(out: seq<Out>, code: nat)
  {
    if out == [] then false
    else
      var last := out[|out| - 1];
      if last.Key? && last.code == code then last.value != 0 else Down(out[..|out| - 1], code)
  }

  /** Presses and releases alternate per key, and a key repeats only while down. */
  ghost predicate Alternating(out: seq<Out>)
  {
    forall i :: 0 <= i < |out| && out[i].Key? ==>
      && (out[i].value == 1 ==> !Down(out[..i], out[i].code))
      && (out[i].value == 0 ==> Down(out[..i], out[i].code))
      && (out[i].value == 2 ==> Down(out[..i], out[i].code))
      && 0 <= out[i].value <= 2
  }

  /** An event after the last SYN_REPORT. */
  predicate Unsynced(out: seq<Out>)
  {
    out != [] && out[|out| - 1] != Sync
  }

  /** Events that are passed on as they come. Presses and releases are not: they
      depend on the other sources. */
  predicate PassedOn(e: Out)
  {
    e.Motion? || e.Scan? || (e.Key? && e.value == 2)
  }

  /** The motion, scan codes and repeats in the stream, in order. */
  function Moves(out: seq<Out>): seq<Out>
  {
    if out == [] then []
    else
      var n := |out| - 1;
      Moves(out[..n]) + if PassedOn(out[n]) then [out[n]] else []
  }

  lemma MovesAppend(out: seq<Out>, e: Out)
    ensures Moves(out + [e]) == if PassedOn(e) then Moves(out) + [e] else Moves(out)
  {
    assert (out + [e])[..|out|] == out;
  }

  lemma DownAppend(out: seq<Out>, e: Out, code: nat)
    ensures Down(out + [e], code) == if e.Key? && e.code == code then e.value != 0 else Down(out, code)
  {
    assert (out + [e])[..|out|] == out;
  }

  lemma AlternatingAppend(out: seq<Out>, e: Out)
    requires Alternating(out)
    requires e.Key? ==> 0 <= e.value <= 2 && (e.value == 1 <==> !Down(out, e.code))
    ensures Alternating(out + [e])
  {
    var all := out + [e];
    forall i | 0 <= i < |all| && all[i].Key?
      ensures 0 <= all[i].value <= 2 && (all[i].value == 1 <==> !Down(all[..i], all[i].code))
    {
      if i < |out| {
        assert all[..i] == out[..i];
      } else {
        assert all[..i] == out;
      }
    }
  }

  /** Over any stretch of the stream, per key, presses and releases balance up to
      the level at its ends. */
  function Edges(out: seq<Out>, code: nat, value: int): nat
  {
    if out == [] then 0
    else Edges(out[..|out| - 1], code, value) + if out[|out| - 1] == Key(code, value) then 1 else 0
  }

  lemma {:induction false} PressesMatchReleases(out: seq<Out>, code: nat)
    requires Alternating(out)
    ensures Edges(out, code, 1) == Edges(out, code, 0) + if Down(out, code) then 1 else 0
    decreases |out|
  {
    if out != [] {
      var n := |out| - 1;
      assert Alternating(out[..n]) by {
        forall i | 0 <= i < n && out[..n][i].Key?
          ensures out[..n][..i] == out[..i]
        {
        }
      }
      PressesMatchReleases(out[..n], code);
    }
  }
}
