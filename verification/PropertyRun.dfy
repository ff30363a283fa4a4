/**
 What dropping property writes that repeat the cache does to the kernel's values,
 over any sequence of reads and writes.
 */
module PropertyRun {
  import opened PropertyCache

  /** A property report that is stored, a write by the caller, or something that
      touches neither the cache nor the properties. */
  datatype Step = Report(report: seq<Write>) | Wrote(write: Write) | Other

  ghost predicate Mentions(step: Step, key: Key)
  {
    step.Report? && exists i :: 0 <= i < |step.report| && step.report[i].key == key
  }

  predicate Writes(step: Step, key: Key)
  {
    step.Wrote? && step.write.key == key
  }

  /** What the cache holds after the steps. A write does not refresh it. */
  function Snapshots(steps: seq<Step>): map<Key, nat>
  {
    if steps == [] then map[]
    else
      var n := |steps| - 1;
      var before := Snapshots(steps[..n]);
      if steps[n].Report? then StoreAll(before, steps[n].report) else before
  }

  /** The property values when every write reaches the kernel. */
  function Direct(kernel: map<Key, nat>, steps: seq<Step>): map<Key, nat>
  {
    if steps == [] then kernel
    else
      var n := |steps| - 1;
      var before := Direct(kernel, steps[..n]);
      if steps[n].Wrote? then before[steps[n].write.key := steps[n].write.value] else before
  }

  /** The property values when writes that repeat the cache are dropped. */
  function Filtered(kernel: map<Key, nat>, steps: seq<Step>): map<Key, nat>
  {
    if steps == [] then kernel
    else
      var n := |steps| - 1;
      var before := Filtered(kernel, steps[..n]);
      if steps[n].Wrote? && !Repeats(Snapshots(steps[..n]), steps[n].write)
      then before[steps[n].write.key := steps[n].write.value] else before
  }

  /** Every stored report was of the kernel's values at its time. */
  ghost predicate Truthful(kernel: map<Key, nat>, steps: seq<Step>)
  {
    forall i :: 0 <= i < |steps| && steps[i].Report? ==> Accurate(Filtered(kernel, steps[..i]), steps[i].report)
  }

  lemma StepAdds(kernel: map<Key, nat>, steps: seq<Step>, step: Step)
    ensures var all, cached, f, d := steps + [step], Snapshots(steps), Filtered(kernel, steps), Direct(kernel, steps);
            && Snapshots(all) == (if step.Report? then StoreAll(cached, step.report) else cached)
            && Filtered(kernel, all) == (if step.Wrote? && !Repeats(cached, step.write)
                                         then f[step.write.key := step.write.value] else f)
            && Direct(kernel, all) == (if step.Wrote? then d[step.write.key := step.write.value] else d)
  {
    hide StoreAll, Repeats;
    assert (steps + [step])[..|steps|] == steps;
  }

  lemma TruthfulNext(kernel: map<Key, nat>, steps: seq<Step>, step: Step)
    requires Truthful(kernel, steps)
    requires step.Report? ==> Accurate(Filtered(kernel, steps), step.report)
    ensures Truthful(kernel, steps + [step])
  {
    hide Filtered, Accurate;
    var all := steps + [step];
    forall i | 0 <= i < |all| && all[i].Report?
      ensures Accurate(Filtered(kernel, all[..i]), all[i].report)
    {
      if i < |steps| {
        assert all[..i] == steps[..i];
      } else {
        assert all[..i] == steps;
      }
    }
  }

  // ---------------------------------------------------------------------
  // The condition under which a write is lost

  /** Step `s` stored a value for the key, and no report named it up to step `n`. */
  ghost predicate CachedAt(steps: seq<Step>, key: Key, s: int, n: int)
  {
    && 0 <= s < n <= |steps|
    && Mentions(steps[s], key) && key in Snapshots(steps[..s + 1])
    && forall i :: s < i < n ==> !Mentions(steps[i], key)
  }

  /** Since step `s` stored the key, step `d` before `n` wrote another value. */
  ghost predicate MovedAt(steps: seq<Step>, key: Key, s: int, d: int, n: int)
  {
    && CachedAt(steps, key, s, n) && s < d < n
    && Writes(steps[d], key) && steps[d].write.value != Snapshots(steps[..s + 1])[key]
  }

  ghost predicate Drifted(steps: seq<Step>, key: Key)
  {
    exists s, d :: MovedAt(steps, key, s, d, |steps|)
  }

  /** Step `l` is the caller's last write to the key, and it puts back the value that
      was stored before step `d` moved it away. */
  ghost predicate PutBackAt(steps: seq<Step>, key: Key, s: int, d: int, l: int)
  {
    && 0 <= l < |steps| && MovedAt(steps, key, s, d, l)
    && steps[l] == Wrote(Write(key, Snapshots(steps[..s + 1])[key]))
    && forall i :: l < i < |steps| ==> !Writes(steps[i], key)
  }

  ghost predicate PutBack(steps: seq<Step>, key: Key)
  {
    exists s, d, l :: PutBackAt(steps, key, s, d, l)
  }

  // ---------------------------------------------------------------------
  // One step at a time

  lemma {:induction false} SnapshotKept(steps: seq<Step>, key: Key, s: int, n: int)
    requires CachedAt(steps, key, s, n)
    ensures key in Snapshots(steps[..n]) && Snapshots(steps[..n])[key] == Snapshots(steps[..s + 1])[key]
    decreases n
  {
    if s + 1 < n {
      SnapshotKept(steps, key, s, n - 1);
      assert steps[..n][..n - 1] == steps[..n - 1];
      if steps[n - 1].Report? {
        assert !Mentions(steps[n - 1], key);
        StoreAllOther(Snapshots(steps[..n - 1]), steps[n - 1].report, key);
      }
    }
  }

  /** A cached key was stored by some last report that names it. */
  lemma {:induction false} LastStored(steps: seq<Step>, key: Key) returns (s: int)
    requires key in Snapshots(steps)
    ensures CachedAt(steps, key, s, |steps|)
    decreases |steps|
  {
    var n := |steps| - 1;
    assert steps[..n + 1] == steps;
    if Mentions(steps[n], key) {
      s := n;
    } else {
      if steps[n].Report? {
        StoreAllOther(Snapshots(steps[..n]), steps[n].report, key);
      }
      s := LastStored(steps[..n], key);
      assert steps[..n][..s + 1] == steps[..s + 1];
    }
  }

  lemma CachedPrefix(steps: seq<Step>, key: Key, s: int, n: int, m: int)
    requires 0 <= n <= m <= |steps|
    ensures CachedAt(steps[..m], key, s, n) <==> CachedAt(steps, key, s, n)
    ensures 0 <= s < n ==> steps[..m][..s + 1] == steps[..s + 1]
  {
    if 0 <= s < n {
      assert steps[..m][..s + 1] == steps[..s + 1];
    }
  }

  lemma DriftedStep(steps: seq<Step>, key: Key)
    requires steps != []
    ensures var n := |steps| - 1;
            Drifted(steps, key) <==>
              && !Mentions(steps[n], key)
              && (Drifted(steps[..n], key)
                  || (&& Writes(steps[n], key) && key in Snapshots(steps[..n])
                      && steps[n].write.value != Snapshots(steps[..n])[key]))
  {
    var n := |steps| - 1;
    if Drifted(steps, key) {
      DriftedWas(steps, key);
    }
    if !Mentions(steps[n], key) {
      if Drifted(steps[..n], key) {
        var s, d :| MovedAt(steps[..n], key, s, d, n);
        CachedPrefix(steps, key, s, n, n);
        assert MovedAt(steps, key, s, d, n + 1);
      } else if Writes(steps[n], key) && key in Snapshots(steps[..n])
                && steps[n].write.value != Snapshots(steps[..n])[key] {
        var s := LastStored(steps[..n], key);
        SnapshotKept(steps[..n], key, s, n);
        assert steps[..n][..n] == steps[..n];
        CachedPrefix(steps, key, s, n, n);
        assert MovedAt(steps, key, s, n, n + 1);
      }
    }
  }

  lemma DriftedWas(steps: seq<Step>, key: Key)
    requires steps != [] && Drifted(steps, key)
    ensures var n := |steps| - 1;
            && !Mentions(steps[n], key)
            && (Drifted(steps[..n], key)
                || (&& Writes(steps[n], key) && key in Snapshots(steps[..n])
                    && steps[n].write.value != Snapshots(steps[..n])[key]))
  {
    var n := |steps| - 1;
    var s, d :| MovedAt(steps, key, s, d, n + 1);
    assert CachedAt(steps, key, s, n);
    CachedPrefix(steps, key, s, n, n);
    if d < n {
      assert MovedAt(steps[..n], key, s, d, n);
    } else {
      SnapshotKept(steps, key, s, n);
    }
  }

  lemma PutBackLater(steps: seq<Step>, key: Key)
    requires steps != [] && !Writes(steps[|steps| - 1], key)
    ensures PutBack(steps, key) <==> PutBack(steps[..|steps| - 1], key)
  {
    var n := |steps| - 1;
    if s, d, l :| PutBackAt(steps, key, s, d, l) {
      CachedPrefix(steps, key, s, l, n);
      assert PutBackAt(steps[..n], key, s, d, l);
    }
    if s, d, l :| PutBackAt(steps[..n], key, s, d, l) {
      CachedPrefix(steps, key, s, l, n);
      assert PutBackAt(steps, key, s, d, l);
    }
  }

  lemma PutBackNow(steps: seq<Step>, key: Key)
    requires steps != [] && Writes(steps[|steps| - 1], key)
    ensures var n := |steps| - 1;
            PutBack(steps, key) <==> Repeats(Snapshots(steps[..n]), steps[n].write) && Drifted(steps[..n], key)
  {
    var n := |steps| - 1;
    if s, d, l :| PutBackAt(steps, key, s, d, l) {
      assert l == n;
      CachedPrefix(steps, key, s, n, n);
      SnapshotKept(steps, key, s, n);
      assert MovedAt(steps[..n], key, s, d, n);
    }
    if Repeats(Snapshots(steps[..n]), steps[n].write) && Drifted(steps[..n], key) {
      var s, d :| MovedAt(steps[..n], key, s, d, n);
      CachedPrefix(steps, key, s, n, n);
      SnapshotKept(steps, key, s, n);
      assert PutBackAt(steps, key, s, d, n);
    }
  }

  // ---------------------------------------------------------------------
  // The theorem

  lemma TruthfulBefore(kernel: map<Key, nat>, steps: seq<Step>)
    requires steps != [] && Truthful(kernel, steps)
    ensures Truthful(kernel, steps[..|steps| - 1])
    ensures var n := |steps| - 1;
            steps[n].Report? ==> Accurate(Filtered(kernel, steps[..n]), steps[n].report)
  {
    var n := |steps| - 1;
    forall i | 0 <= i < n && steps[..n][i].Report?
      ensures Accurate(Filtered(kernel, steps[..n][..i]), steps[..n][i].report)
    {
      assert steps[..n][..i] == steps[..i];
    }
  }

  /** What is known of one key after the steps. */
  ghost predicate KeyFacts(kernel: map<Key, nat>, steps: seq<Step>, key: Key)
  {
    var f, d, c := Filtered(kernel, steps), Direct(kernel, steps), Snapshots(steps);
    && (key in f <==> key in d)
    && (key in d ==> (f[key] == d[key] <==> !PutBack(steps, key)))
    && (key in c ==> key in f && (f[key] == c[key] <==> !Drifted(steps, key)))
  }

  lemma FactsAfterReport(kernel: map<Key, nat>, steps: seq<Step>, key: Key)
    requires steps != [] && steps[|steps| - 1].Report? && KeyFacts(kernel, steps[..|steps| - 1], key)
    requires Accurate(Filtered(kernel, steps[..|steps| - 1]), steps[|steps| - 1].report)
    ensures KeyFacts(kernel, steps, key)
  {
    hide PutBack, Drifted;
    var n := |steps| - 1;
    var cached, report := Snapshots(steps[..n]), steps[n].report;
    PutBackLater(steps, key);
    DriftedStep(steps, key);
    if Mentions(steps[n], key) {
      StoredReport(cached, Filtered(kernel, steps[..n]), report);
      var i :| 0 <= i < |report| && report[i].key == key;
      assert Repeats(Filtered(kernel, steps[..n]), report[i]);
    } else {
      StoreAllOther(cached, report, key);
    }
  }

  lemma FactsAfterWrite(kernel: map<Key, nat>, steps: seq<Step>, key: Key)
    requires steps != [] && steps[|steps| - 1].Wrote? && KeyFacts(kernel, steps[..|steps| - 1], key)
    ensures KeyFacts(kernel, steps, key)
  {
    hide PutBack, Drifted;
    DriftedStep(steps, key);
    if Writes(steps[|steps| - 1], key) {
      PutBackNow(steps, key);
    } else {
      PutBackLater(steps, key);
    }
  }

  lemma {:induction false} KeyAlways(kernel: map<Key, nat>, steps: seq<Step>, key: Key)
    requires Truthful(kernel, steps)
    ensures KeyFacts(kernel, steps, key)
    decreases |steps|
  {
    if steps == [] {
      assert !PutBack(steps, key);
    } else {
      var n := |steps| - 1;
      TruthfulBefore(kernel, steps);
      KeyAlways(kernel, steps[..n], key);
      match steps[n]
      case Report(_) => FactsAfterReport(kernel, steps, key);
      case Wrote(_) => FactsAfterWrite(kernel, steps, key);
      case Other =>
        PutBackLater(steps, key);
        DriftedStep(steps, key);
    }
  }

  /** Over any reads and writes, dropping the repeated writes of a key gives the value
      that all writes would have given, if and only if the last write does not put
      back a stored value after another write moved it away. */
  lemma FilteredValue(kernel: map<Key, nat>, steps: seq<Step>, key: Key)
    requires Truthful(kernel, steps)
    ensures key in Filtered(kernel, steps) <==> key in Direct(kernel, steps)
    ensures key in Direct(kernel, steps) ==>
              (Filtered(kernel, steps)[key] == Direct(kernel, steps)[key] <==> !PutBack(steps, key))
  {
    KeyAlways(kernel, steps, key);
  }

  /** The whole property table is the same exactly if no key is put back. */
  lemma SuppressionInvisible(kernel: map<Key, nat>, steps: seq<Step>)
    requires Truthful(kernel, steps)
    ensures Filtered(kernel, steps) == Direct(kernel, steps) <==> forall key :: !PutBack(steps, key)
  {
    hide PutBack;
    var f, d := Filtered(kernel, steps), Direct(kernel, steps);
    forall key
      ensures key in f <==> key in d
      ensures key in d ==> (f[key] == d[key] <==> !PutBack(steps, key))
    {
      FilteredValue(kernel, steps, key);
    }
    forall key | PutBack(steps, key)
      ensures key in d
    {
      PutBackIsWritten(kernel, steps, key);
    }
    if forall key :: !PutBack(steps, key) {
      assert f.Keys == d.Keys;
    }
  }

  lemma PutBackIsWritten(kernel: map<Key, nat>, steps: seq<Step>, key: Key)
    requires PutBack(steps, key)
    ensures key in Direct(kernel, steps)
  {
    var s, d, l :| PutBackAt(steps, key, s, d, l);
    WrittenStays(kernel, steps, key, l);
  }

  lemma {:induction false} WrittenStays(kernel: map<Key, nat>, steps: seq<Step>, key: Key, l: int)
    requires 0 <= l < |steps| && Writes(steps[l], key)
    ensures key in Direct(kernel, steps)
    decreases |steps|
  {
    var n := |steps| - 1;
    if l < n {
      WrittenStays(kernel, steps[..n], key, l);
    }
  }

  /** A property stored as 3, set to 7 and then back to 3 stays at 7. */
  lemma WriteBackIsLost()
    ensures var key := Key(31, 9);
            var steps := [Report([Write(key, 3)]), Wrote(Write(key, 7)), Wrote(Write(key, 3))];
            && Truthful(map[key := 3], steps) && PutBack(steps, key)
            && Filtered(map[key := 3], steps) != Direct(map[key := 3], steps)
  {
    var key := Key(31, 9);
    var kernel := map[key := 3];
    var report := [Write(key, 3)];
    var steps := [Report(report), Wrote(Write(key, 7)), Wrote(Write(key, 3))];
    assert steps[..0] == [] && steps[..1][..0] == [] && report[..0] == [];
    assert report[0].key == key;
    assert StoreAll(map[], report) == map[key := 3];
    assert Snapshots(steps[..1]) == map[key := 3];
    assert PutBackAt(steps, key, 0, 1, 2);
    PutBackIsWritten(kernel, steps, key);
    FilteredValue(kernel, steps, key);
  }
}
