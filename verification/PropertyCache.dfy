/**
 The fixed-size cache of connector properties.
 */
module PropertyCache {
  import opened Options

  const CAPACITY := 512

  datatype Key = Key(connector: nat, property: nat)
  datatype Entry = Entry(key: Key, value: nat)

  // ---------------------------------------------------------------------
  // The map an entry list stands for

  ghost predicate DistinctKeys(entries: seq<Entry>)
  {
    forall i, j :: 0 <= i < j < |entries| ==> entries[i].key != entries[j].key
  }

  ghost function Contents(entries: seq<Entry>): map<Key, nat>
  {
    if entries == [] then map[]
    else
      var n := |entries| - 1;
      Contents(entries[..n])[entries[n].key := entries[n].value]
  }

  lemma {:induction false} Lookup(entries: seq<Entry>, i: nat)
    requires DistinctKeys(entries) && i < |entries|
    ensures entries[i].key in Contents(entries)
    ensures Contents(entries)[entries[i].key] == entries[i].value
    decreases |entries|
  {
    var n := |entries| - 1;
    if i < n {
      Lookup(entries[..n], i);
    }
  }

  lemma {:induction false} Unlisted(entries: seq<Entry>, key: Key)
    requires forall i :: 0 <= i < |entries| ==> entries[i].key != key
    ensures key !in Contents(entries)
    decreases |entries|
  {
    if entries != [] {
      Unlisted(entries[..|entries| - 1], key);
    }
  }

  lemma {:induction false} ContentsSize(entries: seq<Entry>)
    requires DistinctKeys(entries)
    ensures |Contents(entries)| == |entries|
    decreases |entries|
  {
    if entries != [] {
      var n := |entries| - 1;
      ContentsSize(entries[..n]);
      var m := Contents(entries[..n]);
      Unlisted(entries[..n], entries[n].key);
      assert m[entries[n].key := entries[n].value].Keys == m.Keys + {entries[n].key};
    }
  }

  lemma {:induction false} Rewrite(entries: seq<Entry>, i: nat, value: nat)
    requires DistinctKeys(entries) && i < |entries|
    ensures DistinctKeys(entries[i := Entry(entries[i].key, value)])
    ensures Contents(entries[i := Entry(entries[i].key, value)])
            == Contents(entries)[entries[i].key := value]
    decreases |entries|
  {
    var n := |entries| - 1;
    var key, after := entries[i].key, entries[i := Entry(entries[i].key, value)];
    if i == n {
      assert after[..n] == entries[..n];
    } else {
      Rewrite(entries[..n], i, value);
      assert after[..n] == entries[..n][i := Entry(key, value)];
      assert entries[n].key != key;
    }
  }

  lemma Append(entries: seq<Entry>, key: Key, value: nat)
    requires DistinctKeys(entries)
    requires forall i :: 0 <= i < |entries| ==> entries[i].key != key
    ensures DistinctKeys(entries + [Entry(key, value)])
    ensures Contents(entries + [Entry(key, value)]) == Contents(entries)[key := value]
  {
    assert (entries + [Entry(key, value)])[..|entries|] == entries;
  }

  class Cache {
    const entries: array<Entry>
    var count: nat

    ghost predicate Valid()
      reads this, entries
    {
      entries.Length == CAPACITY && count <= CAPACITY && DistinctKeys(entries[..count])
    }

    ghost function Values(): map<Key, nat>
      requires Valid()
      reads this, entries
    {
      Contents(entries[..count])
    }

    constructor ()
      ensures Valid() && fresh(entries) && Values() == map[]
    {
      entries := new Entry[CAPACITY](_ => Entry(Key(0, 0), 0));
      count := 0;
    }

    /** A known key is always updated; a new key is kept only while there is
        room. */
    method Store(key: Key, value: nat) returns (stored: bool)
      requires Valid()
      modifies this`count, entries
      ensures Valid() && |Values()| <= CAPACITY
      ensures stored <==> key in old(Values()) || |old(Values())| < CAPACITY
      ensures Values() == if stored then old(Values())[key := value] else old(Values())
    {
      ghost var before := entries[..count];
      ContentsSize(before);
      for index := 0 to count
        invariant forall i :: 0 <= i < index ==> entries[i].key != key
        invariant entries[..count] == before && count == old(count)
      {
        if entries[index].key == key {
          Rewrite(before, index, value);
          Lookup(before, index);
          entries[index] := Entry(key, value);
          assert entries[..count] == before[index := Entry(key, value)];
          ContentsSize(entries[..count]);
          return true;
        }
      }
      Unlisted(before, key);
      if count >= CAPACITY {
        return false;
      }
      Append(before, key, value);
      entries[count] := Entry(key, value);
      count := count + 1;
      assert entries[..count] == before + [Entry(key, value)];
      ContentsSize(entries[..count]);
      return true;
    }

    /** A write is a no-op exactly when it repeats the last stored value. */
    method IsNoop(key: Key, value: nat) returns (noop: bool)
      requires Valid()
      ensures noop <==> Repeats(Values(), Write(key, value))
    {
      ghost var all := entries[..count];
      for index := 0 to count
        invariant forall i :: 0 <= i < index ==> all[i].key != key
      {
        if entries[index].key == key {
          Lookup(all, index);
          return entries[index].value == value;
        }
      }
      Unlisted(all, key);
      return false;
    }
  }

  // ---------------------------------------------------------------------
  // Suppressed writes against the kernel

  datatype Write = Write(key: Key, value: nat)

  predicate Repeats(cached: map<Key, nat>, w: Write)
  {
    w.key in cached && cached[w.key] == w.value
  }

  /** The cached values after storing a property report, entry by entry. */
  function StoreAll(cached: map<Key, nat>, report: seq<Write>): map<Key, nat>
  {
    if report == [] then cached
    else
      var n := |report| - 1;
      var before := StoreAll(cached, report[..n]);
      var w := report[n];
      if w.key in before || |before| < CAPACITY then before[w.key := w.value] else before
  }

  /** Every reported property that is cached at all is cached with its reported
      value, and nothing else changes. */
  lemma {:induction false} StoredReport(cached: map<Key, nat>, kernel: map<Key, nat>, report: seq<Write>)
    requires forall i :: 0 <= i < |report| ==> Repeats(kernel, report[i])
    ensures var after := StoreAll(cached, report);
            && cached.Keys <= after.Keys
            && (forall key :: key in after ==>
                  (key in cached && after[key] == cached[key]) || (key in kernel && after[key] == kernel[key]))
            && (forall i :: 0 <= i < |report| && report[i].key in after ==> Repeats(after, report[i]))
    decreases |report|
  {
    if report != [] {
      var n := |report| - 1;
      var shorter := report[..n];
      StoredReport(cached, kernel, shorter);
      var before, after := StoreAll(cached, shorter), StoreAll(cached, report);
      assert Repeats(kernel, report[n]);
      forall i | 0 <= i < |report| && report[i].key in after
        ensures Repeats(after, report[i])
      {
        assert Repeats(kernel, report[i]);
        assert i < n ==> shorter[i] == report[i];
      }
    }
  }

  /** Storing a report leaves the keys it does not name alone. */
  lemma {:induction false} StoreAllOther(cached: map<Key, nat>, report: seq<Write>, key: Key)
    requires forall i :: 0 <= i < |report| ==> report[i].key != key
    ensures var after := StoreAll(cached, report);
            (key in after <==> key in cached) && (key in cached ==> after[key] == cached[key])
    decreases |report|
  {
    if report != [] {
      StoreAllOther(cached, report[..|report| - 1], key);
    }
  }

  predicate Accurate(properties: map<Key, nat>, report: seq<Write>)
  {
    forall i :: 0 <= i < |report| ==> Repeats(properties, report[i])
  }
}
