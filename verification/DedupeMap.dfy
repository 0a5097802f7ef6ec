/** The ordered map under which the Init code pass looks for equal code: a sequence of entries
    sorted by the key comparator, searched with `LowerBound`. */
module DedupeMap {
  import opened CompiledMethods

  type Entry = (CompiledMethod, nat)

  predicate SortedEntries(entries: seq<Entry>)
  {
    forall i, j :: 0 <= i < j < |entries| ==> KeyLess(entries[i].0, entries[j].0)
  }

  /** What the entries mean. */
  function AsMap(entries: seq<Entry>): map<Key, nat>
  {
    if entries == [] then map[] else AsMap(entries[1..])[KeyOf(entries[0].0) := entries[0].1]
  }

  /** Position `lb` is the first whose key is not less than `m`. */
  predicate IsLowerBound(entries: seq<Entry>, m: CompiledMethod, lb: nat)
  {
    && lb <= |entries|
    && (forall i :: 0 <= i < lb ==> KeyLess(entries[i].0, m))
    && (lb < |entries| ==> !KeyLess(entries[lb].0, m))
  }

  method LowerBound(entries: seq<Entry>, m: CompiledMethod) returns (lb: nat)
    ensures IsLowerBound(entries, m, lb)
  {
    lb := 0;
    while lb < |entries|
      invariant lb <= |entries|
      invariant forall i :: 0 <= i < lb ==> KeyLess(entries[i].0, m)
    {
      var less := CompareKeys(entries[lb].0, m);
      if !less { return; }
      lb := lb + 1;
    }
  }

  lemma {:induction false} AsMapHas(entries: seq<Entry>, k: Key)
    ensures k in AsMap(entries) <==> exists i :: 0 <= i < |entries| && KeyOf(entries[i].0) == k
  {
    if entries != [] {
      AsMapHas(entries[1..], k);
      if k in AsMap(entries[1..]) {
        var i :| 0 <= i < |entries[1..]| && KeyOf(entries[1..][i].0) == k;
        assert KeyOf(entries[i + 1].0) == k;
      }
      if exists i :: 0 <= i < |entries| && KeyOf(entries[i].0) == k {
        var i :| 0 <= i < |entries| && KeyOf(entries[i].0) == k;
        if i > 0 { assert entries[1..][i - 1] == entries[i]; }
      }
    }
  }

  lemma {:induction false} AsMapAt(entries: seq<Entry>, i: nat)
    requires SortedEntries(entries) && i < |entries|
    ensures KeyOf(entries[i].0) in AsMap(entries) && AsMap(entries)[KeyOf(entries[i].0)] == entries[i].1
  {
    if i > 0 {
      AsMapAt(entries[1..], i - 1);
      KeyEquivalence(entries[0].0, entries[i].0);
    }
  }

  /** A key equal to `m` can only stand at the lower bound. */
  lemma {:induction false} LowerBoundFinds(entries: seq<Entry>, m: CompiledMethod, lb: nat)
    requires SortedEntries(entries) && IsLowerBound(entries, m, lb)
    ensures KeyOf(m) in AsMap(entries) <==> lb < |entries| && !KeyLess(m, entries[lb].0)
    ensures KeyOf(m) in AsMap(entries) ==> AsMap(entries)[KeyOf(m)] == entries[lb].1
  {
    AsMapHas(entries, KeyOf(m));
    if lb < |entries| {
      KeyEquivalence(entries[lb].0, m);
      AsMapAt(entries, lb);
    }
    forall i | 0 <= i < |entries| && KeyOf(entries[i].0) == KeyOf(m)
      ensures i == lb
    {
      KeyEquivalence(entries[i].0, m);
      if lb < i {
        KeyLessOnKeys(entries[i].0, m, entries[lb].0);
      }
    }
  }

  function Inserted(entries: seq<Entry>, lb: nat, e: Entry): seq<Entry>
    requires lb <= |entries|
  {
    entries[..lb] + [e] + entries[lb..]
  }

  /** Inserting at the lower bound keeps the order and adds exactly one binding. */
  lemma {:induction false} InsertKeeps(entries: seq<Entry>, m: CompiledMethod, lb: nat, value: nat)
    requires SortedEntries(entries) && IsLowerBound(entries, m, lb) && KeyOf(m) !in AsMap(entries)
    ensures SortedEntries(Inserted(entries, lb, (m, value)))
    ensures AsMap(Inserted(entries, lb, (m, value))) == AsMap(entries)[KeyOf(m) := value]
  {
    LowerBoundFinds(entries, m, lb);
    forall i | lb <= i < |entries|
      ensures KeyLess(m, entries[i].0)
    {
      KeyOrder(m, entries[lb].0, entries[i].0);
    }
    InsertedMap(entries, lb, m, value);
  }

  lemma {:induction false} InsertedMap(entries: seq<Entry>, lb: nat, m: CompiledMethod, value: nat)
    requires lb <= |entries| && KeyOf(m) !in AsMap(entries)
    ensures AsMap(Inserted(entries, lb, (m, value))) == AsMap(entries)[KeyOf(m) := value]
  {
    var r := Inserted(entries, lb, (m, value));
    if lb == 0 {
      assert r[1..] == entries;
    } else {
      assert r[1..] == Inserted(entries[1..], lb - 1, (m, value));
      InsertedMap(entries[1..], lb - 1, m, value);
    }
  }
}
