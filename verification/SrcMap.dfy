/** The source map from native offsets to source positions, which drops entries that repeat a value. */
module SrcMap {
  import opened Options

  const INT32_MIN: int := -0x8000_0000

  type int32 = v: int | INT32_MIN <= v < 0x8000_0000 witness 0

  datatype Elem = Elem(from: nat, to: int32)
  {
    /** Lexicographic. */
    predicate Less(other: Elem) {
      if from != other.from then from < other.from else to < other.to
    }
  }

  predicate Sorted(s: seq<Elem>)
  {
    forall i, j :: 0 <= i < j < |s| ==> s[i].from <= s[j].from
  }

  // ----- Dropping repeated values -----

  predicate Keep(p: seq<Elem>, i: nat)
    requires i < |p|
  {
    i == 0 || p[i].to != p[i - 1].to
  }

  /** What is left of a sequence of pushes. */
  function Compress(p: seq<Elem>): seq<Elem>
  {
    if p == [] then []
    else
      var n := |p| - 1;
      if Keep(p, n) then Compress(p[..n]) + [p[n]] else Compress(p[..n])
  }

  lemma {:induction false} LastValue(p: seq<Elem>)
    requires p != []
    ensures var c := Compress(p); c != [] && c[|c| - 1].to == p[|p| - 1].to
  {
    var n := |p| - 1;
    if !Keep(p, n) { LastValue(p[..n]); }
  }

  lemma {:induction false} CompressKeepsOnly(p: seq<Elem>, i: nat)
    requires i < |Compress(p)|
    ensures Compress(p)[i] in p
  {
    var n := |p| - 1;
    if i < |Compress(p[..n])| { CompressKeepsOnly(p[..n], i); }
  }

  /** The first push at or after `i` that was kept. */
  function NextKept(p: seq<Elem>, i: nat): (k: nat)
    requires i <= |p|
    ensures i <= k <= |p| && (k < |p| ==> Keep(p, k))
    ensures forall j :: i <= j < k ==> !Keep(p, j)
    decreases |p| - i
  {
    if i == |p| || Keep(p, i) then i else NextKept(p, i + 1)
  }

  lemma {:induction false} CompressSplit(p: seq<Elem>, g: nat)
    requires g <= |p|
    ensures Compress(p[..g]) <= Compress(p)
    ensures var c, k := |Compress(p[..g])|, NextKept(p, g);
            if k == |p| then |Compress(p)| == c else |Compress(p)| > c && Compress(p)[c] == p[k]
    decreases |p| - g
  {
    if g == |p| {
      assert p[..g] == p;
    } else {
      CompressSplit(p, g + 1);
      assert p[..g + 1][..g] == p[..g];
    }
  }

  /** Dropped pushes repeat the value before them. */
  lemma {:induction false} Unchanged(p: seq<Elem>, g: nat, j: nat)
    requires 1 <= g <= j < |p| && forall i :: g <= i <= j ==> !Keep(p, i)
    ensures p[j].to == p[g - 1].to
  {
    assert !Keep(p, j);
    if g < j { Unchanged(p, g, j - 1); }
  }

  // ----- Lookup -----

  /** The first element that is not below `from`. */
  function Lower(s: seq<Elem>, from: nat): (r: nat)
    ensures r <= |s| && (forall i :: 0 <= i < r ==> s[i].from < from) && (r < |s| ==> s[r].from >= from)
  {
    if s == [] || s[0].from >= from then 0 else 1 + Lower(s[1..], from)
  }

  lemma {:induction false} LowerIs(s: seq<Elem>, from: nat, r: nat)
    requires r <= |s| && (forall i :: 0 <= i < r ==> s[i].from < from) && (r < |s| ==> s[r].from >= from)
    ensures r == Lower(s, from)
  {
  }

  /** An exact match first, else the value still in effect. */
  function Found(s: seq<Elem>, from: nat): Option<int32>
  {
    var lb := Lower(s, from);
    if lb < |s| && s[lb].from == from then Some(s[lb].to)
    else if lb > 0 then Some(s[lb - 1].to)
    else None
  }

  method Find(s: seq<Elem>, from: nat) returns (r: Option<int32>)
    requires Sorted(s)
    ensures r == Found(s, from)
  {
    var lb, end := 0, |s|;
    while lb < end
      invariant lb <= end <= |s|
      invariant forall i :: 0 <= i < lb ==> s[i].from < from
      invariant forall i :: end <= i < |s| ==> s[i].from >= from
    {
      var mid := (lb + end) / 2;
      if s[mid].Less(Elem(from, INT32_MIN)) { lb := mid + 1; } else { end := mid; }
    }
    LowerIs(s, from, lb);
    if lb < |s| && s[lb].from == from {
      return Some(s[lb].to);
    } else if lb > 0 {
      return Some(s[lb - 1].to);
    } else {
      return None;
    }
  }

  // ----- When the compressed map answers like the plain one -----

  /** The first of several pushes for `from` was dropped although a later one has another value. */
  predicate Hidden(p: seq<Elem>, from: nat)
  {
    exists i, j {:trigger p[i], p[j]} ::
      && 1 <= i < j < |p| && p[i - 1].from < from && p[i].from == from && p[j].from == from
      && p[i].to == p[i - 1].to && p[j].to != p[i].to
  }

  lemma {:induction false} LowerOfCompressed(p: seq<Elem>, from: nat)
    requires Sorted(p)
    ensures Lower(Compress(p), from) == |Compress(p[..Lower(p, from)])|
  {
    var g := Lower(p, from);
    var c := Compress(p[..g]);
    CompressSplit(p, g);
    forall i | 0 <= i < |c| ensures Compress(p)[i].from < from {
      CompressKeepsOnly(p[..g], i);
      assert Compress(p)[i] == c[i];
    }
    LowerIs(Compress(p), from, |c|);
  }

  /** The compressed map answers with the first kept push for the offset, else with the value before it. */
  lemma {:induction false} FoundCompressed(p: seq<Elem>, from: nat)
    requires Sorted(p)
    ensures var g := Lower(p, from);
            var k := NextKept(p, g);
            Found(Compress(p), from) ==
            if k < |p| && p[k].from == from then Some(p[k].to) else if g > 0 then Some(p[g - 1].to) else None
  {
    var g := Lower(p, from);
    CompressSplit(p, g);
    LowerOfCompressed(p, from);
    var c := Compress(p[..g]);
    if g > 0 {
      LastValue(p[..g]);
      assert Compress(p)[|c| - 1] == c[|c| - 1];
    } else {
      assert p[..0] == [];
    }
  }

  /** The answers agree for an offset exactly if no value for it was hidden. */
  lemma {:induction false} TheoremAgreesIff(p: seq<Elem>, from: nat)
    requires Sorted(p)
    ensures Found(Compress(p), from) == Found(p, from) <==> !Hidden(p, from)
  {
    var g := Lower(p, from);
    var k := NextKept(p, g);
    FoundCompressed(p, from);
    if g < |p| && p[g].from == from && !Keep(p, g) {
      if k < |p| && p[k].from == from {
        HiddenAt(p, from, g, k);
      } else {
        NothingHidden(p, from, g, k);
      }
    } else {
      NotHidden(p, from, g);
    }
  }

  lemma {:induction false} HiddenAt(p: seq<Elem>, from: nat, g: nat, k: nat)
    requires g == Lower(p, from) && k == NextKept(p, g) && g < k < |p| && p[g].from == from && p[k].from == from
    ensures Hidden(p, from) && p[k].to != p[g].to
  {
    assert !Keep(p, g) && Keep(p, k);
    Unchanged(p, g, k - 1);
    assert p[g].to == p[g - 1].to && p[k].to != p[k - 1].to;
  }

  lemma {:induction false} NothingHidden(p: seq<Elem>, from: nat, g: nat, k: nat)
    requires Sorted(p) && g == Lower(p, from) && k == NextKept(p, g) && g < k && g < |p| && p[g].from == from
    requires k == |p| || p[k].from != from
    ensures !Hidden(p, from) && g > 0 && p[g].to == p[g - 1].to
  {
    assert !Keep(p, g);
    forall i, j | 1 <= i < j < |p| && p[i - 1].from < from && p[i].from == from && p[j].from == from
      ensures p[j].to == p[i].to
    {
      assert i == g;
      assert j < k;
      Unchanged(p, g, j);
    }
  }

  lemma {:induction false} NotHidden(p: seq<Elem>, from: nat, g: nat)
    requires Sorted(p) && g == Lower(p, from) && (g == |p| || p[g].from != from || Keep(p, g))
    ensures !Hidden(p, from)
  {
    forall i, j | 1 <= i < j < |p| && p[i - 1].from < from && p[i].from == from && p[j].from == from
      ensures p[i].to != p[i - 1].to
    {
      assert i == g;
    }
  }

  predicate StrictlySorted(s: seq<Elem>)
  {
    forall i, j :: 0 <= i < j < |s| ==> s[i].from < s[j].from
  }

  /** The value of the last push at or below an offset. */
  function InEffect(p: seq<Elem>, from: nat): (r: Option<int32>)
    ensures r.None? <==> forall i :: 0 <= i < |p| ==> p[i].from > from
  {
    if p == [] then None
    else if p[|p| - 1].from <= from then Some(p[|p| - 1].to)
    else InEffect(p[..|p| - 1], from)
  }

  lemma {:induction false} PlainInEffect(p: seq<Elem>, from: nat)
    requires StrictlySorted(p)
    ensures Found(p, from) == InEffect(p, from)
  {
    if p != [] && p[|p| - 1].from > from {
      var q := p[..|p| - 1];
      PlainInEffect(q, from);
      var lb := Lower(q, from);
      assert forall i :: 0 <= i < lb ==> p[i] == q[i];
      assert lb < |q| ==> p[lb] == q[lb];
      assert Lower(p, from) == lb;
    }
  }

  /** With one push per offset the compressed map answers with the last push at or below the offset. */
  lemma {:induction false} TheoremCompressedInEffect(p: seq<Elem>, from: nat)
    requires StrictlySorted(p)
    ensures Found(Compress(p), from) == InEffect(p, from)
  {
    PlainInEffect(p, from);
    TheoremAgreesIff(p, from);
  }

  lemma {:induction false} PushKeeps(p: seq<Elem>, elem: Elem)
    requires Sorted(p) && Sorted(Compress(p)) && forall e :: e in p ==> e.from <= elem.from
    ensures var c := Compress(p);
            && Sorted(p + [elem]) && Sorted(Compress(p + [elem]))
            && Compress(p + [elem]) == if c != [] && elem.to == c[|c| - 1].to then c else c + [elem]
  {
    var q := p + [elem];
    assert q[..|q| - 1] == p;
    var c := Compress(p);
    if p != [] { LastValue(p); }
    forall i | 0 <= i < |c| ensures c[i].from <= elem.from {
      CompressKeepsOnly(p, i);
    }
  }

  class SrcMap {
    var elems: seq<Elem>
    ghost var pushed: seq<Elem>

    ghost predicate Valid()
      reads this
    {
      elems == Compress(pushed) && Sorted(pushed) && Sorted(elems)
    }

    constructor ()
      ensures Valid() && pushed == []
    {
      elems, pushed := [], [];
    }

    method PushBack(elem: Elem)
      requires Valid() && forall e :: e in pushed ==> e.from <= elem.from
      modifies this
      ensures Valid() && pushed == old(pushed) + [elem]
    {
      PushKeeps(pushed, elem);
      pushed := pushed + [elem];
      if elems != [] && elem.to == elems[|elems| - 1].to {
        return;
      }
      elems := elems + [elem];
    }

    method Lookup(from: nat) returns (r: Option<int32>)
      requires Valid()
      ensures r == Found(pushed, from) <==> !Hidden(pushed, from)
      ensures StrictlySorted(pushed) ==> r == InEffect(pushed, from)
    {
      TheoremAgreesIff(pushed, from);
      if StrictlySorted(pushed) { TheoremCompressedInEffect(pushed, from); }
      r := Find(elems, from);
    }
  }

  /** Two pushes for one offset, the first of which repeats the value before: the map forgets it. */
  lemma {:induction false} HiddenExample(a: nat, b: nat, v: int32, w: int32)
    requires a < b && v != w
    ensures var p := [Elem(a, v), Elem(b, v), Elem(b, w)];
            Sorted(p) && Found(p, b) == Some(v) && Found(Compress(p), b) == Some(w)
  {
    var p := [Elem(a, v), Elem(b, v), Elem(b, w)];
    var q, r := p[..2], p[..1];
    assert q[..1] == r && r[..0] == [];
    assert Compress(r) == [Elem(a, v)] && Compress(q) == [Elem(a, v)];
    assert Compress(p) == [Elem(a, v), Elem(b, w)];
    assert Lower(p, b) == 1 && Lower(Compress(p), b) == 1;
  }
}
