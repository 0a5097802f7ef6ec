/** Compiled methods, their linker patches and the key under which equal code is shared. */
module CompiledMethods {

  /** An address; 0 is null. The compiler driver already shares equal arrays, so
      two arrays are the same table exactly when their addresses are equal. */
  type Ptr = nat

  datatype PatchType =
    | PatchMethod
    | PatchCall
    | PatchCallRelative
    | PatchType
    | PatchDexCacheArray

  function Rank(t: PatchType): nat
  {
    match t
    case PatchMethod => 0
    case PatchCall => 1
    case PatchCallRelative => 2
    case PatchType => 3
    case PatchDexCacheArray => 4
  }

  /** `cmp1` is the method, type or element index and `cmp2` the PC instruction offset. */
  datatype LinkerPatch = LinkerPatch(literalOffset: nat, kind: PatchType, dexFile: Ptr, cmp1: nat, cmp2: nat)
  {
    predicate IsPcRelative() {
      kind == PatchCallRelative || kind == PatchDexCacheArray
    }
  }

  predicate PatchEq(a: LinkerPatch, b: LinkerPatch)
  {
    && a.literalOffset == b.literalOffset
    && a.kind == b.kind
    && a.dexFile == b.dexFile
    && a.cmp1 == b.cmp1
    && a.cmp2 == b.cmp2
  }

  predicate PatchLess(a: LinkerPatch, b: LinkerPatch)
  {
    if a.literalOffset != b.literalOffset then a.literalOffset < b.literalOffset
    else if a.kind != b.kind then Rank(a.kind) < Rank(b.kind)
    else if a.dexFile != b.dexFile then a.dexFile < b.dexFile
    else if a.cmp1 != b.cmp1 then a.cmp1 < b.cmp1
    else a.cmp2 < b.cmp2
  }

  datatype CompiledMethod = CompiledMethod(
    code: Ptr, mapping: Ptr, vmap: Ptr, gcMap: Ptr, patches: seq<LinkerPatch>,
    frameSize: nat, coreSpillMask: nat, fpSpillMask: nat)

  /** Everything that the deduplication of code looks at. */
  datatype Key = Key(code: Ptr, mapping: Ptr, vmap: Ptr, gcMap: Ptr, patches: seq<LinkerPatch>)

  function KeyOf(m: CompiledMethod): Key
  {
    Key(m.code, m.mapping, m.vmap, m.gcMap, m.patches)
  }

  /** The first differing patch decides. */
  predicate PatchesLess(a: seq<LinkerPatch>, b: seq<LinkerPatch>)
    requires |a| == |b|
  {
    if a == [] then false
    else if !PatchEq(a[0], b[0]) then PatchLess(a[0], b[0])
    else PatchesLess(a[1..], b[1..])
  }

  predicate KeyLess(l: CompiledMethod, r: CompiledMethod)
  {
    if l.code != r.code then l.code < r.code
    else if l.mapping != r.mapping then l.mapping < r.mapping
    else if l.vmap != r.vmap then l.vmap < r.vmap
    else if l.gcMap != r.gcMap then l.gcMap < r.gcMap
    else if |l.patches| != |r.patches| then |l.patches| < |r.patches|
    else PatchesLess(l.patches, r.patches)
  }

  /** The comparator of the code deduplication map, with its loop over the patches. */
  method CompareKeys(l: CompiledMethod, r: CompiledMethod) returns (less: bool)
    ensures less == KeyLess(l, r)
  {
    if l.code != r.code { return l.code < r.code; }
    if l.mapping != r.mapping { return l.mapping < r.mapping; }
    if l.vmap != r.vmap { return l.vmap < r.vmap; }
    if l.gcMap != r.gcMap { return l.gcMap < r.gcMap; }
    if |l.patches| != |r.patches| { return |l.patches| < |r.patches|; }
    for i := 0 to |l.patches|
      invariant PatchesLess(l.patches, r.patches) == PatchesLess(l.patches[i..], r.patches[i..])
    {
      if !PatchEq(l.patches[i], r.patches[i]) {
        return PatchLess(l.patches[i], r.patches[i]);
      }
    }
    return false;
  }

  /** `<` on patches is a strict total order that agrees with `==`. */
  lemma {:induction false} PatchOrder(a: LinkerPatch, b: LinkerPatch, c: LinkerPatch)
    ensures !PatchLess(a, a)
    ensures PatchLess(a, b) && PatchLess(b, c) ==> PatchLess(a, c)
    ensures PatchEq(a, b) <==> !PatchLess(a, b) && !PatchLess(b, a)
    ensures PatchEq(a, b) <==> a == b
  {
  }

  lemma {:induction false} PatchesTransitive(a: seq<LinkerPatch>, b: seq<LinkerPatch>, c: seq<LinkerPatch>)
    requires |a| == |b| == |c|
    requires PatchesLess(a, b) && PatchesLess(b, c)
    ensures PatchesLess(a, c)
  {
    PatchOrder(a[0], b[0], c[0]);
    if PatchEq(a[0], b[0]) && PatchEq(b[0], c[0]) {
      PatchesTransitive(a[1..], b[1..], c[1..]);
    }
  }

  lemma {:induction false} PatchesIncomparable(a: seq<LinkerPatch>, b: seq<LinkerPatch>)
    requires |a| == |b|
    ensures a == b <==> !PatchesLess(a, b) && !PatchesLess(b, a)
  {
    if a != [] {
      PatchOrder(a[0], b[0], a[0]);
      PatchesIncomparable(a[1..], b[1..]);
      assert a == [a[0]] + a[1..] && b == [b[0]] + b[1..];
    }
  }

  /** The comparator is a strict weak order. */
  lemma {:induction false} KeyOrder(a: CompiledMethod, b: CompiledMethod, c: CompiledMethod)
    ensures !KeyLess(a, a)
    ensures KeyLess(a, b) ==> !KeyLess(b, a)
    ensures KeyLess(a, b) && KeyLess(b, c) ==> KeyLess(a, c)
  {
    PatchesIncomparable(a.patches, a.patches);
    if |a.patches| == |b.patches| == |c.patches| {
      if PatchesLess(a.patches, b.patches) && PatchesLess(b.patches, a.patches) {
        PatchesTransitive(a.patches, b.patches, a.patches);
      }
      if PatchesLess(a.patches, b.patches) && PatchesLess(b.patches, c.patches) {
        PatchesTransitive(a.patches, b.patches, c.patches);
      }
    }
    if |a.patches| == |b.patches| && PatchesLess(a.patches, b.patches) && PatchesLess(b.patches, a.patches) {
      PatchesTransitive(a.patches, b.patches, a.patches);
    }
  }

  /** Two methods are equivalent under the comparator exactly when code, tables and patches agree. */
  lemma {:induction false} KeyEquivalence(a: CompiledMethod, b: CompiledMethod)
    ensures KeyOf(a) == KeyOf(b) <==> !KeyLess(a, b) && !KeyLess(b, a)
  {
    if |a.patches| == |b.patches| {
      PatchesIncomparable(a.patches, b.patches);
    }
  }

  /** The comparator sees only the key. */
  lemma {:induction false} KeyLessOnKeys(a: CompiledMethod, b: CompiledMethod, c: CompiledMethod)
    requires KeyOf(a) == KeyOf(b)
    ensures KeyLess(a, c) == KeyLess(b, c)
    ensures KeyLess(c, a) == KeyLess(c, b)
  {
  }
}
