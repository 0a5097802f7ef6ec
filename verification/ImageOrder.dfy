/** The order of the image: objects that are alike in how they get dirty lie together. */
module ImageOrder {
  import opened Align
  import opened Options
  import opened ImageHeap
  import opened ImageWalk
  import opened ImageLayout

  /** How soon an object is expected to be written to at run time: dex cache arrays and strings hardly ever; classes
      last, and among them those that are not initialized, or have static fields that may change, after the others. */
  function Dirtiness(h: Heap, o: ObjId): nat
    requires o < |h.objs|
  {
    match h.objs[o].kind
    case StringObject(_) => 1
    case ClassObject(info) =>
      if info.initialized then (if exists i :: 0 <= i < |info.staticFinal| && !info.staticFinal[i] then 4 else 3) else 5
    case ObjectArray(_) => if exists i :: 0 <= i < |h.arrays| && h.arrays[i].id == o then 0 else 2
    case PointerArray => if exists i :: 0 <= i < |h.arrays| && h.arrays[i].id == o then 0 else 2
    case Plain => 2
  }

  lemma {:induction false} BinByDirtiness(h: Heap, a: ObjId, b: ObjId)
    requires HeapOk(h) && a < |h.objs| && b < |h.objs| && Dirtiness(h, a) < Dirtiness(h, b)
    ensures BinOf(h, a) < BinOf(h, b)
  {
    BinOfDirtiness(h, a);
    BinOfDirtiness(h, b);
  }

  lemma {:induction false} BinOfDirtiness(h: Heap, o: ObjId)
    requires HeapOk(h) && o < |h.objs|
    ensures BinOf(h, o) == [0, 1, 3, 4, 5, 6][Dirtiness(h, o)]
  {
    var r := FindArray(h.arrays, o);
  }

  lemma {:induction false} TwinAlike(h: Heap, o: ObjId)
    requires HeapOk(h) && o < |h.objs|
    ensures Canonical(h, o) < |h.objs| && BinOf(h, Canonical(h, o)) == BinOf(h, o)
  {
    assert ObjOk(h, o);
  }

  /** What gets dirty sooner lies behind what does not, in every finished layout. */
  lemma {:induction false} TheoremImageOrder(h: Heap, begin: nat, st: State, l: Layout, a: ObjId, b: ObjId)
    requires LaidOut(h, begin, st, l) && a < |h.objs| && b < |h.objs| && Dirtiness(h, a) < Dirtiness(h, b)
    ensures Canonical(h, a) < |h.objs| && l.offsets[a] + Length(h, Canonical(h, a)) <= l.offsets[b]
  {
    BinByDirtiness(h, a, b);
    TwinAlike(h, a);
    TwinAlike(h, b);
    assert Assigned(st, a) && Assigned(st, b) && SlotOk(h, st, a) && SlotOk(h, st, b);
    SumMonotone(st.binSizes, BinOf(h, a), BinOf(h, b));
  }

  /** The methods in one of the two method arrays of a class. */
  predicate MethodsOf(h: Heap, o: ObjId, methods: seq<Method>)
  {
    o < |h.objs| && h.objs[o].kind.ClassObject? &&
    (methods == h.objs[o].kind.info.directMethods || methods == h.objs[o].kind.info.virtualMethods)
  }

  predicate FieldOf(h: Heap, o: ObjId, n: Native)
  {
    o < |h.objs| && h.objs[o].kind.ClassObject? &&
    (n in h.objs[o].kind.info.sfields || n in h.objs[o].kind.info.ifields)
  }

  lemma {:induction false} NativesByBin(h: Heap, begin: nat, st: State, l: Layout, m: Native, n: Native)
    requires LaidOut(h, begin, st, l) && m in st.relocs && n in st.relocs && st.relocs[m].bin < st.relocs[n].bin
    ensures m in l.natives && n in l.natives
    ensures l.natives[m] + NativeSize(h, st.relocs[m].bin) <= l.natives[n]
  {
    assert RelocOk(h, st, m) && RelocOk(h, st, n);
    SumMonotone(st.binSizes, st.relocs[m].bin, st.relocs[n].bin);
  }

  lemma {:induction false} MethodInBin(h: Heap, st: State, o: ObjId, methods: seq<Method>, i: nat)
    requires ClassDone(h, st, o) && MethodsOf(h, o, methods) && i < |methods|
    ensures methods[i].id in st.relocs && st.relocs[methods[i].id].bin == MethodBin(methods)
  {
    assert Ids(methods)[i] == methods[i].id;
    assert InRow(h, st, Ids(methods), MethodBin(methods));
  }

  /** Methods of an array in which one may get dirty lie behind the methods of all arrays in which none may. */
  lemma {:induction false} TheoremMethodOrder(h: Heap, begin: nat, st: State, l: Layout, a: ObjId, b: ObjId,
                                              xs: seq<Method>, ys: seq<Method>, i: nat, j: nat)
    requires LaidOut(h, begin, st, l) && ClassDone(h, st, a) && ClassDone(h, st, b)
    requires MethodsOf(h, a, xs) && MethodsOf(h, b, ys) && i < |xs| && j < |ys|
    requires (forall k :: 0 <= k < |xs| ==> !xs[k].dirty) && exists k :: 0 <= k < |ys| && ys[k].dirty
    ensures xs[i].id in l.natives && ys[j].id in l.natives
    ensures l.natives[xs[i].id] + h.methodSize <= l.natives[ys[j].id]
  {
    MethodInBin(h, st, a, xs, i);
    MethodInBin(h, st, b, ys, j);
    NativesByBin(h, begin, st, l, xs[i].id, ys[j].id);
  }

  lemma {:induction false} FieldInBin(h: Heap, st: State, o: ObjId, n: Native)
    requires ClassDone(h, st, o) && FieldOf(h, o, n)
    ensures n in st.relocs && st.relocs[n].bin == ART_FIELD
  {
    var info := h.objs[o].kind.info;
    assert InRow(h, st, info.sfields, ART_FIELD) && InRow(h, st, info.ifields, ART_FIELD);
  }

  /** Fields lie behind all objects and in front of all methods. */
  lemma {:induction false} TheoremFieldOrder(h: Heap, begin: nat, st: State, l: Layout, o: ObjId, a: ObjId, b: ObjId,
                                             n: Native, ys: seq<Method>, j: nat)
    requires LaidOut(h, begin, st, l) && ClassDone(h, st, a) && ClassDone(h, st, b) && o < |h.objs|
    requires FieldOf(h, a, n) && MethodsOf(h, b, ys) && j < |ys|
    ensures n in l.natives && ys[j].id in l.natives && l.natives[n] + h.fieldSize <= l.natives[ys[j].id]
    ensures Canonical(h, o) < |h.objs| && l.offsets[o] + Length(h, Canonical(h, o)) <= l.natives[n]
  {
    FieldInBin(h, st, a, n);
    MethodInBin(h, st, b, ys, j);
    NativesByBin(h, begin, st, l, n, ys[j].id);
    TwinAlike(h, o);
    assert RelocOk(h, st, n) && Assigned(st, o) && SlotOk(h, st, o);
    SumMonotone(st.binSizes, BinOf(h, o), ART_FIELD);
  }
}
