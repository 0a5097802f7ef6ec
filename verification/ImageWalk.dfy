/** The recursive walk over a possibly cyclic heap that gives every object a slot and every field and method of every
    class a place. */
module ImageWalk {
  import opened Align
  import opened Options
  import opened ImageHeap

  // ----- Progress -----

  function Unassigned(slots: seq<Option<Slot>>): nat
  {
    if slots == [] then 0 else Unassigned(slots[..|slots| - 1]) + (if slots[|slots| - 1].None? then 1 else 0)
  }

  predicate Covers(a: seq<Option<Slot>>, b: seq<Option<Slot>>)
  {
    |a| == |b| && forall i :: 0 <= i < |a| && a[i].Some? ==> b[i] == a[i]
  }

  lemma {:induction false} CoversCount(a: seq<Option<Slot>>, b: seq<Option<Slot>>)
    requires Covers(a, b)
    ensures Unassigned(b) <= Unassigned(a)
    ensures forall i :: 0 <= i < |a| && a[i].None? && b[i].Some? ==> Unassigned(b) < Unassigned(a)
  {
    if a != [] {
      var n := |a| - 1;
      assert Covers(a[..n], b[..n]);
      CoversCount(a[..n], b[..n]);
      forall i | 0 <= i < |a| && a[i].None? && b[i].Some? ensures Unassigned(b) < Unassigned(a) {
        if i < n { assert a[..n][i].None? && b[..n][i].Some?; }
      }
    }
  }

  // ----- Natives of a class -----

  /** The natives of an array stand one behind the other in one bin, so that the place of the first gives them all. */
  predicate InRow(h: Heap, st: State, ids: seq<Native>, bin: nat)
  {
    && (forall j :: 0 <= j < |ids| ==> ids[j] in st.relocs)
    && forall j :: 0 <= j < |ids| ==> st.relocs[ids[j]] == Reloc(st.relocs[ids[0]].offset + j * NativeSize(h, bin), bin)
  }

  function AnyDirty(methods: seq<Method>): bool
  {
    exists i :: 0 <= i < |methods| && methods[i].dirty
  }

  function MethodBin(methods: seq<Method>): nat
  {
    if AnyDirty(methods) then ART_METHOD_DIRTY else ART_METHOD_CLEAN
  }

  predicate ClassDone(h: Heap, st: State, o: ObjId)
  {
    o < |h.objs| && h.objs[o].kind.ClassObject? ==>
      var info := h.objs[o].kind.info;
      && InRow(h, st, info.sfields, ART_FIELD) && InRow(h, st, info.ifields, ART_FIELD)
      && InRow(h, st, Ids(info.directMethods), MethodBin(info.directMethods))
      && InRow(h, st, Ids(info.virtualMethods), MethodBin(info.virtualMethods))
  }

  predicate RelocsKept(st: State, st': State)
  {
    forall n :: n in st.relocs ==> n in st'.relocs && st'.relocs[n] == st.relocs[n]
  }

  lemma {:induction false} InRowStays(h: Heap, st: State, st': State, ids: seq<Native>, bin: nat)
    requires InRow(h, st, ids, bin) && RelocsKept(st, st')
    ensures InRow(h, st', ids, bin)
  {
  }

  lemma {:induction false} ClassStaysDone(h: Heap, st: State, st': State, o: ObjId)
    requires ClassDone(h, st, o) && RelocsKept(st, st')
    ensures ClassDone(h, st', o)
  {
    if o < |h.objs| && h.objs[o].kind.ClassObject? {
      var info := h.objs[o].kind.info;
      InRowStays(h, st, st', info.sfields, ART_FIELD);
      InRowStays(h, st, st', info.ifields, ART_FIELD);
      InRowStays(h, st, st', Ids(info.directMethods), MethodBin(info.directMethods));
      InRowStays(h, st, st', Ids(info.virtualMethods), MethodBin(info.virtualMethods));
    }
  }

  // ----- What a stretch of the walk does -----

  /** New places belong to classes that had no slot before. */
  ghost predicate NewPlaces(h: Heap, st: State, st': State)
  {
    forall o, n :: Owns(h, o, n) && n in st'.relocs && n !in st.relocs ==> !Assigned(st, o)
  }

  /** Classes that got a slot have all their natives placed, except the class still being walked. */
  ghost predicate NewClassesDone(h: Heap, st: State, st': State, current: int)
  {
    forall o :: 0 <= o < |h.objs| && o != current && Assigned(st', o) && !Assigned(st, o) ==> ClassDone(h, st', o)
  }

  ghost predicate Grew(h: Heap, st: State, st': State, current: int)
  {
    Covers(st.slots, st'.slots) && RelocsKept(st, st') && NewPlaces(h, st, st') && NewClassesDone(h, st, st', current)
  }

  const NONE: int := -1

  lemma {:induction false} GrewStill(h: Heap, st: State)
    ensures Grew(h, st, st, NONE)
  {
  }

  lemma {:induction false} GrewOn(h: Heap, a: State, b: State, c: State, current: int)
    requires Grew(h, a, b, current) && Grew(h, b, c, NONE)
    ensures Grew(h, a, c, current)
  {
    forall o | 0 <= o < |h.objs| && o != current && Assigned(c, o) && !Assigned(a, o) ensures ClassDone(h, c, o) {
      if Assigned(b, o) { ClassStaysDone(h, b, c, o); }
    }
  }

  /** Natives in place belong to classes with a slot. */
  ghost predicate OwnersAssigned(h: Heap, st: State)
  {
    forall o, n :: Owns(h, o, n) && n in st.relocs ==> Assigned(st, o)
  }

  /** Only natives of classes are in place. */
  ghost predicate OnlyOwned(h: Heap, st: State)
  {
    forall n :: n in st.relocs ==> exists o :: Owns(h, o, n)
  }

  ghost predicate WalkInv(h: Heap, begin: nat, st: State)
  {
    AllocInv(h, begin, st) && RelocsInv(h, st) && NativesOk(h) && OwnersAssigned(h, st) && OnlyOwned(h, st)
  }

  lemma {:induction false} CalculateGrows(h: Heap, begin: nat, st: State, o: ObjId)
    requires WalkInv(h, begin, st) && o < |h.objs| && !Assigned(st, o)
    ensures var st' := CalculateSlots(h, st, o);
            WalkInv(h, begin, st') && Assigned(st', o) && Grew(h, st, st', o) &&
              Unassigned(st'.slots) < Unassigned(st.slots)
  {
    CalculateKeeps(h, begin, st, o);
    var st' := CalculateSlots(h, st, o);
    assert ObjOk(h, o);
    assert Covers(st.slots, st'.slots);
    CoversCount(st.slots, st'.slots);
    RelocsUnmoved(h, st, st');
    forall p | 0 <= p < |h.objs| && p != o && Assigned(st', p) && !Assigned(st, p) ensures ClassDone(h, st', p) {
      assert h.objs[p].kind.StringObject?;
    }
  }

  lemma {:induction false} RelocsUnmoved(h: Heap, st: State, st': State)
    requires |st.binSizes| == BINS == |st'.binSizes| && RelocsInv(h, st) && st'.relocs == st.relocs
    requires forall b :: ART_FIELD <= b < BINS ==> st'.binSizes[b] == st.binSizes[b]
    ensures RelocsInv(h, st')
  {
    forall n | n in st'.relocs ensures RelocOk(h, st', n) { assert RelocOk(h, st, n); }
    forall m, n | m in st'.relocs && n in st'.relocs && m != n
      ensures RelocsApart(h, st', m, n) { assert RelocsApart(h, st, m, n); }
  }

  // ----- The walk -----

  /** Only natives from `ids` are new, and no object moved. */
  predicate Placed(st: State, st': State, ids: seq<Native>)
  {
    && st'.slots == st.slots && RelocsKept(st, st')
    && forall n :: n in st'.relocs && n !in st.relocs ==> n in ids
  }

  lemma {:induction false} InRowNext(h: Heap, st: State, ids: seq<Native>, bin: nat, j: nat)
    requires bin < |st.binSizes| && j < |ids| && NoRepeats(ids) && ids[j] !in st.relocs && InRow(h, st, ids[..j], bin)
    requires j > 0 ==> st.relocs[ids[0]].offset + j * NativeSize(h, bin) == st.binSizes[bin]
    ensures InRow(h, AddNative(h, st, ids[j], bin), ids[..j + 1], bin)
  {
    var st' := AddNative(h, st, ids[j], bin);
    var row := ids[..j + 1];
    forall i | 0 <= i < |row|
      ensures row[i] in st'.relocs && st'.relocs[row[i]] ==
              Reloc(st'.relocs[row[0]].offset + i * NativeSize(h, bin), bin)
    {
      if i < j {
        assert ids[..j][i] == row[i] && ids[..j][0] == row[0] == ids[0];
        assert row[i] != ids[j] && row[0] != ids[j];
      } else if j > 0 {
        assert ids[..j][0] == ids[0] && row[0] != ids[j];
      }
    }
  }

  /** While a class is being walked nobody else places its natives. */
  lemma {:induction false} OwnNotPlaced(h: Heap, begin: nat, s0: State, s1: State, s2: State, o: ObjId)
    requires WalkInv(h, begin, s0) && o < |h.objs| && !Assigned(s0, o) && s1.relocs == s0.relocs && Assigned(s1, o)
    requires Grew(h, s1, s2, NONE) && h.objs[o].kind.ClassObject?
    ensures NoneOf(s2, Natives(h.objs[o].kind.info)) && NoRepeats(Natives(h.objs[o].kind.info))
  {
    var ids := Natives(h.objs[o].kind.info);
    forall i | 0 <= i < |ids| ensures ids[i] !in s2.relocs {
      assert Owns(h, o, ids[i]);
    }
  }

  lemma {:induction false} FinishClass(h: Heap, begin: nat, s0: State, s2: State, s3: State, o: ObjId)
    requires WalkInv(h, begin, s0) && WalkInv(h, begin, s2) && o < |h.objs| && !Assigned(s0, o) && Assigned(s2, o)
    requires Grew(h, s0, s2, o) && h.objs[o].kind.ClassObject? && Placed(s2, s3, Natives(h.objs[o].kind.info))
    requires AllocInv(h, begin, s3) && RelocsInv(h, s3) && ClassDone(h, s3, o)
    ensures WalkInv(h, begin, s3) && Grew(h, s0, s3, NONE)
  {
    forall p, n | Owns(h, p, n) && n in s3.relocs && n !in s2.relocs ensures p == o {
      assert Owns(h, o, n);
    }
    forall n | n in s3.relocs ensures exists p :: Owns(h, p, n) {
      if n !in s2.relocs { assert Owns(h, o, n); }
    }
    forall p | 0 <= p < |h.objs| && Assigned(s3, p) && !Assigned(s0, p) ensures ClassDone(h, s3, p) {
      if p != o { ClassStaysDone(h, s2, s3, p); }
    }
  }

  /** None of these natives is placed. */
  predicate NoneOf(st: State, ids: seq<Native>)
  {
    forall i :: 0 <= i < |ids| ==> ids[i] !in st.relocs
  }

  class ImageWriter {
    const h: Heap
    const begin: nat
    var slots: seq<Option<Slot>>
    var binSizes: seq<nat>
    var imageEnd: nat
    var relocs: map<Native, Reloc>

    ghost function St(): State
      reads this
    {
      State(slots, binSizes, imageEnd, relocs)
    }

    /** The dex cache bin has its final size from the start. */
    constructor (h: Heap, begin: nat)
      requires HeapOk(h) && NativesOk(h)
      ensures this.h == h && this.begin == begin && WalkInv(h, begin, St())
      ensures relocs == map[] && forall o :: 0 <= o < |h.objs| ==> !Assigned(St(), o)
    {
      this.h, this.begin := h, begin;
      slots, binSizes, imageEnd, relocs := Empty(|h.objs|), [h.dexSize] + Zero(BINS - 1), begin, map[];
      new;
      EmptyInv(h, begin, St());
    }

    /** Searches the static fields for one that is not final. */
    method ClassBin(info: ClassInfo) returns (bin: nat)
      ensures bin == if !info.initialized then CLASS_VERIFIED
                     else if AllFinal(info.staticFinal) then CLASS_INITIALIZED_FINAL_STATICS else CLASS_INITIALIZED
    {
      bin := CLASS_VERIFIED;
      if info.initialized {
        bin := CLASS_INITIALIZED;
        var allFinal := true;
        var i := 0;
        while i < |info.staticFinal| && allFinal
          invariant i <= |info.staticFinal| && (allFinal ==> forall j :: 0 <= j < i ==> info.staticFinal[j])
          invariant !allFinal ==> exists j :: 0 <= j < |info.staticFinal| && !info.staticFinal[j]
        {
          if !info.staticFinal[i] { allFinal := false; }
          i := i + 1;
        }
        if allFinal { bin := CLASS_INITIALIZED_FINAL_STATICS; }
      }
    }

    method AssignImageBinSlot(o: ObjId)
      requires o < |h.objs| == |slots| && |binSizes| == BINS
      requires !Assigned(St(), o)
      modifies this
      ensures St() == AssignSlot(h, old(St()), o)
    {
      var size := h.objs[o].size;
      var bin, current := REGULAR, 0;
      var prepared := FindArray(h.arrays, o);
      match h.objs[o].kind {
        case ClassObject(info) => bin := ClassBin(info);
        case StringObject(_) => bin := STRING;
        case ObjectArray(_) => if prepared.Some? { bin := DEX_CACHE_ARRAY; }
        case PointerArray => if prepared.Some? { bin := DEX_CACHE_ARRAY; }
        case Plain =>
      }
      var delta := match prepared case Some(i) => h.arrays[i].length case None => RoundUp8(size);
      if bin == DEX_CACHE_ARRAY {
        current := match prepared case Some(i) => h.arrays[i].offset case None => 0;
      } else {
        current := binSizes[bin];
        binSizes := binSizes[bin := binSizes[bin] + delta];
      }
      slots := slots[o := Some(Slot(bin, current))];
      imageEnd := imageEnd + delta;
    }

    method CalculateObjectBinSlots(o: ObjId)
      requires HeapOk(h) && o < |h.objs| == |slots| && |binSizes| == BINS
      requires !Assigned(St(), o)
      modifies this
      ensures St() == CalculateSlots(h, old(St()), o)
    {
      assert ObjOk(h, o);
      if h.objs[o].kind.StringObject? {
        var interned := h.objs[o].kind.interned;
        if o != interned {
          if slots[interned].None? {
            AssignImageBinSlot(interned);
          }
          slots := slots[o := slots[interned]];
          return;
        }
      }
      AssignImageBinSlot(o);
    }

    /** Places the natives of one array one behind the other; none was placed before. */
    method AssignNatives(ids: seq<Native>, bin: nat)
      requires AllocInv(h, begin, St()) && RelocsInv(h, St()) && ART_FIELD <= bin < BINS && NoRepeats(ids) &&
               NoneOf(St(), ids)
      modifies this`binSizes, this`relocs
      ensures AllocInv(h, begin, St()) && RelocsInv(h, St()) && Placed(old(St()), St(), ids) && InRow(h, St(), ids, bin)
    {
      ghost var st := St();
      assert ids[..0] == [];
      for j := 0 to |ids|
        invariant Filling(h, begin, st, St(), ids, bin, j)
      {
        FillingNext(h, begin, st, St(), ids, bin, j);
        assert ids[j] !in relocs;
        AddOne(ids[j], bin);
      }
      assert ids[..|ids|] == ids;
    }

    /** Methods of one array go to the dirty bin together if one of them is likely to get dirty. */
    method AssignMethods(methods: seq<Method>)
      requires AllocInv(h, begin, St()) && RelocsInv(h, St()) && NoRepeats(Ids(methods)) && NoneOf(St(), Ids(methods))
      modifies this`binSizes, this`relocs
      ensures AllocInv(h, begin, St()) && RelocsInv(h, St()) && Placed(old(St()), St(), Ids(methods))
      ensures InRow(h, St(), Ids(methods), MethodBin(methods))
    {
      var anyDirty := false;
      for i := 0 to |methods|
        invariant anyDirty <==> exists j :: 0 <= j < i && methods[j].dirty
      {
        anyDirty := anyDirty || methods[i].dirty;
      }
      AssignNatives(Ids(methods), if anyDirty then ART_METHOD_DIRTY else ART_METHOD_CLEAN);
    }

    method AssignClassNatives(info: ClassInfo)
      requires AllocInv(h, begin, St()) && RelocsInv(h, St()) && NoRepeats(Natives(info)) && NoneOf(St(), Natives(info))
      modifies this`binSizes, this`relocs
      ensures AllocInv(h, begin, St()) && RelocsInv(h, St()) && Placed(old(St()), St(), Natives(info))
      ensures InRow(h, St(), info.sfields, ART_FIELD) && InRow(h, St(), info.ifields, ART_FIELD)
      ensures InRow(h, St(), Ids(info.directMethods), MethodBin(info.directMethods))
      ensures InRow(h, St(), Ids(info.virtualMethods), MethodBin(info.virtualMethods))
    {
      var d, v := Ids(info.directMethods), Ids(info.virtualMethods);
      PartsOf(St(), info.sfields, info.ifields, d, v);
      ghost var s0 := St();
      AssignNatives(info.sfields, ART_FIELD);
      ghost var s1 := St();
      StillNone(s0, s1, info.sfields, info.ifields);
      StillNone(s0, s1, info.sfields, d);
      StillNone(s0, s1, info.sfields, v);
      AssignNatives(info.ifields, ART_FIELD);
      ghost var s2 := St();
      StillNone(s1, s2, info.ifields, d);
      StillNone(s1, s2, info.ifields, v);
      AssignMethods(info.directMethods);
      ghost var s3 := St();
      StillNone(s2, s3, d, v);
      AssignMethods(info.virtualMethods);
      ghost var s4 := St();
      AllPlaced(h, info, s0, s1, s2, s3, s4);
    }

    /** Visits an object and all that is reached from it, if it has no slot yet. */
    method WalkFieldsInOrder(o: ObjId)
      requires WalkInv(h, begin, St()) && o < |h.objs|
      modifies this
      ensures WalkInv(h, begin, St()) && Grew(h, old(St()), St(), NONE) && Assigned(St(), o)
      decreases Unassigned(slots), 0
    {
      ghost var s0 := St();
      GrewStill(h, s0);
      if slots[o].Some? {
        return;
      }
      CalculateGrows(h, begin, s0, o);
      assert ObjOk(h, o);
      CalculateObjectBinSlots(o);
      ghost var s1 := St();
      WalkInstanceFields(o, h.objs[o].klass);
      ghost var s2 := St();
      CoversCount(s1.slots, s2.slots);
      WalkTail(o);
      ghost var s3 := St();
      GrewOn(h, s1, s2, s3, NONE);
      GrewOn(h, s0, s1, s3, o);
      if h.objs[o].kind.ClassObject? {
        OwnNotPlaced(h, begin, s0, s1, s3, o);
        AssignClassNatives(h.objs[o].kind.info);
        FinishClass(h, begin, s0, s3, St(), o);
      } else {
        assert NewClassesDone(h, s0, s3, NONE);
      }
    }

    /** The static fields of a class, or the elements of an array. */
    method WalkTail(o: ObjId)
      requires WalkInv(h, begin, St()) && o < |h.objs|
      modifies this
      ensures WalkInv(h, begin, St()) && Grew(h, old(St()), St(), NONE)
      decreases Unassigned(slots), 2
    {
      GrewStill(h, St());
      assert ObjOk(h, o);
      match h.objs[o].kind {
        case ClassObject(_) => WalkRefs(h.objs[o].statics);
        case ObjectArray(elements) => WalkRefs(elements);
        case _ =>
      }
    }

    /** The reference fields of an object, those declared by superclasses first. */
    method WalkInstanceFields(o: ObjId, k: ObjId)
      requires WalkInv(h, begin, St()) && o < |h.objs| && k < |h.objs| && h.objs[k].kind.ClassObject?
      modifies this
      ensures WalkInv(h, begin, St()) && Grew(h, old(St()), St(), NONE)
      decreases Unassigned(slots), 2 + h.depth[k]
    {
      ghost var s0 := St();
      GrewStill(h, s0);
      assert ObjOk(h, k) && ObjOk(h, o);
      if h.objs[k].kind.info.superclass.Some? {
        WalkInstanceFields(o, h.objs[k].kind.info.superclass.value);
      }
      ghost var s1 := St();
      CoversCount(s0.slots, s1.slots);
      if k in h.objs[o].fields {
        WalkRefs(h.objs[o].fields[k]);
        GrewOn(h, s0, s1, St(), NONE);
      }
    }

    method WalkRefs(refs: seq<Option<ObjId>>)
      requires WalkInv(h, begin, St()) && RefsOk(h, refs)
      modifies this
      ensures WalkInv(h, begin, St()) && Grew(h, old(St()), St(), NONE)
      decreases Unassigned(slots), 1
    {
      ghost var s0 := St();
      GrewStill(h, s0);
      for i := 0 to |refs|
        invariant WalkInv(h, begin, St()) && Grew(h, s0, St(), NONE)
      {
        if refs[i].Some? {
          ghost var s1 := St();
          CoversCount(s0.slots, s1.slots);
          WalkFieldsInOrder(refs[i].value);
          GrewOn(h, s0, s1, St(), NONE);
        }
      }
    }

    /** Visits the whole heap: afterwards every object has a slot and every class has its natives in place. */
    method VisitObjects()
      requires WalkInv(h, begin, St()) && forall o :: 0 <= o < |h.objs| ==> !Assigned(St(), o)
      modifies this
      ensures WalkInv(h, begin, St())
      ensures forall o :: 0 <= o < |h.objs| ==> Assigned(St(), o) && ClassDone(h, St(), o)
    {
      ghost var s0 := St();
      GrewStill(h, s0);
      for o := 0 to |h.objs|
        invariant WalkInv(h, begin, St()) && Grew(h, s0, St(), NONE) && forall p :: 0 <= p < o ==> Assigned(St(), p)
      {
        ghost var s1 := St();
        WalkFieldsInOrder(o);
        GrewOn(h, s0, s1, St(), NONE);
        forall p | 0 <= p < o ensures Assigned(St(), p) { assert Assigned(s1, p); }
      }
    }

    method AddOne(n: Native, bin: nat)
      requires bin < |binSizes|
      modifies this`binSizes, this`relocs
      ensures St() == AddNative(h, old(St()), n, bin)
    {
      relocs := relocs[n := Reloc(binSizes[bin], bin)];
      binSizes := binSizes[bin := binSizes[bin] + NativeSize(h, bin)];
    }
  }

  predicate NoCommon(a: seq<Native>, b: seq<Native>)
  {
    forall i, j :: 0 <= i < |a| && 0 <= j < |b| ==> a[i] != b[j]
  }

  lemma {:induction false} PartsOf(st: State, a: seq<Native>, b: seq<Native>, c: seq<Native>, d: seq<Native>)
    requires NoRepeats(a + b + c + d) && NoneOf(st, a + b + c + d)
    ensures NoRepeats(a) && NoRepeats(b) && NoRepeats(c) && NoRepeats(d)
    ensures NoneOf(st, a) && NoneOf(st, b) && NoneOf(st, c) && NoneOf(st, d)
    ensures NoCommon(a, b) && NoCommon(a, c) && NoCommon(a, d) && NoCommon(b, c) && NoCommon(b, d) && NoCommon(c, d)
  {
    SplitRow(st, a + b + c, d);
    SplitRow(st, a + b, c);
    SplitRow(st, a, b);
    CommonPart(a + b, c, d);
    CommonPart(a, b, d);
    CommonPart(a, b, c);
  }

  lemma {:induction false} SplitRow(st: State, a: seq<Native>, b: seq<Native>)
    requires NoRepeats(a + b) && NoneOf(st, a + b)
    ensures NoRepeats(a) && NoRepeats(b) && NoneOf(st, a) && NoneOf(st, b) && NoCommon(a, b)
  {
    var s := a + b;
    assert forall i :: 0 <= i < |a| ==> s[i] == a[i];
    assert forall j :: 0 <= j < |b| ==> s[|a| + j] == b[j];
  }

  lemma {:induction false} CommonPart(a: seq<Native>, b: seq<Native>, c: seq<Native>)
    requires NoCommon(a + b, c)
    ensures NoCommon(a, c) && NoCommon(b, c)
  {
    var s := a + b;
    assert forall i :: 0 <= i < |a| ==> s[i] == a[i];
    assert forall j :: 0 <= j < |b| ==> s[|a| + j] == b[j];
  }

  lemma {:induction false} StillNone(st: State, st': State, a: seq<Native>, b: seq<Native>)
    requires Placed(st, st', a) && NoneOf(st, b) && NoCommon(a, b)
    ensures NoneOf(st', b)
  {
    forall j | 0 <= j < |b| ensures b[j] !in st'.relocs {
      assert b[j] !in st.relocs;
      assert b[j] !in a;
    }
  }

  lemma {:induction false} AllPlaced(h: Heap, info: ClassInfo, s0: State, s1: State, s2: State, s3: State, s4: State)
    requires Placed(s0, s1, info.sfields) && Placed(s1, s2, info.ifields)
    requires Placed(s2, s3, Ids(info.directMethods)) && Placed(s3, s4, Ids(info.virtualMethods))
    requires InRow(h, s1, info.sfields, ART_FIELD) && InRow(h, s2, info.ifields, ART_FIELD)
    requires InRow(h, s3, Ids(info.directMethods), MethodBin(info.directMethods))
    ensures Placed(s0, s4, Natives(info))
    ensures InRow(h, s4, info.sfields, ART_FIELD) && InRow(h, s4, info.ifields, ART_FIELD)
    ensures InRow(h, s4, Ids(info.directMethods), MethodBin(info.directMethods))
  {
    PlacedOn(s0, s1, s2, info.sfields, info.ifields);
    PlacedOn(s0, s2, s3, info.sfields + info.ifields, Ids(info.directMethods));
    PlacedOn(s0, s3, s4, info.sfields + info.ifields + Ids(info.directMethods), Ids(info.virtualMethods));
    PlacedOn(s1, s2, s3, info.ifields, Ids(info.directMethods));
    PlacedOn(s1, s3, s4, info.ifields + Ids(info.directMethods), Ids(info.virtualMethods));
    PlacedOn(s2, s3, s4, Ids(info.directMethods), Ids(info.virtualMethods));
    InRowStays(h, s1, s4, info.sfields, ART_FIELD);
    InRowStays(h, s2, s4, info.ifields, ART_FIELD);
    InRowStays(h, s3, s4, Ids(info.directMethods), MethodBin(info.directMethods));
  }

  lemma {:induction false} PlacedOn(a: State, b: State, c: State, x: seq<Native>, y: seq<Native>)
    requires Placed(a, b, x) && Placed(b, c, y)
    ensures Placed(a, c, x + y)
  {
  }

  /** The first `j` natives of an array are placed. */
  ghost predicate Filling(h: Heap, begin: nat, st: State, now: State, ids: seq<Native>, bin: nat, j: nat)
  {
    && AllocInv(h, begin, now) && RelocsInv(h, now) && ART_FIELD <= bin < BINS && j <= |ids| && NoRepeats(ids)
    && NoneOf(st, ids)
    && Placed(st, now, ids[..j]) && InRow(h, now, ids[..j], bin)
    && (j > 0 ==> ids[0] in now.relocs && now.relocs[ids[0]].offset + j * NativeSize(h, bin) == now.binSizes[bin])
  }

  lemma {:induction false} NextIsNew(st: State, now: State, ids: seq<Native>, j: nat)
    requires j < |ids| && NoRepeats(ids) && NoneOf(st, ids) && Placed(st, now, ids[..j])
    ensures ids[j] !in now.relocs
  {
    assert ids[j] !in st.relocs;
    assert ids[j] !in ids[..j];
  }

  lemma {:induction false} FillingNext(h: Heap, begin: nat, st: State, now: State, ids: seq<Native>, bin: nat, j: nat)
    requires Filling(h, begin, st, now, ids, bin, j) && j < |ids|
    ensures ids[j] !in now.relocs && Filling(h, begin, st, AddNative(h, now, ids[j], bin), ids, bin, j + 1)
  {
    NextIsNew(st, now, ids, j);
    InRowNext(h, now, ids, bin, j);
    AddNativeKeeps(h, begin, now, ids[j], bin);
    PlacedNext(h, st, now, ids, bin, j);
    RowEnd(h, now, ids, bin, j);
  }

  lemma {:induction false} RowEnd(h: Heap, now: State, ids: seq<Native>, bin: nat, j: nat)
    requires bin < |now.binSizes| && j < |ids| && NoRepeats(ids)
    requires j > 0 ==> ids[0] in now.relocs && now.relocs[ids[0]].offset + j * NativeSize(h, bin) == now.binSizes[bin]
    ensures var now' := AddNative(h, now, ids[j], bin);
            ids[0] in now'.relocs && now'.relocs[ids[0]].offset + (j + 1) * NativeSize(h, bin) == now'.binSizes[bin]
  {
    assert (j + 1) * NativeSize(h, bin) == j * NativeSize(h, bin) + NativeSize(h, bin);
  }

  lemma {:induction false} PlacedNext(h: Heap, st: State, now: State, ids: seq<Native>, bin: nat, j: nat)
    requires bin < |now.binSizes| && j < |ids| && Placed(st, now, ids[..j]) && ids[j] !in now.relocs
    ensures Placed(st, AddNative(h, now, ids[j], bin), ids[..j + 1])
  {
    assert ids[..j + 1] == ids[..j] + [ids[j]];
  }

  function Empty(n: nat): (slots: seq<Option<Slot>>)
    ensures |slots| == n && forall i :: 0 <= i < n ==> slots[i].None?
  {
    seq(n, _ => None)
  }

  function Zero(n: nat): (s: seq<nat>)
    ensures |s| == n && forall i :: 0 <= i < n ==> s[i] == 0
  {
    seq(n, _ => 0)
  }

  lemma {:induction false} EmptyInv(h: Heap, begin: nat, st: State)
    requires HeapOk(h) && NativesOk(h)
    requires st == State(Empty(|h.objs|), [h.dexSize] + Zero(BINS - 1), begin, map[])
    ensures WalkInv(h, begin, st)
  {
    NothingDone(h.arrays, st);
    ZeroSum(st.binSizes, MIRROR_BINS);
  }

  lemma {:induction false} NothingDone(arrays: seq<DexArray>, st: State)
    requires forall o :: !Assigned(st, o)
    ensures DexDone(arrays, st) == 0
  {
    if arrays != [] { NothingDone(arrays[..|arrays| - 1], st); }
  }

  lemma {:induction false} ZeroSum(binSizes: seq<nat>, b: nat)
    requires 1 <= b <= |binSizes| && forall i :: 1 <= i < |binSizes| ==> binSizes[i] == 0
    ensures MirrorSum(binSizes, b) == binSizes[0]
  {
    if b > 1 { ZeroSum(binSizes, b - 1); }
  }
}
