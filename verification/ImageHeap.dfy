/** The heap an image is made of, and the allocation of its objects to slots in bins. */
module ImageHeap {
  import opened Align
  import opened Options

  type ObjId = nat

  /** A field or method outside the heap, by its address. */
  type Native = nat

  // ----- Bins, in image order -----

  const DEX_CACHE_ARRAY: nat := 0
  const STRING: nat := 1
  const REGULAR: nat := 3
  const CLASS_INITIALIZED_FINAL_STATICS: nat := 4
  const CLASS_INITIALIZED: nat := 5
  const CLASS_VERIFIED: nat := 6
  const ART_FIELD: nat := 7
  const ART_METHOD_CLEAN: nat := 8
  const ART_METHOD_DIRTY: nat := 9
  const BINS: nat := 10
  const MIRROR_BINS: nat := 7

  // ----- Objects -----

  datatype Method = Method(id: Native, dirty: bool)

  datatype ClassInfo = ClassInfo(
    superclass: Option<ObjId>, initialized: bool, staticFinal: seq<bool>,
    sfields: seq<Native>, ifields: seq<Native>, directMethods: seq<Method>, virtualMethods: seq<Method>)

  datatype Kind =
    | ClassObject(info: ClassInfo)
    | StringObject(interned: ObjId)
    | ObjectArray(elements: seq<Option<ObjId>>)
    | PointerArray
    | Plain

  /** `fields` gives the reference fields by declaring class, `statics` those walked for a class. */
  datatype Obj = Obj(size: nat, klass: ObjId, kind: Kind, fields: map<ObjId, seq<Option<ObjId>>>,
                     statics: seq<Option<ObjId>>)

  /** A dex cache array has a prepared place in its bin. */
  datatype DexArray = DexArray(id: ObjId, offset: nat, length: nat)

  datatype Heap = Heap(objs: seq<Obj>, arrays: seq<DexArray>, dexSize: nat, depth: seq<nat>, fieldSize: nat,
                       methodSize: nat)

  predicate RefsOk(h: Heap, refs: seq<Option<ObjId>>)
  {
    forall i :: 0 <= i < |refs| && refs[i].Some? ==> refs[i].value < |h.objs|
  }

  /** References lead to objects, classes have their superclasses below them, and interned strings are their own
      twins. */
  predicate ObjOk(h: Heap, o: ObjId)
    requires o < |h.objs| && |h.depth| == |h.objs|
  {
    var x := h.objs[o];
    && x.klass < |h.objs| && RefsOk(h, x.statics) && (forall k :: k in x.fields ==> RefsOk(h, x.fields[k]))
    && h.objs[x.klass].kind.ClassObject?
    && (x.kind.ObjectArray? ==> RefsOk(h, x.kind.elements))
    && (x.kind.StringObject? ==>
          x.kind.interned < |h.objs| && h.objs[x.kind.interned].kind == StringObject(x.kind.interned))
    && (x.kind.ClassObject? && x.kind.info.superclass.Some? ==>
          var s := x.kind.info.superclass.value;
          s < |h.objs| && h.objs[s].kind.ClassObject? && h.depth[s] < h.depth[o])
  }

  function TotalLength(arrays: seq<DexArray>): nat
  {
    if arrays == [] then 0 else TotalLength(arrays[..|arrays| - 1]) + arrays[|arrays| - 1].length
  }

  /** Prepared places are aligned, disjoint, and fill the bin. */
  predicate ArraysOk(arrays: seq<DexArray>, dexSize: nat)
  {
    && (forall i :: 0 <= i < |arrays| ==>
          arrays[i].offset % 8 == 0 && arrays[i].length % 8 == 0 && arrays[i].offset + arrays[i].length <= dexSize)
    && (forall i, j :: 0 <= i < j < |arrays| ==>
          arrays[i].id != arrays[j].id && (arrays[i].offset + arrays[i].length <= arrays[j].offset ||
                                           arrays[j].offset + arrays[j].length <= arrays[i].offset))
    && TotalLength(arrays) == dexSize
  }

  predicate HeapOk(h: Heap)
  {
    && |h.depth| == |h.objs| && (forall o :: 0 <= o < |h.objs| ==> ObjOk(h, o))
    && ArraysOk(h.arrays, h.dexSize) && h.dexSize % 8 == 0
    && (forall i :: 0 <= i < |h.arrays| ==>
          h.arrays[i].id < |h.objs| && (h.objs[h.arrays[i].id].kind.ObjectArray? ||
                                        h.objs[h.arrays[i].id].kind.PointerArray?))
  }

  /** The position of an object among the prepared arrays. */
  function FindArray(arrays: seq<DexArray>, o: ObjId): (r: Option<nat>)
    ensures r.Some? ==> r.value < |arrays| && arrays[r.value].id == o
    ensures r.None? ==> forall i :: 0 <= i < |arrays| ==> arrays[i].id != o
  {
    if arrays == [] then None
    else if arrays[|arrays| - 1].id == o then Some(|arrays| - 1)
    else FindArray(arrays[..|arrays| - 1], o)
  }

  /** Where references to an object lead: a string to its interned twin. */
  function Canonical(h: Heap, o: ObjId): ObjId
    requires o < |h.objs|
  {
    if h.objs[o].kind.StringObject? then h.objs[o].kind.interned else o
  }

  /** Bytes an object takes up in its bin. */
  function Length(h: Heap, o: ObjId): nat
    requires o < |h.objs|
  {
    match FindArray(h.arrays, o)
    case Some(i) => h.arrays[i].length
    case None => RoundUp8(h.objs[o].size)
  }

  /** The place of an object is large enough for it. */
  predicate Fits(h: Heap, o: ObjId)
    requires o < |h.objs|
  {
    h.objs[o].size <= Length(h, o)
  }

  predicate SizesFit(h: Heap)
  {
    forall o :: 0 <= o < |h.objs| ==> Fits(h, o)
  }

  // ----- Slots -----

  datatype Slot = Slot(bin: nat, index: nat)

  datatype Reloc = Reloc(offset: nat, bin: nat)

  datatype State = State(slots: seq<Option<Slot>>, binSizes: seq<nat>, imageEnd: nat, relocs: map<Native, Reloc>)

  predicate Assigned(st: State, o: ObjId)
  {
    o < |st.slots| && st.slots[o].Some?
  }

  function AllFinal(finals: seq<bool>): bool
  {
    forall i :: 0 <= i < |finals| ==> finals[i]
  }

  /** How likely an object is to get dirty decides its bin. */
  function BinOf(h: Heap, o: ObjId): (b: nat)
    requires o < |h.objs|
    ensures b < MIRROR_BINS
  {
    match h.objs[o].kind
    case ClassObject(info) =>
      if !info.initialized then CLASS_VERIFIED
      else if AllFinal(info.staticFinal) then CLASS_INITIALIZED_FINAL_STATICS
      else CLASS_INITIALIZED
    case StringObject(_) => STRING
    case ObjectArray(_) => if FindArray(h.arrays, o).Some? then DEX_CACHE_ARRAY else REGULAR
    case PointerArray => if FindArray(h.arrays, o).Some? then DEX_CACHE_ARRAY else REGULAR
    case Plain => REGULAR
  }

  /** Gives an object its own slot: a prepared one, or the next free place of its bin. */
  function AssignSlot(h: Heap, st: State, o: ObjId): State
    requires o < |h.objs| == |st.slots| && |st.binSizes| == BINS
  {
    var bin, length := BinOf(h, o), Length(h, o);
    if bin == DEX_CACHE_ARRAY then
      var index := match FindArray(h.arrays, o) case Some(i) => h.arrays[i].offset case None => 0;
      st.(slots := st.slots[o := Some(Slot(bin, index))], imageEnd := st.imageEnd + length)
    else
      st.(slots := st.slots[o := Some(Slot(bin, st.binSizes[bin]))],
      binSizes := st.binSizes[bin := st.binSizes[bin] + length], imageEnd := st.imageEnd + length)
  }

  /** Strings share the slot of their interned twin. */
  function CalculateSlots(h: Heap, st: State, o: ObjId): State
    requires HeapOk(h) && o < |h.objs| == |st.slots| && |st.binSizes| == BINS
  {
    assert ObjOk(h, o);
    var interned := Canonical(h, o);
    if interned == o then AssignSlot(h, st, o)
    else
      var st1 := if Assigned(st, interned) then st else AssignSlot(h, st, interned);
      st1.(slots := st1.slots[o := st1.slots[interned]])
  }

  // ----- What the allocation keeps -----

  function MirrorSum(binSizes: seq<nat>, b: nat): nat
    requires b <= |binSizes|
  {
    if b == 0 then 0 else MirrorSum(binSizes, b - 1) + binSizes[b - 1]
  }

  /** The lengths of the dex cache arrays that have been assigned. */
  function DexDone(arrays: seq<DexArray>, st: State): nat
  {
    if arrays == [] then 0
    else
      var n := |arrays| - 1;
      DexDone(arrays[..n], st) + (if Assigned(st, arrays[n].id) then arrays[n].length else 0)
  }

  predicate SlotOk(h: Heap, st: State, o: ObjId)
    requires o < |h.objs| == |st.slots| && |st.binSizes| == BINS
  {
    Assigned(st, o) ==>
      var c, s := Canonical(h, o), st.slots[o].value;
      && c < |h.objs| && st.slots[c] == st.slots[o]
      && s.bin == BinOf(h, c) && s.index % 8 == 0 && s.index + Length(h, c) <= st.binSizes[s.bin]
      && (s.bin == DEX_CACHE_ARRAY ==>
            FindArray(h.arrays, c).Some? && s.index == h.arrays[FindArray(h.arrays, c).value].offset)
  }

  /** Two objects with slots of their own do not overlap. */
  predicate Disjoint(h: Heap, st: State, a: ObjId, b: ObjId)
    requires a < |h.objs| == |st.slots| && b < |h.objs|
  {
    Assigned(st, a) && Assigned(st, b) && st.slots[a].value.bin == st.slots[b].value.bin ==>
      || st.slots[a].value.index + Length(h, a) <= st.slots[b].value.index
      || st.slots[b].value.index + Length(h, b) <= st.slots[a].value.index
  }

  predicate SlotsInv(h: Heap, st: State)
  {
    && |st.slots| == |h.objs| && |st.binSizes| == BINS
    && (forall b :: 0 <= b < MIRROR_BINS ==> st.binSizes[b] % 8 == 0)
    && (forall o :: 0 <= o < |h.objs| ==> SlotOk(h, st, o))
  }

  predicate DisjointInv(h: Heap, st: State)
    requires |st.slots| == |h.objs|
  {
    forall a, b :: 0 <= a < |h.objs| && 0 <= b < |h.objs| && a != b && Canonical(h, a) == a && Canonical(h, b) == b ==>
        Disjoint(h, st, a, b)
  }

  /** The image end counts every object with a slot of its own. */
  predicate EndInv(h: Heap, begin: nat, st: State)
    requires |st.binSizes| == BINS
  {
    && st.binSizes[DEX_CACHE_ARRAY] == h.dexSize
    && st.imageEnd + h.dexSize == begin + MirrorSum(st.binSizes, MIRROR_BINS) + DexDone(h.arrays, st)
  }

  ghost predicate AllocInv(h: Heap, begin: nat, st: State)
  {
    HeapOk(h) && SlotsInv(h, st) && DisjointInv(h, st) && EndInv(h, begin, st)
  }

  lemma {:induction false} BinIsDex(h: Heap, o: ObjId)
    requires HeapOk(h) && o < |h.objs|
    ensures BinOf(h, o) == DEX_CACHE_ARRAY <==> FindArray(h.arrays, o).Some?
    ensures Length(h, o) % 8 == 0
  {
    RoundUpLiterals(h.objs[o].size);
    match FindArray(h.arrays, o)
    case Some(i) => assert h.arrays[i].length % 8 == 0;
    case None =>
  }

  lemma {:induction false} MirrorSumUpdate(binSizes: seq<nat>, bin: nat, size: nat, b: nat)
    requires bin < |binSizes| && b <= |binSizes|
    ensures MirrorSum(binSizes[bin := size], b) ==
            MirrorSum(binSizes, b) + (if bin < b then size - binSizes[bin] else 0)
  {
    if b > 0 { MirrorSumUpdate(binSizes, bin, size, b - 1); }
  }

  lemma {:induction false} DexDoneSame(arrays: seq<DexArray>, st: State, st': State)
    requires forall i :: 0 <= i < |arrays| ==> (Assigned(st, arrays[i].id) <==> Assigned(st', arrays[i].id))
    ensures DexDone(arrays, st) == DexDone(arrays, st')
  {
    if arrays != [] {
      var n := |arrays| - 1;
      assert forall i :: 0 <= i < n ==> arrays[..n][i] == arrays[i];
      DexDoneSame(arrays[..n], st, st');
    }
  }

  lemma {:induction false} DexDoneAdd(arrays: seq<DexArray>, st: State, st': State, k: nat)
    requires k < |arrays| && !Assigned(st, arrays[k].id) && Assigned(st', arrays[k].id)
    requires forall i :: 0 <= i < |arrays| && i != k ==>
               arrays[i].id != arrays[k].id && (Assigned(st, arrays[i].id) <==> Assigned(st', arrays[i].id))
    ensures DexDone(arrays, st') == DexDone(arrays, st) + arrays[k].length
  {
    var n := |arrays| - 1;
    assert forall i :: 0 <= i < n ==> arrays[..n][i] == arrays[i];
    if k < n { DexDoneAdd(arrays[..n], st, st', k); } else { DexDoneSame(arrays[..n], st, st'); }
  }

  /** A new slot leaves the others where they are. */
  lemma {:induction false} AssignKeepsSlots(h: Heap, st: State, o: ObjId)
    requires HeapOk(h) && SlotsInv(h, st) && st.binSizes[DEX_CACHE_ARRAY] == h.dexSize
    requires o < |h.objs| && !Assigned(st, o) && Canonical(h, o) == o
    ensures SlotsInv(h, AssignSlot(h, st, o))
  {
    BinIsDex(h, o);
    var st' := AssignSlot(h, st, o);
    forall p | 0 <= p < |h.objs| ensures SlotOk(h, st', p) {
      assert SlotOk(h, st, p);
    }
  }

  lemma {:induction false} AssignDisjoint(h: Heap, st: State, o: ObjId, a: ObjId)
    requires HeapOk(h) && SlotsInv(h, st) && o < |h.objs| && a < |h.objs| && a != o
    requires !Assigned(st, o) && Canonical(h, o) == o && Canonical(h, a) == a
    ensures Disjoint(h, AssignSlot(h, st, o), a, o)
  {
    var st' := AssignSlot(h, st, o);
    BinIsDex(h, o);
    BinIsDex(h, a);
    assert SlotOk(h, st, a);
    if Assigned(st, a) && st.slots[a].value.bin == BinOf(h, o) == DEX_CACHE_ARRAY {
      var i, j := FindArray(h.arrays, a).value, FindArray(h.arrays, o).value;
      assert i != j;
    }
  }

  lemma {:induction false} AssignKeepsDisjoint(h: Heap, st: State, o: ObjId)
    requires HeapOk(h) && SlotsInv(h, st) && DisjointInv(h, st) && o < |h.objs| && !Assigned(st, o) &&
             Canonical(h, o) == o
    ensures DisjointInv(h, AssignSlot(h, st, o))
  {
    var st' := AssignSlot(h, st, o);
    forall a, b | 0 <= a < |h.objs| && 0 <= b < |h.objs| && a != b && Canonical(h, a) == a && Canonical(h, b) == b
      ensures Disjoint(h, st', a, b)
    {
      if a == o {
        AssignDisjoint(h, st, o, b);
      } else if b == o {
        AssignDisjoint(h, st, o, a);
      } else {
        assert Disjoint(h, st, a, b);
      }
    }
  }

  lemma {:induction false} AssignKeepsEnd(h: Heap, begin: nat, st: State, o: ObjId)
    requires HeapOk(h) && SlotsInv(h, st) && EndInv(h, begin, st) && o < |h.objs| && !Assigned(st, o)
    ensures EndInv(h, begin, AssignSlot(h, st, o))
  {
    var st' := AssignSlot(h, st, o);
    BinIsDex(h, o);
    match FindArray(h.arrays, o)
    case Some(k) => DexDoneAdd(h.arrays, st, st', k);
    case None =>
      DexDoneSame(h.arrays, st, st');
      MirrorSumUpdate(st.binSizes, BinOf(h, o), st'.binSizes[BinOf(h, o)], MIRROR_BINS);
  }

  lemma {:induction false} AssignKeeps(h: Heap, begin: nat, st: State, o: ObjId)
    requires AllocInv(h, begin, st) && o < |h.objs| && !Assigned(st, o) && Canonical(h, o) == o
    ensures AllocInv(h, begin, AssignSlot(h, st, o))
  {
    AssignKeepsSlots(h, st, o);
    AssignKeepsDisjoint(h, st, o);
    AssignKeepsEnd(h, begin, st, o);
  }

  /** Giving a string the slot of its twin. */
  function Share(st: State, o: ObjId, c: ObjId): State
    requires o < |st.slots| && c < |st.slots|
  {
    st.(slots := st.slots[o := st.slots[c]])
  }

  lemma {:induction false} ShareKeeps(h: Heap, begin: nat, st: State, o: ObjId)
    requires AllocInv(h, begin, st) && o < |h.objs| && !Assigned(st, o)
    requires Canonical(h, o) != o && Canonical(h, o) < |h.objs| && Assigned(st, Canonical(h, o))
    ensures AllocInv(h, begin, Share(st, o, Canonical(h, o)))
  {
    var c := Canonical(h, o);
    var st' := Share(st, o, c);
    assert ObjOk(h, o) && Canonical(h, c) == c;
    assert SlotOk(h, st, c);
    forall p | 0 <= p < |h.objs| ensures SlotOk(h, st', p) {
      assert SlotOk(h, st, p);
      assert Assigned(st, p) ==> Canonical(h, p) < |h.objs| && Assigned(st, Canonical(h, p));
    }
    forall a, b | 0 <= a < |h.objs| && 0 <= b < |h.objs| && a != b && Canonical(h, a) == a && Canonical(h, b) == b
      ensures Disjoint(h, st', a, b)
    {
      assert Disjoint(h, st, a, b);
    }
    forall i | 0 <= i < |h.arrays| ensures Assigned(st, h.arrays[i].id) <==> Assigned(st', h.arrays[i].id) {
      assert !h.objs[h.arrays[i].id].kind.StringObject?;
    }
    DexDoneSame(h.arrays, st, st');
  }

  /** Assigning a slot to an unassigned object, of its own or its twin's. */
  lemma {:induction false} CalculateKeeps(h: Heap, begin: nat, st: State, o: ObjId)
    requires AllocInv(h, begin, st) && o < |h.objs| && !Assigned(st, o)
    ensures AllocInv(h, begin, CalculateSlots(h, st, o)) && Assigned(CalculateSlots(h, st, o), o)
    ensures forall p :: Assigned(st, p) ==> Assigned(CalculateSlots(h, st, o), p)
    ensures forall p :: Assigned(CalculateSlots(h, st, o), p) && !Assigned(st, p) ==> p == o || p == Canonical(h, o)
    ensures CalculateSlots(h, st, o).relocs == st.relocs
  {
    assert ObjOk(h, o);
    var c := Canonical(h, o);
    if c == o {
      AssignKeeps(h, begin, st, o);
    } else {
      assert Canonical(h, c) == c;
      var st1 := if Assigned(st, c) then st else AssignSlot(h, st, c);
      if !Assigned(st, c) { AssignKeeps(h, begin, st, c); }
      assert Assigned(st1, c);
      ShareKeeps(h, begin, st1, o);
    }
  }

  // ----- Fields and methods outside the heap -----

  function Natives(info: ClassInfo): seq<Native>
  {
    info.sfields + info.ifields + Ids(info.directMethods) + Ids(info.virtualMethods)
  }

  function Ids(methods: seq<Method>): (ids: seq<Native>)
    ensures |ids| == |methods| && forall i :: 0 <= i < |ids| ==> ids[i] == methods[i].id
  {
    seq(|methods|, i requires 0 <= i < |methods| => methods[i].id)
  }

  predicate Owns(h: Heap, o: ObjId, n: Native)
  {
    o < |h.objs| && h.objs[o].kind.ClassObject? && n in Natives(h.objs[o].kind.info)
  }

  /** Every field and method belongs to one class and stands there once. */
  ghost predicate NativesOk(h: Heap)
  {
    && h.fieldSize > 0 && h.methodSize > 0
    && (forall o :: 0 <= o < |h.objs| && h.objs[o].kind.ClassObject? ==> NoRepeats(Natives(h.objs[o].kind.info)))
    && (forall o, p, n :: Owns(h, o, n) && Owns(h, p, n) ==> o == p)
  }

  predicate NoRepeats(s: seq<Native>)
  {
    forall i, j :: 0 <= i < j < |s| ==> s[i] != s[j]
  }

  function NativeSize(h: Heap, bin: nat): nat
  {
    if bin == ART_FIELD then h.fieldSize else h.methodSize
  }

  function AddNative(h: Heap, st: State, n: Native, bin: nat): State
    requires bin < |st.binSizes|
  {
    st.(relocs := st.relocs[n := Reloc(st.binSizes[bin], bin)],
        binSizes := st.binSizes[bin := st.binSizes[bin] + NativeSize(h, bin)])
  }

  predicate RelocOk(h: Heap, st: State, n: Native)
    requires n in st.relocs && |st.binSizes| == BINS
  {
    var r := st.relocs[n];
    ART_FIELD <= r.bin < BINS && r.offset + NativeSize(h, r.bin) <= st.binSizes[r.bin]
  }

  predicate RelocsApart(h: Heap, st: State, m: Native, n: Native)
    requires m in st.relocs && n in st.relocs
  {
    var a, b := st.relocs[m], st.relocs[n];
    a.bin == b.bin ==> a.offset + NativeSize(h, a.bin) <= b.offset || b.offset + NativeSize(h, b.bin) <= a.offset
  }

  predicate RelocsInv(h: Heap, st: State)
    requires |st.binSizes| == BINS
  {
    && (forall n :: n in st.relocs ==> RelocOk(h, st, n))
    && (forall m, n :: m in st.relocs && n in st.relocs && m != n ==> RelocsApart(h, st, m, n))
  }

  lemma {:induction false} AddNativeKeeps(h: Heap, begin: nat, st: State, n: Native, bin: nat)
    requires AllocInv(h, begin, st) && RelocsInv(h, st) && n !in st.relocs && ART_FIELD <= bin < BINS
    ensures AllocInv(h, begin, AddNative(h, st, n, bin)) && RelocsInv(h, AddNative(h, st, n, bin))
  {
    var st' := AddNative(h, st, n, bin);
    forall p | 0 <= p < |h.objs| ensures SlotOk(h, st', p) {
      assert SlotOk(h, st, p);
    }
    forall a, b | 0 <= a < |h.objs| && 0 <= b < |h.objs| && a != b && Canonical(h, a) == a && Canonical(h, b) == b
      ensures Disjoint(h, st', a, b)
    {
      assert Disjoint(h, st, a, b);
    }
    DexDoneSame(h.arrays, st, st');
    MirrorSumUpdate(st.binSizes, bin, st'.binSizes[bin], MIRROR_BINS);
    AddRelocKeeps(h, st, n, bin);
  }

  lemma {:induction false} AddRelocKeeps(h: Heap, st: State, n: Native, bin: nat)
    requires |st.binSizes| == BINS && RelocsInv(h, st) && n !in st.relocs && ART_FIELD <= bin < BINS
    ensures RelocsInv(h, AddNative(h, st, n, bin))
  {
    var st' := AddNative(h, st, n, bin);
    forall m | m in st'.relocs ensures RelocOk(h, st', m) {
      if m != n { assert RelocOk(h, st, m); }
    }
    forall k, m | k in st'.relocs && m in st'.relocs && k != m ensures RelocsApart(h, st', k, m) {
      if k != n && m != n {
        assert RelocsApart(h, st, k, m);
      } else if k == n {
        assert RelocOk(h, st, m);
      } else {
        assert RelocOk(h, st, k);
      }
    }
  }
}
