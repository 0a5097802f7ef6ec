/** From slots in bins to offsets in the image, and the sections of the image. */
module ImageLayout {
  import opened Align
  import opened Options
  import opened ImageHeap
  import opened ImageWalk

  // ----- Places for the dex cache arrays -----

  /** An array with its size in the image. */
  datatype Sized = Sized(id: ObjId, size: nat)

  /** An array by its number of elements. */
  datatype Counted = Counted(id: ObjId, elements: nat)

  /** The four arrays of a dex cache. */
  datatype DexCache = DexCache(types: Counted, methods: Counted, strings: Counted, fields: Counted)

  /** Elements start behind the length at a multiple of their width. */
  function DataOffset(width: nat): (r: nat)
    ensures width == 4 || width == 8 ==> r % width == 0 && 12 <= r < 12 + width
  {
    if width == 8 then 16 else 12
  }

  function ArrayBytes(width: nat, elements: nat): nat
  {
    DataOffset(width) + width * elements
  }

  /** Arrays are rounded up to the object alignment. */
  function ArraySize(width: nat, elements: nat): (r: nat)
    ensures r % 8 == 0
  {
    RoundUp8(ArrayBytes(width, elements))
  }

  function SizedOf(c: Counted, width: nat): Sized
  {
    Sized(c.id, ArraySize(width, c.elements))
  }

  /** Arrays one behind the other. */
  function Chain(items: seq<Sized>): (arrays: seq<DexArray>)
    ensures |arrays| == |items|
  {
    if items == [] then []
    else
      var n := |items| - 1;
      Chain(items[..n]) + [DexArray(items[n].id, ChainSize(items[..n]), items[n].size)]
  }

  function ChainSize(items: seq<Sized>): nat
  {
    if items == [] then 0 else ChainSize(items[..|items| - 1]) + items[|items| - 1].size
  }

  /** Types, methods, strings and fields of each cache in turn: references of 4 bytes, pointers of the given size. */
  function Items(caches: seq<DexCache>, pointer: nat, n: nat): seq<Sized>
    requires n <= |caches|
  {
    if n == 0 then []
    else
      var c := caches[n - 1];
      Items(caches, pointer, n - 1) +
      [SizedOf(c.types, 4)] + [SizedOf(c.methods, pointer)] + [SizedOf(c.strings, 4)] + [SizedOf(c.fields, pointer)]
  }

  lemma {:induction false} ChainNext(items: seq<Sized>, it: Sized)
    ensures Chain(items + [it]) == Chain(items) + [DexArray(it.id, ChainSize(items), it.size)]
    ensures ChainSize(items + [it]) == ChainSize(items) + it.size
  {
    assert (items + [it])[..|items|] == items;
  }

  method AddArray(arrays: seq<DexArray>, size: nat, it: Sized, ghost items: seq<Sized>)
    returns (arrays': seq<DexArray>, size': nat)
    requires arrays == Chain(items) && size == ChainSize(items)
    ensures arrays' == Chain(items + [it]) && size' == ChainSize(items + [it])
  {
    ChainNext(items, it);
    arrays', size' := arrays + [DexArray(it.id, size, it.size)], size + it.size;
  }

  method PrepareDexCacheArraySlots(caches: seq<DexCache>, pointer: nat) returns (arrays: seq<DexArray>, size: nat)
    ensures arrays == Chain(Items(caches, pointer, |caches|)) && size == ChainSize(Items(caches, pointer, |caches|))
  {
    arrays, size := [], 0;
    for i := 0 to |caches|
      invariant arrays == Chain(Items(caches, pointer, i)) && size == ChainSize(Items(caches, pointer, i))
    {
      ghost var items := Items(caches, pointer, i);
      var types, methods := SizedOf(caches[i].types, 4), SizedOf(caches[i].methods, pointer);
      var strings, fields := SizedOf(caches[i].strings, 4), SizedOf(caches[i].fields, pointer);
      arrays, size := AddArray(arrays, size, types, items);
      arrays, size := AddArray(arrays, size, methods, items + [types]);
      arrays, size := AddArray(arrays, size, strings, items + [types] + [methods]);
      arrays, size := AddArray(arrays, size, fields, items + [types] + [methods] + [strings]);
    }
  }

  /** Sizes are multiples of the object alignment, and no array belongs to two caches. */
  predicate ItemsOk(items: seq<Sized>)
  {
    Aligned(items) && Distinct(items)
  }

  predicate Aligned(items: seq<Sized>)
  {
    forall i :: 0 <= i < |items| ==> items[i].size % 8 == 0
  }

  predicate Distinct(items: seq<Sized>)
  {
    forall i, j :: 0 <= i < j < |items| ==> items[i].id != items[j].id
  }

  lemma {:induction false} ItemsAligned(caches: seq<DexCache>, pointer: nat, n: nat)
    requires n <= |caches|
    ensures Aligned(Items(caches, pointer, n))
  {
    if n > 0 { ItemsAligned(caches, pointer, n - 1); }
  }

  predicate NoSuchId(arrays: seq<DexArray>, id: ObjId)
  {
    forall i :: 0 <= i < |arrays| ==> arrays[i].id != id
  }

  lemma {:induction false} LastIsNew(items: seq<Sized>)
    requires ItemsOk(items) && items != []
    ensures ItemsOk(items[..|items| - 1]) && NoSuchId(Chain(items[..|items| - 1]), items[|items| - 1].id)
  {
    var before := items[..|items| - 1];
    forall i | 0 <= i < |Chain(before)| ensures Chain(before)[i].id != items[|items| - 1].id { ChainId(before, i); }
  }

  lemma {:induction false} OneMore(arrays: seq<DexArray>, size: nat, a: DexArray)
    requires ArraysOk(arrays, size) && size % 8 == 0 && a.offset == size && a.length % 8 == 0
    requires NoSuchId(arrays, a.id)
    ensures ArraysOk(arrays + [a], size + a.length)
  {
    assert (arrays + [a])[..|arrays|] == arrays;
  }

  lemma {:induction false} ChainId(items: seq<Sized>, i: nat)
    requires i < |items|
    ensures Chain(items)[i].id == items[i].id
  {
    var n := |items| - 1;
    if i < n { ChainId(items[..n], i); }
  }

  lemma {:induction false} PreparedNext(items: seq<Sized>, it: Sized)
    requires ArraysOk(Chain(items), ChainSize(items)) && ChainSize(items) % 8 == 0 && it.size % 8 == 0 &&
             NoSuchId(Chain(items), it.id)
    ensures ArraysOk(Chain(items + [it]), ChainSize(items + [it])) && ChainSize(items + [it]) % 8 == 0
  {
    ChainNext(items, it);
    OneMore(Chain(items), ChainSize(items), DexArray(it.id, ChainSize(items), it.size));
  }

  lemma {:induction false} ChainPrepared(items: seq<Sized>)
    requires ItemsOk(items)
    ensures ArraysOk(Chain(items), ChainSize(items)) && ChainSize(items) % 8 == 0
  {
    if items != [] {
      var n := |items| - 1;
      var before := items[..n];
      LastIsNew(items);
      ChainPrepared(before);
      PreparedNext(before, items[n]);
      assert items == before + [items[n]];
    }
  }

  /** The places prepared for any dex caches never overlap and fill the bin exactly. */
  lemma {:induction false} TheoremArraysPrepared(caches: seq<DexCache>, pointer: nat)
    requires Distinct(Items(caches, pointer, |caches|))
    ensures var items := Items(caches, pointer, |caches|);
            ArraysOk(Chain(items), ChainSize(items)) && ChainSize(items) % 8 == 0
  {
    ItemsAligned(caches, pointer, |caches|);
    ChainPrepared(Items(caches, pointer, |caches|));
  }

  // ----- Offsets -----

  /** Everything has been walked. */
  ghost predicate Walked(h: Heap, begin: nat, st: State)
  {
    && AllocInv(h, begin, st) && RelocsInv(h, st) && begin % 8 == 0
    && forall o :: 0 <= o < |h.objs| ==> Assigned(st, o)
  }

  lemma {:induction false} AllDexDone(arrays: seq<DexArray>, st: State)
    requires forall i :: 0 <= i < |arrays| ==> Assigned(st, arrays[i].id)
    ensures DexDone(arrays, st) == TotalLength(arrays)
  {
    if arrays != [] {
      assert forall i :: 0 <= i < |arrays| - 1 ==> arrays[..|arrays| - 1][i] == arrays[i];
      AllDexDone(arrays[..|arrays| - 1], st);
    }
  }

  /** The image end is the start of the objects plus the sizes of all object bins. */
  lemma {:induction false} TheoremImageEnd(h: Heap, begin: nat, st: State)
    requires Walked(h, begin, st)
    ensures st.imageEnd == begin + MirrorSum(st.binSizes, MIRROR_BINS)
  {
    AllDexDone(h.arrays, st);
  }

  function Offset(begin: nat, st: State, s: Slot): nat
    requires s.bin <= |st.binSizes|
  {
    begin + MirrorSum(st.binSizes, s.bin) + s.index
  }

  lemma {:induction false} SumMonotone(binSizes: seq<nat>, a: nat, b: nat)
    requires a <= b <= |binSizes|
    ensures MirrorSum(binSizes, a) <= MirrorSum(binSizes, b)
    ensures a < b ==> MirrorSum(binSizes, a) + binSizes[a] <= MirrorSum(binSizes, b)
  {
    if a < b { SumMonotone(binSizes, a, b - 1); }
  }

  lemma {:induction false} SumAligned(binSizes: seq<nat>, b: nat)
    requires b <= MIRROR_BINS <= |binSizes| && forall i :: 0 <= i < MIRROR_BINS ==> binSizes[i] % 8 == 0
    ensures MirrorSum(binSizes, b) % 8 == 0
  {
    if b > 0 { SumAligned(binSizes, b - 1); }
  }

  function OffsetOf(h: Heap, begin: nat, st: State, o: ObjId): nat
  {
    if o < |st.slots| && st.slots[o].Some? && st.slots[o].value.bin <= |st.binSizes| then Offset(begin, st,
        st.slots[o].value) else 0
  }

  /** Every object lies aligned between the header and the image end, and a string where its twin lies. */
  lemma {:induction false} TheoremObjectInside(h: Heap, begin: nat, st: State, o: ObjId)
    requires Walked(h, begin, st) && o < |h.objs|
    ensures var c := Canonical(h, o);
            && c < |h.objs| && OffsetOf(h, begin, st, o) == OffsetOf(h, begin, st, c)
            && OffsetOf(h, begin, st, o) % 8 == 0
            && begin <= OffsetOf(h, begin, st, o) && OffsetOf(h, begin, st, o) + Length(h, c) <= st.imageEnd
  {
    assert SlotOk(h, st, o) && Assigned(st, o);
    var s := st.slots[o].value;
    TheoremImageEnd(h, begin, st);
    SumMonotone(st.binSizes, s.bin, MIRROR_BINS);
    ObjectAligned(h, begin, st, o);
  }

  lemma {:induction false} ObjectAligned(h: Heap, begin: nat, st: State, o: ObjId)
    requires Walked(h, begin, st) && o < |h.objs|
    ensures OffsetOf(h, begin, st, o) % 8 == 0
  {
    assert SlotOk(h, st, o) && Assigned(st, o);
    var s := st.slots[o].value;
    SumAligned(st.binSizes, s.bin);
    EightsAdd(begin, MirrorSum(st.binSizes, s.bin), s.index);
  }

  lemma {:induction false} EightsAdd(a: nat, b: nat, c: nat)
    requires a % 8 == 0 && b % 8 == 0 && c % 8 == 0
    ensures (a + b + c) % 8 == 0
  {
  }

  /** Objects with slots of their own do not overlap. */
  lemma {:induction false} TheoremObjectsApart(h: Heap, begin: nat, st: State, a: ObjId, b: ObjId)
    requires Walked(h, begin, st) && a < |h.objs| && b < |h.objs| && a != b && Canonical(h, a) == a &&
             Canonical(h, b) == b
    ensures OffsetOf(h, begin, st, a) + Length(h, a) <= OffsetOf(h, begin, st, b) ||
            OffsetOf(h, begin, st, b) + Length(h, b) <= OffsetOf(h, begin, st, a)
  {
    assert SlotOk(h, st, a) && SlotOk(h, st, b) && Assigned(st, a) && Assigned(st, b) && Disjoint(h, st, a, b);
    var s, t := st.slots[a].value, st.slots[b].value;
    if s.bin < t.bin {
      SumMonotone(st.binSizes, s.bin, t.bin);
    } else if t.bin < s.bin {
      SumMonotone(st.binSizes, t.bin, s.bin);
    }
  }

  function NativeOffset(begin: nat, st: State, n: Native): nat
    requires n in st.relocs
  {
    if st.relocs[n].bin <= |st.binSizes| then begin + MirrorSum(st.binSizes, st.relocs[n].bin) + st.relocs[n].offset
    else 0
  }

  /** Fields and methods follow the objects, without overlap. */
  lemma {:induction false} TheoremNativesBehind(h: Heap, begin: nat, st: State, m: Native, n: Native)
    requires Walked(h, begin, st) && m in st.relocs && n in st.relocs
    ensures var size := NativeSize(h, st.relocs[m].bin);
            st.imageEnd <= NativeOffset(begin, st, m) &&
              NativeOffset(begin, st, m) + size <= begin + MirrorSum(st.binSizes, BINS)
    ensures m != n ==>
              || NativeOffset(begin, st, m) + NativeSize(h, st.relocs[m].bin) <= NativeOffset(begin, st, n)
              || NativeOffset(begin, st, n) + NativeSize(h, st.relocs[n].bin) <= NativeOffset(begin, st, m)
  {
    assert RelocOk(h, st, m) && RelocOk(h, st, n);
    var a, b := st.relocs[m].bin, st.relocs[n].bin;
    TheoremImageEnd(h, begin, st);
    SumMonotone(st.binSizes, MIRROR_BINS, a);
    SumMonotone(st.binSizes, a, BINS);
    if a < b {
      SumMonotone(st.binSizes, a, b);
    } else if b < a {
      SumMonotone(st.binSizes, b, a);
    } else if m != n {
      assert RelocsApart(h, st, m, n);
    }
  }

  // ----- The final pass -----

  /** Cumulative bin sizes. */
  method PreviousSizes(binSizes: seq<nat>) returns (previous: seq<nat>)
    requires |binSizes| == BINS
    ensures |previous| == BINS && forall b :: 0 <= b < BINS ==> previous[b] == MirrorSum(binSizes, b)
  {
    previous := [];
    var sum := 0;
    for b := 0 to BINS
      invariant |previous| == b && sum == MirrorSum(binSizes, b) && forall c :: 0 <= c < b ==>
                  previous[c] == MirrorSum(binSizes, c)
    {
      previous := previous + [sum];
      sum := sum + binSizes[b];
    }
  }

  datatype Layout = Layout(offsets: seq<nat>, natives: map<Native, nat>, imageEnd: nat, binSizes: seq<nat>)

  ghost predicate LaidOut(h: Heap, begin: nat, st: State, l: Layout)
  {
    && Walked(h, begin, st) && l.imageEnd == st.imageEnd && l.binSizes == st.binSizes
    && |l.offsets| == |h.objs| && (forall o :: 0 <= o < |h.objs| ==> l.offsets[o] == OffsetOf(h, begin, st, o))
    && l.natives.Keys == st.relocs.Keys && forall n :: n in st.relocs ==> l.natives[n] == NativeOffset(begin, st, n)
  }

  /** Walks the heap, places the runtime methods, and turns slots into offsets. */
  method CalculateNewObjectOffsets(h: Heap, begin: nat, imageMethods: seq<Native>) returns (l: Layout, ghost st: State)
    requires HeapOk(h) && NativesOk(h) && begin % 8 == 0 && NoRepeats(imageMethods)
    requires forall i, o :: 0 <= i < |imageMethods| ==> !Owns(h, o, imageMethods[i])
    ensures LaidOut(h, begin, st, l)
    ensures forall o :: 0 <= o < |h.objs| ==> ClassDone(h, st, o)
    ensures InRow(h, st, imageMethods, ART_METHOD_DIRTY)
    ensures forall o :: 0 <= o < |h.objs| ==> ClassInRow(h, l, o)
  {
    var writer := new ImageWriter(h, begin);
    writer.VisitObjects();
    ghost var walked := writer.St();
    ImageMethodsNew(h, writer.St(), imageMethods);
    writer.AssignNatives(imageMethods, ART_METHOD_DIRTY);
    st := writer.St();
    forall o | 0 <= o < |h.objs| ensures Assigned(st, o) && ClassDone(h, st, o) {
      assert Assigned(walked, o);
      ClassStaysDone(h, walked, st, o);
    }
    l := Unbin(h, begin, writer.slots, writer.binSizes, writer.relocs, writer.imageEnd);
    forall o | 0 <= o < |h.objs| ensures ClassInRow(h, l, o) {
      ClassStaysInRow(h, begin, st, l, o);
    }
  }

  /** The length of `j` natives. */
  function Span(h: Heap, bin: nat, j: nat): nat
  {
    j * NativeSize(h, bin)
  }

  /** Native `j` of an array lies `j` places behind the first. */
  predicate LaidAt(h: Heap, l: Layout, ids: seq<Native>, bin: nat, j: nat)
    requires j < |ids|
  {
    ids[0] in l.natives && ids[j] in l.natives && l.natives[ids[j]] == l.natives[ids[0]] + Span(h, bin, j)
  }

  /** The natives of an array lie one behind the other in the image, so moving the first moves them all. */
  predicate LaidInRow(h: Heap, l: Layout, ids: seq<Native>, bin: nat)
  {
    forall j: nat :: j < |ids| ==> LaidAt(h, l, ids, bin, j)
  }

  predicate ClassInRow(h: Heap, l: Layout, o: ObjId)
  {
    o < |h.objs| && h.objs[o].kind.ClassObject? ==>
      var info := h.objs[o].kind.info;
      && LaidInRow(h, l, info.sfields, ART_FIELD) && LaidInRow(h, l, info.ifields, ART_FIELD)
      && LaidInRow(h, l, Ids(info.directMethods), MethodBin(info.directMethods))
      && LaidInRow(h, l, Ids(info.virtualMethods), MethodBin(info.virtualMethods))
  }

  lemma {:induction false} NativeLaid(h: Heap, begin: nat, st: State, l: Layout, n: Native)
    requires LaidOut(h, begin, st, l) && n in st.relocs
    ensures n in l.natives && l.natives[n] == NativeOffset(begin, st, n)
  {
  }

  lemma {:induction false} RowAt(h: Heap, begin: nat, st: State, l: Layout, m: Native, n: Native, distance: nat,
                                 bin: nat)
    requires LaidOut(h, begin, st, l) && m in st.relocs && n in st.relocs && st.relocs[m].bin == bin
    requires st.relocs[n] == Reloc(st.relocs[m].offset + distance, bin)
    ensures m in l.natives && n in l.natives && l.natives[n] == l.natives[m] + distance
  {
    NativeLaid(h, begin, st, l, m);
    NativeLaid(h, begin, st, l, n);
    NativeInRow(h, begin, st, m, n, distance, bin);
  }

  lemma {:induction false} RowPlace(h: Heap, st: State, ids: seq<Native>, bin: nat, j: nat)
    requires InRow(h, st, ids, bin) && j < |ids|
    ensures ids[0] in st.relocs && ids[j] in st.relocs && st.relocs[ids[0]].bin == bin
    ensures st.relocs[ids[j]] == Reloc(st.relocs[ids[0]].offset + Span(h, bin, j), bin)
  {
  }

  lemma {:induction false} ElementLaid(h: Heap, begin: nat, st: State, l: Layout, ids: seq<Native>, bin: nat, j: nat)
    requires LaidOut(h, begin, st, l) && j < |ids| && ids[0] in st.relocs && ids[j] in st.relocs &&
             st.relocs[ids[0]].bin == bin
    requires st.relocs[ids[j]] == Reloc(st.relocs[ids[0]].offset + Span(h, bin, j), bin)
    ensures LaidAt(h, l, ids, bin, j)
  {
    RowAt(h, begin, st, l, ids[0], ids[j], Span(h, bin, j), bin);
  }

  lemma {:induction false} RowLaid(h: Heap, begin: nat, st: State, l: Layout, ids: seq<Native>, bin: nat)
    requires LaidOut(h, begin, st, l) && InRow(h, st, ids, bin)
    ensures LaidInRow(h, l, ids, bin)
  {
    forall j: nat | j < |ids| ensures LaidAt(h, l, ids, bin, j) {
      RowPlace(h, st, ids, bin, j);
      ElementLaid(h, begin, st, l, ids, bin, j);
    }
  }

  lemma {:induction false} NativeInRow(h: Heap, begin: nat, st: State, m: Native, n: Native, distance: nat, bin: nat)
    requires |st.binSizes| == BINS && RelocsInv(h, st) && m in st.relocs && n in st.relocs && st.relocs[m].bin == bin
    requires st.relocs[n] == Reloc(st.relocs[m].offset + distance, bin)
    ensures NativeOffset(begin, st, n) == NativeOffset(begin, st, m) + distance
  {
    assert RelocOk(h, st, m);
  }

  lemma {:induction false} ClassStaysInRow(h: Heap, begin: nat, st: State, l: Layout, o: ObjId)
    requires LaidOut(h, begin, st, l) && ClassDone(h, st, o)
    ensures ClassInRow(h, l, o)
  {
    if o < |h.objs| && h.objs[o].kind.ClassObject? {
      var info := h.objs[o].kind.info;
      RowLaid(h, begin, st, l, info.sfields, ART_FIELD);
      RowLaid(h, begin, st, l, info.ifields, ART_FIELD);
      RowLaid(h, begin, st, l, Ids(info.directMethods), MethodBin(info.directMethods));
      RowLaid(h, begin, st, l, Ids(info.virtualMethods), MethodBin(info.virtualMethods));
    }
  }

  lemma {:induction false} ImageMethodsNew(h: Heap, st: State, ids: seq<Native>)
    requires OnlyOwned(h, st) && forall i, o :: 0 <= i < |ids| ==> !Owns(h, o, ids[i])
    ensures NoneOf(st, ids)
  {
  }

  /** Adds the start of the objects and the sizes of the bins in front to every slot and every native place. */
  method Unbin(h: Heap, begin: nat, slots: seq<Option<Slot>>, binSizes: seq<nat>, relocs: map<Native, Reloc>,
               imageEnd: nat) returns (l: Layout)
    requires Walked(h, begin, State(slots, binSizes, imageEnd, relocs))
    ensures LaidOut(h, begin, State(slots, binSizes, imageEnd, relocs), l)
  {
    ghost var st := State(slots, binSizes, imageEnd, relocs);
    var previous := PreviousSizes(binSizes);
    var offsets := [];
    for o := 0 to |slots|
      invariant |offsets| == o && forall p :: 0 <= p < o ==> offsets[p] == OffsetOf(h, begin, st, p)
    {
      assert Assigned(st, o) && SlotOk(h, st, o);
      offsets := offsets + [begin + previous[slots[o].value.bin] + slots[o].value.index];
    }
    forall n | n in relocs ensures relocs[n].bin < BINS { assert RelocOk(h, st, n); }
    var natives := map n | n in relocs :: begin + previous[relocs[n].bin] + relocs[n].offset;
    l := Layout(offsets, natives, imageEnd, binSizes);
  }

  // ----- Sections -----

  datatype Section = Section(offset: nat, size: nat)
  {
    function End(): nat {
      offset + size
    }
  }

  const PAGE: nat := 4096

  /** Objects, fields, methods and interned strings one behind the other, and the bitmap from the next page on. */
  method CreateSections(begin: nat, l: Layout, internTableBytes: nat, bitmapBytes: nat, ghost h: Heap, ghost st: State)
    returns (objects: Section, fields: Section, methods: Section, interned: Section, bitmap: Section)
    requires LaidOut(h, begin, st, l)
    ensures objects == Section(0, l.imageEnd) && fields.offset == objects.End() && methods.offset == fields.End() &&
            interned.offset == methods.End()
    ensures interned.offset == begin + MirrorSum(l.binSizes, BINS) && interned.size == internTableBytes
    ensures bitmap.offset % PAGE == 0 && interned.End() <= bitmap.offset < interned.End() + PAGE
    ensures bitmap.size % PAGE == 0 && bitmapBytes <= bitmap.size < bitmapBytes + PAGE
    ensures forall n :: n in l.natives ==>
              var s := if st.relocs[n].bin == ART_FIELD then fields else methods;
              s.offset <= l.natives[n] && l.natives[n] + NativeSize(h, st.relocs[n].bin) <= s.End()
  {
    TheoremImageEnd(h, begin, st);
    var previous := PreviousSizes(l.binSizes);
    objects := Section(0, l.imageEnd);
    fields := Section(objects.End(), l.binSizes[ART_FIELD]);
    assert begin + previous[ART_FIELD] == fields.offset;
    methods := Section(fields.End(), l.binSizes[ART_METHOD_CLEAN] + l.binSizes[ART_METHOD_DIRTY]);
    assert MirrorSum(l.binSizes, ART_METHOD_CLEAN) == MirrorSum(l.binSizes, ART_FIELD) + l.binSizes[ART_FIELD];
    assert begin + previous[ART_METHOD_CLEAN] == methods.offset;
    assert MirrorSum(l.binSizes, ART_METHOD_DIRTY) ==
           MirrorSum(l.binSizes, ART_METHOD_CLEAN) + l.binSizes[ART_METHOD_CLEAN];
    assert MirrorSum(l.binSizes, BINS) == MirrorSum(l.binSizes, ART_METHOD_DIRTY) + l.binSizes[ART_METHOD_DIRTY];
    interned := Section(methods.End(), internTableBytes);
    bitmap := Section((interned.End() + 4095) / 4096 * 4096, (bitmapBytes + 4095) / 4096 * 4096);
    forall n | n in l.natives
      ensures var s := if st.relocs[n].bin == ART_FIELD then fields else methods;
              s.offset <= l.natives[n] && l.natives[n] + NativeSize(h, st.relocs[n].bin) <= s.End()
    {
      assert RelocOk(h, st, n);
    }
  }
}
