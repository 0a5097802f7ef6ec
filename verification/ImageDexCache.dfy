/** Dex cache arrays: what their prepared places hold, and where compiled code looks for their elements. */
module ImageDexCache {
  import opened Align
  import opened Options
  import opened ImageHeap
  import opened ImageLayout

  datatype ArrayKind = Types | Methods | Strings | Fields

  /** References have 4 bytes; methods and fields are pointers. */
  function Width(kind: ArrayKind, pointer: nat): nat
  {
    match kind
    case Types => 4
    case Methods => pointer
    case Strings => 4
    case Fields => pointer
  }

  function ArrayOf(c: DexCache, kind: ArrayKind): Counted
  {
    match kind
    case Types => c.types
    case Methods => c.methods
    case Strings => c.strings
    case Fields => c.fields
  }

  /** Number of an array among the four of its cache. */
  function Position(kind: ArrayKind): (p: nat)
    ensures p < 4
  {
    match kind
    case Types => 0
    case Methods => 1
    case Strings => 2
    case Fields => 3
  }

  function PlaceSize(c: DexCache, kind: ArrayKind, pointer: nat): nat
  {
    ArraySize(Width(kind, pointer), ArrayOf(c, kind).elements)
  }

  // ----- The layout that compiled code assumes -----

  /** Offset of an array in the arrays of its cache. */
  function KindOffset(c: DexCache, kind: ArrayKind, pointer: nat): nat
    decreases Position(kind)
  {
    match kind
    case Types => 0
    case Methods => PlaceSize(c, Types, pointer)
    case Strings => KindOffset(c, Methods, pointer) + PlaceSize(c, Methods, pointer)
    case Fields => KindOffset(c, Strings, pointer) + PlaceSize(c, Strings, pointer)
  }

  /** Offset of an element in the arrays of its cache. */
  function ElementOffset(c: DexCache, kind: ArrayKind, pointer: nat, index: nat): nat
  {
    KindOffset(c, kind, pointer) + DataOffset(Width(kind, pointer)) + Width(kind, pointer) * index
  }

  /** Where the arrays of cache `i` start in their bin. */
  function CacheStart(caches: seq<DexCache>, pointer: nat, i: nat): nat
    requires i <= |caches|
  {
    ChainSize(Items(caches, pointer, i))
  }

  /** Where compiled code looks for an element: behind the image header, in the arrays of the dex file. */
  function ElementImageAddress(imageBegin: nat, begin: nat, caches: seq<DexCache>, pointer: nat, i: nat,
                               offset: nat): nat
    requires i <= |caches|
  {
    imageBegin + begin + CacheStart(caches, pointer, i) + offset
  }

  // ----- What was prepared -----

  /** An array of that many elements fits, with less than 8 bytes to spare. */
  predicate HoldsElements(length: nat, width: nat, elements: nat)
  {
    DataOffset(width) + width * elements <= length < DataOffset(width) + width * elements + 8
  }

  lemma {:induction false} ItemsLength(caches: seq<DexCache>, pointer: nat, n: nat)
    requires n <= |caches|
    ensures |Items(caches, pointer, n)| == 4 * n
  {
    if n > 0 { ItemsLength(caches, pointer, n - 1); }
  }

  lemma {:induction false} ItemsPrefix(caches: seq<DexCache>, pointer: nat, m: nat, n: nat)
    requires m <= n <= |caches|
    ensures Items(caches, pointer, m) <= Items(caches, pointer, n)
  {
    if m < n { ItemsPrefix(caches, pointer, m, n - 1); }
  }

  lemma {:induction false} ChainAt(items: seq<Sized>, k: nat)
    requires k < |items|
    ensures Chain(items)[k] == DexArray(items[k].id, ChainSize(items[..k]), items[k].size)
  {
    var n := |items| - 1;
    if k < n {
      ChainAt(items[..n], k);
      assert items[..n][..k] == items[..k];
    }
  }

  function ItemOf(c: DexCache, kind: ArrayKind, pointer: nat): Sized
  {
    SizedOf(ArrayOf(c, kind), Width(kind, pointer))
  }

  lemma {:induction false} FourBehind(before: seq<Sized>, a: Sized, b: Sized, d: Sized, e: Sized)
    ensures var items, n := before + [a] + [b] + [d] + [e], |before|;
            && items[n] == a && items[n + 1] == b && items[n + 2] == d && items[n + 3] == e
            && items[..n] == before && items[..n + 1] == before + [a] && items[..n + 2] == before + [a] + [b]
            && items[..n + 3] == before + [a] + [b] + [d]
  {
  }

  lemma {:induction false} FourSizes(before: seq<Sized>, a: Sized, b: Sized, d: Sized)
    ensures ChainSize(before + [a]) == ChainSize(before) + a.size
    ensures ChainSize(before + [a] + [b]) == ChainSize(before) + a.size + b.size
    ensures ChainSize(before + [a] + [b] + [d]) == ChainSize(before) + a.size + b.size + d.size
  {
    ChainNext(before, a);
    ChainNext(before + [a], b);
    ChainNext(before + [a] + [b], d);
  }

  /** Offset of an array from the sizes of those in front of it. */
  function OffsetAmong(kind: ArrayKind, types: nat, methods: nat, strings: nat): nat
  {
    match kind
    case Types => 0
    case Methods => types
    case Strings => types + methods
    case Fields => types + methods + strings
  }

  lemma {:induction false} KindOffsetIs(c: DexCache, kind: ArrayKind, pointer: nat)
    ensures KindOffset(c, kind, pointer) ==
            OffsetAmong(kind, ItemOf(c, Types, pointer).size, ItemOf(c, Methods, pointer).size,
                        ItemOf(c, Strings, pointer).size)
  {
    if kind.Fields? {
      assert KindOffset(c, Strings, pointer) == KindOffset(c, Methods, pointer) + PlaceSize(c, Methods, pointer);
    }
  }

  /** The items of cache `i` among all. */
  lemma {:induction false} FourItems(caches: seq<DexCache>, pointer: nat, i: nat, kind: ArrayKind)
    requires i < |caches|
    ensures var items, k := Items(caches, pointer, i + 1), 4 * i + Position(kind);
            && |items| == 4 * i + 4 && items[k] == ItemOf(caches[i], kind, pointer)
            && ChainSize(items[..k]) == CacheStart(caches, pointer, i) + KindOffset(caches[i], kind, pointer)
  {
    var before, c := Items(caches, pointer, i), caches[i];
    ItemsLength(caches, pointer, i);
    var a, b := ItemOf(c, Types, pointer), ItemOf(c, Methods, pointer);
    var d, e := ItemOf(c, Strings, pointer), ItemOf(c, Fields, pointer);
    NextItems(caches, pointer, i);
    AmongFour(before, a, b, d, e, kind);
    KindOffsetIs(c, kind, pointer);
  }

  lemma {:induction false} NextItems(caches: seq<DexCache>, pointer: nat, i: nat)
    requires i < |caches|
    ensures var c := caches[i];
            Items(caches, pointer, i + 1) ==
            Items(caches, pointer, i) + [ItemOf(c, Types, pointer)] + [ItemOf(c, Methods, pointer)] +
            [ItemOf(c, Strings, pointer)] + [ItemOf(c, Fields, pointer)]
  {
  }

  lemma {:induction false} AmongFour(before: seq<Sized>, a: Sized, b: Sized, d: Sized, e: Sized, kind: ArrayKind)
    ensures var items, k := before + [a] + [b] + [d] + [e], |before| + Position(kind);
            && items[k] == [a, b, d, e][Position(kind)]
            && ChainSize(items[..k]) == ChainSize(before) + OffsetAmong(kind, a.size, b.size, d.size)
  {
    FourBehind(before, a, b, d, e);
    FourSizes(before, a, b, d);
  }

  /** The place prepared for an array of cache `i`. */
  lemma {:induction false} ArrayPrepared(caches: seq<DexCache>, pointer: nat, i: nat, kind: ArrayKind)
    requires i < |caches|
    ensures var arrays, k := Chain(Items(caches, pointer, |caches|)), 4 * i + Position(kind);
            && k < |arrays| && arrays[k].id == ArrayOf(caches[i], kind).id
            && arrays[k].offset == CacheStart(caches, pointer, i) + KindOffset(caches[i], kind, pointer)
            && arrays[k].length == PlaceSize(caches[i], kind, pointer)
  {
    ItemsPrefix(caches, pointer, i + 1, |caches|);
    FourItems(caches, pointer, i, kind);
    ChainOfPrefix(Items(caches, pointer, i + 1), Items(caches, pointer, |caches|), 4 * i + Position(kind));
  }

  lemma {:induction false} ChainOfPrefix(items: seq<Sized>, all: seq<Sized>, k: nat)
    requires items <= all && k < |items|
    ensures Chain(all)[k] == DexArray(items[k].id, ChainSize(items[..k]), items[k].size)
  {
    assert all[k] == items[k] && all[..k] == items[..k];
    ChainAt(all, k);
  }

  /** Every array has a place for all its elements, and hardly more; elements lie in it where compiled code looks. */
  lemma {:induction false} TheoremArraysHoldElements(caches: seq<DexCache>, pointer: nat, i: nat, kind: ArrayKind)
    requires i < |caches| && (pointer == 4 || pointer == 8)
    ensures var arrays, k := Chain(Items(caches, pointer, |caches|)), 4 * i + Position(kind);
            && k < |arrays| && arrays[k].id == ArrayOf(caches[i], kind).id
            && HoldsElements(arrays[k].length, Width(kind, pointer), ArrayOf(caches[i], kind).elements)
    ensures var a := Chain(Items(caches, pointer, |caches|))[4 * i + Position(kind)];
            forall j: nat :: j < ArrayOf(caches[i], kind).elements ==>
              var at := CacheStart(caches, pointer, i) + ElementOffset(caches[i], kind, pointer, j);
              a.offset + 12 <= at && at + Width(kind, pointer) <= a.offset + a.length
  {
    ArrayPrepared(caches, pointer, i, kind);
    var n, w := ArrayOf(caches[i], kind).elements, Width(kind, pointer);
    var a := Chain(Items(caches, pointer, |caches|))[4 * i + Position(kind)];
    forall j: nat | j < n
      ensures var at := CacheStart(caches, pointer, i) + ElementOffset(caches[i], kind, pointer, j);
              a.offset + 12 <= at && at + w <= a.offset + a.length
    {
      ElementInside(w, j, n);
    }
  }

  lemma {:induction false} ElementInside(w: nat, j: nat, n: nat)
    requires j < n
    ensures w * j + w <= w * n
  {
    AtLeastOnce(w, n - j);
    Distribute(w, n, j);
  }

  // ----- The arrays of a heap -----

  /** The array objects of the caches, with the sizes that their elements take. */
  predicate IsCacheArray(objs: seq<Obj>, c: DexCache, kind: ArrayKind, pointer: nat)
  {
    var a := ArrayOf(c, kind);
    && a.id < |objs| && objs[a.id].size == ArrayBytes(Width(kind, pointer), a.elements)
    && (if kind.Types? || kind.Strings? then objs[a.id].kind.ObjectArray? else objs[a.id].kind.PointerArray?)
  }

  predicate HasCaches(objs: seq<Obj>, caches: seq<DexCache>, pointer: nat)
  {
    && (pointer == 4 || pointer == 8) && Distinct(Items(caches, pointer, |caches|))
    && forall i, kind :: 0 <= i < |caches| ==> IsCacheArray(objs, caches[i], kind, pointer)
  }

  /** The heap with places prepared for its dex cache arrays. */
  function WithPlaces(h: Heap, caches: seq<DexCache>, pointer: nat): Heap
  {
    h.(arrays := Chain(Items(caches, pointer, |caches|)), dexSize := ChainSize(Items(caches, pointer, |caches|)))
  }

  /** The cache and the kind of a prepared place. */
  lemma {:induction false} PlaceOf(caches: seq<DexCache>, pointer: nat, k: nat) returns (i: nat, kind: ArrayKind)
    requires k < |Chain(Items(caches, pointer, |caches|))|
    ensures i < |caches| && k == 4 * i + Position(kind)
  {
    ItemsLength(caches, pointer, |caches|);
    i := k / 4;
    kind := if k % 4 == 0 then Types else if k % 4 == 1 then Methods else if k % 4 == 2 then Strings else Fields;
  }

  lemma {:induction false} ArrayFits(h: Heap, caches: seq<DexCache>, pointer: nat, o: ObjId)
    requires HasCaches(h.objs, caches, pointer) && o < |h.objs| &&
             FindArray(WithPlaces(h, caches, pointer).arrays, o).Some?
    ensures Fits(WithPlaces(h, caches, pointer), o)
    ensures h.objs[o].kind.ObjectArray? || h.objs[o].kind.PointerArray?
  {
    var k := FindArray(WithPlaces(h, caches, pointer).arrays, o).value;
    var i, kind := PlaceOf(caches, pointer, k);
    ArrayPrepared(caches, pointer, i, kind);
    assert IsCacheArray(h.objs, caches[i], kind, pointer);
  }

  /** With its places prepared, everything of a heap fits. */
  lemma {:induction false} TheoremSizesFit(h: Heap, caches: seq<DexCache>, pointer: nat)
    requires HasCaches(h.objs, caches, pointer)
    ensures SizesFit(WithPlaces(h, caches, pointer))
  {
    var h' := WithPlaces(h, caches, pointer);
    forall o | 0 <= o < |h'.objs| ensures Fits(h', o) {
      if FindArray(h'.arrays, o).Some? { ArrayFits(h, caches, pointer, o); }
    }
  }

  /** And it is a heap that can be laid out. */
  lemma {:induction false} PlacesMakeHeap(h: Heap, caches: seq<DexCache>, pointer: nat)
    requires |h.depth| == |h.objs| && HasCaches(h.objs, caches, pointer)
    requires forall o :: 0 <= o < |h.objs| ==> ObjOk(h, o)
    ensures HeapOk(WithPlaces(h, caches, pointer))
  {
    var h' := WithPlaces(h, caches, pointer);
    TheoremArraysPrepared(caches, pointer);
    forall o | 0 <= o < |h'.objs| ensures ObjOk(h', o) {
      assert ObjOk(h, o);
    }
    forall k | 0 <= k < |h'.arrays| ensures IsArray(h', h'.arrays[k].id) {
      PlaceIsArray(h, caches, pointer, k);
    }
  }

  predicate IsArray(h: Heap, o: ObjId)
  {
    o < |h.objs| && (h.objs[o].kind.ObjectArray? || h.objs[o].kind.PointerArray?)
  }

  lemma {:induction false} PlaceIsArray(h: Heap, caches: seq<DexCache>, pointer: nat, k: nat)
    requires HasCaches(h.objs, caches, pointer) && k < |Chain(Items(caches, pointer, |caches|))|
    ensures IsArray(h, Chain(Items(caches, pointer, |caches|))[k].id)
  {
    var i, kind := PlaceOf(caches, pointer, k);
    ArrayPrepared(caches, pointer, i, kind);
    assert IsCacheArray(h.objs, caches[i], kind, pointer);
  }

  /** The place of an array object in the finished layout. */
  lemma {:induction false} ArrayOffset(h: Heap, begin: nat, st: State, l: Layout, k: nat)
    requires LaidOut(h, begin, st, l) && k < |h.arrays|
    ensures h.arrays[k].id < |h.objs| && l.offsets[h.arrays[k].id] == begin + h.arrays[k].offset
  {
    var o := h.arrays[k].id;
    assert Assigned(st, o) && SlotOk(h, st, o);
    BinIsDex(h, o);
    var j := FindArray(h.arrays, o).value;
    assert j == k;
  }

  predicate ElementFound(l: Layout, begin: nat, imageBegin: nat, caches: seq<DexCache>, pointer: nat, i: nat,
                         kind: ArrayKind, index: nat)
    requires i < |caches|
  {
    var o, w := ArrayOf(caches[i], kind).id, Width(kind, pointer);
    && o < |l.offsets|
    && ElementImageAddress(imageBegin, begin, caches, pointer, i, ElementOffset(caches[i], kind, pointer, index)) ==
       imageBegin + l.offsets[o] + DataOffset(w) + w * index
  }

  /** The address that compiled code has for an element is the address of that element of the array in the image. */
  lemma {:induction false} TheoremElementAddress(h: Heap, begin: nat, st: State, l: Layout, imageBegin: nat,
                                                 caches: seq<DexCache>, pointer: nat, i: nat, kind: ArrayKind,
                                                 index: nat)
    requires h == WithPlaces(h, caches, pointer) && LaidOut(h, begin, st, l) && i < |caches|
    ensures ElementFound(l, begin, imageBegin, caches, pointer, i, kind, index)
  {
    ArrayPrepared(caches, pointer, i, kind);
    var k := 4 * i + Position(kind);
    ArrayOffset(h, begin, st, l, k);
    FoundAt(l, begin, imageBegin, caches, pointer, i, kind, index, h.arrays[k]);
  }

  lemma {:induction false} FoundAt(l: Layout, begin: nat, imageBegin: nat, caches: seq<DexCache>, pointer: nat, i: nat,
                                   kind: ArrayKind, index: nat, a: DexArray)
    requires i < |caches| && a.id == ArrayOf(caches[i], kind).id < |l.offsets| && l.offsets[a.id] == begin + a.offset
    requires a.offset == CacheStart(caches, pointer, i) + KindOffset(caches[i], kind, pointer)
    ensures ElementFound(l, begin, imageBegin, caches, pointer, i, kind, index)
  {
  }
}
