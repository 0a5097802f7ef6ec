/** The whole image: layout and copy of any heap. */
module ImageWhole {
  import opened Align
  import opened Bytes
  import opened Options
  import opened ImageHeap
  import opened ImageWalk
  import opened ImageLayout
  import opened ImageCopy
  import opened ImageDexCache
  import opened Patching

  // ----- What the image must be -----

  predicate RefHolds(h: Heap, l: Layout, contents: seq<Content>, imageBegin: nat, image: seq<byte>, o: ObjId, r: Ref)
    requires o < |h.objs| == |contents| == |l.offsets| && IsRef(h, o, r)
  {
    var at := l.offsets[o] + contents[o].at(r);
    && at + 4 <= |image|
    && match Referent(h, o, r)
       case None => ReadAt(image, at, 4) == 0
       case Some(t) => t < |l.offsets| && ReadAt(image, at, 4) == imageBegin + l.offsets[t]
  }

  /** Every reference of every object leads to the image address of the object it led to in the heap. */
  ghost predicate RefsHold(h: Heap, l: Layout, contents: seq<Content>, imageBegin: nat, image: seq<byte>)
  {
    |h.objs| == |contents| == |l.offsets| &&
    forall o, r :: 0 <= o < |h.objs| && IsRef(h, o, r) ==> RefHolds(h, l, contents, imageBegin, image, o, r)
  }

  predicate NativeHolds(l: Layout, imageBegin: nat, image: seq<byte>, offset: nat, f: Fix)
  {
    f.target.ToNative? ==>
      && f.target.n in l.natives && offset + f.at + f.width <= |image|
      && ReadAt(image, offset + f.at, f.width) == imageBegin + l.natives[f.target.n]
  }

  /** Every native pointer leads to the place of its field or method. */
  predicate NativesHold(l: Layout, contents: seq<Content>, imageBegin: nat, image: seq<byte>)
  {
    |contents| == |l.offsets| &&
    forall o, k :: 0 <= o < |contents| && 0 <= k < |contents[o].fixes| ==>
        NativeHolds(l, imageBegin, image, l.offsets[o], contents[o].fixes[k])
  }

  /** Byte `i` belongs to no reference, pointer or lock word. */
  predicate PlainByte(c: Content, i: nat)
  {
    && i < |c.bytes| && (i < LOCK_WORD || LOCK_WORD + 4 <= i)
    && forall k :: 0 <= k < |c.fixes| ==> i < c.fixes[k].at || c.fixes[k].at + c.fixes[k].width <= i
  }

  /** All other bytes are the original ones. */
  ghost predicate DataHolds(l: Layout, contents: seq<Content>, image: seq<byte>)
  {
    |contents| == |l.offsets| &&
    forall o, i: nat :: 0 <= o < |contents| && PlainByte(contents[o], i) ==>
      l.offsets[o] + i < |image| && image[l.offsets[o] + i] == contents[o].bytes[i]
  }

  /** Two objects have the same place exactly if they are interned twins or one and the same. */
  predicate TwinsMerged(h: Heap, l: Layout)
  {
    |h.objs| == |l.offsets| &&
    forall a, b :: 0 <= a < |h.objs| && 0 <= b < |h.objs| ==>
        (l.offsets[a] == l.offsets[b] <==> Canonical(h, a) == Canonical(h, b))
  }

  ghost predicate IsImageOf(h: Heap, l: Layout, contents: seq<Content>, imageBegin: nat, image: seq<byte>)
  {
    RefsHold(h, l, contents, imageBegin, image) && NativesHold(l, contents, imageBegin, image) &&
      DataHolds(l, contents, image) && TwinsMerged(h, l)
  }

  // ----- What the passes leave is that -----

  /** The passes are done and the image fits below 2^32. */
  ghost predicate Made(h: Heap, begin: nat, st: State, natives: set<Native>, l: Layout, contents: seq<Content>,
                       locks: seq<nat>, imageBegin: nat, image: seq<byte>)
  {
    && LaidOut(h, begin, st, l) && AllContentOk(h, natives, contents) && |locks| == |contents|
    && natives <= st.relocs.Keys
    && CopiedUpTo(l, contents, locks, AddressOf(imageBegin, l), image, |l.offsets|)
    && begin + MirrorSum(st.binSizes, BINS) <= |image| && imageBegin + |image| <= WORD && h.fieldSize > 0
    && h.methodSize > 0
  }

  /** An object has a place below the end of the image. */
  lemma {:induction false} PlaceFits(h: Heap, begin: nat, st: State, natives: set<Native>, l: Layout,
                                     contents: seq<Content>, o: ObjId)
    requires LaidOut(h, begin, st, l) && AllContentOk(h, natives, contents) && o < |h.objs|
    ensures l.offsets[o] < begin + MirrorSum(st.binSizes, BINS)
  {
    ContentFits(h, natives, contents, o);
    TheoremObjectInside(h, begin, st, o);
    TheoremImageEnd(h, begin, st);
    SumMonotone(st.binSizes, MIRROR_BINS, BINS);
  }

  lemma {:induction false} ReferentOk(h: Heap, o: ObjId, r: Ref)
    requires HeapOk(h) && o < |h.objs| && IsRef(h, o, r)
    ensures Referent(h, o, r).Some? ==> Referent(h, o, r).value < |h.objs|
  {
    assert ObjOk(h, o);
  }

  lemma {:induction false} RefMade(h: Heap, begin: nat, st: State, natives: set<Native>, l: Layout,
                                   contents: seq<Content>, locks: seq<nat>,
                                   imageBegin: nat, image: seq<byte>, o: ObjId, r: Ref)
    requires Made(h, begin, st, natives, l, contents, locks, imageBegin, image) && o < |h.objs| && IsRef(h, o, r)
    ensures RefHolds(h, l, contents, imageBegin, image, o, r)
  {
    ReferentOk(h, o, r);
    if Referent(h, o, r).Some? { PlaceFits(h, begin, st, natives, l, contents, Referent(h, o, r).value); }
    TheoremGraphPreserved(h, natives, l, contents, locks, imageBegin, image, o, r);
  }

  lemma {:induction false} NativeMade(h: Heap, begin: nat, st: State, natives: set<Native>, l: Layout,
                                      contents: seq<Content>, locks: seq<nat>,
                                      imageBegin: nat, image: seq<byte>, o: ObjId, k: nat)
    requires Made(h, begin, st, natives, l, contents, locks, imageBegin, image) && o < |h.objs| &&
             k < |contents[o].fixes|
    ensures NativeHolds(l, imageBegin, image, l.offsets[o], contents[o].fixes[k])
  {
    var f := contents[o].fixes[k];
    if f.target.ToNative? {
      NativeFits(h, begin, st, natives, l, contents, o, k);
      FixPreserved(h, natives, l, contents, locks, imageBegin, image, o, k);
    }
  }

  lemma {:induction false} NativeFits(h: Heap, begin: nat, st: State, natives: set<Native>, l: Layout,
                                      contents: seq<Content>, o: ObjId, k: nat)
    requires LaidOut(h, begin, st, l) && AllContentOk(h, natives, contents) && natives <= st.relocs.Keys &&
             h.fieldSize > 0 && h.methodSize > 0
    requires o < |h.objs| && k < |contents[o].fixes| && contents[o].fixes[k].target.ToNative?
    ensures var f := contents[o].fixes[k];
            f.target.n in l.natives && l.natives[f.target.n] < begin + MirrorSum(st.binSizes, BINS) &&
              Pow256(f.width) >= WORD
  {
    var f := contents[o].fixes[k];
    assert ContentOk(h, natives, contents, o);
    TheoremNativesBehind(h, begin, st, f.target.n, f.target.n);
    assert Pow256(4) == WORD && Pow256(8) == WORD * WORD;
  }

  lemma {:induction false} Merged(h: Heap, begin: nat, st: State, natives: set<Native>, l: Layout,
                                  contents: seq<Content>, a: ObjId, b: ObjId)
    requires LaidOut(h, begin, st, l) && AllContentOk(h, natives, contents) && a < |h.objs| && b < |h.objs|
    ensures l.offsets[a] == l.offsets[b] <==> Canonical(h, a) == Canonical(h, b)
  {
    ContentFits(h, natives, contents, a);
    ContentFits(h, natives, contents, b);
    TheoremAddressesDiffer(h, begin, st, l, 0, a, b);
  }

  /** The image is the heap, with each string merged into its interned twin. */
  lemma {:induction false} TheoremImageIsHeap(h: Heap, begin: nat, st: State, natives: set<Native>, l: Layout,
                                              contents: seq<Content>, locks: seq<nat>,
                                              imageBegin: nat, image: seq<byte>)
    requires Made(h, begin, st, natives, l, contents, locks, imageBegin, image)
    ensures IsImageOf(h, l, contents, imageBegin, image)
  {
    forall o, r | 0 <= o < |h.objs| && IsRef(h, o, r) ensures RefHolds(h, l, contents, imageBegin, image, o, r) {
      RefMade(h, begin, st, natives, l, contents, locks, imageBegin, image, o, r);
    }
    forall o, k | 0 <= o < |contents| && 0 <= k < |contents[o].fixes|
      ensures NativeHolds(l, imageBegin, image, l.offsets[o], contents[o].fixes[k]) {
      NativeMade(h, begin, st, natives, l, contents, locks, imageBegin, image, o, k);
    }
    forall o, i: nat | 0 <= o < |contents| && PlainByte(contents[o], i)
      ensures l.offsets[o] + i < |image| && image[l.offsets[o] + i] == contents[o].bytes[i]
    {
      TheoremDataPreserved(h, natives, l, contents, locks, AddressOf(imageBegin, l), image, o, i);
    }
    forall a, b | 0 <= a < |h.objs| && 0 <= b < |h.objs|
      ensures l.offsets[a] == l.offsets[b] <==> Canonical(h, a) == Canonical(h, b) {
      Merged(h, begin, st, natives, l, contents, a, b);
    }
  }

  // ----- The passes together -----

  /** Natives that objects point to belong to a class of the heap or are methods of the runtime. */
  predicate Known(h: Heap, imageMethods: seq<Native>, natives: set<Native>)
  {
    forall n :: n in natives ==> n in imageMethods || exists o :: 0 <= o < |h.objs| && Owns(h, o, n)
  }

  lemma {:induction false} KnownPlaced(h: Heap, st: State, imageMethods: seq<Native>, natives: set<Native>)
    requires Known(h, imageMethods, natives) && InRow(h, st, imageMethods, ART_METHOD_DIRTY)
    requires forall o :: 0 <= o < |h.objs| ==> ClassDone(h, st, o)
    ensures natives <= st.relocs.Keys
  {
    forall n | n in natives ensures n in st.relocs {
      if n !in imageMethods {
        var o :| 0 <= o < |h.objs| && Owns(h, o, n);
        OwnedPlaced(h, st, o, n);
      }
    }
  }

  lemma {:induction false} OwnedPlaced(h: Heap, st: State, o: ObjId, n: Native)
    requires Owns(h, o, n) && ClassDone(h, st, o)
    ensures n in st.relocs
  {
    var info := h.objs[o].kind.info;
    assert n in info.sfields || n in info.ifields || n in Ids(info.directMethods) || n in Ids(info.virtualMethods);
  }

  /** What an image is made of: a heap, its dex caches, and the contents of its objects. */
  ghost predicate Writable(h: Heap, caches: seq<DexCache>, pointer: nat, natives: set<Native>, contents: seq<Content>)
  {
    && |h.depth| == |h.objs| && (forall o :: 0 <= o < |h.objs| ==> ObjOk(h, o)) && HasCaches(h.objs, caches, pointer)
    && NativesOk(WithPlaces(h, caches, pointer)) && ContentsOk(WithPlaces(h, caches, pointer), natives, contents)
  }

  /** Prepares places for the dex cache arrays, lays out the heap and copies it. */
  method WriteImage(heap: Heap, caches: seq<DexCache>, pointer: nat, begin: nat, imageMethods: seq<Native>,
                    contents: seq<Content>, locks: seq<nat>, imageBegin: nat, internTableBytes: nat, bitmapBytes: nat,
                    ghost natives: set<Native>)
    returns (l: Layout, image: array<byte>)
    requires Writable(heap, caches, pointer, natives, contents)
    requires begin % 8 == 0 && NoRepeats(imageMethods) && |locks| == |contents|
    requires var h := WithPlaces(heap, caches, pointer);
             Known(h, imageMethods, natives) && forall i, o :: 0 <= i < |imageMethods| ==> !Owns(h, o, imageMethods[i])
    ensures var h := WithPlaces(heap, caches, pointer);
            && fresh(image) && (forall o :: 0 <= o < |h.objs| ==> ClassInRow(h, l, o))
            && (imageBegin + image.Length <= WORD ==> IsImageOf(h, l, contents, imageBegin, image[..]))
            && LocksUpTo(h, l, locks, image[..], |h.objs|)
    ensures forall i, kind, index: nat :: 0 <= i < |caches| ==>
              ElementFound(l, begin, imageBegin, caches, pointer, i, kind, index)
  {
    var arrays, dexSize := PrepareDexCacheArraySlots(caches, pointer);
    var h := heap.(arrays := arrays, dexSize := dexSize);
    PlacesMakeHeap(heap, caches, pointer);
    TheoremSizesFit(heap, caches, pointer);
    ghost var st;
    l, st := CalculateNewObjectOffsets(h, begin, imageMethods);
    image := CopyImage(h, begin, st, l, contents, locks, imageBegin, internTableBytes, bitmapBytes, natives);
    KnownPlaced(h, st, imageMethods, natives);
    if imageBegin + image.Length <= WORD {
      TheoremImageIsHeap(h, begin, st, natives, l, contents, locks, imageBegin, image[..]);
    }
    forall i, kind, index: nat | 0 <= i < |caches|
      ensures ElementFound(l, begin, imageBegin, caches, pointer, i, kind, index)
    {
      TheoremElementAddress(h, begin, st, l, imageBegin, caches, pointer, i, kind, index);
    }
  }

  method CopyImage(ghost h: Heap, begin: nat, ghost st: State, l: Layout, contents: seq<Content>, locks: seq<nat>,
                   imageBegin: nat, internTableBytes: nat, bitmapBytes: nat, ghost natives: set<Native>)
    returns (image: array<byte>)
    requires LaidOut(h, begin, st, l) && AllContentOk(h, natives, contents) && |locks| == |contents|
    ensures fresh(image) && begin + MirrorSum(st.binSizes, BINS) <= image.Length
    ensures CopiedUpTo(l, contents, locks, AddressOf(imageBegin, l), image[..], |l.offsets|)
    ensures LocksUpTo(h, l, locks, image[..], |l.offsets|)
  {
    var objects, fields, methods, interned, bitmap := CreateSections(begin, l, internTableBytes, bitmapBytes, h, st);
    image := new byte[interned.End()];
    ImageEndInside(h, begin, st);
    CopyAndFixupObjects(h, begin, st, natives, l, contents, locks, AddressOf(imageBegin, l), image);
  }

  lemma {:induction false} ImageEndInside(h: Heap, begin: nat, st: State)
    requires Walked(h, begin, st)
    ensures st.imageEnd <= begin + MirrorSum(st.binSizes, BINS)
  {
    TheoremImageEnd(h, begin, st);
    SumMonotone(st.binSizes, MIRROR_BINS, BINS);
  }
}
