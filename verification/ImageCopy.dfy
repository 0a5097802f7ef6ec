/** Copying the heap into the image: every reference becomes the image address of its target. */
module ImageCopy {
  import opened Align
  import opened Bytes
  import opened Options
  import opened ImageHeap
  import opened ImageLayout
  import opened Patching

  datatype Target = Null | ToObject(o: ObjId) | ToNative(n: Native)

  /** A reference or native pointer at a position of an object. */
  datatype Fix = Fix(at: nat, width: nat, target: Target)

  // ----- The references of an object -----

  /** Its class, a field declared by class `k`, a static field of a class, or an element of an array. */
  datatype Ref = ClassRef | FieldRef(k: ObjId, i: nat) | StaticRef(i: nat) | ElementRef(i: nat)

  predicate IsRef(h: Heap, o: ObjId, r: Ref)
    requires o < |h.objs|
  {
    var x := h.objs[o];
    match r
    case ClassRef => true
    case FieldRef(k, i) => k in x.fields && i < |x.fields[k]|
    case StaticRef(i) => i < |x.statics|
    case ElementRef(i) => x.kind.ObjectArray? && i < |x.kind.elements|
  }

  function Referent(h: Heap, o: ObjId, r: Ref): Option<ObjId>
    requires o < |h.objs| && IsRef(h, o, r)
  {
    var x := h.objs[o];
    match r
    case ClassRef => Some(x.klass)
    case FieldRef(k, i) => x.fields[k][i]
    case StaticRef(i) => x.statics[i]
    case ElementRef(i) => x.kind.elements[i]
  }

  function TargetOf(r: Option<ObjId>): Target
  {
    if r.None? then Null else ToObject(r.value)
  }

  /** The bytes of an object, where its references lie in them, and everything that has to be rewritten. */
  datatype Content = Content(bytes: seq<byte>, at: Ref -> nat, fixes: seq<Fix>)

  /** The monitor of an object follows its class reference. */
  const LOCK_WORD: nat := 4

  /** Elements of an object array follow its length. */
  const ARRAY_DATA: nat := 12

  predicate TargetOk(h: Heap, natives: set<Native>, t: Target)
  {
    match t
    case Null => true
    case ToObject(o) => o < |h.objs|
    case ToNative(n) => n in natives
  }

  /** Positions in order, inside the object and outside the lock word. */
  predicate FixesOk(h: Heap, natives: set<Native>, fixes: seq<Fix>, size: nat)
  {
    && (forall k :: 0 <= k < |fixes| ==>
          && fixes[k].at + fixes[k].width <= size && (fixes[k].width == 4 || fixes[k].width == 8)
          && (fixes[k].at + fixes[k].width <= LOCK_WORD || LOCK_WORD + 4 <= fixes[k].at)
          && TargetOk(h, natives, fixes[k].target))
    && (forall j, k :: 0 <= j < k < |fixes| ==> fixes[j].at + fixes[j].width <= fixes[k].at)
  }

  predicate FixOfRef(h: Heap, o: ObjId, c: Content, r: Ref, f: Fix)
    requires o < |h.objs|
  {
    IsRef(h, o, r) && f == Fix(c.at(r), 4, TargetOf(Referent(h, o, r)))
  }

  /** What is rewritten as a reference is exactly the references that the heap has. */
  ghost predicate FixesAreRefs(h: Heap, o: ObjId, c: Content)
    requires o < |h.objs|
  {
    && (forall r :: IsRef(h, o, r) ==> exists k :: 0 <= k < |c.fixes| && FixOfRef(h, o, c, r, c.fixes[k]))
    && (forall k :: 0 <= k < |c.fixes| && !c.fixes[k].target.ToNative? ==> exists r :: FixOfRef(h, o, c, r, c.fixes[k]))
  }

  /** The class comes first in every object; elements stand in a row. */
  predicate PositionsOk(h: Heap, o: ObjId, c: Content)
    requires o < |h.objs|
  {
    && c.at(ClassRef) == 0
    && (h.objs[o].kind.ObjectArray? ==>
          forall i {:trigger h.objs[o].kind.elements[i]} :: 0 <= i < |h.objs[o].kind.elements| ==>
              c.at(ElementRef(i)) == ARRAY_DATA + 4 * i)
  }

  /** The same bytes except for the lock word. */
  predicate SameButLock(a: seq<byte>, b: seq<byte>)
  {
    |a| == |b| && forall i :: 0 <= i < |a| && (i < LOCK_WORD || LOCK_WORD + 4 <= i) ==> a[i] == b[i]
  }

  /** A string and its interned twin have the same content. */
  ghost predicate ContentOk(h: Heap, natives: set<Native>, contents: seq<Content>, o: ObjId)
    requires o < |h.objs| == |contents|
  {
    && |contents[o].bytes| == h.objs[o].size >= LOCK_WORD + 4 && FixesOk(h, natives, contents[o].fixes, h.objs[o].size)
    && FixesAreRefs(h, o, contents[o]) && PositionsOk(h, o, contents[o])
    && Canonical(h, o) < |h.objs|
    && SameButLock(contents[o].bytes, contents[Canonical(h, o)].bytes)
    && contents[o].fixes == contents[Canonical(h, o)].fixes
  }

  // ----- Rewriting one object -----

  /** Each fix in turn. */
  function Fixup(b: seq<byte>, fixes: seq<Fix>, address: Target -> nat): (r: seq<byte>)
    requires forall k :: 0 <= k < |fixes| ==> fixes[k].at + fixes[k].width <= |b|
    ensures |r| == |b|
  {
    if fixes == [] then b
    else
      var n := |fixes| - 1;
      Replaced(Fixup(b, fixes[..n], address), fixes[n].at, fixes[n].width, address(fixes[n].target))
  }

  predicate Spread(fixes: seq<Fix>, size: nat)
  {
    && (forall k :: 0 <= k < |fixes| ==> fixes[k].at + fixes[k].width <= size)
    && (forall j, k :: 0 <= j < k < |fixes| ==> fixes[j].at + fixes[j].width <= fixes[k].at)
  }

  /** Bytes that no fix covers stay. */
  lemma {:induction false} FixupKeeps(b: seq<byte>, fixes: seq<Fix>, address: Target -> nat, i: nat)
    requires Spread(fixes, |b|) && i < |b| && forall k :: 0 <= k < |fixes| ==>
               i < fixes[k].at || fixes[k].at + fixes[k].width <= i
    ensures Fixup(b, fixes, address)[i] == b[i]
  {
    if fixes != [] {
      var n := |fixes| - 1;
      FixupKeeps(b, fixes[..n], address, i);
    }
  }

  /** Every fix leaves the address of its target. */
  lemma {:induction false} FixupSets(b: seq<byte>, fixes: seq<Fix>, address: Target -> nat, k: nat)
    requires Spread(fixes, |b|) && k < |fixes|
    ensures Fixup(b, fixes, address)[fixes[k].at..fixes[k].at + fixes[k].width] ==
            Enc(address(fixes[k].target), fixes[k].width)
  {
    var n := |fixes| - 1;
    var before, f := Fixup(b, fixes[..n], address), fixes[n];
    if k < n {
      FixupSets(b, fixes[..n], address, k);
      ReplacedElsewhere(before, f.at, f.width, address(f.target), fixes[k].at, fixes[k].at + fixes[k].width);
    } else {
      ReplacedHere(before, f.at, f.width, address(f.target));
    }
  }

  /** What the same fixes do to bytes that agree outside the lock word. */
  lemma {:induction false} FixupSame(a: seq<byte>, b: seq<byte>, fixes: seq<Fix>, address: Target -> nat)
    requires SameButLock(a, b) && forall k :: 0 <= k < |fixes| ==> fixes[k].at + fixes[k].width <= |a|
    ensures SameButLock(Fixup(a, fixes, address), Fixup(b, fixes, address))
  {
    if fixes != [] {
      var n := |fixes| - 1;
      FixupSame(a, b, fixes[..n], address);
    }
  }

  function WithLock(b: seq<byte>, lock: nat): (r: seq<byte>)
    requires |b| >= LOCK_WORD + 4
    ensures |r| == |b| && SameButLock(b, r)
  {
    Replaced(b, LOCK_WORD, 4, lock)
  }

  /** Large enough for a lock word and all fixes. */
  predicate Fixable(c: Content)
  {
    |c.bytes| >= LOCK_WORD + 4 && forall k :: 0 <= k < |c.fixes| ==> c.fixes[k].at + c.fixes[k].width <= |c.bytes|
  }

  function FixedBytes(c: Content, lock: nat, address: Target -> nat): (r: seq<byte>)
    requires Fixable(c)
    ensures |r| == |c.bytes|
  {
    Fixup(WithLock(c.bytes, lock), c.fixes, address)
  }

  // ----- The image -----

  /** Image addresses: null stays null. */
  function ImageAddress(imageBegin: nat, l: Layout, t: Target): nat
  {
    match t
    case Null => 0
    case ToObject(o) => if o < |l.offsets| then imageBegin + l.offsets[o] else 0
    case ToNative(n) => if n in l.natives then imageBegin + l.natives[n] else 0
  }

  function AddressOf(imageBegin: nat, l: Layout): Target -> nat
  {
    (t: Target) => ImageAddress(imageBegin, l, t)
  }

  /** The image with some bytes put in. */
  function PutAt(image: seq<byte>, at: nat, b: seq<byte>): (r: seq<byte>)
    requires at + |b| <= |image|
    ensures |r| == |image|
  {
    image[..at] + b + image[at + |b|..]
  }

  method CopyObject(image: array<byte>, offset: nat, bytes: seq<byte>, lock: nat)
    requires offset + |bytes| <= image.Length && |bytes| >= LOCK_WORD + 4
    modifies image
    ensures image[..] == PutAt(old(image[..]), offset, WithLock(bytes, lock))
  {
    PutInside(image[..], offset, bytes, LOCK_WORD, Enc(lock, 4));
    PutBytes(image, offset, bytes);
    PutBytes(image, offset + LOCK_WORD, Enc(lock, 4));
  }

  method ApplyFix(image: array<byte>, offset: nat, f: Fix, v: nat, ghost was: seq<byte>, ghost before: seq<byte>)
    requires |was| == image.Length && offset + |before| <= image.Length && f.at + f.width <= |before|
    requires image[..] == PutAt(was, offset, before)
    modifies image
    ensures image[..] == PutAt(was, offset, Replaced(before, f.at, f.width, v))
  {
    PutInside(was, offset, before, f.at, Enc(v, f.width));
    PutBytes(image, offset + f.at, Enc(v, f.width));
  }

  /** Copies the bytes, sets the lock word, and rewrites the references one after the other. */
  method CopyAndFixupObject(image: array<byte>, offset: nat, c: Content, lock: nat, address: Target -> nat)
    requires offset + |c.bytes| <= image.Length && Fixable(c)
    modifies image
    ensures image[..] == PutAt(old(image[..]), offset, FixedBytes(c, lock, address))
  {
    ghost var was, start := image[..], WithLock(c.bytes, lock);
    CopyObject(image, offset, c.bytes, lock);
    assert c.fixes[..0] == [];
    for k := 0 to |c.fixes|
      invariant image[..] == PutAt(was, offset, Fixup(start, c.fixes[..k], address))
    {
      assert c.fixes[..k + 1][..k] == c.fixes[..k];
      ApplyFix(image, offset, c.fixes[k], address(c.fixes[k].target), was, Fixup(start, c.fixes[..k], address));
    }
    assert c.fixes[..|c.fixes|] == c.fixes;
  }

  method PutBytes(image: array<byte>, at: nat, b: seq<byte>)
    requires at + |b| <= image.Length
    modifies image
    ensures image[..] == PutAt(old(image[..]), at, b)
  {
    forall i | 0 <= i < |b| { image[at + i] := b[i]; }
  }

  lemma {:induction false} PutInside(image: seq<byte>, offset: nat, b: seq<byte>, at: nat, p: seq<byte>)
    requires offset + |b| <= |image| && at + |p| <= |b|
    ensures PutAt(PutAt(image, offset, b), offset + at, p) == PutAt(image, offset, b[..at] + p + b[at + |p|..])
  {
  }

  // ----- The whole heap -----

  /** The copy of an object stands in the image, whatever its lock word. */
  predicate Copied(image: seq<byte>, offset: nat, fixed: seq<byte>)
  {
    offset + |fixed| <= |image| && SameButLock(image[offset..offset + |fixed|], fixed)
  }

  lemma {:induction false} PutIsCopied(image: seq<byte>, offset: nat, b: seq<byte>)
    requires offset + |b| <= |image|
    ensures Copied(PutAt(image, offset, b), offset, b)
  {
    assert PutAt(image, offset, b)[offset..offset + |b|] == b;
  }

  lemma {:induction false} PutElsewhere(image: seq<byte>, at: nat, b: seq<byte>, offset: nat, fixed: seq<byte>)
    requires at + |b| <= |image| && Copied(image, offset, fixed) && (offset + |fixed| <= at || at + |b| <= offset)
    ensures Copied(PutAt(image, at, b), offset, fixed)
  {
    var r := PutAt(image, at, b);
    forall i | offset <= i < offset + |fixed| ensures r[i] == image[i] {
    }
    assert r[offset..offset + |fixed|] == image[offset..offset + |fixed|];
  }

  ghost predicate ContentsOk(h: Heap, natives: set<Native>, contents: seq<Content>)
  {
    |contents| == |h.objs| && forall o :: 0 <= o < |h.objs| ==> ContentOk(h, natives, contents, o)
  }

  ghost predicate AllContentOk(h: Heap, natives: set<Native>, contents: seq<Content>)
  {
    SizesFit(h) && ContentsOk(h, natives, contents)
  }

  lemma {:induction false} ContentFits(h: Heap, natives: set<Native>, contents: seq<Content>, o: ObjId)
    requires AllContentOk(h, natives, contents) && o < |h.objs|
    ensures ContentOk(h, natives, contents, o) && 0 < h.objs[o].size <= Length(h, Canonical(h, o))
  {
    assert ContentOk(h, natives, contents, o);
    assert ContentOk(h, natives, contents, Canonical(h, o)) && Fits(h, Canonical(h, o));
  }

  /** The final bytes of an object, with its own lock word. */
  function Final(contents: seq<Content>, locks: seq<nat>, address: Target -> nat, o: ObjId): seq<byte>
  {
    if o < |contents| && o < |locks| && Fixable(contents[o]) then FixedBytes(contents[o], locks[o], address) else []
  }

  lemma {:induction false} FinalLength(h: Heap, natives: set<Native>, contents: seq<Content>, locks: seq<nat>,
                                       address: Target -> nat, o: ObjId)
    requires AllContentOk(h, natives, contents) && |locks| == |contents| && o < |h.objs|
    ensures ContentOk(h, natives, contents, o) && Fixable(contents[o]) &&
            Final(contents, locks, address, o) == FixedBytes(contents[o], locks[o], address)
    ensures |Final(contents, locks, address, o)| == h.objs[o].size <= Length(h, Canonical(h, o))
  {
    ContentFits(h, natives, contents, o);
  }

  /** Twins come out the same. */
  lemma {:induction false} TwinsSame(h: Heap, natives: set<Native>, contents: seq<Content>, locks: seq<nat>,
                                     address: Target -> nat, o: ObjId, p: ObjId)
    requires AllContentOk(h, natives, contents) && |locks| == |contents| && o < |h.objs| && p < |h.objs| &&
             Canonical(h, o) == Canonical(h, p)
    ensures SameButLock(Final(contents, locks, address, o), Final(contents, locks, address, p))
  {
    assert ContentOk(h, natives, contents, o) && ContentOk(h, natives, contents, p);
    var a, b := WithLock(contents[o].bytes, locks[o]), WithLock(contents[p].bytes, locks[p]);
    assert SameButLock(a, b);
    FixupSame(a, b, contents[o].fixes, address);
  }

  /** Copying one object keeps the copies already made. */
  lemma {:induction false} CopyKeeps(h: Heap, begin: nat, st: State, natives: set<Native>, l: Layout,
                                     contents: seq<Content>, locks: seq<nat>, address: Target -> nat,
                                     image: seq<byte>, o: ObjId, p: ObjId)
    requires LaidOut(h, begin, st, l) && AllContentOk(h, natives, contents) && |locks| == |contents| && o < |h.objs| &&
             p < |h.objs|
    requires st.imageEnd <= |image| && Copied(image, l.offsets[o], Final(contents, locks, address, o))
    ensures l.offsets[p] + |Final(contents, locks, address, p)| <= |image|
    ensures Copied(PutAt(image, l.offsets[p], Final(contents, locks, address, p)), l.offsets[o],
                   Final(contents, locks, address, o))
  {
    FinalLength(h, natives, contents, locks, address, o);
    FinalLength(h, natives, contents, locks, address, p);
    TheoremObjectInside(h, begin, st, o);
    TheoremObjectInside(h, begin, st, p);
    var co, cp := Canonical(h, o), Canonical(h, p);
    if co == cp {
      TwinsSame(h, natives, contents, locks, address, o, p);
      PutIsCopied(image, l.offsets[p], Final(contents, locks, address, p));
    } else {
      CanonicalTwice(h, o);
      CanonicalTwice(h, p);
      TheoremObjectsApart(h, begin, st, co, cp);
      PutElsewhere(image, l.offsets[p], Final(contents, locks, address, p), l.offsets[o],
                   Final(contents, locks, address, o));
    }
  }

  lemma {:induction false} CanonicalTwice(h: Heap, o: ObjId)
    requires HeapOk(h) && o < |h.objs|
    ensures Canonical(h, o) < |h.objs| && Canonical(h, Canonical(h, o)) == Canonical(h, o)
  {
    assert ObjOk(h, o);
  }

  ghost predicate CopiedUpTo(l: Layout, contents: seq<Content>, locks: seq<nat>, address: Target -> nat,
                             image: seq<byte>, n: nat)
  {
    n <= |l.offsets| && forall o :: 0 <= o < n ==> Copied(image, l.offsets[o], Final(contents, locks, address, o))
  }

  lemma {:induction false} CopyStep(h: Heap, begin: nat, st: State, natives: set<Native>, l: Layout,
                                    contents: seq<Content>, locks: seq<nat>, address: Target -> nat,
                                    image: seq<byte>, p: ObjId)
    requires LaidOut(h, begin, st, l) && AllContentOk(h, natives, contents) && |locks| == |contents| && p < |h.objs| &&
             st.imageEnd <= |image|
    requires CopiedUpTo(l, contents, locks, address, image, p)
    ensures l.offsets[p] + |Final(contents, locks, address, p)| <= |image|
    ensures CopiedUpTo(l, contents, locks, address, PutAt(image, l.offsets[p], Final(contents, locks, address, p)),
                       p + 1)
  {
    FinalLength(h, natives, contents, locks, address, p);
    TheoremObjectInside(h, begin, st, p);
    var image' := PutAt(image, l.offsets[p], Final(contents, locks, address, p));
    forall o | 0 <= o < p + 1 ensures Copied(image', l.offsets[o], Final(contents, locks, address, o)) {
      if o < p {
        CopyKeeps(h, begin, st, natives, l, contents, locks, address, image, o, p);
      } else {
        PutIsCopied(image, l.offsets[p], Final(contents, locks, address, p));
      }
    }
  }

  // ----- Lock words -----

  predicate LockAt(image: seq<byte>, offset: nat, lock: nat)
  {
    offset + LOCK_WORD + 4 <= |image| && image[offset + LOCK_WORD..offset + LOCK_WORD + 4] == Enc(lock, 4)
  }

  /** None of the objects from `o` up to `n` is a twin of `o`. */
  predicate LastTwin(h: Heap, o: ObjId, n: nat)
    requires o < n <= |h.objs|
  {
    forall p :: o < p < n ==> Canonical(h, p) != Canonical(h, o)
  }

  /** The last one copied of some twins has left its lock word. */
  predicate LocksUpTo(h: Heap, l: Layout, locks: seq<nat>, image: seq<byte>, n: nat)
  {
    && n <= |l.offsets| == |h.objs| == |locks|
    && forall o :: 0 <= o < n && LastTwin(h, o, n) ==> LockAt(image, l.offsets[o], locks[o])
  }

  lemma {:induction false} FinalLock(h: Heap, natives: set<Native>, contents: seq<Content>, locks: seq<nat>,
                                     address: Target -> nat, o: ObjId)
    requires AllContentOk(h, natives, contents) && |locks| == |contents| && o < |h.objs|
    ensures var b := Final(contents, locks, address, o);
            |b| >= LOCK_WORD + 4 && b[LOCK_WORD..LOCK_WORD + 4] == Enc(locks[o], 4)
  {
    FinalLength(h, natives, contents, locks, address, o);
    var c := contents[o];
    var start := WithLock(c.bytes, locks[o]);
    ReplacedHere(c.bytes, LOCK_WORD, 4, locks[o]);
    forall i | LOCK_WORD <= i < LOCK_WORD + 4 ensures Fixup(start, c.fixes, address)[i] == start[i] {
      FixupKeeps(start, c.fixes, address, i);
    }
    assert Final(contents, locks, address, o)[LOCK_WORD..LOCK_WORD + 4] == start[LOCK_WORD..LOCK_WORD + 4];
  }

  lemma {:induction false} PutLock(image: seq<byte>, offset: nat, b: seq<byte>, lock: nat)
    requires offset + |b| <= |image| && |b| >= LOCK_WORD + 4 && b[LOCK_WORD..LOCK_WORD + 4] == Enc(lock, 4)
    ensures LockAt(PutAt(image, offset, b), offset, lock)
  {
    assert PutAt(image, offset, b)[offset + LOCK_WORD..offset + LOCK_WORD + 4] == b[LOCK_WORD..LOCK_WORD + 4];
  }

  lemma {:induction false} LockStays(image: seq<byte>, at: nat, b: seq<byte>, offset: nat, size: nat, lock: nat)
    requires at + |b| <= |image| && LockAt(image, offset, lock) && size >= LOCK_WORD + 4
    requires offset + size <= at || at + |b| <= offset
    ensures LockAt(PutAt(image, at, b), offset, lock)
  {
    var r := PutAt(image, at, b);
    assert r[offset + LOCK_WORD..offset + LOCK_WORD + 4] == image[offset + LOCK_WORD..offset + LOCK_WORD + 4];
  }

  lemma {:induction false} OthersApart(h: Heap, begin: nat, st: State, natives: set<Native>, l: Layout,
                                       contents: seq<Content>, o: ObjId, p: ObjId)
    requires LaidOut(h, begin, st, l) && AllContentOk(h, natives, contents) && o < |h.objs| && p < |h.objs|
    requires Canonical(h, o) != Canonical(h, p)
    ensures h.objs[o].size >= LOCK_WORD + 4
    ensures l.offsets[o] + h.objs[o].size <= l.offsets[p] || l.offsets[p] + h.objs[p].size <= l.offsets[o]
  {
    ContentFits(h, natives, contents, o);
    ContentFits(h, natives, contents, p);
    TheoremObjectInside(h, begin, st, o);
    TheoremObjectInside(h, begin, st, p);
    CanonicalTwice(h, o);
    CanonicalTwice(h, p);
    TheoremObjectsApart(h, begin, st, Canonical(h, o), Canonical(h, p));
  }

  lemma {:induction false} LockStep(h: Heap, begin: nat, st: State, natives: set<Native>, l: Layout,
                                    contents: seq<Content>, locks: seq<nat>, address: Target -> nat,
                                    image: seq<byte>, p: ObjId)
    requires LaidOut(h, begin, st, l) && AllContentOk(h, natives, contents) && |locks| == |contents| && p < |h.objs|
    requires LocksUpTo(h, l, locks, image, p) && l.offsets[p] + |Final(contents, locks, address, p)| <= |image|
    ensures LocksUpTo(h, l, locks, PutAt(image, l.offsets[p], Final(contents, locks, address, p)), p + 1)
  {
    var b := Final(contents, locks, address, p);
    var image' := PutAt(image, l.offsets[p], b);
    FinalLock(h, natives, contents, locks, address, p);
    FinalLength(h, natives, contents, locks, address, p);
    forall o | 0 <= o < p + 1 && LastTwin(h, o, p + 1) ensures LockAt(image', l.offsets[o], locks[o]) {
      if o == p {
        PutLock(image, l.offsets[p], b, locks[p]);
      } else {
        assert LastTwin(h, o, p) && Canonical(h, p) != Canonical(h, o);
        OthersApart(h, begin, st, natives, l, contents, o, p);
        LockStays(image, l.offsets[p], b, l.offsets[o], h.objs[o].size, locks[o]);
      }
    }
  }

  /** Copies every object of the heap. */
  method CopyAndFixupObjects(ghost h: Heap, ghost begin: nat, ghost st: State, ghost natives: set<Native>, l: Layout,
                             contents: seq<Content>, locks: seq<nat>,
                             address: Target -> nat, image: array<byte>)
    requires LaidOut(h, begin, st, l) && AllContentOk(h, natives, contents) && |locks| == |contents| &&
             st.imageEnd <= image.Length
    modifies image
    ensures CopiedUpTo(l, contents, locks, address, image[..], |l.offsets|)
    ensures LocksUpTo(h, l, locks, image[..], |l.offsets|)
  {
    for o := 0 to |l.offsets|
      invariant CopiedUpTo(l, contents, locks, address, image[..], o) && LocksUpTo(h, l, locks, image[..], o)
    {
      CopyStep(h, begin, st, natives, l, contents, locks, address, image[..], o);
      LockStep(h, begin, st, natives, l, contents, locks, address, image[..], o);
      FinalLength(h, natives, contents, locks, address, o);
      assert ContentOk(h, natives, contents, o);
      CopyAndFixupObject(image, l.offsets[o], contents[o], locks[o], address);
    }
  }

  lemma {:induction false} CopiedOne(l: Layout, contents: seq<Content>, locks: seq<nat>, address: Target -> nat,
                                     image: seq<byte>, o: ObjId)
    requires CopiedUpTo(l, contents, locks, address, image, |l.offsets|) && o < |l.offsets|
    ensures Copied(image, l.offsets[o], Final(contents, locks, address, o))
  {
  }

  /** Every fix of every object, read in the image, is the image address of its target. */
  lemma {:induction false} FixPreserved(h: Heap, natives: set<Native>, l: Layout, contents: seq<Content>,
                                        locks: seq<nat>, imageBegin: nat,
                                        image: seq<byte>, o: ObjId, k: nat)
    requires AllContentOk(h, natives, contents) && |locks| == |contents| && o < |h.objs| == |l.offsets| &&
             k < |contents[o].fixes|
    requires CopiedUpTo(l, contents, locks, AddressOf(imageBegin, l), image, |l.offsets|)
    requires ImageAddress(imageBegin, l, contents[o].fixes[k].target) < Pow256(contents[o].fixes[k].width)
    ensures var f := contents[o].fixes[k];
            l.offsets[o] + f.at + f.width <= |image| &&
              ReadAt(image, l.offsets[o] + f.at, f.width) == ImageAddress(imageBegin, l, f.target)
  {
    var f, address := contents[o].fixes[k], AddressOf(imageBegin, l);
    FinalField(h, natives, contents, locks, address, o, k);
    CopiedOne(l, contents, locks, address, image, o);
    CopiedField(image, l.offsets[o], Final(contents, locks, address, o), f.at, f.width, address(f.target));
  }

  lemma {:induction false} FixFor(h: Heap, natives: set<Native>, contents: seq<Content>, o: ObjId, r: Ref)
    returns (k: nat)
    requires AllContentOk(h, natives, contents) && o < |h.objs| && IsRef(h, o, r)
    ensures k < |contents[o].fixes| && contents[o].fixes[k] == Fix(contents[o].at(r), 4, TargetOf(Referent(h, o, r)))
  {
    assert ContentOk(h, natives, contents, o);
    k :| 0 <= k < |contents[o].fixes| && FixOfRef(h, o, contents[o], r, contents[o].fixes[k]);
  }

  lemma {:induction false} FourBytes()
    ensures Pow256(4) == WORD
  {
  }

  /** Every reference that an object of the heap has, read in the image, is the image address of the object it led to,
      null staying null. */
  lemma {:induction false} TheoremGraphPreserved(h: Heap, natives: set<Native>, l: Layout, contents: seq<Content>,
                                                 locks: seq<nat>, imageBegin: nat,
                                                 image: seq<byte>, o: ObjId, r: Ref)
    requires AllContentOk(h, natives, contents) && |locks| == |contents| && o < |h.objs| == |l.offsets| &&
             IsRef(h, o, r)
    requires CopiedUpTo(l, contents, locks, AddressOf(imageBegin, l), image, |l.offsets|)
    requires ImageAddress(imageBegin, l, TargetOf(Referent(h, o, r))) < WORD
    ensures var at := l.offsets[o] + contents[o].at(r);
            at + 4 <= |image| && ReadAt(image, at, 4) == ImageAddress(imageBegin, l, TargetOf(Referent(h, o, r)))
  {
    var k := FixFor(h, natives, contents, o, r);
    FourBytes();
    FixPreserved(h, natives, l, contents, locks, imageBegin, image, o, k);
  }

  lemma {:induction false} FinalField(h: Heap, natives: set<Native>, contents: seq<Content>, locks: seq<nat>,
                                      address: Target -> nat, o: ObjId, k: nat)
    requires AllContentOk(h, natives, contents) && |locks| == |contents| && o < |h.objs| && k < |contents[o].fixes|
    ensures var f, fixed := contents[o].fixes[k], Final(contents, locks, address, o);
            && f.at + f.width <= |fixed| && (f.at + f.width <= LOCK_WORD || LOCK_WORD + 4 <= f.at)
            && fixed[f.at..f.at + f.width] == Enc(address(f.target), f.width)
  {
    FinalLength(h, natives, contents, locks, address, o);
    FieldIs(h, natives, contents[o], locks[o], address, k);
  }

  lemma {:induction false} CopiedField(image: seq<byte>, at: nat, fixed: seq<byte>, p: nat, w: nat, v: nat)
    requires Copied(image, at, fixed) && p + w <= |fixed| && (p + w <= LOCK_WORD || LOCK_WORD + 4 <= p)
    requires fixed[p..p + w] == Enc(v, w) && v < Pow256(w)
    ensures at + p + w <= |image| && ReadAt(image, at + p, w) == v
  {
    SliceCopied(image, at, fixed, p, p + w);
    DecEnc(v, w);
  }

  lemma {:induction false} FieldIs(h: Heap, natives: set<Native>, c: Content, lock: nat, address: Target -> nat, k: nat)
    requires Fixable(c) && FixesOk(h, natives, c.fixes, |c.bytes|) && k < |c.fixes|
    ensures var f := c.fixes[k]; FixedBytes(c, lock, address)[f.at..f.at + f.width] == Enc(address(f.target), f.width)
  {
    FixupSets(WithLock(c.bytes, lock), c.fixes, address, k);
  }

  lemma {:induction false} SliceCopied(image: seq<byte>, at: nat, fixed: seq<byte>, lo: nat, hi: nat)
    requires Copied(image, at, fixed) && lo <= hi <= |fixed| && (hi <= LOCK_WORD || LOCK_WORD + 4 <= lo)
    ensures image[at + lo..at + hi] == fixed[lo..hi]
  {
    var copy := image[at..at + |fixed|];
    forall i | lo <= i < hi ensures image[at + i] == fixed[i] {
      assert copy[i] == image[at + i];
    }
  }

  /** Bytes that are neither references nor lock word. */
  lemma {:induction false} TheoremDataPreserved(h: Heap, natives: set<Native>, l: Layout, contents: seq<Content>,
                                                locks: seq<nat>, address: Target -> nat,
                                                image: seq<byte>, o: ObjId, i: nat)
    requires AllContentOk(h, natives, contents) && |locks| == |contents| && o < |h.objs| == |l.offsets| &&
             i < |contents[o].bytes|
    requires CopiedUpTo(l, contents, locks, address, image, |l.offsets|)
    requires i < LOCK_WORD || LOCK_WORD + 4 <= i
    requires forall k :: 0 <= k < |contents[o].fixes| ==>
               i < contents[o].fixes[k].at || contents[o].fixes[k].at + contents[o].fixes[k].width <= i
    ensures l.offsets[o] + i < |image| && image[l.offsets[o] + i] == contents[o].bytes[i]
  {
    var at, fixed := l.offsets[o], Final(contents, locks, address, o);
    assert ContentOk(h, natives, contents, o);
    assert Copied(image, at, fixed);
    FinalLength(h, natives, contents, locks, address, o);
    FixupKeeps(WithLock(contents[o].bytes, locks[o]), contents[o].fixes, address, i);
    assert image[at..at + |fixed|][i] == image[at + i];
  }

  /** References to a string and to its twin become the same address; different objects keep different addresses. */
  lemma {:induction false} TheoremAddressesDiffer(h: Heap, begin: nat, st: State, l: Layout, imageBegin: nat, a: ObjId,
                                                  b: ObjId)
    requires LaidOut(h, begin, st, l) && a < |h.objs| && b < |h.objs| && Canonical(h, a) < |h.objs| &&
             Canonical(h, b) < |h.objs|
    requires Length(h, Canonical(h, a)) > 0 && Length(h, Canonical(h, b)) > 0
    ensures ImageAddress(imageBegin, l, ToObject(a)) == ImageAddress(imageBegin, l, ToObject(b)) <==>
              Canonical(h, a) == Canonical(h, b)
  {
    TheoremObjectInside(h, begin, st, a);
    TheoremObjectInside(h, begin, st, b);
    CanonicalTwice(h, a);
    CanonicalTwice(h, b);
    if Canonical(h, a) != Canonical(h, b) { TheoremObjectsApart(h, begin, st, Canonical(h, a), Canonical(h, b)); }
  }
}
