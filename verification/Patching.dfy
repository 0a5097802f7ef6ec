/** Rewriting the addresses in a section once the addresses of all sections are known. */
module Patching {
  import opened Bytes

  datatype PatchResult = AbsoluteAddress | PointerRelativeAddress | SectionRelativeAddress

  /** Addresses are 32 or 64 bits wide. */
  predicate IsWidth(w: nat)
  {
    w == 4 || w == 8
  }

  /** A value cut to 4 or 8 bytes. */
  function Wrap(w: nat, x: int): nat
  {
    if w == 4 then x % 0x1_0000_0000 else x % 0x1_0000_0000_0000_0000
  }

  lemma {:induction false} WrapFits(w: nat, x: int)
    requires IsWidth(w)
    ensures Wrap(w, x) < Pow256(w)
  {
    assert Pow256(4) == 0x1_0000_0000 && Pow256(8) == 0x1_0000_0000_0000_0000;
  }

  lemma {:induction false} Wrap32Adds(x: int, y: int)
    ensures (x % 0x1_0000_0000 + y) % 0x1_0000_0000 == (x + y) % 0x1_0000_0000
  {
    assert x == 0x1_0000_0000 * (x / 0x1_0000_0000) + x % 0x1_0000_0000;
  }

  lemma {:induction false} Wrap64Adds(x: int, y: int)
    ensures (x % 0x1_0000_0000_0000_0000 + y) % 0x1_0000_0000_0000_0000 == (x + y) % 0x1_0000_0000_0000_0000
  {
    assert x == 0x1_0000_0000_0000_0000 * (x / 0x1_0000_0000_0000_0000) + x % 0x1_0000_0000_0000_0000;
  }

  function ReadAt(b: seq<byte>, at: nat, w: nat): nat
    requires at + w <= |b|
  {
    Dec(b[at..at + w])
  }

  /** What the value at a location is relative to once it is patched. */
  function Origin(kind: PatchResult, bufferAddress: nat, at: nat): nat
  {
    match kind
    case AbsoluteAddress => 0
    case PointerRelativeAddress => bufferAddress + at
    case SectionRelativeAddress => bufferAddress
  }

  /** The new value at a location from the old one, an offset from `base`. */
  function NewWord(kind: PatchResult, w: nat, bufferAddress: nat, base: nat, at: nat, was: nat): nat
  {
    match kind
    case AbsoluteAddress => Wrap(w, base + was)
    case PointerRelativeAddress => Wrap(w, base + was - (bufferAddress + at))
    case SectionRelativeAddress => Wrap(w, base + was - bufferAddress)
  }

  function NewValue(kind: PatchResult, w: nat, bufferAddress: nat, base: nat): (nat, nat) -> nat
  {
    (at, was) => NewWord(kind, w, bufferAddress, base, at, was)
  }

  lemma {:induction false} NewWordIs(kind: PatchResult, w: nat, bufferAddress: nat, base: nat, at: nat, was: nat)
    requires IsWidth(w)
    ensures var v := NewWord(kind, w, bufferAddress, base, at, was);
            v < Pow256(w) && v == Wrap(w, base + was - Origin(kind, bufferAddress, at))
  {
    WrapFits(w, base + was - Origin(kind, bufferAddress, at));
  }

  /** A reader that adds the origin to a relative value finds the target. */
  lemma {:induction false} RelativeDecodes(w: nat, target: int, origin: int)
    ensures Wrap(w, Wrap(w, target - origin) + origin) == Wrap(w, target)
  {
    if w == 4 { Wrap32Adds(target - origin, origin); } else { Wrap64Adds(target - origin, origin); }
  }

  function Replaced(b: seq<byte>, at: nat, w: nat, v: nat): (r: seq<byte>)
    requires at + w <= |b|
    ensures |r| == |b|
  {
    b[..at] + Enc(v, w) + b[at + w..]
  }

  predicate Inside(locations: seq<nat>, w: nat, size: nat)
  {
    forall k :: 0 <= k < |locations| ==> locations[k] + w <= size
  }

  /** Every location in turn gets the new value for its old one. */
  function Patched(b: seq<byte>, locations: seq<nat>, w: nat, value: (nat, nat) -> nat): (r: seq<byte>)
    requires Inside(locations, w, |b|)
    ensures |r| == |b|
    decreases |locations|
  {
    if locations == [] then b
    else
      var n := |locations| - 1;
      var before := Patched(b, locations[..n], w, value);
      Replaced(before, locations[n], w, value(locations[n], ReadAt(before, locations[n], w)))
  }

  method PatchOne(buffer: array<byte>, at: nat, kind: PatchResult, w: nat, bufferAddress: nat, base: nat)
    requires IsWidth(w) && at + w <= buffer.Length
    modifies buffer
    ensures var was := old(buffer[..]);
            buffer[..] == Replaced(was, at, w, NewValue(kind, w, bufferAddress, base)(at, ReadAt(was, at, w)))
  {
    ghost var before := buffer[..];
    assert buffer[at..at + w] == before[at..at + w];
    var was := Dec(buffer[at..at + w]);
    var v := NewWord(kind, w, bufferAddress, base, at, was);
    var bytes := Enc(v, w);
    forall i | 0 <= i < w { buffer[at + i] := bytes[i]; }
    assert buffer[..] == Replaced(before, at, w, v);
  }

  /** Patches a buffer in place. */
  method Patch(buffer: array<byte>, locations: seq<nat>, kind: PatchResult, w: nat, bufferAddress: nat, base: nat)
    requires IsWidth(w) && Inside(locations, w, buffer.Length)
    modifies buffer
    ensures buffer[..] == Patched(old(buffer[..]), locations, w, NewValue(kind, w, bufferAddress, base))
  {
    ghost var was := buffer[..];
    for k := 0 to |locations|
      invariant buffer[..] == Patched(was, locations[..k], w, NewValue(kind, w, bufferAddress, base))
    {
      assert locations[..k + 1][..k] == locations[..k];
      PatchOne(buffer, locations[k], kind, w, bufferAddress, base);
    }
    assert locations[..|locations|] == locations;
  }

  // ----- Each address once -----

  predicate Spaced(locations: seq<nat>, w: nat)
  {
    forall i, j :: 0 <= i < j < |locations| ==> locations[i] + w <= locations[j]
  }

  /** The range does not meet any patched address. */
  predicate Clear(locations: seq<nat>, w: nat, lo: nat, hi: nat)
  {
    forall k :: 0 <= k < |locations| ==> hi <= locations[k] || locations[k] + w <= lo
  }

  lemma {:induction false} ReplacedElsewhere(b: seq<byte>, at: nat, w: nat, v: nat, lo: nat, hi: nat)
    requires at + w <= |b| && lo <= hi <= |b| && (hi <= at || at + w <= lo)
    ensures Replaced(b, at, w, v)[lo..hi] == b[lo..hi]
  {
    var r := Replaced(b, at, w, v);
    assert forall i :: lo <= i < hi ==> r[i] == b[i];
  }

  lemma {:induction false} ReplacedHere(b: seq<byte>, at: nat, w: nat, v: nat)
    requires at + w <= |b|
    ensures Replaced(b, at, w, v)[at..at + w] == Enc(v, w)
  {
  }

  /** Bytes outside the patched addresses stay. */
  lemma {:induction false} ClearKept(b: seq<byte>, locations: seq<nat>, w: nat, value: (nat, nat) -> nat, lo: nat,
                                     hi: nat)
    requires Inside(locations, w, |b|) && lo <= hi <= |b| && Clear(locations, w, lo, hi)
    ensures Patched(b, locations, w, value)[lo..hi] == b[lo..hi]
    decreases |locations|
  {
    if locations != [] {
      var n := |locations| - 1;
      ClearKept(b, locations[..n], w, value, lo, hi);
      var before := Patched(b, locations[..n], w, value);
      ReplacedElsewhere(before, locations[n], w, value(locations[n], ReadAt(before, locations[n], w)), lo, hi);
    }
  }

  /** The last location has the value for what stood there at first. */
  lemma {:induction false} LastWord(b: seq<byte>, locations: seq<nat>, w: nat, value: (nat, nat) -> nat)
    requires Inside(locations, w, |b|) && Spaced(locations, w) && locations != []
    ensures var at := locations[|locations| - 1];
            Patched(b, locations, w, value)[at..at + w] == Enc(value(at, ReadAt(b, at, w)), w)
  {
    var n := |locations| - 1;
    var at, before := locations[n], Patched(b, locations[..n], w, value);
    ClearKept(b, locations[..n], w, value, at, at + w);
    var v := value(at, ReadAt(before, at, w));
    assert v == value(at, ReadAt(b, at, w));
    ReplacedHere(before, at, w, v);
  }

  lemma {:induction false} PatchedWord(b: seq<byte>, locations: seq<nat>, w: nat, value: (nat, nat) -> nat, k: nat)
    requires Inside(locations, w, |b|) && Spaced(locations, w) && k < |locations|
    ensures var at := locations[k]; Patched(b, locations, w, value)[at..at + w] == Enc(value(at, ReadAt(b, at, w)), w)
    decreases |locations|
  {
    var n, at := |locations| - 1, locations[k];
    if k < n {
      var before := Patched(b, locations[..n], w, value);
      PatchedWord(b, locations[..n], w, value, k);
      assert locations[..n][k] == at;
      ReplacedElsewhere(before, locations[n], w, value(locations[n], ReadAt(before, locations[n], w)), at, at + w);
    } else {
      LastWord(b, locations, w, value);
    }
  }

  /** A patched field holds the base plus the old offset, relative to the origin of its kind. */
  lemma {:induction false} TheoremPatchedTarget(b: seq<byte>, locations: seq<nat>, kind: PatchResult, w: nat,
                                                bufferAddress: nat, base: nat, k: nat)
    requires IsWidth(w) && Inside(locations, w, |b|) && Spaced(locations, w) && k < |locations|
    ensures var at := locations[k];
            ReadAt(Patched(b, locations, w, NewValue(kind, w, bufferAddress, base)), at, w) ==
            match kind
              case AbsoluteAddress => Wrap(w, base + ReadAt(b, at, w))
              case PointerRelativeAddress => Wrap(w, base + ReadAt(b, at, w) - (bufferAddress + at))
              case SectionRelativeAddress => Wrap(w, base + ReadAt(b, at, w) - bufferAddress)
  {
    var at := locations[k];
    var was := ReadAt(b, at, w);
    PatchedWord(b, locations, w, NewValue(kind, w, bufferAddress, base), k);
    NewWordIs(kind, w, bufferAddress, base, at, was);
    DecEnc(NewWord(kind, w, bufferAddress, base, at, was), w);
  }

  /** A field outside the patched addresses keeps its value. */
  lemma {:induction false} FieldKept(b: seq<byte>, locations: seq<nat>, w: nat, value: (nat, nat) -> nat, at: nat,
                                     width: nat, v: nat)
    requires Inside(locations, w, |b|) && at + width <= |b| && Clear(locations, w, at, at + width)
    requires b[at..at + width] == Enc(v, width) && v < Pow256(width)
    ensures ReadAt(Patched(b, locations, w, value), at, width) == v
  {
    ClearKept(b, locations, w, value, at, at + width);
    DecEnc(v, width);
  }

  /** A patched field that held `v`. */
  lemma {:induction false} FieldPatched(b: seq<byte>, locations: seq<nat>, kind: PatchResult, w: nat,
                                        bufferAddress: nat, base: nat, k: nat, v: nat)
    requires IsWidth(w) && Inside(locations, w, |b|) && Spaced(locations, w) && k < |locations|
    requires b[locations[k]..locations[k] + w] == Enc(v, w) && v < Pow256(w)
    ensures ReadAt(Patched(b, locations, w, NewValue(kind, w, bufferAddress, base)), locations[k], w) ==
            Wrap(w, base + v - Origin(kind, bufferAddress, locations[k]))
  {
    TheoremPatchedTarget(b, locations, kind, w, bufferAddress, base, k);
    DecEnc(v, w);
  }
}
