/** The common entry in front of the unwind entries: what it holds, and what an unwinder reads of it. */
module UnwindCie {
  import opened Bytes
  import opened Options
  import opened Patching
  import opened Unwind
  import PatchList

  /** How the entries give code addresses: relative to the pointer itself, as wide as addresses are. */
  function AddressEncoding(is64: bool): byte
  {
    16 * PCREL + (if is64 then SDATA8 else SDATA4)
  }

  /** Version, augmentation "zR", code alignment 1, data alignment -4, the register of the return address, the
      augmentation data, and the initial instructions. */
  function CieContent(is64: bool, returnRegister: nat, opcodes: seq<byte>): seq<byte>
  {
    [1] + [0x7a, 0x52, 0] + [1] + [0x7c] + PatchList.Uleb(returnRegister) + [1] + [AddressEncoding(is64)] + opcodes
  }

  method WriteCieContent(is64: bool, returnRegister: nat, opcodes: seq<byte>) returns (data: seq<byte>)
    ensures data == CieContent(is64, returnRegister, opcodes)
  {
    data := [1];
    data := data + [0x7a, 0x52, 0];
    data := PatchList.EncodeUleb(data, 1);
    data := data + [0x7c];
    data := PatchList.EncodeUleb(data, returnRegister);
    data := PatchList.EncodeUleb(data, 1);
    data := data + [if is64 then 0x1c else 0x1b];
    data := data + opcodes;
  }

  /** A signed number of one byte. */
  function Sleb7(b: byte): int
    requires b < 128
  {
    if b < 64 then b else b - 128
  }

  /** The common entry at the start of a frame section, as an unwinder reads it. */
  predicate CieReads(is64: bool, eh: seq<byte>, returnRegister: nat, opcodes: seq<byte>)
  {
    && 14 <= |eh| && ReadAt(eh, 4, 4) == 0 && eh[8] == 1
    && eh[9..12] == [0x7a, 0x52, 0]
    && PatchList.DecodeUleb(eh, 12) == PatchList.Decoded(1, 13)
    && eh[13] < 128 && Sleb7(eh[13]) == -4
    && var r := PatchList.DecodeUleb(eh, 14);
       && r.Decoded? && r.value == returnRegister
       && PatchList.DecodeUleb(eh, r.next) == PatchList.Decoded(1, r.next + 1)
       && r.next + 2 <= |eh| && eh[r.next + 1] / 16 == PCREL && eh[r.next + 1] % 16 == (if is64 then SDATA8 else SDATA4)
       && var end := 4 + ReadAt(eh, 0, 4);
          && end % 4 == 0 && r.next + 2 + |opcodes| <= end
          && PieceAt(eh, r.next + 2, opcodes + Zeros(end - (r.next + 2 + |opcodes|)))
  }

  // ----- The common entry stays -----

  predicate Untouched(f: Frame, head: seq<byte>)
  {
    head <= f.data && forall k :: 0 <= k < |f.patches| ==> |head| <= f.patches[k]
  }

  lemma {:induction false} CieStays(is64: bool, cie: seq<byte>, infos: seq<MethodInfo>)
    ensures Untouched(FrameOf(is64, cie, infos), Entry(is64, 0, CieBody(cie)))
  {
    if infos != [] {
      CieStays(is64, cie, infos[..|infos| - 1]);
    }
  }

  /** The whole entry of some content, in front of anything. */
  lemma {:induction false} PatchedCie(is64: bool, cie: seq<byte>, infos: seq<MethodInfo>, frame: nat, text: nat)
    ensures var f := FrameOf(is64, cie, infos);
            && Inside(f.patches, PointerSize(is64), |f.data|)
            && Entry(is64, 0, CieBody(cie)) <= PatchedFrame(is64, f, frame, text)
  {
    var f, head := FrameOf(is64, cie, infos), Entry(is64, 0, CieBody(cie));
    CieStays(is64, cie, infos);
    FrameKeepsInv(is64, cie, infos);
    PatchesInside(is64, f);
    var w := PointerSize(is64);
    ClearKept(f.data, f.patches, w, NewValue(PointerRelativeAddress, w, frame, text), 0, |head|);
    assert f.data[0..|head|] == head;
  }

  /** Everything between the length and the padding. */
  lemma {:induction false} EntryPieces(is64: bool, cie: seq<byte>, eh: seq<byte>)
    requires Entry(is64, 0, CieBody(cie)) <= eh && |eh| < WORD
    ensures |eh| >= 8 + |cie| && ReadAt(eh, 4, 4) == 0 && eh[8..8 + |cie|] == cie
    ensures var end := 4 + ReadAt(eh, 0, 4);
            end % 4 == 0 && 8 + |cie| <= end <= |eh| && PieceAt(eh, 8 + |cie|, Zeros(end - (8 + |cie|)))
  {
    var end := PaddedEnd(is64, 8 + |cie|);
    var a, b, z := Enc(end - 4, 4), Enc(0, 4), Zeros(end - (8 + |cie|));
    assert Entry(is64, 0, CieBody(cie)) == a + (b + cie) + z;
    FourPieces(eh, a, b, cie, z);
    ReadsAs(eh, 0, end - 4);
    ReadsAs(eh, 4, 0);
  }

  lemma {:induction false} FourPieces(eh: seq<byte>, a: seq<byte>, b: seq<byte>, c: seq<byte>, z: seq<byte>)
    requires a + (b + c) + z <= eh
    ensures PieceAt(eh, 0, a) && PieceAt(eh, |a|, b) && PieceAt(eh, |a| + |b|, c) && PieceAt(eh, |a| + |b| + |c|, z)
  {
    assert PieceAt(eh, 0, a + (b + c) + z);
    SplitPiece(eh, 0, a + (b + c), z);
    SplitPiece(eh, 0, a, b + c);
    SplitPiece(eh, |a|, b, c);
  }

  lemma {:induction false} ReadsAs(eh: seq<byte>, at: nat, v: nat)
    requires PieceAt(eh, at, Enc(v, 4)) && v < WORD
    ensures ReadAt(eh, at, 4) == v
  {
    FitsPointer(false, v);
    DecEnc(v, 4);
  }

  /** The parts of the content at their places. */
  lemma {:induction false} ContentPieces(is64: bool, returnRegister: nat, opcodes: seq<byte>, eh: seq<byte>)
    requires PieceAt(eh, 8, CieContent(is64, returnRegister, opcodes))
    ensures var p := 14 + |PatchList.Uleb(returnRegister)|;
            && p + 2 + |opcodes| <= |eh| && eh[8] == 1 && eh[9..12] == [0x7a, 0x52, 0] && eh[12] == 1 && eh[13] == 0x7c
            && PieceAt(eh, 14, PatchList.Uleb(returnRegister)) && eh[p] == 1 && eh[p + 1] == AddressEncoding(is64)
            && PieceAt(eh, p + 2, opcodes)
  {
    var u := PatchList.Uleb(returnRegister);
    var zr: seq<byte>, factors: seq<byte> := [0x7a, 0x52, 0], [1, 0x7c];
    var head, tail := [1] + zr + factors, [1, AddressEncoding(is64)];
    assert CieContent(is64, returnRegister, opcodes) == head + u + tail + opcodes;
    SplitPiece(eh, 8, head + u + tail, opcodes);
    SplitPiece(eh, 8, head + u, tail);
    SplitPiece(eh, 8, head, u);
    SplitPiece(eh, 8, [1] + zr, factors);
    SplitPiece(eh, 8, [1], zr);
    var p := 14 + |u|;
    FirstOf(eh, 8, [1]);
    TwoOf(eh, 12, factors);
    TwoOf(eh, p, tail);
  }

  lemma {:induction false} FirstOf(d: seq<byte>, i: nat, u: seq<byte>)
    requires PieceAt(d, i, u) && |u| > 0
    ensures d[i] == u[0]
  {
    assert d[i..i + |u|][0] == d[i];
  }

  lemma {:induction false} TwoOf(d: seq<byte>, i: nat, u: seq<byte>)
    requires PieceAt(d, i, u) && |u| == 2
    ensures d[i] == u[0] && d[i + 1] == u[1]
  {
    assert d[i..i + 2][0] == d[i] && d[i..i + 2][1] == d[i + 1];
  }

  lemma {:induction false} UlebAt(eh: seq<byte>, at: nat, value: nat)
    requires PieceAt(eh, at, PatchList.Uleb(value)) && value < WORD
    ensures PatchList.DecodeUleb(eh, at) == PatchList.Decoded(value, at + |PatchList.Uleb(value)|)
  {
    var u := PatchList.Uleb(value);
    assert eh == eh[..at] + u + eh[at + |u|..];
    PatchList.UlebRoundTrip(eh[..at], value, eh[at + |u|..]);
  }

  /** An unwinder that finds the entry reads it. */
  lemma {:induction false} EntryReads(is64: bool, returnRegister: nat, opcodes: seq<byte>, eh: seq<byte>,
                                      cie: seq<byte>)
    requires cie == CieContent(is64, returnRegister, opcodes) && returnRegister < WORD
    requires Entry(is64, 0, CieBody(cie)) <= eh && |eh| < WORD
    ensures CieReads(is64, eh, returnRegister, opcodes)
  {
    EntryPieces(is64, cie, eh);
    ContentPieces(is64, returnRegister, opcodes, eh);
    var p, end := 14 + |PatchList.Uleb(returnRegister)|, 4 + ReadAt(eh, 0, 4);
    assert 8 + |cie| == p + 2 + |opcodes|;
    Joined(eh, p + 2, opcodes, Zeros(end - (p + 2 + |opcodes|)));
    PartsRead(is64, eh, returnRegister, opcodes, p, end);
  }

  lemma {:induction false} PartsRead(is64: bool, eh: seq<byte>, returnRegister: nat, opcodes: seq<byte>, p: nat,
                                     end: nat)
    requires returnRegister < WORD && p == 14 + |PatchList.Uleb(returnRegister)| && p + 2 + |opcodes| <= end <= |eh|
    requires end == 4 + ReadAt(eh, 0, 4) && end % 4 == 0 && ReadAt(eh, 4, 4) == 0
    requires eh[8] == 1 && eh[9..12] == [0x7a, 0x52, 0] && eh[12] == 1 && eh[13] == 0x7c
    requires PieceAt(eh, 14, PatchList.Uleb(returnRegister)) && eh[p] == 1 && eh[p + 1] == AddressEncoding(is64)
    requires PieceAt(eh, p + 2, opcodes + Zeros(end - (p + 2 + |opcodes|)))
    ensures CieReads(is64, eh, returnRegister, opcodes)
  {
    UlebAt(eh, 14, returnRegister);
    OneByteUleb(eh, 12);
    OneByteUleb(eh, p);
  }

  lemma {:induction false} OneByteUleb(eh: seq<byte>, at: nat)
    requires at < |eh| && eh[at] < 128
    ensures PatchList.DecodeUleb(eh, at) == PatchList.Decoded(eh[at], at + 1)
  {
  }

  /** In the patched section of any methods the common entry reads back: how addresses are encoded, where the return
      address is, and exactly the initial instructions. */
  lemma {:induction false} TheoremCieReads(is64: bool, returnRegister: nat, opcodes: seq<byte>, infos: seq<MethodInfo>,
                                           frame: nat, text: nat)
    requires returnRegister < WORD && |FrameOf(is64, CieContent(is64, returnRegister, opcodes), infos).data| < WORD
    ensures var f := FrameOf(is64, CieContent(is64, returnRegister, opcodes), infos);
            && Inside(f.patches, PointerSize(is64), |f.data|)
            && CieReads(is64, PatchedFrame(is64, f, frame, text), returnRegister, opcodes)
  {
    var cie := CieContent(is64, returnRegister, opcodes);
    PatchedCie(is64, cie, infos, frame, text);
    EntryReads(is64, returnRegister, opcodes, PatchedFrame(is64, FrameOf(is64, cie, infos), frame, text), cie);
  }

  lemma {:induction false} Joined(d: seq<byte>, i: nat, u: seq<byte>, v: seq<byte>)
    requires PieceAt(d, i, u) && PieceAt(d, i + |u|, v)
    ensures PieceAt(d, i, u + v)
  {
    assert d[i..i + |u + v|] == d[i..i + |u|] + d[i + |u|..i + |u| + |v|];
  }
}
