/** Call frame information: the entries of .eh_frame and the sorted search table of .eh_frame_hdr, from the
    debug records of the code pass to what an unwinder reads after layout and patching. */
module Unwind {
  import opened Align
  import opened Bytes
  import opened Options
  import opened Patching

  /** A debug record; addresses are relative to .text. */
  datatype MethodInfo = MethodInfo(lowPc: nat, highPc: nat, deduped: bool, cfi: Option<seq<byte>>)
  {
    predicate HasEntry() {
      !deduped && cfi.Some? && lowPc <= highPc
    }
  }

  function PointerSize(is64: bool): nat
  {
    if is64 then 8 else 4
  }

  function PaddedEnd(is64: bool, n: nat): (r: nat)
    ensures n <= r < n + 8 && r % 4 == 0
  {
    if is64 then (n + 7) / 8 * 8 else (n + 3) / 4 * 4
  }

  /** An entry that starts at offset `at`: its length, then the body, padded. */
  function Entry(is64: bool, at: nat, body: seq<byte>): (e: seq<byte>)
    ensures |e| == PaddedEnd(is64, at + 4 + |body|) - at >= 4 + |body|
  {
    var end := PaddedEnd(is64, at + 4 + |body|);
    Enc(end - at - 4, 4) + body + Zeros(end - (at + 4 + |body|))
  }

  function CieBody(content: seq<byte>): seq<byte>
  {
    Enc(0, 4) + content
  }

  /** Distance back to the common entry, code address, code size, no augmentation, instructions. */
  function FdeBody(is64: bool, cie: nat, at: nat, lowPc: nat, size: nat, cfi: seq<byte>): (b: seq<byte>)
    requires cie <= at + 4
    ensures |b| == 4 + 2 * PointerSize(is64) + 1 + |cfi|
  {
    Enc(at + 4 - cie, 4) + Enc(lowPc, PointerSize(is64)) + Enc(size, PointerSize(is64)) + ([0] + cfi)
  }

  // ----- The search table -----

  datatype Row = Row(lowPc: nat, offset: nat)

  /** Inserts in order of addresses; an address already present keeps its row. */
  function Emplace(table: seq<Row>, row: Row): seq<Row>
  {
    if table == [] || row.lowPc < table[0].lowPc then [row] + table
    else if row.lowPc == table[0].lowPc then table
    else [table[0]] + Emplace(table[1..], row)
  }

  predicate SortedTable(table: seq<Row>)
  {
    forall i, j :: 0 <= i < j < |table| ==> table[i].lowPc < table[j].lowPc
  }

  predicate HasAddress(table: seq<Row>, lowPc: nat)
  {
    exists i :: 0 <= i < |table| && table[i].lowPc == lowPc
  }

  lemma {:induction false} EmplaceRows(table: seq<Row>, row: Row)
    ensures forall r :: r in Emplace(table, row) ==> r in table || r == row
    ensures forall r :: r in table ==> r in Emplace(table, row)
    ensures HasAddress(Emplace(table, row), row.lowPc)
    ensures SortedTable(table) && !HasAddress(table, row.lowPc) ==> row in Emplace(table, row)
  {
    var t := Emplace(table, row);
    if table == [] || row.lowPc < table[0].lowPc {
      assert t[0] == row;
    } else if row.lowPc == table[0].lowPc {
      assert t[0].lowPc == row.lowPc;
    } else {
      var rest := table[1..];
      EmplaceRows(rest, row);
      assert table == [table[0]] + rest;
      assert forall i :: 0 <= i < |rest| ==> rest[i] == table[i + 1];
      var i :| 0 <= i < |Emplace(rest, row)| && Emplace(rest, row)[i].lowPc == row.lowPc;
      assert t[i + 1].lowPc == row.lowPc;
    }
  }

  lemma {:induction false} EmplaceSorted(table: seq<Row>, row: Row)
    requires SortedTable(table)
    ensures SortedTable(Emplace(table, row))
  {
    if !(table == [] || row.lowPc < table[0].lowPc) && row.lowPc != table[0].lowPc {
      var rest := table[1..];
      assert forall i :: 0 <= i < |rest| ==> rest[i] == table[i + 1];
      EmplaceSorted(rest, row);
      EmplaceRows(rest, row);
      var t := Emplace(rest, row);
      forall i | 0 <= i < |t| ensures table[0].lowPc < t[i].lowPc {
        assert t[i] in t;
      }
    }
  }

  // ----- Building .eh_frame -----

  datatype Frame = Frame(data: seq<byte>, patches: seq<nat>, table: seq<Row>)

  function FrameStart(is64: bool, cie: seq<byte>): Frame
  {
    Frame(Entry(is64, 0, CieBody(cie)), [], [])
  }

  function AddEntry(is64: bool, f: Frame, mi: MethodInfo): Frame
    requires mi.HasEntry()
  {
    var at := |f.data|;
    Frame(f.data + Entry(is64, at, FdeBody(is64, 0, at, mi.lowPc, mi.highPc - mi.lowPc, mi.cfi.value)),
          f.patches + [at + 8], Emplace(f.table, Row(mi.lowPc, at)))
  }

  function FrameOf(is64: bool, cie: seq<byte>, infos: seq<MethodInfo>): Frame
  {
    if infos == [] then FrameStart(is64, cie)
    else
      var n := |infos| - 1;
      var f := FrameOf(is64, cie, infos[..n]);
      if infos[n].HasEntry() then AddEntry(is64, f, infos[n]) else f
  }

  class FrameWriter {
    const is64: bool
    var data: seq<byte>
    var patches: seq<nat>
    var table: seq<Row>

    ghost function State(): Frame
      reads this
    {
      Frame(data, patches, table)
    }

    constructor (is64: bool)
      ensures this.is64 == is64 && State() == Frame([], [], [])
    {
      this.is64, this.data, this.patches, this.table := is64, [], [], [];
    }

    /** Pads what was pushed since `start` and fills in its length. */
    method Finish(start: nat, ghost before: seq<byte>, ghost body: seq<byte>)
      requires |before| == start && data == before + Enc(0, 4) + body
      modifies this`data
      ensures data == before + Entry(is64, start, body)
    {
      var padding := PaddedEnd(is64, |data|) - |data|;
      data := data + Zeros(padding);
      assert data[..start] == before && data[start + 4..] == body + Zeros(padding);
      var length := |data| - start - 4;
      data := data[..start] + Enc(length, 4) + data[start + 4..];
      assert data == before + (Enc(length, 4) + body + Zeros(padding));
    }

    method WriteCie(content: seq<byte>)
      requires data == []
      modifies this`data
      ensures data == Entry(is64, 0, CieBody(content))
    {
      data := data + Enc(0, 4);
      data := data + Enc(0, 4) + content;
      assert data == [] + Enc(0, 4) + CieBody(content);
      Finish(0, [], CieBody(content));
    }

    method WriteFde(mi: MethodInfo)
      requires mi.HasEntry()
      modifies this`data, this`patches
      ensures Frame(data, patches, table) == AddEntry(is64, old(State()), mi).(table := table)
    {
      ghost var before := data;
      var start, w := |data|, PointerSize(is64);
      data := data + Enc(0, 4);
      data := data + Enc(|data|, 4);
      patches := patches + [|data|];
      data := data + Enc(mi.lowPc, w) + Enc(mi.highPc - mi.lowPc, w);
      data := data + ([0] + mi.cfi.value);
      ghost var body := FdeBody(is64, 0, start, mi.lowPc, mi.highPc - mi.lowPc, mi.cfi.value);
      assert data == before + Enc(0, 4) + body;
      Finish(start, before, body);
    }

    method AddMethod(mi: MethodInfo)
      requires mi.HasEntry()
      modifies this
      ensures State() == AddEntry(is64, old(State()), mi)
    {
      table := Emplace(table, Row(mi.lowPc, |data|));
      WriteFde(mi);
    }

    /** Writes the common entry and one entry for every code range that has instructions. */
    method WriteCfi(cie: seq<byte>, infos: seq<MethodInfo>)
      requires State() == Frame([], [], [])
      modifies this
      ensures State() == FrameOf(is64, cie, infos)
    {
      WriteCie(cie);
      for i := 0 to |infos|
        invariant State() == FrameOf(is64, cie, infos[..i])
      {
        assert infos[..i + 1][..i] == infos[..i];
        if infos[i].HasEntry() { AddMethod(infos[i]); }
      }
      assert infos[..|infos|] == infos;
    }
  }

  // ----- What the entries say before patching -----

  /** The length of an entry keeps the entry inside the section and the next one aligned. */
  predicate LengthAt(is64: bool, data: seq<byte>, at: nat, length: nat)
  {
    && 4 + 2 * PointerSize(is64) <= length && at + 4 + length <= |data| && (at + 4 + length) % 4 == 0
    && PieceAt(data, at, Enc(length, 4))
  }

  /** The fields of an entry for `mi` at offset `at`. */
  predicate FieldsAt(is64: bool, data: seq<byte>, at: nat, mi: MethodInfo)
  {
    var w := PointerSize(is64);
    && mi.HasEntry() && at + 8 + 2 * w <= |data|
    && PieceAt(data, at + 4, Enc(at + 4, 4))
    && PieceAt(data, at + 8, Enc(mi.lowPc, w))
    && PieceAt(data, at + 8 + w, Enc(mi.highPc - mi.lowPc, w))
  }

  /** Behind the fields: an empty augmentation, the instructions and zeros, up to the end that the length gives. */
  predicate TailAt(is64: bool, data: seq<byte>, at: nat, cfi: seq<byte>, length: nat)
  {
    var from, end := at + 8 + 2 * PointerSize(is64), at + 4 + length;
    from + 1 + |cfi| <= end && PieceAt(data, from, [0] + cfi + Zeros(end - (from + 1 + |cfi|)))
  }

  predicate FdeIs(is64: bool, data: seq<byte>, at: nat, mi: MethodInfo, length: nat)
  {
    FieldsAt(is64, data, at, mi) && LengthAt(is64, data, at, length) && TailAt(is64, data, at, mi.cfi.value, length)
  }

  ghost predicate FdeAt(is64: bool, data: seq<byte>, at: nat, mi: MethodInfo)
  {
    exists length :: FdeIs(is64, data, at, mi, length)
  }

  /** Of the entry from `at` to `end` only the address is patched. */
  predicate OnlyPatch(patches: seq<nat>, w: nat, at: nat, end: nat)
  {
    forall k :: 0 <= k < |patches| ==> patches[k] == at + 8 || patches[k] + w <= at || end <= patches[k]
  }

  lemma {:induction false} SliceOfSum(a: seq<byte>, e: seq<byte>, lo: nat, hi: nat)
    requires lo <= hi <= |e|
    ensures (a + e)[|a| + lo..|a| + hi] == e[lo..hi]
  {
  }

  predicate PieceAt(d: seq<byte>, i: nat, p: seq<byte>)
  {
    i + |p| <= |d| && d[i..i + |p|] == p
  }

  lemma {:induction false} SplitPiece(d: seq<byte>, i: nat, u: seq<byte>, v: seq<byte>)
    requires PieceAt(d, i, u + v)
    ensures PieceAt(d, i, u) && PieceAt(d, i + |u|, v)
  {
    assert d[i..i + |u|] == d[i..i + |u + v|][..|u|] && d[i + |u|..i + |u| + |v|] == d[i..i + |u + v|][|u|..];
  }

  lemma {:induction false} PieceStays(d: seq<byte>, more: seq<byte>, i: nat, p: seq<byte>)
    requires PieceAt(d, i, p)
    ensures PieceAt(d + more, i, p)
  {
    assert (d + more)[i..i + |p|] == d[i..i + |p|];
  }

  /** Four fields behind some data. */
  lemma {:induction false} FieldsBehind(a: seq<byte>, p: seq<byte>, q: seq<byte>, r: seq<byte>, t: seq<byte>,
                                        x: seq<byte>, z: seq<byte>)
    ensures var d, i := a + (p + (q + r + t + x) + z), |a|;
            PieceAt(d, i, p) && PieceAt(d, i + |p|, q) && PieceAt(d, i + |p| + |q|, r) &&
              PieceAt(d, i + |p| + |q| + |r|, t) && PieceAt(d, i + |p| + |q| + |r| + |t|, x + z)
  {
    var e := p + (q + r + t + x) + z;
    var d, i := a + e, |a|;
    assert PieceAt(d, i, e);
    assert e == p + (q + r + t) + (x + z);
    SplitPiece(d, i, p + (q + r + t), x + z);
    SplitPiece(d, i, p, q + r + t);
    SplitPiece(d, i + |p|, q + r, t);
    SplitPiece(d, i + |p|, q, r);
  }

  lemma {:induction false} NewFields(is64: bool, data: seq<byte>, mi: MethodInfo)
    requires mi.HasEntry()
    ensures var e := Entry(is64, |data|, FdeBody(is64, 0, |data|, mi.lowPc, mi.highPc - mi.lowPc, mi.cfi.value));
            FdeIs(is64, data + e, |data|, mi, |e| - 4)
  {
    var w, at, size := PointerSize(is64), |data|, mi.highPc - mi.lowPc;
    var body := FdeBody(is64, 0, at, mi.lowPc, size, mi.cfi.value);
    var end := PaddedEnd(is64, at + 4 + |body|);
    var a, b, c, d := Enc(end - at - 4, 4), Enc(at + 4, 4), Enc(mi.lowPc, w), Enc(size, w);
    var zeros := Zeros(end - (at + 4 + |body|));
    assert body == b + c + d + ([0] + mi.cfi.value);
    assert Entry(is64, at, body) == a + body + zeros;
    FieldsBehind(data, a, b, c, d, [0] + mi.cfi.value, zeros);
  }

  lemma {:induction false} FdeStays(is64: bool, data: seq<byte>, more: seq<byte>, at: nat, mi: MethodInfo, length: nat)
    requires FdeIs(is64, data, at, mi, length)
    ensures FdeIs(is64, data + more, at, mi, length)
  {
    var w := PointerSize(is64);
    PieceStays(data, more, at, Enc(length, 4));
    PieceStays(data, more, at + 4, Enc(at + 4, 4));
    PieceStays(data, more, at + 8, Enc(mi.lowPc, w));
    PieceStays(data, more, at + 8 + w, Enc(mi.highPc - mi.lowPc, w));
    var from, end := at + 8 + 2 * w, at + 4 + length;
    PieceStays(data, more, from, [0] + mi.cfi.value + Zeros(end - (from + 1 + |mi.cfi.value|)));
  }

  /** A row leads to the entry of a method at its address, whose address field is to be patched. */
  ghost predicate RowInv(is64: bool, data: seq<byte>, patches: seq<nat>, infos: seq<MethodInfo>, r: Row)
  {
    r.offset + 8 in patches &&
    exists i: nat, length: nat :: RowIs(is64, data, patches, infos, r, i, length)
  }

  predicate RowIs(is64: bool, data: seq<byte>, patches: seq<nat>, infos: seq<MethodInfo>, r: Row, i: nat, length: nat)
  {
    && i < |infos| && infos[i].lowPc == r.lowPc && FdeIs(is64, data, r.offset, infos[i], length)
    && OnlyPatch(patches, PointerSize(is64), r.offset, r.offset + 4 + length)
  }

  ghost predicate RowsInv(is64: bool, f: Frame, infos: seq<MethodInfo>)
  {
    forall r :: r in f.table ==> RowInv(is64, f.data, f.patches, infos, r)
  }

  predicate PatchesInv(is64: bool, f: Frame)
  {
    var w := PointerSize(is64);
    && |f.data| % 4 == 0 && Spaced(f.patches, 8 + 2 * w)
    && forall k :: 0 <= k < |f.patches| ==> 8 <= f.patches[k] && f.patches[k] + 2 * w <= |f.data|
  }

  ghost predicate FrameInv(is64: bool, f: Frame, infos: seq<MethodInfo>)
  {
    && SortedTable(f.table) && RowsInv(is64, f, infos) && PatchesInv(is64, f)
    && forall i :: 0 <= i < |infos| && infos[i].HasEntry() ==> HasAddress(f.table, infos[i].lowPc)
  }

  lemma {:induction false} MorePatches(patches: seq<nat>, p: seq<nat>, w: nat, at: nat, end: nat)
    requires OnlyPatch(patches, w, at, end) && forall k :: 0 <= k < |p| ==> end <= p[k]
    ensures OnlyPatch(patches + p, w, at, end)
  {
  }

  lemma {:induction false} RowIsStays(is64: bool, data: seq<byte>, more: seq<byte>, patches: seq<nat>, p: seq<nat>,
                                      infos: seq<MethodInfo>, mi: MethodInfo, r: Row, i: nat, length: nat)
    requires RowIs(is64, data, patches, infos, r, i, length) && forall k :: 0 <= k < |p| ==> |data| <= p[k]
    ensures RowIs(is64, data + more, patches + p, infos + [mi], r, i, length)
  {
    FdeStays(is64, data, more, r.offset, infos[i], length);
    MorePatches(patches, p, PointerSize(is64), r.offset, r.offset + 4 + length);
    assert (infos + [mi])[i] == infos[i];
  }

  lemma {:induction false} RowStays(is64: bool, data: seq<byte>, more: seq<byte>, patches: seq<nat>, p: seq<nat>,
                                    infos: seq<MethodInfo>, mi: MethodInfo, r: Row)
    requires RowInv(is64, data, patches, infos, r) && forall k :: 0 <= k < |p| ==> |data| <= p[k]
    ensures RowInv(is64, data + more, patches + p, infos + [mi], r)
  {
    var i: nat, length: nat :| RowIs(is64, data, patches, infos, r, i, length);
    RowIsStays(is64, data, more, patches, p, infos, mi, r, i, length);
    var k :| 0 <= k < |patches| && patches[k] == r.offset + 8;
    assert (patches + p)[k] == r.offset + 8;
  }

  lemma {:induction false} RowNew(is64: bool, data: seq<byte>, patches: seq<nat>, infos: seq<MethodInfo>,
                                  mi: MethodInfo)
    requires mi.HasEntry() && Inside(patches, PointerSize(is64), |data|)
    ensures var e := Entry(is64, |data|, FdeBody(is64, 0, |data|, mi.lowPc, mi.highPc - mi.lowPc, mi.cfi.value));
            RowInv(is64, data + e, patches + [|data| + 8], infos + [mi], Row(mi.lowPc, |data|))
  {
    NewFields(is64, data, mi);
    var e := Entry(is64, |data|, FdeBody(is64, 0, |data|, mi.lowPc, mi.highPc - mi.lowPc, mi.cfi.value));
    assert OnlyPatch(patches + [|data| + 8], PointerSize(is64), |data|, |data| + |e|);
    assert (infos + [mi])[|infos|] == mi;
    assert RowIs(is64, data + e, patches + [|data| + 8], infos + [mi], Row(mi.lowPc, |data|), |infos|, |e| - 4);
    assert (patches + [|data| + 8])[|patches|] == |data| + 8;
  }

  lemma {:induction false} RowsStep(is64: bool, f: Frame, infos: seq<MethodInfo>, mi: MethodInfo)
    requires RowsInv(is64, f, infos) && Inside(f.patches, PointerSize(is64), |f.data|) && mi.HasEntry()
    ensures RowsInv(is64, AddEntry(is64, f, mi), infos + [mi])
  {
    var f', at := AddEntry(is64, f, mi), |f.data|;
    EmplaceRows(f.table, Row(mi.lowPc, at));
    RowNew(is64, f.data, f.patches, infos, mi);
    forall r | r in f'.table ensures RowInv(is64, f'.data, f'.patches, infos + [mi], r) {
      if r in f.table {
        RowStays(is64, f.data, Entry(is64, at, FdeBody(is64, 0, at, mi.lowPc, mi.highPc - mi.lowPc, mi.cfi.value)),
                 f.patches, [at + 8], infos, mi, r);
      }
    }
  }

  lemma {:induction false} PatchesStep(is64: bool, f: Frame, mi: MethodInfo)
    requires PatchesInv(is64, f) && mi.HasEntry()
    ensures PatchesInv(is64, AddEntry(is64, f, mi))
  {
  }

  lemma {:induction false} AddressStep(table: seq<Row>, row: Row, lowPc: nat)
    requires HasAddress(table, lowPc) || lowPc == row.lowPc
    ensures HasAddress(Emplace(table, row), lowPc)
  {
    EmplaceRows(table, row);
    if lowPc != row.lowPc {
      var i :| 0 <= i < |table| && table[i].lowPc == lowPc;
      assert table[i] in Emplace(table, row);
    }
  }

  /** For any list of debug records. */
  lemma {:induction false} FrameKeepsInv(is64: bool, cie: seq<byte>, infos: seq<MethodInfo>)
    ensures FrameInv(is64, FrameOf(is64, cie, infos), infos)
  {
    if infos != [] {
      var n := |infos| - 1;
      FrameKeepsInv(is64, cie, infos[..n]);
      var f, mi := FrameOf(is64, cie, infos[..n]), infos[n];
      assert infos == infos[..n] + [mi];
      if mi.HasEntry() {
        var row := Row(mi.lowPc, |f.data|);
        EmplaceSorted(f.table, row);
        PatchesInside(is64, f);
        RowsStep(is64, f, infos[..n], mi);
        PatchesStep(is64, f, mi);
        forall i | 0 <= i < |infos| && infos[i].HasEntry() ensures HasAddress(Emplace(f.table, row), infos[i].lowPc) {
          if i < n { assert infos[..n][i] == infos[i]; }
          AddressStep(f.table, row, infos[i].lowPc);
        }
      } else {
        RowsSame(is64, f, infos[..n], mi);
        forall i | 0 <= i < |infos| && infos[i].HasEntry() ensures HasAddress(f.table, infos[i].lowPc) {
          assert infos[..n][i] == infos[i];
        }
      }
    }
  }

  lemma {:induction false} PaddedAlike(is64: bool, n: nat)
    ensures PaddedEnd(is64, n) % PointerSize(is64) == 0 && PaddedEnd(is64, n) < n + PointerSize(is64)
  {
  }

  /** All entries start at multiples of the pointer size. */
  lemma {:induction false} TheoremEntriesAligned(is64: bool, cie: seq<byte>, infos: seq<MethodInfo>)
    ensures |FrameOf(is64, cie, infos).data| % PointerSize(is64) == 0
    ensures forall r :: r in FrameOf(is64, cie, infos).table ==> r.offset % PointerSize(is64) == 0
  {
    if infos == [] {
      PaddedAlike(is64, 4 + |CieBody(cie)|);
    } else {
      var n := |infos| - 1;
      var f, mi := FrameOf(is64, cie, infos[..n]), infos[n];
      TheoremEntriesAligned(is64, cie, infos[..n]);
      if mi.HasEntry() {
        EmplaceRows(f.table, Row(mi.lowPc, |f.data|));
        PaddedAlike(is64, |f.data| + 4 +
                    |FdeBody(is64, 0, |f.data|, mi.lowPc, mi.highPc - mi.lowPc, mi.cfi.value)|);
      }
    }
  }

  lemma {:induction false} RowsSame(is64: bool, f: Frame, infos: seq<MethodInfo>, mi: MethodInfo)
    requires RowsInv(is64, f, infos)
    ensures RowsInv(is64, f, infos + [mi])
  {
    forall r | r in f.table ensures RowInv(is64, f.data, f.patches, infos + [mi], r) {
      RowStays(is64, f.data, [], f.patches, [], infos, mi, r);
      assert f.data + [] == f.data && f.patches + [] == f.patches;
    }
  }

  // ----- .eh_frame_hdr -----

  function HdrHead(frameSize: nat, rows: nat): (h: seq<byte>)
    ensures |h| == 12
  {
    [1, 0x1b, 0x03, 0x3b] + Enc(Wrap(4, 0 - frameSize - 4), 4) + Enc(rows, 4)
  }

  /** A code address to be patched, and the entry relative to the start of the header, which follows the frame. */
  function RowBytes(frameSize: nat, r: Row): (b: seq<byte>)
    ensures |b| == 8
  {
    Enc(r.lowPc, 4) + Enc(Wrap(4, r.offset - frameSize), 4)
  }

  function Rows(frameSize: nat, table: seq<Row>): (b: seq<byte>)
    ensures |b| == 8 * |table|
  {
    if table == [] then [] else Rows(frameSize, table[..|table| - 1]) + RowBytes(frameSize, table[|table| - 1])
  }

  function Hdr(frameSize: nat, table: seq<Row>): (b: seq<byte>)
    ensures |b| == 12 + 8 * |table|
  {
    HdrHead(frameSize, |table|) + Rows(frameSize, table)
  }

  function HdrPatches(n: nat): (p: seq<nat>)
    ensures |p| == n && forall k :: 0 <= k < n ==> p[k] == 12 + 8 * k
  {
    seq(n, k requires 0 <= k => 12 + 8 * k)
  }

  method WriteHdr(frameSize: nat, table: seq<Row>) returns (data: seq<byte>, patches: seq<nat>)
    ensures data == Hdr(frameSize, table) && patches == HdrPatches(|table|)
  {
    data := [1, 0x1b, 0x03, 0x3b];
    data := data + Enc(Wrap(4, 0 - frameSize - 4), 4);
    data := data + Enc(|table|, 4);
    patches := [];
    ghost var head := data;
    for k := 0 to |table|
      invariant data == head + Rows(frameSize, table[..k]) && patches == HdrPatches(k)
    {
      assert table[..k + 1][..k] == table[..k];
      patches := patches + [|data|];
      var low, entry := Enc(table[k].lowPc, 4), Enc(Wrap(4, table[k].offset - frameSize), 4);
      data := data + low;
      data := data + entry;
      Grouped(head, Rows(frameSize, table[..k]), low, entry);
    }
    assert table[..|table|] == table;
  }

  lemma {:induction false} Grouped(a: seq<byte>, b: seq<byte>, c: seq<byte>, d: seq<byte>)
    ensures a + b + c + d == a + (b + (c + d))
  {
  }

  lemma {:induction false} RowAt(frameSize: nat, table: seq<Row>, k: nat)
    requires k < |table|
    ensures Rows(frameSize, table)[8 * k..8 * k + 8] == RowBytes(frameSize, table[k])
  {
    var n := |table| - 1;
    if k < n {
      RowAt(frameSize, table[..n], k);
      assert Rows(frameSize, table)[8 * k..8 * k + 8] == Rows(frameSize, table[..n])[8 * k..8 * k + 8];
    }
  }

  lemma {:induction false} HdrPointer(frameSize: nat, table: seq<Row>)
    ensures Hdr(frameSize, table)[4..8] == Enc(Wrap(4, 0 - frameSize - 4), 4)
  {
    assert Hdr(frameSize, table)[4..8] == HdrHead(frameSize, |table|)[4..8];
  }

  lemma {:induction false} HdrRow(frameSize: nat, table: seq<Row>, k: nat)
    requires k < |table|
    ensures Hdr(frameSize, table)[12 + 8 * k..20 + 8 * k] == RowBytes(frameSize, table[k])
  {
    RowAt(frameSize, table, k);
    SliceOfSum(HdrHead(frameSize, |table|), Rows(frameSize, table), 8 * k, 8 * k + 8);
  }

  lemma {:induction false} Halves(h: seq<byte>, at: nat, p: seq<byte>, q: seq<byte>)
    requires at + 8 <= |h| && |p| == 4 && |q| == 4 && h[at..at + 8] == p + q
    ensures h[at..at + 4] == p && h[at + 4..at + 8] == q
  {
    assert h[at..at + 4] == h[at..at + 8][..4] && h[at + 4..at + 8] == h[at..at + 8][4..];
  }

  lemma {:induction false} HdrRowFields(frameSize: nat, table: seq<Row>, k: nat)
    requires k < |table|
    ensures Hdr(frameSize, table)[12 + 8 * k..16 + 8 * k] == Enc(table[k].lowPc, 4)
    ensures Hdr(frameSize, table)[16 + 8 * k..20 + 8 * k] == Enc(Wrap(4, table[k].offset - frameSize), 4)
  {
    HdrRow(frameSize, table, k);
    Halves(Hdr(frameSize, table), 12 + 8 * k, Enc(table[k].lowPc, 4), Enc(Wrap(4, table[k].offset - frameSize), 4));
  }

  // ----- What an unwinder reads -----

  /** The sections after layout: the header directly behind the frame, both patched against .text. */
  function PatchedFrame(is64: bool, f: Frame, address: nat, text: nat): (r: seq<byte>)
    requires Inside(f.patches, PointerSize(is64), |f.data|)
    ensures |r| == |f.data|
  {
    Patched(f.data, f.patches, PointerSize(is64), NewValue(PointerRelativeAddress, PointerSize(is64), address, text))
  }

  function PatchedHdr(f: Frame, address: nat, text: nat): (r: seq<byte>)
    ensures |r| == 12 + 8 * |f.table|
  {
    Patched(Hdr(|f.data|, f.table), HdrPatches(|f.table|), 4, NewValue(SectionRelativeAddress, 4, address, text))
  }

  /** Row `k` of a header at `address` leads to this code and this entry: both relative to the header. */
  predicate RowResolves(hdr: seq<byte>, address: nat, k: nat, code: nat, entry: nat)
  {
    && 20 + 8 * k <= |hdr|
    && ReadAt(hdr, 12 + 8 * k, 4) == Wrap(4, code - address)
    && ReadAt(hdr, 16 + 8 * k, 4) == Wrap(4, entry - address)
  }

  lemma {:induction false} RowCode(f: Frame, address: nat, text: nat, k: nat)
    requires k < |f.table| && f.table[k].lowPc < WORD
    ensures ReadAt(PatchedHdr(f, address, text), 12 + 8 * k, 4) == Wrap(4, text + f.table[k].lowPc - address)
  {
    HdrRowFields(|f.data|, f.table, k);
    FitsPointer(false, f.table[k].lowPc);
    FieldPatched(Hdr(|f.data|, f.table), HdrPatches(|f.table|), SectionRelativeAddress, 4, address, text, k,
                 f.table[k].lowPc);
  }

  lemma {:induction false} RowEntry(f: Frame, address: nat, text: nat, k: nat)
    requires k < |f.table|
    ensures ReadAt(PatchedHdr(f, address, text), 16 + 8 * k, 4) == Wrap(4, f.table[k].offset - |f.data|)
  {
    HdrRowFields(|f.data|, f.table, k);
    WrapFits(4, f.table[k].offset - |f.data|);
    FieldKept(Hdr(|f.data|, f.table), HdrPatches(|f.table|), 4, NewValue(SectionRelativeAddress, 4, address, text),
              16 + 8 * k, 4, Wrap(4, f.table[k].offset - |f.data|));
  }

  /** The header directly behind the frame: every row leads to its method's code and to the entry in the frame. */
  lemma {:induction false} TheoremRowResolves(f: Frame, frame: nat, text: nat, k: nat)
    requires k < |f.table| && f.table[k].lowPc < WORD
    ensures RowResolves(PatchedHdr(f, frame + |f.data|, text), frame + |f.data|, k, text + f.table[k].lowPc,
                        frame + f.table[k].offset)
  {
    RowCode(f, frame + |f.data|, text, k);
    RowEntry(f, frame + |f.data|, text, k);
    assert frame + f.table[k].offset - (frame + |f.data|) == f.table[k].offset - |f.data|;
  }

  /** The header's pointer to the frame, relative to its own location. */
  lemma {:induction false} TheoremFramePointer(f: Frame, frame: nat, text: nat)
    ensures ReadAt(PatchedHdr(f, frame + |f.data|, text), 4, 4) == Wrap(4, frame - (frame + |f.data| + 4))
  {
    HdrPointer(|f.data|, f.table);
    WrapFits(4, 0 - |f.data| - 4);
    FieldKept(Hdr(|f.data|, f.table), HdrPatches(|f.table|), 4,
              NewValue(SectionRelativeAddress, 4, frame + |f.data|, text),
              4, 4, Wrap(4, 0 - |f.data| - 4));
    assert frame - (frame + |f.data| + 4) == 0 - |f.data| - 4;
  }

  // ----- The header as its own bytes describe it -----

  /** Pointer formats and what pointers are relative to. */
  const UDATA4: byte := 0x03
  const SDATA4: byte := 0x0b
  const SDATA8: byte := 0x0c
  const PCREL: nat := 1
  const DATAREL: nat := 3

  /** What a pointer at `at` of a section at `address` is relative to, from the high half of its encoding. */
  function RelativeTo(encoding: byte, address: nat, at: nat): nat
  {
    if encoding / 16 == PCREL then address + at else if encoding / 16 == DATAREL then address else 0
  }

  /** The target of a 32-bit pointer with this encoding. */
  function PointsTo(encoding: byte, data: seq<byte>, address: nat, at: nat): nat
    requires at + 4 <= |data|
  {
    Wrap(4, ReadAt(data, at, 4) + RelativeTo(encoding, address, at))
  }

  /** A search table as an unwinder reads it: version, pointer to the frame, number of rows. */
  predicate HdrReads(hdr: seq<byte>, address: nat, frame: nat, rows: nat)
  {
    && 12 + 8 * rows <= |hdr| && hdr[0] == 1
    && hdr[1] % 16 == SDATA4 && PointsTo(hdr[1], hdr, address, 4) == Wrap(4, frame)
    && hdr[2] == UDATA4 && ReadAt(hdr, 8, 4) == rows
    && hdr[3] % 16 == SDATA4
  }

  lemma {:induction false} HdrHeadKept(f: Frame, address: nat, text: nat)
    ensures PatchedHdr(f, address, text)[0..12] == HdrHead(|f.data|, |f.table|)
  {
    ClearKept(Hdr(|f.data|, f.table), HdrPatches(|f.table|), 4, NewValue(SectionRelativeAddress, 4, address, text), 0,
              12);
  }

  lemma {:induction false} CountReads(f: Frame, address: nat, text: nat)
    requires |f.table| < WORD
    ensures ReadAt(PatchedHdr(f, address, text), 8, 4) == |f.table|
  {
    var hdr := PatchedHdr(f, address, text);
    HdrHeadKept(f, address, text);
    assert hdr[8..12] == hdr[0..12][8..12] == Enc(|f.table|, 4);
    FitsPointer(false, |f.table|);
    DecEnc(|f.table|, 4);
  }

  lemma {:induction false} HeadBytes(f: Frame, address: nat, text: nat)
    ensures var hdr := PatchedHdr(f, address, text); hdr[0] == 1 && hdr[1] == 0x1b && hdr[2] == 0x03 && hdr[3] == 0x3b
  {
    var hdr := PatchedHdr(f, address, text);
    HdrHeadKept(f, address, text);
    var head := hdr[0..12];
    assert head[0] == hdr[0] && head[1] == hdr[1] && head[2] == hdr[2] && head[3] == hdr[3];
  }

  lemma {:induction false} FrameFound(f: Frame, frame: nat, text: nat, address: nat)
    requires address == frame + |f.data|
    ensures PointsTo(0x1b, PatchedHdr(f, address, text), address, 4) == Wrap(4, frame)
  {
    TheoremFramePointer(f, frame, text);
    RelativeDecodes(4, frame, address + 4);
  }

  lemma {:induction false} RowFound(f: Frame, frame: nat, text: nat, address: nat, k: nat)
    requires address == frame + |f.data| && k < |f.table| && f.table[k].lowPc < WORD
    ensures var hdr := PatchedHdr(f, address, text);
            && PointsTo(0x3b, hdr, address, 12 + 8 * k) == Wrap(4, text + f.table[k].lowPc)
            && PointsTo(0x3b, hdr, address, 16 + 8 * k) == Wrap(4, frame + f.table[k].offset)
  {
    TheoremRowResolves(f, frame, text, k);
    RelativeDecodes(4, text + f.table[k].lowPc, address);
    RelativeDecodes(4, frame + f.table[k].offset, address);
  }

  /** The header right behind the frame tells an unwinder where the frame is, how many rows there are, and how to read
      them; read that way, every row gives the address of its code and of its entry. */
  lemma {:induction false} TheoremHdrReads(f: Frame, frame: nat, text: nat, address: nat)
    requires |f.table| < WORD && address == frame + |f.data|
    ensures HdrReads(PatchedHdr(f, address, text), address, frame, |f.table|)
    ensures var hdr := PatchedHdr(f, address, text);
            forall k :: 0 <= k < |f.table| && f.table[k].lowPc < WORD ==>
              && PointsTo(hdr[3], hdr, address, 12 + 8 * k) == Wrap(4, text + f.table[k].lowPc)
              && PointsTo(hdr[3], hdr, address, 16 + 8 * k) == Wrap(4, frame + f.table[k].offset)
  {
    var hdr := PatchedHdr(f, address, text);
    HeadBytes(f, address, text);
    CountReads(f, address, text);
    FrameFound(f, frame, text, address);
    forall k | 0 <= k < |f.table| && f.table[k].lowPc < WORD
      ensures PointsTo(hdr[3], hdr, address, 12 + 8 * k) == Wrap(4, text + f.table[k].lowPc)
      ensures PointsTo(hdr[3], hdr, address, 16 + 8 * k) == Wrap(4, frame + f.table[k].offset)
    {
      RowFound(f, frame, text, address, k);
    }
  }

  lemma {:induction false} PatchesInside(is64: bool, f: Frame)
    requires PatchesInv(is64, f)
    ensures Inside(f.patches, PointerSize(is64), |f.data|) && Spaced(f.patches, PointerSize(is64))
  {
  }

  lemma {:induction false} FieldsClear(is64: bool, f: Frame, k: nat)
    requires PatchesInv(is64, f) && k < |f.patches|
    ensures var w, at := PointerSize(is64), f.patches[k];
            Clear(f.patches, w, at - 4, at) && Clear(f.patches, w, at + w, at + 2 * w)
  {
  }

  /** The entry at offset `at` of a frame section, as an unwinder reads it: code address relative to the field, size
      of the code, the distance back to the common entry at offset 0, and the instructions, which end with zeros where
      the length says. */
  predicate EntryResolves(is64: bool, eh: seq<byte>, frame: nat, at: nat, code: nat, size: nat, cfi: seq<byte>)
  {
    var w := PointerSize(is64);
    && at + 8 + 2 * w <= |eh| && TailAt(is64, eh, at, cfi, ReadAt(eh, at, 4))
    && ReadAt(eh, at + 8, w) == Wrap(w, code - (frame + (at + 8)))
    && ReadAt(eh, at + 8 + w, w) == size
    && ReadAt(eh, at + 4, 4) == at + 4
  }

  lemma {:induction false} FitsPointer(is64: bool, v: nat)
    requires v < WORD
    ensures v < Pow256(PointerSize(is64)) && v < Pow256(4)
  {
    assert Pow256(4) == WORD && WORD <= Pow256(8);
  }

  lemma {:induction false} EntryCode(is64: bool, f: Frame, k: nat, mi: MethodInfo, frame: nat, text: nat)
    requires PatchesInv(is64, f) && k < |f.patches| && FdeAt(is64, f.data, f.patches[k] - 8, mi) && mi.lowPc < WORD
    ensures Inside(f.patches, PointerSize(is64), |f.data|)
    ensures var w := PointerSize(is64);
            ReadAt(PatchedFrame(is64, f, frame, text), f.patches[k], w) ==
              Wrap(w, text + mi.lowPc - (frame + f.patches[k]))
  {
    PatchesInside(is64, f);
    FitsPointer(is64, mi.lowPc);
    FieldPatched(f.data, f.patches, PointerRelativeAddress, PointerSize(is64), frame, text, k, mi.lowPc);
  }

  lemma {:induction false} EntryPlainFields(is64: bool, f: Frame, k: nat, mi: MethodInfo, frame: nat, text: nat)
    requires PatchesInv(is64, f) && k < |f.patches| && FdeAt(is64, f.data, f.patches[k] - 8, mi) && mi.highPc < WORD &&
             |f.data| < WORD
    ensures Inside(f.patches, PointerSize(is64), |f.data|)
    ensures var w, eh, at := PointerSize(is64), PatchedFrame(is64, f, frame, text), f.patches[k];
            ReadAt(eh, at + w, w) == mi.highPc - mi.lowPc && ReadAt(eh, at - 4, 4) == at - 4
  {
    var w, at := PointerSize(is64), f.patches[k];
    var value := NewValue(PointerRelativeAddress, w, frame, text);
    PatchesInside(is64, f);
    FieldsClear(is64, f, k);
    FitsPointer(is64, mi.highPc - mi.lowPc);
    FitsPointer(is64, at - 4);
    FieldKept(f.data, f.patches, w, value, at + w, w, mi.highPc - mi.lowPc);
    FieldKept(f.data, f.patches, w, value, at - 4, 4, at - 4);
  }

  /** Length and instructions are not touched by patching. */
  lemma {:induction false} EntryTail(is64: bool, f: Frame, at: nat, mi: MethodInfo, length: nat, frame: nat, text: nat)
    requires FdeIs(is64, f.data, at, mi, length) && OnlyPatch(f.patches, PointerSize(is64), at, at + 4 + length)
    requires Inside(f.patches, PointerSize(is64), |f.data|) && |f.data| < WORD
    ensures var eh := PatchedFrame(is64, f, frame, text);
            ReadAt(eh, at, 4) == length && TailAt(is64, eh, at, mi.cfi.value, length)
  {
    var w := PointerSize(is64);
    var value := NewValue(PointerRelativeAddress, w, frame, text);
    FitsPointer(false, length);
    FieldKept(f.data, f.patches, w, value, at, 4, length);
    TailKept(is64, f.data, f.patches, value, at, mi.cfi.value, length);
  }

  lemma {:induction false} TailKept(is64: bool, data: seq<byte>, patches: seq<nat>, value: (nat, nat) -> nat, at: nat,
                                    cfi: seq<byte>, length: nat)
    requires TailAt(is64, data, at, cfi, length) && OnlyPatch(patches, PointerSize(is64), at, at + 4 + length)
    requires Inside(patches, PointerSize(is64), |data|)
    ensures TailAt(is64, Patched(data, patches, PointerSize(is64), value), at, cfi, length)
  {
    ClearKept(data, patches, PointerSize(is64), value, at + 8 + 2 * PointerSize(is64), at + 4 + length);
  }

  lemma {:induction false} TheoremEntryResolves(is64: bool, f: Frame, at: nat, mi: MethodInfo, length: nat, frame: nat,
                                                text: nat)
    requires PatchesInv(is64, f) && FdeIs(is64, f.data, at, mi, length) && at + 8 in f.patches && mi.highPc < WORD
    requires OnlyPatch(f.patches, PointerSize(is64), at, at + 4 + length) && |f.data| < WORD
    ensures Inside(f.patches, PointerSize(is64), |f.data|)
    ensures EntryResolves(is64, PatchedFrame(is64, f, frame, text), frame, at, text + mi.lowPc, mi.highPc - mi.lowPc,
                          mi.cfi.value)
  {
    PatchesInside(is64, f);
    EntryTail(is64, f, at, mi, length, frame, text);
    var k :| 0 <= k < |f.patches| && f.patches[k] == at + 8;
    EntryCode(is64, f, k, mi, frame, text);
    EntryPlainFields(is64, f, k, mi, frame, text);
  }

  predicate AddressesFit(f: Frame, infos: seq<MethodInfo>)
  {
    |f.data| < WORD && forall i :: 0 <= i < |infos| ==> infos[i].highPc < WORD
  }

  /** For every list of debug records: the table is strictly sorted and has a row for every address with unwind
      information, and the size of the frame keeps the header right behind it. */
  lemma {:induction false} TheoremUnwindTable(is64: bool, cie: seq<byte>, infos: seq<MethodInfo>)
    ensures var f := FrameOf(is64, cie, infos);
            && SortedTable(f.table) && |f.data| % 4 == 0
            && forall j :: 0 <= j < |infos| && infos[j].HasEntry() ==> HasAddress(f.table, infos[j].lowPc)
  {
    FrameKeepsInv(is64, cie, infos);
  }

  /** The entry that a row leads to describes a method at the address of the row. */
  lemma {:induction false} TheoremRowEntry(is64: bool, cie: seq<byte>, infos: seq<MethodInfo>, frame: nat, text: nat,
                                           k: nat) returns (i: nat)
    requires AddressesFit(FrameOf(is64, cie, infos), infos) && k < |FrameOf(is64, cie, infos).table|
    ensures var f := FrameOf(is64, cie, infos);
            && i < |infos| && infos[i].HasEntry() && infos[i].lowPc == f.table[k].lowPc < WORD
            && Inside(f.patches, PointerSize(is64), |f.data|)
            && EntryResolves(is64, PatchedFrame(is64, f, frame, text), frame, f.table[k].offset, text + infos[i].lowPc,
                             infos[i].highPc - infos[i].lowPc, infos[i].cfi.value)
  {
    FrameKeepsInv(is64, cie, infos);
    var f := FrameOf(is64, cie, infos);
    i := RowResolved(is64, f, infos, frame, text, k);
  }

  lemma {:induction false} RowResolved(is64: bool, f: Frame, infos: seq<MethodInfo>, frame: nat, text: nat, k: nat)
    returns (i: nat)
    requires RowsInv(is64, f, infos) && PatchesInv(is64, f) && AddressesFit(f, infos) && k < |f.table|
    ensures i < |infos| && infos[i].HasEntry() && infos[i].lowPc == f.table[k].lowPc < WORD
    ensures Inside(f.patches, PointerSize(is64), |f.data|)
    ensures EntryResolves(is64, PatchedFrame(is64, f, frame, text), frame, f.table[k].offset, text + infos[i].lowPc,
                          infos[i].highPc - infos[i].lowPc, infos[i].cfi.value)
  {
    var length;
    i, length := RowMethod(is64, f, infos, k);
    TheoremEntryResolves(is64, f, f.table[k].offset, infos[i], length, frame, text);
  }

  lemma {:induction false} RowMethod(is64: bool, f: Frame, infos: seq<MethodInfo>, k: nat)
    returns (i: nat, length: nat)
    requires RowsInv(is64, f, infos) && k < |f.table|
    ensures f.table[k].offset + 8 in f.patches
    ensures i < |infos| && infos[i].HasEntry() && infos[i].lowPc == f.table[k].lowPc
    ensures FdeIs(is64, f.data, f.table[k].offset, infos[i], length)
    ensures OnlyPatch(f.patches, PointerSize(is64), f.table[k].offset, f.table[k].offset + 4 + length)
  {
    var r := f.table[k];
    assert RowInv(is64, f.data, f.patches, infos, r);
    i, length :| RowIs(is64, f.data, f.patches, infos, r, i, length);
  }

  // ----- No two methods at one address -----

  /** Code ranges in increasing order, as the code pass records them. */
  predicate Increasing(infos: seq<MethodInfo>)
  {
    forall i, j :: 0 <= i < j < |infos| && infos[i].HasEntry() && infos[j].HasEntry() ==>
        infos[i].lowPc < infos[j].lowPc
  }

  function CountEntries(infos: seq<MethodInfo>): nat
  {
    if infos == [] then 0 else CountEntries(infos[..|infos| - 1]) + (if infos[|infos| - 1].HasEntry() then 1 else 0)
  }

  lemma {:induction false} EmplaceLast(table: seq<Row>, row: Row)
    requires forall r :: r in table ==> r.lowPc < row.lowPc
    ensures Emplace(table, row) == table + [row]
  {
    if table != [] {
      assert table[0] in table;
      EmplaceLast(table[1..], row);
    }
  }

  /** Then nothing collides: there is a row for every entry, in the order of the methods. */
  lemma {:induction false} TheoremNoCollision(is64: bool, cie: seq<byte>, infos: seq<MethodInfo>)
    requires Increasing(infos)
    ensures var f := FrameOf(is64, cie, infos);
            |f.table| == |f.patches| == CountEntries(infos) && forall k :: 0 <= k < |f.table| ==>
                f.table[k].offset + 8 == f.patches[k]
  {
    if infos != [] {
      var n := |infos| - 1;
      var f, mi := FrameOf(is64, cie, infos[..n]), infos[n];
      TheoremNoCollision(is64, cie, infos[..n]);
      if mi.HasEntry() {
        FrameKeepsInv(is64, cie, infos[..n]);
        forall r | r in f.table ensures r.lowPc < mi.lowPc {
          assert RowInv(is64, f.data, f.patches, infos[..n], r);
          var i: nat, length: nat :| RowIs(is64, f.data, f.patches, infos[..n], r, i, length);
        }
        EmplaceLast(f.table, Row(mi.lowPc, |f.data|));
      }
    }
  }
}
