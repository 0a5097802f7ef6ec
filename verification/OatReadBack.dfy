/** The finished oat file as the runtime reads it: from the records about the dex files to the class records, from
    there to the code, and from the header in front of the code to the tables. */
module OatReadBack {
  import opened Bytes
  import opened CodePatching
  import opened CompiledMethods
  import opened Options
  import opened OatCode
  import opened OatCodeAgreement
  import opened OatCodeTheorem
  import opened OatFile
  import opened OatLayout
  import opened OatVisitors
  import opened OatWriteVisitor
  import opened OatWholeFile
  import OatClassTable
  import OatMaps
  import OatRecords

  // ----- What is read of a method -----

  /** Position of a field in the method header. */
  function FieldPosition(kind: TableKind): nat
  {
    match kind case MappingTables => 0 case VmapTables => 4 case GcMaps => 8
  }

  /** A word of the header in front of `code`. */
  function HeaderField(file: seq<byte>, code: nat, position: nat): nat
    requires HEADER_SIZE <= code <= |file| && position + 4 <= HEADER_SIZE
  {
    Read32(file, code - HEADER_SIZE + position)
  }

  /** The distance back from the code leads to the table; no table is distance 0. */
  predicate TableReads(mem: OatMaps.Memory, file: seq<byte>, code: nat, p: Ptr, kind: TableKind)
    requires HEADER_SIZE <= code <= |file|
  {
    var distance := HeaderField(file, code, FieldPosition(kind));
    if OatMaps.Table(mem, p) == [] then distance == 0
    else 0 < distance <= code && StandsAt(file, code - distance, OatMaps.Table(mem, p))
  }

  /** The code offset leads to the patched code of `m`, its size and its three tables. */
  predicate ReadsBack(cfg: Config, file: seq<byte>, codeOffset: nat, m: CompiledMethod)
  {
    KeyReadsBack(cfg, file, codeOffset, KeyOf(m))
  }

  predicate KeyReadsBack(cfg: Config, file: seq<byte>, codeOffset: nat, m: Key)
  {
    var code, size := OatMaps.ClearThumb(codeOffset), |cfg.mem(m.code)|;
    && HEADER_SIZE <= code <= |file| && codeOffset < WORD
    && HeaderField(file, code, 24) == size
    && code + size <= |file| && IsPatched(cfg, cfg.mem(m.code), m.patches, code, file[code..code + size])
    && TableReads(cfg.mem, file, code, m.mapping, MappingTables)
    && TableReads(cfg.mem, file, code, m.vmap, VmapTables)
    && TableReads(cfg.mem, file, code, m.gcMap, GcMaps)
  }

  lemma {:induction false} ReadsCode(cfg: Config, file: seq<byte>, codeOffset: nat, code: nat, m: CompiledMethod)
    requires ReadsBack(cfg, file, codeOffset, m) && code == OatMaps.ClearThumb(codeOffset)
    ensures code + cfg.Size(m) <= |file| && IsPatched(cfg, cfg.mem(m.code), m.patches, code,
                                                      file[code..code + cfg.Size(m)])
  {
  }

  /** The header in front of `code` has the frame of `m`. */
  predicate FrameReads(file: seq<byte>, code: nat, m: CompiledMethod)
    requires HEADER_SIZE <= code <= |file|
  {
    && HeaderField(file, code, 12) == m.frameSize % WORD
    && HeaderField(file, code, 16) == m.coreSpillMask % WORD
    && HeaderField(file, code, 20) == m.fpSpillMask % WORD
  }

  lemma {:induction false} OnlyTheKey(cfg: Config, file: seq<byte>, codeOffset: nat, m: CompiledMethod,
                                      m': CompiledMethod)
    requires ReadsBack(cfg, file, codeOffset, m) && KeyOf(m) == KeyOf(m')
    ensures ReadsBack(cfg, file, codeOffset, m')
  {
  }

  // ----- Methods of classes and visits -----

  lemma {:induction false} BareIn(oc: OatClass, i: nat, j: nat)
    requires oc.Valid() && i < j <= |oc.methods| && oc.methods[i].Some?
    ensures var k := Compiled(oc.methods[..i]);
            k < |oc.slots| && k < |Bares(oc, j)| && Bares(oc, j)[k] == Bare(oc.methods[i].value, oc.slots[k])
  {
    CompiledGrows(oc.methods, i);
    CompiledGrows(oc.methods, j - 1);
    if i + 1 < j { BareIn(oc, i, j - 1); }
  }

  lemma {:induction false} BaresPrefix(classes: seq<OatClass>, c: nat, d: nat)
    requires AllValid(classes) && c <= d <= |classes|
    ensures AllBares(classes, c) <= AllBares(classes, d)
  {
    if c < d { BaresPrefix(classes, c, d - 1); }
  }

  /** Number of method `i` of class `c` among all compiled methods. */
  ghost function NumberOf(classes: seq<OatClass>, c: nat, i: nat): nat
    requires AllValid(classes) && c < |classes| && i < |classes[c].methods|
  {
    |AllBares(classes, c)| + Compiled(classes[c].methods[..i])
  }

  lemma {:induction false} BareAt(classes: seq<OatClass>, c: nat, i: nat)
    requires AllValid(classes) && c < |classes| && i < |classes[c].methods| && classes[c].methods[i].Some?
    ensures var k, n, all := Compiled(classes[c].methods[..i]), NumberOf(classes, c, i), AllBares(classes, |classes|);
            k < |classes[c].slots| && n < |all| && all[n] == Bare(classes[c].methods[i].value, classes[c].slots[k])
  {
    var oc := classes[c];
    BareIn(oc, i, |oc.methods|);
    BaresPrefix(classes, c + 1, |classes|);
    var k, n := Compiled(oc.methods[..i]), NumberOf(classes, c, i);
    assert AllBares(classes, c + 1)[n] == Bares(oc, |oc.methods|)[k];
  }

  // ----- The header in front of the code -----

  lemma {:induction false} WordAt(ws: seq<nat>, k: nat)
    requires k < |ws|
    ensures Read32(Words(ws), 4 * k) == ws[k] % WORD
  {
    var n := |ws| - 1;
    if k < n {
      WordAt(ws[..n], k);
      Read32Local(Words(ws), 4 * k, Words(ws[..n]), 4 * k);
    } else {
      Read32Local(Words(ws), 4 * n, Le32(ws[n] % WORD), 0);
    }
  }

  lemma {:induction false} SmallWord(x: nat)
    requires x < WORD
    ensures x % WORD == x
  {
  }

  /** `bytes` is the header that the code at `start` needs. */
  predicate HeaderIs(cfg: Config, v: Visited, start: nat, bytes: seq<byte>)
  {
    && |bytes| == HEADER_SIZE
    && Read32(bytes, 0) == Adjust(v.tables.mapping, start) && Read32(bytes, 4) == Adjust(v.tables.vmap, start)
    && Read32(bytes, 8) == Adjust(v.tables.gcMap, start) && Read32(bytes, 24) == cfg.Size(v.m)
    && Read32(bytes, 12) == v.m.frameSize % WORD && Read32(bytes, 16) == v.m.coreSpillMask % WORD
    && Read32(bytes, 20) == v.m.fpSpillMask % WORD
  }

  lemma {:induction false} AdjustFits(field: nat, start: nat)
    ensures Adjust(field, start) < WORD && Adjust(field, start) % WORD == Adjust(field, start)
  {
    SmallWord(Adjust(field, start));
  }

  lemma {:induction false} MadeHeaderIs(cfg: Config, v: Visited, start: nat)
    requires cfg.Size(v.m) < WORD
    ensures HeaderIs(cfg, v, start, HeaderBytes(MakeHeader(cfg, v, start)))
  {
    AdjustFits(v.tables.mapping, start);
    AdjustFits(v.tables.vmap, start);
    AdjustFits(v.tables.gcMap, start);
    var ws := HeaderFields(MakeHeader(cfg, v, start));
    WordAt(ws, 0);
    WordAt(ws, 1);
    WordAt(ws, 2);
    WordAt(ws, 3);
    WordAt(ws, 4);
    WordAt(ws, 5);
    WordAt(ws, 6);
    SmallWord(cfg.Size(v.m));
  }

  lemma {:induction false} BehindHeader(file: seq<byte>, from: nat, bytes: seq<byte>, rest: seq<byte>)
    requires StandsAt(file, from, bytes + rest)
    ensures StandsAt(file, from + |bytes|, rest)
  {
    var blob := bytes + rest;
    SliceOfSlice(file, from, |blob|, |bytes|, |rest|);
    assert blob[|bytes|..|bytes| + |rest|] == rest;
  }

  lemma {:induction false} SliceOfSlice(s: seq<byte>, from: nat, n: nat, at: nat, m: nat)
    requires from + n <= |s| && at + m <= n
    ensures s[from..from + n][at..at + m] == s[from + at..from + at + m]
  {
    var t, a, b := s[from..from + n], s[from..from + n][at..at + m], s[from + at..from + at + m];
    forall d | 0 <= d < m ensures a[d] == b[d] {
      assert a[d] == t[at + d] == s[from + at + d];
    }
  }

  lemma {:induction false} FieldOfBlob(file: seq<byte>, from: nat, bytes: seq<byte>, rest: seq<byte>, position: nat)
    requires StandsAt(file, from, bytes + rest) && position + 4 <= |bytes|
    ensures Read32(file, from + position) == Read32(bytes, position)
  {
    var blob := bytes + rest;
    var s := file[from..from + |blob|];
    assert s == blob && s[position..position + 4] == bytes[position..position + 4];
    SliceOfSlice(file, from, |blob|, position, 4);
    Read32Local(file, from + position, bytes, position);
  }

  // ----- Every compiled method -----

  /** The layout was made for code that the two passes agree on, in a file that 32-bit offsets reach. */
  ghost predicate Sound(b: Input, l: Layout, out: seq<byte>)
  {
    && LaidOut(b, l) && Written(b, l, out) && |out| < WORD
    && var vs := AllVisits(l.tabled, |l.tabled|);
       NonEmptyCode(b.cfg, vs) && NoTinyRepeat(b.cfg, vs)
  }

  lemma {:induction false} DistanceIs(offset: nat, start: nat)
    requires offset < start < WORD
    ensures Adjust(Diff(0, offset), start) == if offset == 0 then 0 else start - offset
  {
    if offset > 0 {
      assert Diff(0, offset) == WORD - offset;
      assert (WORD - offset + start) % WORD == start - offset;
    }
  }

  lemma {:induction false} ThumbCleared(start: nat, delta: nat)
    requires start % 4 == 0 && delta <= 1
    ensures OatMaps.ClearThumb(start + delta) == start
  {
    EvenAndBit(start / 2, delta);
    assert start == 2 * (start / 2);
  }

  lemma {:induction false} EvenAndBit(k: nat, delta: nat)
    requires delta <= 1
    ensures (2 * k + delta) % 2 == delta
  {
  }

  /** A header for `v` and then `code` stand in the file so that `codeOffset` leads to the code. */
  ghost predicate BlobStands(cfg: Config, base: nat, out: seq<byte>, v: Visited, codeOffset: nat, start: nat,
                             bytes: seq<byte>, code: seq<byte>)
  {
    && base + HEADER_SIZE <= start < WORD && OatMaps.ClearThumb(codeOffset) == start && codeOffset < WORD
    && HeaderIs(cfg, v, start, bytes) && StandsAt(out, start - HEADER_SIZE, bytes + code)
  }

  lemma {:induction false} LandsInFile(cfg: Config, base: nat, out: seq<byte>, p: Placed)
    requires base <= |out| < WORD && Landed(cfg, base, out[base..], p) && Start(cfg, p) >= HEADER_SIZE &&
             cfg.Size(p.m) > 0
    ensures StandsAt(out, Start(cfg, p) - HEADER_SIZE, Blob(cfg, p, Start(cfg, p))) && p.codeOffset < WORD
  {
    var from, n := Start(cfg, p) - HEADER_SIZE - base, HEADER_SIZE + cfg.Size(p.m);
    assert out[base + from..base + from + n] == out[base..][from..from + n];
  }

  lemma {:induction false} DeltaTaken(cfg: Config, p: Placed)
    requires cfg.Delta() <= p.codeOffset < WORD
    ensures Diff(p.codeOffset, cfg.Delta()) == Start(cfg, p)
  {
  }

  lemma {:induction false} FirstLandsAt(cfg: Config, base: nat, vs: seq<Visited>, j: nat)
    requires NonEmptyCode(cfg, vs) && NoTinyRepeat(cfg, vs) && j < |vs| && !Repeat(cfg, vs, j)
    ensures var end := InitPass(cfg, base, vs);
            |end.placed| == |vs| && Landed(cfg, base, WritePass(cfg, base, end).out, end.placed[j])
  {
    TheoremPassesAgree(cfg, base, vs);
  }

  /** The blob of a method that is not repeated, in the whole file. */
  lemma {:induction false} BlobInFile(cfg: Config, base: nat, vs: seq<Visited>, out: seq<byte>, j: nat, p: Placed,
                                      start: nat)
    requires NonEmptyCode(cfg, vs) && NoTinyRepeat(cfg, vs) && j < |vs| && !Repeat(cfg, vs, j)
    requires base <= |out| < WORD && out[base..] == WritePass(cfg, base, InitPass(cfg, base, vs)).out
    requires |InitPass(cfg, base, vs).placed| == |vs| && p == InitPass(cfg, base, vs).placed[j] &&
             start == Start(cfg, p)
    ensures p.m == vs[j].m && p.codeOffset < WORD && start >= base + HEADER_SIZE && start % 4 == 0
    ensures p.header == MakeHeader(cfg, vs[j], start) && StandsAt(out, start - HEADER_SIZE, Blob(cfg, p, start))
  {
    FirstLandsAt(cfg, base, vs, j);
    PlacedSo(cfg, base, vs, j, p, start);
    LandsInFile(cfg, base, out, p);
    DeltaTaken(cfg, p);
  }

  lemma {:induction false} PlacedSo(cfg: Config, base: nat, vs: seq<Visited>, j: nat, p: Placed, start: nat)
    requires j < |vs| && cfg.Delta() <= p.codeOffset
    requires |InitPass(cfg, base, vs).placed| == |vs| && p == InitPass(cfg, base, vs).placed[j] &&
             start == Start(cfg, p)
    ensures p.m == vs[j].m && start >= base + HEADER_SIZE && start % 4 == 0
    ensures p.header == MakeHeader(cfg, vs[j], Diff(p.codeOffset, cfg.Delta()))
  {
    PassPlaces(cfg, base, vs);
    PlacedHeader(cfg, base, vs, j);
  }

  lemma {:induction false} FieldReads(mem: OatMaps.Memory, file: seq<byte>, start: nat, p: Ptr, kind: TableKind,
                                      offset: nat)
    requires HEADER_SIZE <= start <= |file| && offset < start
    requires HeaderField(file, start, FieldPosition(kind)) == if offset == 0 then 0 else start - offset
    requires offset == 0 <==> OatMaps.Table(mem, p) == []
    requires OatMaps.Table(mem, p) != [] ==> StandsAt(file, offset, OatMaps.Table(mem, p))
    ensures TableReads(mem, file, start, p, kind)
  {
  }

  lemma {:induction false} KindStands(b: Input, l: Layout, out: seq<byte>, kind: TableKind, n: nat)
    requires b.Valid() && MapsAt(b, l, out) && n < |b.Tables(kind)| && n < |OffsetsOf(l, kind)|
    ensures var table := OatMaps.Table(b.cfg.mem, b.Tables(kind)[n]);
            table != [] ==> StandsAt(out, OffsetsOf(l, kind)[n], table)
  {
    assert TablesAt(out, b.cfg.mem, b.Tables(kind), OffsetsOf(l, kind));
  }

  lemma {:induction false} KindReads(b: Input, l: Layout, out: seq<byte>, n: nat, v: Visited, kind: TableKind,
                                     start: nat)
    requires LaidOut(b, l) && MapsAt(b, l, out)
    requires n < |AllVisits(l.tabled, |l.tabled|)| && v == AllVisits(l.tabled, |l.tabled|)[n]
    requires HEADER_SIZE <= start <= |out| && l.codeBase <= start < WORD
    requires HeaderField(out, start, FieldPosition(kind)) == Adjust(FieldOf(v.tables, kind), start)
    ensures TableReads(b.cfg.mem, out, start, TableOf(v.m, kind), kind)
  {
    VisitTable(b, l, n, kind);
    TableLaidOut(b, l, kind, n);
    KindStands(b, l, out, kind, n);
    TrampolinesBehind(b.cfg, PageEnd(l.mapsEnd), b.trampolines, |b.trampolines|);
    DistanceIs(OffsetsOf(l, kind)[n], start);
    FieldReads(b.cfg.mem, out, start, TableOf(v.m, kind), kind, OffsetsOf(l, kind)[n]);
  }

  /** The header gives the size and the field for each kind of table. */
  lemma {:induction false} KindField(cfg: Config, file: seq<byte>, v: Visited, start: nat, bytes: seq<byte>,
                                     code: seq<byte>, kind: TableKind)
    requires HEADER_SIZE <= start && HeaderIs(cfg, v, start, bytes) && StandsAt(file, start - HEADER_SIZE, bytes + code)
    ensures start <= |file| && HeaderField(file, start, FieldPosition(kind)) == Adjust(FieldOf(v.tables, kind), start)
    ensures HeaderField(file, start, 24) == cfg.Size(v.m)
  {
    FieldOfBlob(file, start - HEADER_SIZE, bytes, code, FieldPosition(kind));
    FieldOfBlob(file, start - HEADER_SIZE, bytes, code, 24);
  }

  lemma {:induction false} FrameField(cfg: Config, file: seq<byte>, v: Visited, start: nat, bytes: seq<byte>,
                                      code: seq<byte>)
    requires HEADER_SIZE <= start && HeaderIs(cfg, v, start, bytes) && StandsAt(file, start - HEADER_SIZE, bytes + code)
    ensures start <= |file| && FrameReads(file, start, v.m)
  {
    FieldOfBlob(file, start - HEADER_SIZE, bytes, code, 12);
    FieldOfBlob(file, start - HEADER_SIZE, bytes, code, 16);
    FieldOfBlob(file, start - HEADER_SIZE, bytes, code, 20);
  }

  lemma {:induction false} AllRead(cfg: Config, file: seq<byte>, codeOffset: nat, m: CompiledMethod, start: nat)
    requires HEADER_SIZE <= start <= |file| && OatMaps.ClearThumb(codeOffset) == start && codeOffset < WORD &&
             HeaderField(file, start, 24) == cfg.Size(m)
    requires StandsAt(file, start, PatchedCode(cfg, cfg.mem(m.code), m.patches, start))
    requires TableReads(cfg.mem, file, start, m.mapping, MappingTables)
    requires TableReads(cfg.mem, file, start, m.vmap, VmapTables) && TableReads(cfg.mem, file, start, m.gcMap, GcMaps)
    ensures ReadsBack(cfg, file, codeOffset, m)
  {
    TheoremPatchedCode(cfg, cfg.mem(m.code), m.patches, start);
  }

  lemma {:induction false} TableRead(b: Input, l: Layout, out: seq<byte>, j: nat, v: Visited, codeOffset: nat,
                                     start: nat, bytes: seq<byte>, code: seq<byte>, kind: TableKind)
    requires LaidOut(b, l) && MapsAt(b, l, out)
    requires j < |AllVisits(l.tabled, |l.tabled|)| && v == AllVisits(l.tabled, |l.tabled|)[j]
    requires BlobStands(b.cfg, l.codeBase, out, v, codeOffset, start, bytes, code)
    ensures HEADER_SIZE <= start <= |out| && TableReads(b.cfg.mem, out, start, TableOf(v.m, kind), kind)
  {
    KindField(b.cfg, out, v, start, bytes, code, kind);
    KindReads(b, l, out, j, v, kind, start);
  }

  lemma {:induction false} TablesRead(b: Input, l: Layout, out: seq<byte>, j: nat, v: Visited, codeOffset: nat,
                                      start: nat, bytes: seq<byte>, code: seq<byte>)
    requires LaidOut(b, l) && MapsAt(b, l, out)
    requires j < |AllVisits(l.tabled, |l.tabled|)| && v == AllVisits(l.tabled, |l.tabled|)[j]
    requires BlobStands(b.cfg, l.codeBase, out, v, codeOffset, start, bytes, code)
    ensures HEADER_SIZE <= start <= |out|
    ensures TableReads(b.cfg.mem, out, start, v.m.mapping, MappingTables)
    ensures TableReads(b.cfg.mem, out, start, v.m.vmap, VmapTables)
    ensures TableReads(b.cfg.mem, out, start, v.m.gcMap, GcMaps)
  {
    TableRead(b, l, out, j, v, codeOffset, start, bytes, code, MappingTables);
    TableRead(b, l, out, j, v, codeOffset, start, bytes, code, VmapTables);
    TableRead(b, l, out, j, v, codeOffset, start, bytes, code, GcMaps);
  }

  lemma {:induction false} BlobReads(cfg: Config, base: nat, out: seq<byte>, v: Visited, codeOffset: nat, start: nat,
                                     bytes: seq<byte>, code: seq<byte>)
    requires BlobStands(cfg, base, out, v, codeOffset, start, bytes, code)
    ensures HEADER_SIZE <= start <= |out| && OatMaps.ClearThumb(codeOffset) == start
    ensures HeaderField(out, start, 24) == cfg.Size(v.m) && StandsAt(out, start, code)
  {
    KindField(cfg, out, v, start, bytes, code, GcMaps);
    BehindHeader(out, start - HEADER_SIZE, bytes, code);
  }

  lemma {:induction false} BlobStandsSo(cfg: Config, base: nat, out: seq<byte>, v: Visited, p: Placed, start: nat)
    requires p.m == v.m && p.codeOffset < WORD && start == Start(cfg, p) >= base + HEADER_SIZE && start % 4 == 0 &&
             |out| < WORD
    requires p.header == MakeHeader(cfg, v, start) && StandsAt(out, start - HEADER_SIZE, Blob(cfg, p, start))
    ensures BlobStands(cfg, base, out, v, p.codeOffset, start, HeaderBytes(p.header),
                       PatchedCode(cfg, cfg.mem(v.m.code), v.m.patches, start))
  {
    MadeHeaderIs(cfg, v, start);
    ThumbCleared(start, cfg.Delta());
  }

  lemma {:induction false} StandingReads(b: Input, l: Layout, out: seq<byte>, j: nat, v: Visited, codeOffset: nat,
                                         start: nat, bytes: seq<byte>, code: seq<byte>)
    requires LaidOut(b, l) && MapsAt(b, l, out)
    requires j < |AllVisits(l.tabled, |l.tabled|)| && v == AllVisits(l.tabled, |l.tabled|)[j]
    requires BlobStands(b.cfg, l.codeBase, out, v, codeOffset, start, bytes, code)
    requires code == PatchedCode(b.cfg, b.cfg.mem(v.m.code), v.m.patches, start)
    ensures ReadsBack(b.cfg, out, codeOffset, v.m)
  {
    BlobReads(b.cfg, l.codeBase, out, v, codeOffset, start, bytes, code);
    TablesRead(b, l, out, j, v, codeOffset, start, bytes, code);
    AllRead(b.cfg, out, codeOffset, v.m, start);
  }

  lemma {:induction false} FirstBlob(b: Input, l: Layout, out: seq<byte>, vs: seq<Visited>, j: nat, p: Placed,
                                     start: nat)
    requires Sound(b, l, out) && vs == AllVisits(l.tabled, |l.tabled|) && j < |vs| && !Repeat(b.cfg, vs, j)
    requires |InitPass(b.cfg, l.codeBase, vs).placed| == |vs| && p == InitPass(b.cfg, l.codeBase, vs).placed[j] &&
             start == Start(b.cfg, p)
    ensures BlobStands(b.cfg, l.codeBase, out, vs[j], p.codeOffset, start, HeaderBytes(p.header),
                       PatchedCode(b.cfg, b.cfg.mem(vs[j].m.code), vs[j].m.patches, start))
  {
    BlobInFile(b.cfg, l.codeBase, vs, out, j, p, start);
    BlobStandsSo(b.cfg, l.codeBase, out, vs[j], p, start);
  }

  lemma {:induction false} FirstReadsBack(b: Input, l: Layout, out: seq<byte>, vs: seq<Visited>, j: nat, p: Placed)
    requires Sound(b, l, out) && vs == AllVisits(l.tabled, |l.tabled|) && j < |vs| && !Repeat(b.cfg, vs, j)
    requires |InitPass(b.cfg, l.codeBase, vs).placed| == |vs| && p == InitPass(b.cfg, l.codeBase, vs).placed[j]
    ensures ReadsBack(b.cfg, out, p.codeOffset, vs[j].m)
  {
    var start := p.codeOffset - b.cfg.Delta();
    PlacedHeader(b.cfg, l.codeBase, vs, j);
    FirstBlob(b, l, out, vs, j, p, start);
    StandingReads(b, l, out, j, vs[j], p.codeOffset, start, HeaderBytes(p.header),
                  PatchedCode(b.cfg, b.cfg.mem(vs[j].m.code), vs[j].m.patches, start));
  }

  lemma {:induction false} VisitReadsBack(b: Input, l: Layout, out: seq<byte>, vs: seq<Visited>, n: nat)
    requires Sound(b, l, out) && vs == AllVisits(l.tabled, |l.tabled|) && n < |vs|
    ensures var placed := InitPass(b.cfg, l.codeBase, vs).placed;
            |placed| == |vs| && ReadsBack(b.cfg, out, placed[n].codeOffset, vs[n].m)
  {
    var cfg, base := b.cfg, l.codeBase;
    var placed := InitPass(cfg, base, vs).placed;
    PassPlaces(cfg, base, vs);
    if Repeat(cfg, vs, n) {
      var j := OatRecords.TheoremRepeatsShareRange(cfg, base, vs, n);
      FirstReadsBack(b, l, out, vs, j, placed[j]);
      assert placed[n].codeOffset == placed[j].codeOffset;
      OnlyTheKey(cfg, out, placed[j].codeOffset, vs[j].m, vs[n].m);
    } else {
      FirstReadsBack(b, l, out, vs, n, placed[n]);
    }
  }

  /** The code offset in the slot of every compiled method leads to that method's code and tables. */
  lemma {:induction false} TheoremMethodReadsBack(b: Input, l: Layout, out: seq<byte>, c: nat, i: nat)
    requires Sound(b, l, out) && c < |b.classes| && i < |b.classes[c].methods| && b.classes[c].methods[i].Some?
    ensures var k := Compiled(b.classes[c].methods[..i]);
            k < |l.filled[c].slots| && ReadsBack(b.cfg, out, l.filled[c].slots[k].codeOffset,
                                                 b.classes[c].methods[i].value)
  {
    var vs := AllVisits(l.tabled, |l.tabled|);
    var placed := InitPass(b.cfg, l.codeBase, vs).placed;
    BareAt(l.filled, c, i);
    AllBaresMatch(l.tabled, l.filled, |l.tabled|);
    var n := NumberOf(l.filled, c, i);
    PassPlaces(b.cfg, l.codeBase, vs);
    SlotsOfAt(placed, n);
    VisitReadsBack(b, l, out, vs, n);
  }

  /** The frame that the header gives for a method is that of the first method with the same key: the comparator does
      not look at frames. */
  lemma {:induction false} TheoremFrameReadsBack(b: Input, l: Layout, out: seq<byte>, vs: seq<Visited>, n: nat)
    returns (j: nat)
    requires Sound(b, l, out) && vs == AllVisits(l.tabled, |l.tabled|) && n < |vs|
    ensures j <= n && !Repeat(b.cfg, vs, j) && KeyOf(vs[j].m) == KeyOf(vs[n].m)
    ensures var placed := InitPass(b.cfg, l.codeBase, vs).placed;
            |placed| == |vs| &&
            var code := OatMaps.ClearThumb(placed[n].codeOffset);
            HEADER_SIZE <= code <= |out| && FrameReads(out, code, vs[j].m)
  {
    j := FirstOffset(b.cfg, l.codeBase, vs, n);
    FirstFrame(b, l, out, vs, j);
  }

  lemma {:induction false} FirstOffset(cfg: Config, base: nat, vs: seq<Visited>, n: nat) returns (j: nat)
    requires n < |vs|
    ensures j <= n && !Repeat(cfg, vs, j) && KeyOf(vs[j].m) == KeyOf(vs[n].m)
    ensures |InitPass(cfg, base, vs).placed| == |vs|
    ensures InitPass(cfg, base, vs).placed[n].codeOffset == InitPass(cfg, base, vs).placed[j].codeOffset
  {
    PassPlaces(cfg, base, vs);
    j := n;
    if Repeat(cfg, vs, n) { j := OatRecords.TheoremRepeatsShareRange(cfg, base, vs, n); }
  }

  lemma {:induction false} FirstFrame(b: Input, l: Layout, out: seq<byte>, vs: seq<Visited>, j: nat)
    requires Sound(b, l, out) && vs == AllVisits(l.tabled, |l.tabled|) && j < |vs| && !Repeat(b.cfg, vs, j)
    ensures |InitPass(b.cfg, l.codeBase, vs).placed| == |vs|
    ensures var code := OatMaps.ClearThumb(InitPass(b.cfg, l.codeBase, vs).placed[j].codeOffset);
            HEADER_SIZE <= code <= |out| && FrameReads(out, code, vs[j].m)
  {
    PassPlaces(b.cfg, l.codeBase, vs);
    PlacedHeader(b.cfg, l.codeBase, vs, j);
    var p := InitPass(b.cfg, l.codeBase, vs).placed[j];
    var start := p.codeOffset - b.cfg.Delta();
    var bytes, code := HeaderBytes(p.header), PatchedCode(b.cfg, b.cfg.mem(vs[j].m.code), vs[j].m.patches, start);
    FirstBlob(b, l, out, vs, j, p, start);
    BlobFrame(b.cfg, l.codeBase, out, vs[j], p.codeOffset, start, bytes, code);
  }

  lemma {:induction false} BlobFrame(cfg: Config, base: nat, out: seq<byte>, v: Visited, codeOffset: nat, start: nat,
                                     bytes: seq<byte>, code: seq<byte>)
    requires BlobStands(cfg, base, out, v, codeOffset, start, bytes, code)
    ensures OatMaps.ClearThumb(codeOffset) == start && HEADER_SIZE <= start <= |out| && FrameReads(out, start, v.m)
  {
    FrameField(cfg, out, v, start, bytes, code);
  }

  // ----- The records about the dex files -----

  /** What the runtime keeps of a dex file. */
  datatype ReadDex = ReadDex(location: seq<byte>, checksum: nat, fileOffset: nat, classOffsetsAt: nat)

  const DEX_MAGIC: seq<byte> := [0x64, 0x65, 0x78, 0x0a]
  const DEX_VERSION: seq<byte> := [0x30, 0x33, 0x35, 0]

  /** A dex header with the right magic and version stands at `at`. */
  predicate IsDex(file: seq<byte>, at: nat)
  {
    at + 112 <= |file| && file[at..at + 4] == DEX_MAGIC && file[at + 4..at + 8] == DEX_VERSION
  }

  /** The number of classes in a dex header. */
  function ClassDefsSize(file: seq<byte>, at: nat): nat
    requires at + 112 <= |file|
  {
    Read32(file, at + 96)
  }

  /** One record and the position behind it; nothing if the location is empty, the file ends too early, or the offset
      leads to no dex file. */
  function ReadRecord(file: seq<byte>, at: nat): Option<(ReadDex, nat)>
  {
    if at + 4 > |file| then None
    else
      var n := Read32(file, at);
      var behind := at + 4 + n;
      if n == 0 || behind + 8 > |file| then None
      else
        var fileOffset := Read32(file, behind + 4);
        if fileOffset == 0 || fileOffset > |file| || !IsDex(file, fileOffset) then None
        else
          var next := behind + 8 + 4 * ClassDefsSize(file, fileOffset);
          if next > |file| then None else Some((ReadDex(file[at + 4..behind], Read32(file, behind), fileOffset,
                                                        behind + 8), next))
  }

  /** The first `n` records. */
  function ReadRecords(file: seq<byte>, start: nat, n: nat): Option<(seq<ReadDex>, nat)>
  {
    if n == 0 then Some(([], start))
    else
      match ReadRecords(file, start, n - 1)
      case None => None
      case Some((records, at)) =>
        match ReadRecord(file, at)
        case None => None
        case Some((record, next)) => Some((records + [record], next))
  }

  lemma {:induction false} NoneStays(file: seq<byte>, start: nat, n: nat, m: nat)
    requires n <= m && ReadRecords(file, start, n).None?
    ensures ReadRecords(file, start, m).None?
  {
    if n < m { NoneStays(file, start, n, m - 1); }
  }

  lemma {:induction false} NextRecords(file: seq<byte>, start: nat, n: nat, records: seq<ReadDex>, at: nat,
                                       r: Option<(ReadDex, nat)>)
    requires ReadRecords(file, start, n) == Some((records, at)) && r == ReadRecord(file, at)
    ensures ReadRecords(file, start, n + 1) == if r.None? then None else Some((records + [r.value.0], r.value.1))
  {
  }

  /** Reads the records of any file, until one is wrong. */
  method Setup(file: seq<byte>, start: nat, count: nat) returns (dexFiles: Option<seq<ReadDex>>)
    ensures var r := ReadRecords(file, start, count); if r.None? then dexFiles == None else dexFiles == Some(r.value.0)
  {
    var at, records := start, [];
    for i := 0 to count
      invariant ReadRecords(file, start, i) == Some((records, at))
    {
      var r := ReadRecord(file, at);
      NextRecords(file, start, i, records, at, r);
      if r.None? {
        NoneStays(file, start, i + 1, count);
        return None;
      }
      at, records := r.value.1, records + [r.value.0];
    }
    return Some(records);
  }

  /** What is known of a dex file when it is written: numbers fit four bytes, and the header counts the classes. */
  predicate DexFits(d: DexFile)
  {
    |d.location| < WORD && d.checksum < WORD && |d.file| >= 112 && ClassDefsSize(d.file, 0) == d.classDefs
  }

  predicate AllFit(ds: seq<DexFile>)
  {
    forall i :: 0 <= i < |ds| ==> DexFits(ds[i])
  }

  /** The runtime takes a dex file with a location and a valid header. */
  predicate Accepted(d: DexFile)
  {
    d.location != [] && IsDex(d.file, 0)
  }

  function DexAs(d: DexFile, at: nat, fileOffset: nat): ReadDex
  {
    ReadDex(d.location, d.checksum, fileOffset, at + 12 + |d.location|)
  }

  predicate AllAccepted(ds: seq<DexFile>, n: nat)
    requires n <= |ds|
  {
    forall i :: 0 <= i < n ==> Accepted(ds[i])
  }

  lemma {:induction false} RecordParts(d: DexFile, fileOffset: nat, classOffsets: seq<nat>)
    requires |classOffsets| == d.classDefs
    ensures var r, n := DexRecord(d, fileOffset, classOffsets), |d.location|;
            && |r| == 12 + n + 4 * d.classDefs && r[0..4] == Enc(n, 4) && r[4..4 + n] == d.location
            && r[4 + n..8 + n] == Enc(d.checksum, 4)
            && r[8 + n..12 + n] == Enc(fileOffset, 4) && r[12 + n..] == OatClassTable.Slots(classOffsets)
  {
  }

  lemma {:induction false} PieceOf(file: seq<byte>, at: nat, part: seq<byte>, i: nat, j: nat)
    requires StandsAt(file, at, part) && i <= j <= |part|
    ensures at + j <= |file| && file[at + i..at + j] == part[i..j]
  {
    SliceOfSlice(file, at, |part|, i, j - i);
  }

  lemma {:induction false} WordPiece(file: seq<byte>, at: nat, part: seq<byte>, i: nat, v: nat)
    requires StandsAt(file, at, part) && i + 4 <= |part| && v < WORD && part[i..i + 4] == Enc(v, 4)
    ensures at + i + 4 <= |file| && Read32(file, at + i) == v
  {
    PieceOf(file, at, part, i, i + 4);
    ReadEnc(v);
    Read32Local(file, at + i, Enc(v, 4), 0);
  }

  lemma {:induction false} ReadEnc(v: nat)
    requires v < WORD
    ensures Read32(Enc(v, 4), 0) == v
  {
    OatClassTable.WordFits(v);
    DecIsRead32(Enc(v, 4));
  }

  /** The numbers and the location of a record in the file. */
  predicate RecordIs(file: seq<byte>, at: nat, d: DexFile, fileOffset: nat)
  {
    var n := |d.location|;
    && at + 12 + n + 4 * d.classDefs <= |file| && Read32(file, at) == n && file[at + 4..at + 4 + n] == d.location
    && Read32(file, at + 4 + n) == d.checksum && Read32(file, at + 8 + n) == fileOffset
  }

  lemma {:induction false} RecordPieces(file: seq<byte>, at: nat, d: DexFile, fileOffset: nat, r: seq<byte>)
    requires StandsAt(file, at, r) && |d.location| < WORD && d.checksum < WORD && fileOffset < WORD
    requires var n := |d.location|;
             && |r| == 12 + n + 4 * d.classDefs && r[0..4] == Enc(n, 4) && r[4..4 + n] == d.location
             && r[4 + n..8 + n] == Enc(d.checksum, 4) && r[8 + n..12 + n] == Enc(fileOffset, 4)
    ensures RecordIs(file, at, d, fileOffset)
  {
    var n := |d.location|;
    WordPiece(file, at, r, 0, n);
    PieceOf(file, at, r, 4, 4 + n);
    WordPiece(file, at, r, 4 + n, d.checksum);
    WordPiece(file, at, r, 8 + n, fileOffset);
  }

  lemma {:induction false} RecordStands(file: seq<byte>, at: nat, d: DexFile, fileOffset: nat, classOffsets: seq<nat>)
    requires |classOffsets| == d.classDefs && StandsAt(file, at, DexRecord(d, fileOffset, classOffsets))
    requires |d.location| < WORD && d.checksum < WORD && fileOffset < WORD
    ensures RecordIs(file, at, d, fileOffset)
  {
    RecordParts(d, fileOffset, classOffsets);
    RecordPieces(file, at, d, fileOffset, DexRecord(d, fileOffset, classOffsets));
  }

  /** The header of a dex file, where it stands. */
  predicate DexIs(file: seq<byte>, d: DexFile, fileOffset: nat)
  {
    && 0 < fileOffset && fileOffset + 112 <= |file| && ClassDefsSize(file, fileOffset) == d.classDefs
    && (IsDex(file, fileOffset) <==> IsDex(d.file, 0))
  }

  lemma {:induction false} DexStands(file: seq<byte>, d: DexFile, fileOffset: nat)
    requires StandsAt(file, fileOffset, d.file) && DexFits(d) && 0 < fileOffset
    ensures DexIs(file, d, fileOffset)
  {
    PieceOf(file, fileOffset, d.file, 0, 4);
    PieceOf(file, fileOffset, d.file, 4, 8);
    PieceOf(file, fileOffset, d.file, 96, 100);
    Read32Local(file, fileOffset + 96, d.file, 96);
  }

  /** A record that stands in the file reads back exactly if its dex file is accepted. */
  lemma {:induction false} RecordReads(file: seq<byte>, at: nat, d: DexFile, fileOffset: nat)
    requires RecordIs(file, at, d, fileOffset) && DexIs(file, d, fileOffset)
    ensures ReadRecord(file, at) == if Accepted(d) then Some((DexAs(d, at, fileOffset), at + RecordSize(d))) else None
  {
  }

  lemma {:induction false} RecordsGrow(base: nat, ds: seq<DexFile>, n: nat)
    requires n <= |ds|
    ensures base + 12 * n <= RecordsEnd(base, ds, n)
  {
    if n > 0 { RecordsGrow(base, ds, n - 1); }
  }

  lemma {:induction false} FileOffsetRight(b: Input, l: Layout, file: seq<byte>, i: nat)
    requires b.Valid() && TablesLaidOut(b, l) && FrontAt(b, l, file) && i < |b.dexFiles|
    ensures 0 < l.dexOffsets[i] <= |file| && StandsAt(file, l.dexOffsets[i], b.dexFiles[i].file)
  {
    RecordsGrow(b.RecordsBase(), b.dexFiles, |b.dexFiles|);
    FilesBehind(b.DexBase(), b.dexFiles, i);
    assert StandsAt(file, l.dexOffsets[i], Files(b.dexFiles)[i]);
  }

  function RecordAt(b: Input, i: nat): nat
    requires i <= |b.dexFiles|
  {
    RecordsEnd(b.RecordsBase(), b.dexFiles, i)
  }

  /** The records with the offsets of the dex files and of all classes. */
  predicate RecordsAt(file: seq<byte>, base: nat, ds: seq<DexFile>, fileOffsets: seq<nat>, classOffsets: seq<nat>)
  {
    && |fileOffsets| == |ds| && |classOffsets| == ClassDefs(ds, |ds|)
    && PartsAt(file, RecordStarts(base, ds), DexRecords(ds, fileOffsets, classOffsets), |ds|)
  }

  lemma {:induction false} RecordInFile(file: seq<byte>, base: nat, ds: seq<DexFile>, fileOffsets: seq<nat>,
                                        classOffsets: seq<nat>, i: nat)
    requires RecordsAt(file, base, ds, fileOffsets, classOffsets) && i < |ds|
    ensures StandsAt(file, RecordsEnd(base, ds, i), DexRecord(ds[i], fileOffsets[i], ClassesOf(ds, classOffsets, i)))
  {
    var starts, parts := RecordStarts(base, ds), DexRecords(ds, fileOffsets, classOffsets);
    assert StandsAt(file, starts[i], parts[i]);
  }

  lemma {:induction false} RecordIsInFile(b: Input, l: Layout, file: seq<byte>, i: nat)
    requires b.Valid() && TablesLaidOut(b, l) && FrontAt(b, l, file) && |file| < WORD && AllFit(b.dexFiles) &&
             i < |b.dexFiles|
    ensures RecordIs(file, RecordAt(b, i), b.dexFiles[i], l.dexOffsets[i])
  {
    RecordInFile(file, b.RecordsBase(), b.dexFiles, l.dexOffsets, l.classOffsets, i);
    FileOffsetRight(b, l, file, i);
    RecordStands(file, RecordAt(b, i), b.dexFiles[i], l.dexOffsets[i], ClassesOf(b.dexFiles, l.classOffsets, i));
  }

  /** All records are in the file, with dex file offsets that can be right. */
  predicate RecordsIn(file: seq<byte>, base: nat, ds: seq<DexFile>, offsets: seq<nat>)
  {
    |offsets| == |ds| && forall i {:trigger offsets[i]} :: 0 <= i < |ds| ==>
      RecordIs(file, RecordsEnd(base, ds, i), ds[i], offsets[i]) && DexIs(file, ds[i], offsets[i])
  }

  lemma {:induction false} AllRecordsIn(b: Input, l: Layout, file: seq<byte>)
    requires b.Valid() && TablesLaidOut(b, l) && FrontAt(b, l, file) && |file| < WORD && AllFit(b.dexFiles)
    ensures RecordsIn(file, b.RecordsBase(), b.dexFiles, l.dexOffsets)
  {
    forall i {:trigger l.dexOffsets[i]} | 0 <= i < |b.dexFiles|
      ensures RecordIs(file, RecordAt(b, i), b.dexFiles[i], l.dexOffsets[i]) &&
              DexIs(file, b.dexFiles[i], l.dexOffsets[i])
    {
      RecordIsInFile(b, l, file, i);
      FileOffsetRight(b, l, file, i);
      DexStands(file, b.dexFiles[i], l.dexOffsets[i]);
    }
  }

  /** What reading the first `n` records should give. */
  function ReadAs(base: nat, ds: seq<DexFile>, offsets: seq<nat>, n: nat): (r: seq<ReadDex>)
    requires n <= |ds| == |offsets|
    ensures |r| == n
  {
    if n == 0 then [] else ReadAs(base, ds, offsets,
                                  n - 1) + [DexAs(ds[n - 1], RecordsEnd(base, ds, n - 1), offsets[n - 1])]
  }

  lemma {:induction false} ReadStep(file: seq<byte>, start: nat, n: nat, records: seq<ReadDex>, at: nat, d: DexFile,
                                    fileOffset: nat, next: nat)
    requires next == at + RecordSize(d) && ReadRecords(file, start, n) == Some((records, at)) &&
             RecordIs(file, at, d, fileOffset) && DexIs(file, d, fileOffset)
    ensures ReadRecords(file, start, n + 1) ==
            if Accepted(d) then Some((records + [DexAs(d, at, fileOffset)], next)) else None
  {
    RecordReads(file, at, d, fileOffset);
    NextRecords(file, start, n, records, at, ReadRecord(file, at));
  }

  lemma {:induction false} RecordOf(file: seq<byte>, base: nat, ds: seq<DexFile>, offsets: seq<nat>, i: nat)
    requires RecordsIn(file, base, ds, offsets) && i < |ds|
    ensures RecordIs(file, RecordsEnd(base, ds, i), ds[i], offsets[i]) && DexIs(file, ds[i], offsets[i])
  {
  }

  lemma {:induction false} ReadUpTo(file: seq<byte>, base: nat, ds: seq<DexFile>, offsets: seq<nat>, n: nat)
    requires RecordsIn(file, base, ds, offsets) && n <= |ds|
    ensures ReadRecords(file, base, n) ==
            if AllAccepted(ds, n) then Some((ReadAs(base, ds, offsets, n), RecordsEnd(base, ds, n))) else None
  {
    if n > 0 {
      ReadUpTo(file, base, ds, offsets, n - 1);
      if AllAccepted(ds, n - 1) {
        RecordOf(file, base, ds, offsets, n - 1);
        ReadStep(file, base, n - 1, ReadAs(base, ds, offsets, n - 1), RecordsEnd(base, ds, n - 1), ds[n - 1],
                 offsets[n - 1], RecordsEnd(base, ds, n));
      } else {
        NoneStays(file, base, n - 1, n);
      }
    }
  }

  /** The records of a finished file give every dex file back, if all have a location and a valid header, and are
      refused otherwise. */
  lemma {:induction false} TheoremRecordsReadBack(b: Input, l: Layout, file: seq<byte>)
    requires b.Valid() && TablesLaidOut(b, l) && FrontAt(b, l, file) && |file| < WORD && AllFit(b.dexFiles)
    ensures ReadRecords(file, b.RecordsBase(), |b.dexFiles|) ==
            if AllAccepted(b.dexFiles, |b.dexFiles|) then Some((ReadAs(b.RecordsBase(), b.dexFiles, l.dexOffsets,
                                                                       |b.dexFiles|), b.DexBase())) else None
  {
    AllRecordsIn(b, l, file);
    ReadUpTo(file, b.RecordsBase(), b.dexFiles, l.dexOffsets, |b.dexFiles|);
  }

  lemma {:induction false} ReadAsAt(base: nat, ds: seq<DexFile>, offsets: seq<nat>, n: nat, i: nat)
    requires i < n <= |ds| == |offsets|
    ensures ReadAs(base, ds, offsets, n)[i] == DexAs(ds[i], RecordsEnd(base, ds, i), offsets[i])
  {
    if i < n - 1 { ReadAsAt(base, ds, offsets, n - 1, i); }
  }

  // ----- From a dex file to the code of a method -----

  lemma {:induction false} ClassInFile(b: Input, l: Layout, file: seq<byte>, c: nat)
    requires LaidOut(b, l) && ClassesAt(b, l, file) && c < |b.classes|
    ensures |CodeOffsets(l.filled[c].slots)| == Compiled(b.classes[c].methods)
    ensures StandsAt(file, l.classOffsets[c], OatClassTable.Record(b.statuses[c], b.classes[c].methods,
                                                                   CodeOffsets(l.filled[c].slots)))
  {
    assert StandsAt(file, l.classOffsets[c], ClassRecords(b.statuses, l.filled)[c]);
  }

  lemma {:induction false} ClassStarts(b: Input, l: Layout, file: seq<byte>, c: nat)
    requires LaidOut(b, l) && ClassesAt(b, l, file) && c < |b.classes|
    ensures |l.classOffsets| == |b.classes| && l.classOffsets[c] <= |file|
  {
    assert StandsAt(file, l.classOffsets[c], ClassRecords(b.statuses, l.filled)[c]);
  }

  lemma {:induction false} ClassOf(ds: seq<DexFile>, classOffsets: seq<nat>, d: nat, k: nat)
    requires d < |ds| && k < ds[d].classDefs && |classOffsets| == ClassDefs(ds, |ds|)
    ensures ClassDefs(ds, d) + k < |classOffsets| &&
            ClassesOf(ds, classOffsets, d)[k] == classOffsets[ClassDefs(ds, d) + k]
  {
    ClassDefsGrow(ds, d);
  }

  lemma {:induction false} OffsetInRecord(dex: DexFile, fileOffset: nat, offsets: seq<nat>, k: nat)
    requires |offsets| == dex.classDefs && k < |offsets|
    ensures var r, i := DexRecord(dex, fileOffset, offsets), 12 + |dex.location| + 4 * k;
            i + 4 <= |r| && r[i..i + 4] == Enc(offsets[k], 4)
  {
    var r, n := DexRecord(dex, fileOffset, offsets), 12 + |dex.location|;
    RecordParts(dex, fileOffset, offsets);
    OatClassTable.SlotAt(offsets, k);
    SlotInRecord(r, OatClassTable.Slots(offsets), n, k, offsets[k]);
  }

  lemma {:induction false} RecordBytes(file: seq<byte>, base: nat, ds: seq<DexFile>, fileOffsets: seq<nat>,
                                       classOffsets: seq<nat>, d: nat, k: nat)
    returns (part: seq<byte>)
    requires RecordsAt(file, base, ds, fileOffsets, classOffsets) && d < |ds| && k < ds[d].classDefs
    ensures StandsAt(file, RecordsEnd(base, ds, d), part)
    ensures var i := 12 + |ds[d].location| + 4 * k;
            i + 4 <= |part| && part[i..i + 4] == Enc(ClassesOf(ds, classOffsets, d)[k], 4)
  {
    RecordInFile(file, base, ds, fileOffsets, classOffsets, d);
    OffsetInRecord(ds[d], fileOffsets[d], ClassesOf(ds, classOffsets, d), k);
    part := DexRecord(ds[d], fileOffsets[d], ClassesOf(ds, classOffsets, d));
  }

  lemma {:induction false} RecordOffsetReads(file: seq<byte>, base: nat, ds: seq<DexFile>, fileOffsets: seq<nat>,
                                             classOffsets: seq<nat>, d: nat, k: nat)
    requires RecordsAt(file, base, ds, fileOffsets, classOffsets) && d < |ds| && k < ds[d].classDefs
    requires ClassesOf(ds, classOffsets, d)[k] < WORD
    ensures var at := RecordsEnd(base, ds, d) + 12 + |ds[d].location| + 4 * k;
            at + 4 <= |file| && Read32(file, at) == ClassesOf(ds, classOffsets, d)[k]
  {
    var part := RecordBytes(file, base, ds, fileOffsets, classOffsets, d, k);
    WordPiece(file, RecordsEnd(base, ds, d), part, 12 + |ds[d].location| + 4 * k, ClassesOf(ds, classOffsets, d)[k]);
  }

  /** The class offset behind the record of dex file `d`. */
  lemma {:induction false} ClassOffsetReads(file: seq<byte>, base: nat, ds: seq<DexFile>, fileOffsets: seq<nat>,
                                            classOffsets: seq<nat>, d: nat, k: nat, c: nat)
    requires RecordsAt(file, base, ds, fileOffsets, classOffsets) && d < |ds| && k < ds[d].classDefs
    requires c == ClassDefs(ds, d) + k < |classOffsets| && classOffsets[c] < WORD
    ensures var at := RecordsEnd(base, ds, d) + 12 + |ds[d].location| + 4 * k;
            at + 4 <= |file| && Read32(file, at) == classOffsets[c]
  {
    ClassOf(ds, classOffsets, d, k);
    RecordOffsetReads(file, base, ds, fileOffsets, classOffsets, d, k);
  }

  lemma {:induction false} RecordsStand(b: Input, l: Layout, file: seq<byte>)
    requires b.Valid() && TablesLaidOut(b, l) && FrontAt(b, l, file)
    ensures RecordsAt(file, b.RecordsBase(), b.dexFiles, l.dexOffsets, l.classOffsets)
  {
  }

  lemma {:induction false} SlotInRecord(r: seq<byte>, slots: seq<byte>, n: nat, k: nat, v: nat)
    requires n <= |r| && r[n..] == slots && 4 * k + 4 <= |slots| && slots[4 * k..4 * k + 4] == Enc(v, 4)
    ensures r[n + 4 * k..n + 4 * k + 4] == Enc(v, 4)
  {
    assert r[n..][4 * k..4 * k + 4] == r[n + 4 * k..n + 4 * k + 4];
  }

  lemma {:induction false} TailHasPart(file: seq<byte>, at: nat, part: seq<byte>)
    requires StandsAt(file, at, part)
    ensures at <= |file| && part <= file[at..]
  {
    assert file[at..][..|part|] == file[at..at + |part|];
  }

  lemma {:induction false} BitmapFits(status: nat, methods: OatClassTable.Methods, offsets: seq<nat>, n: nat)
    requires |offsets| == Compiled(methods) && |OatClassTable.Record(status, methods, offsets)| <= n
    ensures OatClassTable.BitmapSize(methods) <= n
  {
  }

  /** The class record and what the lookup in it needs. */
  lemma {:induction false} ClassFits(b: Input, l: Layout, file: seq<byte>, c: nat)
    requires LaidOut(b, l) && ClassesAt(b, l, file) && c < |b.classes|
    ensures |CodeOffsets(l.filled[c].slots)| == Compiled(b.classes[c].methods)
    ensures l.classOffsets[c] <= |file|
    ensures OatClassTable.Record(b.statuses[c], b.classes[c].methods,
                                 CodeOffsets(l.filled[c].slots)) <= file[l.classOffsets[c]..]
    ensures OatClassTable.BitmapSize(b.classes[c].methods) <= |file|
  {
    ClassInFile(b, l, file, c);
    var methods, offsets := b.classes[c].methods, CodeOffsets(l.filled[c].slots);
    TailHasPart(file, l.classOffsets[c], OatClassTable.Record(b.statuses[c], methods, offsets));
    BitmapFits(b.statuses[c], methods, offsets, |file|);
  }

  /** What the slots of a class hold for method `i` is its code offset, if it is compiled. */
  lemma {:induction false} SlotReadsBack(b: Input, l: Layout, file: seq<byte>, c: nat, i: nat, offsets: seq<nat>)
    requires Sound(b, l, file) && c < |b.classes| && i < |b.classes[c].methods|
    requires |offsets| == Compiled(b.classes[c].methods) && offsets == CodeOffsets(l.filled[c].slots)
    ensures Finds(b.cfg, file, b.classes[c].methods[i], OatClassTable.CodeOffset(b.classes[c].methods, offsets, i))
  {
    if b.classes[c].methods[i].Some? { TheoremMethodReadsBack(b, l, file, c, i); }
  }

  /** The code offset found for a method: none if it is not compiled, else one that reads back. */
  predicate Finds(cfg: Config, file: seq<byte>, m: Option<CompiledMethod>, codeOffset: Option<nat>)
  {
    match codeOffset
    case None => m.None?
    case Some(offset) => m.Some? && offset < WORD && ReadsBack(cfg, file, offset, m.value)
  }

  /** The lookup in the record of class `c`, which stands at `classOffset`. */
  method FindInClass(file: seq<byte>, classOffset: nat, i: nat, ghost b: Input, ghost l: Layout, ghost c: nat)
    returns (status: nat, codeOffset: Option<nat>)
    requires Sound(b, l, file) && c < |b.classes| && i < |b.classes[c].methods| && classOffset == l.classOffsets[c]
    ensures status == b.statuses[c] % 0x1_0000 && Finds(b.cfg, file, b.classes[c].methods[i], codeOffset)
  {
    ClassFits(b, l, file, c);
    ghost var offsets := CodeOffsets(l.filled[c].slots);
    SlotReadsBack(b, l, file, c, i, offsets);
    status := OatClassTable.GetStatus(file[classOffset..], b.statuses[c], b.classes[c].methods, offsets);
    codeOffset := OatClassTable.GetOatMethodOffsets(file[classOffset..], i, b.statuses[c], b.classes[c].methods,
                                                    offsets);
  }

  method GetOatClassOffset(file: seq<byte>, dex: ReadDex, k: nat,
                           ghost base: nat, ghost ds: seq<DexFile>, ghost fileOffsets: seq<nat>,
                           ghost classOffsets: seq<nat>, ghost d: nat, ghost c: nat)
    returns (classOffset: nat)
    requires RecordsAt(file, base, ds, fileOffsets, classOffsets) && d < |ds| && k < ds[d].classDefs
    requires c == ClassDefs(ds, d) + k < |classOffsets| && classOffsets[c] < WORD &&
             dex == DexAs(ds[d], RecordsEnd(base, ds, d), fileOffsets[d])
    ensures classOffset == classOffsets[c]
  {
    ClassOffsetReads(file, base, ds, fileOffsets, classOffsets, d, k, c);
    classOffset := Read32(file, dex.classOffsetsAt + 4 * k);
  }

  lemma {:induction false} SoundRecords(b: Input, l: Layout, file: seq<byte>, c: nat)
    requires Sound(b, l, file) && c < |b.classes|
    ensures RecordsAt(file, b.RecordsBase(), b.dexFiles, l.dexOffsets, l.classOffsets) && c < |l.classOffsets| &&
            l.classOffsets[c] < WORD
  {
    RecordsStand(b, l, file);
    ClassStarts(b, l, file, c);
  }

  /** The runtime's way to the code of method `i` of class `k` of a dex file. */
  method FindMethod(file: seq<byte>, dex: ReadDex, k: nat, i: nat, ghost b: Input, ghost l: Layout, ghost d: nat,
                    ghost c: nat)
    returns (status: nat, codeOffset: Option<nat>)
    requires Sound(b, l, file) && d < |b.dexFiles| && k < b.dexFiles[d].classDefs &&
             dex == DexAs(b.dexFiles[d], RecordAt(b, d), l.dexOffsets[d])
    requires c == ClassDefs(b.dexFiles, d) + k < |b.classes| && i < |b.classes[c].methods|
    ensures status == b.statuses[c] % 0x1_0000 && Finds(b.cfg, file, b.classes[c].methods[i], codeOffset)
  {
    SoundRecords(b, l, file, c);
    var classOffset := GetOatClassOffset(file, dex, k, b.RecordsBase(), b.dexFiles, l.dexOffsets, l.classOffsets, d, c);
    status, codeOffset := FindInClass(file, classOffset, i, b, l, c);
  }

  /** Opens a finished file and looks a method up: refused if a dex file is not accepted, else what `FindMethod`
      finds. */
  method OpenAndFind(file: seq<byte>, start: nat, count: nat, d: nat, k: nat, i: nat, ghost b: Input, ghost l: Layout,
                     ghost c: nat)
    returns (ok: bool, status: nat, codeOffset: Option<nat>)
    requires Sound(b, l, file) && AllFit(b.dexFiles) && start == b.RecordsBase() && count == |b.dexFiles|
    requires d < |b.dexFiles| && k < b.dexFiles[d].classDefs
    requires c == ClassDefs(b.dexFiles, d) + k < |b.classes| && i < |b.classes[c].methods|
    ensures ok <==> AllAccepted(b.dexFiles, |b.dexFiles|)
    ensures ok ==> status == b.statuses[c] % 0x1_0000 && Finds(b.cfg, file, b.classes[c].methods[i], codeOffset)
  {
    TheoremRecordsReadBack(b, l, file);
    var dexFiles := Setup(file, start, count);
    ok, status, codeOffset := dexFiles.Some?, 0, None;
    if ok {
      ReadAsAt(b.RecordsBase(), b.dexFiles, l.dexOffsets, count, d);
      status, codeOffset := FindMethod(file, dexFiles.value[d], k, i, b, l, d, c);
    }
  }
}
