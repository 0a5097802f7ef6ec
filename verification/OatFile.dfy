/** The whole oat file: every part is laid out first and written in a second pass; the bytes counted by category
    while writing add up to the size computed before. */
module OatFile {
  import opened Align
  import opened Bytes
  import opened CompiledMethods
  import opened OatCode
  import opened OatCodeTheorem
  import opened OatVisitors
  import opened OatWriteVisitor
  import OatClassTable
  import OatMaps
  import OatRecords

  datatype DexFile = DexFile(location: seq<byte>, checksum: nat, file: seq<byte>, classDefs: nat)

  /** Bytes of the record about a dex file. */
  function RecordSize(d: DexFile): nat
  {
    4 + |d.location| + 4 + 4 + 4 * d.classDefs
  }

  function RoundUp4(x: nat): (r: nat)
    ensures x <= r < x + 4 && r % 4 == 0
  {
    (x + 3) / 4 * 4
  }

  function PageEnd(x: nat): (r: nat)
    ensures x <= r < x + 4096 && r % 4096 == 0
  {
    (x + 4095) / 4096 * 4096
  }

  // ----- Offsets of the parts -----

  function RecordsEnd(base: nat, ds: seq<DexFile>, n: nat): nat
    requires n <= |ds|
  {
    if n == 0 then base else RecordsEnd(base, ds, n - 1) + RecordSize(ds[n - 1])
  }

  /** Where the first `n` dex files end; each starts at a multiple of four. */
  function DexEnd(base: nat, ds: seq<DexFile>, n: nat): nat
    requires n <= |ds|
  {
    if n == 0 then base else RoundUp4(DexEnd(base, ds, n - 1)) + |ds[n - 1].file|
  }

  function ClassEnd(base: nat, classes: seq<OatClass>, n: nat): nat
    requires n <= |classes|
  {
    if n == 0 then base else ClassEnd(base, classes, n - 1) + OatClassTable.SizeOf(classes[n - 1].methods)
  }

  function TrampolineEnd(cfg: Config, base: nat, ts: seq<seq<byte>>, n: nat): nat
    requires n <= |ts|
  {
    if n == 0 then base else cfg.AlignCode(TrampolineEnd(cfg, base, ts, n - 1)) + |ts[n - 1]|
  }

  predicate DexOffsetsAre(base: nat, ds: seq<DexFile>, offsets: seq<nat>)
  {
    |offsets| == |ds| && forall i {:trigger offsets[i]} :: 0 <= i < |ds| ==> offsets[i] == RoundUp4(DexEnd(base, ds, i))
  }

  /** Assigns dex file offsets and counts the alignment gaps. */
  method InitDexFiles(base: nat, ds: seq<DexFile>) returns (offsets: seq<nat>, alignment: nat, end: nat)
    ensures DexOffsetsAre(base, ds, offsets)
    ensures end == DexEnd(base, ds, |ds|) == base + alignment + FileBytes(ds, |ds|)
  {
    offsets, alignment, end := [], 0, base;
    for i := 0 to |ds|
      invariant |offsets| == i && forall j {:trigger offsets[j]} :: 0 <= j < i ==>
                  offsets[j] == RoundUp4(DexEnd(base, ds, j))
      invariant end == DexEnd(base, ds, i) == base + alignment + FileBytes(ds, i)
    {
      var original := end;
      end := RoundUp4(end);
      alignment := alignment + (end - original);
      offsets := offsets + [end];
      end := end + |ds[i].file|;
    }
  }

  function FileBytes(ds: seq<DexFile>, n: nat): nat
    requires n <= |ds|
  {
    if n == 0 then 0 else FileBytes(ds, n - 1) + |ds[n - 1].file|
  }

  method InitClasses(base: nat, classes: seq<OatClass>) returns (offsets: seq<nat>, end: nat)
    ensures ClassOffsetsAre(base, classes, offsets) && end == ClassEnd(base, classes, |classes|)
  {
    offsets, end := [], base;
    for i := 0 to |classes|
      invariant |offsets| == i && forall j {:trigger offsets[j]} :: 0 <= j < i ==>
                  offsets[j] == ClassEnd(base, classes, j)
      invariant end == ClassEnd(base, classes, i)
    {
      offsets := offsets + [end];
      end := end + OatClassTable.SizeOf(classes[i].methods);
    }
  }

  method InitTrampolines(cfg: Config, base: nat, ts: seq<seq<byte>>) returns (offsets: seq<nat>, end: nat)
    ensures |offsets| == |ts| && forall i {:trigger offsets[i]} :: 0 <= i < |ts| ==>
              offsets[i] == cfg.AlignCode(TrampolineEnd(cfg, base, ts, i)) + cfg.Delta()
    ensures end == TrampolineEnd(cfg, base, ts, |ts|)
  {
    offsets, end := [], base;
    for i := 0 to |ts|
      invariant |offsets| == i && forall j {:trigger offsets[j]} :: 0 <= j < i ==>
                  offsets[j] == cfg.AlignCode(TrampolineEnd(cfg, base, ts, j)) + cfg.Delta()
      invariant end == TrampolineEnd(cfg, base, ts, i)
    {
      end := cfg.AlignCode(end);
      offsets := offsets + [end + cfg.Delta()];
      end := end + |ts[i]|;
    }
  }

  // ----- The map passes -----

  class InitMapVisitor {
    const mem: OatMaps.Memory
    var offset: nat
    var dedupe: map<Ptr, nat>
    var offsets: seq<nat>

    ghost function State(): OatMaps.MapState
      reads this
    {
      OatMaps.MapState(offset, dedupe, offsets)
    }

    constructor (mem: OatMaps.Memory, base: nat)
      ensures this.mem == mem && State() == OatMaps.InitRun(mem, base, [])
    {
      this.mem, this.offset, this.dedupe, this.offsets := mem, base, map[], [];
    }

    /** An empty table keeps offset 0, a known one its offset, a new one goes to the end. */
    method VisitMethod(p: Ptr)
      modifies this
      ensures State() == OatMaps.InitVisit(mem, old(State()), p)
    {
      var table := OatMaps.Table(mem, p);
      if table == [] {
        offsets := offsets + [0];
      } else if p in dedupe {
        offsets := offsets + [dedupe[p]];
      } else {
        offsets := offsets + [offset];
        dedupe := dedupe[p := offset];
        offset := offset + |table|;
      }
    }
  }

  method InitMaps(mem: OatMaps.Memory, base: nat, ps: seq<Ptr>) returns (offsets: seq<nat>, end: nat)
    ensures offsets == OatMaps.InitRun(mem, base, ps).offsets && end == OatMaps.InitRun(mem, base, ps).offset
  {
    var visitor := new InitMapVisitor(mem, base);
    for i := 0 to |ps|
      invariant fresh(visitor) && visitor.mem == mem && visitor.State() == OatMaps.InitRun(mem, base, ps[..i])
    {
      assert ps[..i + 1][..i] == ps[..i];
      visitor.VisitMethod(ps[i]);
    }
    assert ps[..|ps|] == ps;
    offsets, end := visitor.offsets, visitor.offset;
  }

  class WriteMapVisitor {
    const mem: OatMaps.Memory
    var offset: nat
    var out: seq<byte>
    ghost var written: seq<bool>

    ghost function State(): OatMaps.MapWriter
      reads this
    {
      OatMaps.MapWriter(offset, out, written)
    }

    constructor (mem: OatMaps.Memory, base: nat)
      ensures this.mem == mem && State() == OatMaps.MapWriter(base, [], [])
    {
      this.mem, this.offset, this.out, this.written := mem, base, [], [];
    }

    /** Reads the offset of a table from the finished slot of its method, and writes it if it belongs right here. */
    method VisitMethod(p: Ptr, slot: Slot, kind: TableKind)
      modifies this
      ensures State() == OatMaps.WriteVisit(mem, old(State()), p, TableOffset(slot, kind))
    {
      var table, mapOffset := OatMaps.Table(mem, p), TableOffset(slot, kind);
      if table != [] && mapOffset == offset {
        out := out + table;
        offset := offset + |table|;
        written := written + [true];
      } else {
        written := written + [false];
      }
    }
  }

  lemma {:induction false} MapsEnd(mem: OatMaps.Memory, base: nat, ps: seq<Ptr>)
    ensures |OatMaps.InitRun(mem, base, ps).offsets| == |ps|
    ensures base + |OatMaps.WriteRun(mem, base, ps, OatMaps.InitRun(mem, base, ps).offsets).out| ==
            OatMaps.InitRun(mem, base, ps).offset
  {
    OatMaps.TheoremMapsAgree(mem, base, ps);
  }

  /** The slots stand for these offsets of one kind of table. */
  predicate Decoded(slots: seq<Slot>, kind: TableKind, offsets: seq<nat>)
  {
    |slots| == |offsets| && forall i :: 0 <= i < |slots| ==> TableOffset(slots[i], kind) == offsets[i]
  }

  /** Writes the tables; they end where the Init pass says. */
  method WriteMaps(kind: TableKind, mem: OatMaps.Memory, base: nat, ps: seq<Ptr>, slots: seq<Slot>,
                   ghost offsets: seq<nat>) returns (out: seq<byte>)
    requires offsets == OatMaps.InitRun(mem, base, ps).offsets && Decoded(slots, kind, offsets)
    ensures |offsets| == |ps| && out == OatMaps.WriteRun(mem, base, ps, offsets).out
    ensures base + |out| == OatMaps.InitRun(mem, base, ps).offset
  {
    MapsEnd(mem, base, ps);
    var visitor := new WriteMapVisitor(mem, base);
    for i := 0 to |ps|
      invariant fresh(visitor) && visitor.mem == mem &&
                visitor.State() == OatMaps.WriteRun(mem, base, ps[..i], offsets[..i])
    {
      assert ps[..i + 1][..i] == ps[..i] && offsets[..i + 1][..i] == offsets[..i];
      visitor.VisitMethod(ps[i], slots[i], kind);
    }
    assert ps[..|ps|] == ps && offsets[..|ps|] == offsets;
    out := visitor.out;
  }

  // ----- Table offsets in the slots of the classes -----

  datatype TableKind = GcMaps | MappingTables | VmapTables

  function TableOf(m: CompiledMethod, kind: TableKind): Ptr
  {
    match kind case GcMaps => m.gcMap case MappingTables => m.mapping case VmapTables => m.vmap
  }

  /** The tables of one kind of all compiled methods in order. */
  function TablesOf(vs: seq<Visited>, kind: TableKind): (ps: seq<Ptr>)
    ensures |ps| == |vs| && forall i :: 0 <= i < |vs| ==> ps[i] == TableOf(vs[i].m, kind)
  {
    seq(|vs|, i requires 0 <= i < |vs| => TableOf(vs[i].m, kind))
  }

  /** What the map passes leave in a slot while the code offset is still 0. */
  function TableSlot(gc: nat, mapping: nat, vmap: nat): Slot
  {
    Slot(0, Header(Tables(Diff(0, mapping), Diff(0, vmap), Diff(0, gc)), 0, 0, 0, 0))
  }

  function TableSlots(gc: seq<nat>, mapping: seq<nat>, vmap: seq<nat>): (slots: seq<Slot>)
    requires |gc| == |mapping| == |vmap|
    ensures |slots| == |gc| && forall i :: 0 <= i < |gc| ==> slots[i] == TableSlot(gc[i], mapping[i], vmap[i])
  {
    seq(|gc|, i requires 0 <= i < |gc| => TableSlot(gc[i], mapping[i], vmap[i]))
  }

  /** Hands out slots to the classes in order. */
  method FillSlots(classes: seq<OatClass>, slots: seq<Slot>) returns (filled: seq<OatClass>)
    requires AllValid(classes) && |slots| == |AllSlots(classes, |classes|)|
    ensures AllValid(filled) && |filled| == |classes| && AllSlots(filled, |filled|) == slots
    ensures forall c :: 0 <= c < |classes| ==>
              filled[c].methods == classes[c].methods && filled[c].refs == classes[c].refs
  {
    filled := [];
    var next := 0;
    for c := 0 to |classes|
      invariant |filled| == c && AllValid(filled) && next == |AllSlots(classes, c)| <= |slots| &&
                AllSlots(filled, c) == slots[..next]
      invariant forall d :: 0 <= d < c ==> filled[d].methods == classes[d].methods && filled[d].refs == classes[d].refs
    {
      SlotsGrow(classes, c);
      var n := |classes[c].slots|;
      var oc := classes[c].(slots := slots[next..next + n]);
      AllSlotsFrame(filled, filled + [oc], c);
      assert slots[..next + n] == slots[..next] + slots[next..next + n];
      filled := filled + [oc];
      next := next + n;
    }
    assert slots[..next] == slots;
  }

  lemma {:induction false} SlotsGrow(classes: seq<OatClass>, c: nat)
    requires c < |classes|
    ensures |AllSlots(classes, c)| + |classes[c].slots| <= |AllSlots(classes, |classes|)|
    decreases |classes| - c
  {
    if c + 1 < |classes| { SlotsGrow(classes, c + 1); }
  }

  function FieldOf(t: Tables, kind: TableKind): nat
  {
    match kind case GcMaps => t.gcMap case MappingTables => t.mapping case VmapTables => t.vmap
  }

  /** The table offset that a finished slot stands for. */
  function TableOffset(slot: Slot, kind: TableKind): nat
  {
    var field := FieldOf(slot.header.tables, kind);
    if field == 0 then 0 else Diff(OatMaps.ClearThumb(slot.codeOffset), field)
  }

  lemma {:induction false} HeaderMade(cfg: Config, st: InitState, v: Visited)
    ensures var placed := InitVisit(cfg, st, v).placed;
            |placed| == |st.placed| + 1 && placed[|st.placed|].header ==
              MakeHeader(cfg, v, Diff(placed[|st.placed|].codeOffset, cfg.Delta()))
  {
  }

  lemma {:induction false} HeaderAt(cfg: Config, base: nat, vs: seq<Visited>, i: nat)
    requires i < |vs|
    ensures |InitPass(cfg, base, vs).placed| == |vs|
    ensures var p := InitPass(cfg, base, vs).placed[i];
            p.header == MakeHeader(cfg, vs[i], Diff(p.codeOffset, cfg.Delta()))
  {
    OatRecords.SlotOf(cfg, base, vs, i);
    AtStep(cfg, base, vs, i);
    AtTracks(cfg, base, vs, i);
    HeaderMade(cfg, At(cfg, base, vs, i), vs[i]);
  }

  /** Every method's header was made from its own tables and its final code offset, which lies behind the base. */
  lemma {:induction false} PlacedHeader(cfg: Config, base: nat, vs: seq<Visited>, i: nat)
    requires i < |vs|
    ensures |InitPass(cfg, base, vs).placed| == |vs|
    ensures var p := InitPass(cfg, base, vs).placed[i];
            && p.header == MakeHeader(cfg, vs[i], Diff(p.codeOffset, cfg.Delta()))
            && p.codeOffset - cfg.Delta() >= base + HEADER_SIZE && (p.codeOffset - cfg.Delta()) % 4 == 0
  {
    HeaderAt(cfg, base, vs, i);
    PlacedBehind(cfg, base, vs, i);
  }

  lemma {:induction false} PlacedBehind(cfg: Config, base: nat, vs: seq<Visited>, i: nat)
    requires i < |vs|
    ensures OatRecords.RangeStart(cfg, base, vs, i) >= base + HEADER_SIZE &&
            OatRecords.RangeStart(cfg, base, vs, i) % 4 == 0
  {
    var j := FirstOccurrence(cfg, vs, i);
    OatRecords.SameAsFirst(cfg, base, vs, i, j);
    FirstInside(cfg, base, vs, j);
  }

  lemma {:induction false} FirstInside(cfg: Config, base: nat, vs: seq<Visited>, j: nat)
    requires j < |vs| && !Repeat(cfg, vs, j)
    ensures OatRecords.RangeStart(cfg, base, vs, j) >= base + HEADER_SIZE &&
            OatRecords.RangeStart(cfg, base, vs, j) % 4 == 0
  {
    OatRecords.SlotOf(cfg, base, vs, j);
    SharesIsRepeat(cfg, base, vs, j);
    AtStep(cfg, base, vs, j);
    AtInv(cfg, base, vs, j + 1);
    var p := At(cfg, base, vs, j + 1).placed[j];
    assert p.first;
  }

  /** The map passes stored 0 minus the table's offset, the code pass added the start of the code, and a reader that
      clears the Thumb bit gets the table's offset back. */
  lemma {:induction false} TheoremTableOffset(cfg: Config, base: nat, vs: seq<Visited>, i: nat, kind: TableKind,
                                              offset: nat)
    requires i < |vs| && offset < base && FieldOf(vs[i].tables, kind) == Diff(0, offset)
    requires |InitPass(cfg, base, vs).placed| == |vs| && InitPass(cfg, base, vs).placed[i].codeOffset < WORD
    ensures TableOffset(OatVisitors.SlotOf(InitPass(cfg, base, vs).placed[i]), kind) == offset
  {
    PlacedHeader(cfg, base, vs, i);
    PlacedDecodes(cfg, vs[i], InitPass(cfg, base, vs).placed[i], kind, offset);
  }

  lemma {:induction false} MadeTable(cfg: Config, v: Visited, start: nat, kind: TableKind)
    ensures FieldOf(MakeHeader(cfg, v, start).tables, kind) == Adjust(FieldOf(v.tables, kind), start)
  {
  }

  lemma {:induction false} PlacedDecodes(cfg: Config, v: Visited, p: Placed, kind: TableKind, offset: nat)
    requires FieldOf(v.tables, kind) == Diff(0, offset) && p.codeOffset < WORD
    requires p.header == MakeHeader(cfg, v, Diff(p.codeOffset, cfg.Delta()))
    requires offset < p.codeOffset - cfg.Delta() && (p.codeOffset - cfg.Delta()) % 4 == 0
    ensures TableOffset(OatVisitors.SlotOf(p), kind) == offset
  {
    var start := p.codeOffset - cfg.Delta();
    assert Diff(p.codeOffset, cfg.Delta()) == start;
    MadeTable(cfg, v, start, kind);
    FieldDecodes(offset, start, cfg.Delta());
  }

  lemma {:induction false} FieldDecodes(offset: nat, start: nat, delta: nat)
    requires offset < start && start + delta < WORD && start % 4 == 0 && delta <= 1
    ensures var field := Adjust(Diff(0, offset), start);
            (field == 0 <==> offset == 0) && (offset != 0 ==> Diff(OatMaps.ClearThumb(start + delta), field) == offset)
  {
    if offset != 0 {
      assert Diff(0, offset) == WORD - offset;
      assert Adjust(Diff(0, offset), start) == start - offset;
      assert OatMaps.ClearThumb(start + delta) == start;
    }
  }

  // ----- Counters -----

  datatype Sizes = Sizes(
    dexFileAlignment: nat, executableOffsetAlignment: nat, oatHeader: nat, keyValueStore: nat, dexFile: nat,
    trampolines: nat, trampolineAlignment: nat, code: CodeSizes, gcMap: nat, mappingTable: nat, vmapTable: nat,
    locationSize: nat, locationData: nat, locationChecksum: nat, dexFileOffset: nat, methodsOffsets: nat,
    classType: nat, classStatus: nat, classBitmaps: nat, classMethodOffsets: nat)
  {
    function Total(): nat {
      dexFileAlignment + executableOffsetAlignment + oatHeader + keyValueStore + dexFile + trampolines +
      trampolineAlignment + code.Total() + gcMap + mappingTable + vmapTable + locationSize + locationData +
      locationChecksum + dexFileOffset + methodsOffsets + classType + classStatus + classBitmaps + classMethodOffsets
    }
  }

  /** `part` stands in the file at `offset`. */
  predicate StandsAt(out: seq<byte>, offset: nat, part: seq<byte>)
  {
    offset + |part| <= |out| && out[offset..offset + |part|] == part
  }

  lemma {:induction false} StandsStill(out: seq<byte>, more: seq<byte>, offset: nat, part: seq<byte>)
    requires StandsAt(out, offset, part)
    ensures StandsAt(out + more, offset, part)
  {
    assert (out + more)[offset..offset + |part|] == out[offset..offset + |part|];
  }

  function ClassDefs(ds: seq<DexFile>, n: nat): nat
    requires n <= |ds|
  {
    if n == 0 then 0 else ClassDefs(ds, n - 1) + ds[n - 1].classDefs
  }

  lemma {:induction false} ClassDefsGrow(ds: seq<DexFile>, n: nat)
    requires n < |ds|
    ensures ClassDefs(ds, n) + ds[n].classDefs <= ClassDefs(ds, |ds|)
    decreases |ds| - n
  {
    if n + 1 < |ds| { ClassDefsGrow(ds, n + 1); }
  }

  function CodeOffsets(slots: seq<Slot>): (offsets: seq<nat>)
    ensures |offsets| == |slots| && forall i :: 0 <= i < |slots| ==> offsets[i] == slots[i].codeOffset
  {
    seq(|slots|, i requires 0 <= i < |slots| => slots[i].codeOffset)
  }

  /** The first `n` parts stand at their offsets. */
  predicate PartsAt(out: seq<byte>, offsets: seq<nat>, parts: seq<seq<byte>>, n: nat)
  {
    n <= |parts| == |offsets| && forall i :: 0 <= i < n ==> StandsAt(out, offsets[i], parts[i])
  }

  lemma {:induction false} PartsStay(before: seq<byte>, out: seq<byte>, offsets: seq<nat>, parts: seq<seq<byte>>,
                                     n: nat)
    requires before <= out && PartsAt(before, offsets, parts, n)
    ensures PartsAt(out, offsets, parts, n)
  {
    assert out == before + out[|before|..];
    forall i | 0 <= i < n ensures StandsAt(out, offsets[i], parts[i]) {
      StandsStill(before, out[|before|..], offsets[i], parts[i]);
    }
  }

  lemma {:induction false} PartsNext(before: seq<byte>, out: seq<byte>, offsets: seq<nat>, parts: seq<seq<byte>>,
                                     n: nat)
    requires before <= out && PartsAt(before, offsets, parts, n) && n < |parts| && StandsAt(out, offsets[n], parts[n])
    ensures PartsAt(out, offsets, parts, n + 1)
  {
    PartsStay(before, out, offsets, parts, n);
  }

  lemma {:induction false} StandsLast(before: seq<byte>, part: seq<byte>)
    ensures StandsAt(before + part, |before|, part)
  {
  }

  // ----- The parts of the file -----

  function Files(ds: seq<DexFile>): (parts: seq<seq<byte>>)
    ensures |parts| == |ds| && forall i :: 0 <= i < |ds| ==> parts[i] == ds[i].file
  {
    seq(|ds|, i requires 0 <= i < |ds| => ds[i].file)
  }

  /** Location, checksum, offset of the dex file and offsets of its classes. */
  function DexRecord(d: DexFile, fileOffset: nat, classOffsets: seq<nat>): (r: seq<byte>)
    requires |classOffsets| == d.classDefs
    ensures |r| == RecordSize(d)
  {
    Enc(|d.location|, 4) + d.location + Enc(d.checksum, 4) + Enc(fileOffset, 4) + OatClassTable.Slots(classOffsets)
  }

  /** The class offsets of dex file `i` are the next ones in order. */
  function ClassesOf(ds: seq<DexFile>, classOffsets: seq<nat>, i: nat): (r: seq<nat>)
    requires i < |ds| && |classOffsets| == ClassDefs(ds, |ds|)
    ensures |r| == ds[i].classDefs
  {
    ClassDefsGrow(ds, i);
    classOffsets[ClassDefs(ds, i)..ClassDefs(ds, i) + ds[i].classDefs]
  }

  function DexRecords(ds: seq<DexFile>, fileOffsets: seq<nat>, classOffsets: seq<nat>): (parts: seq<seq<byte>>)
    requires |fileOffsets| == |ds| && |classOffsets| == ClassDefs(ds, |ds|)
    ensures |parts| == |ds|
    ensures forall i {:trigger parts[i]} :: 0 <= i < |ds| ==>
              parts[i] == DexRecord(ds[i], fileOffsets[i], ClassesOf(ds, classOffsets, i))
  {
    seq(|ds|, i requires 0 <= i < |ds| => DexRecord(ds[i], fileOffsets[i], ClassesOf(ds, classOffsets, i)))
  }

  function RecordStarts(base: nat, ds: seq<DexFile>): (offsets: seq<nat>)
    ensures |offsets| == |ds| && forall i {:trigger offsets[i]} :: 0 <= i < |ds| ==>
              offsets[i] == RecordsEnd(base, ds, i)
  {
    seq(|ds|, i requires 0 <= i < |ds| => RecordsEnd(base, ds, i))
  }

  function ClassRecords(statuses: seq<nat>, classes: seq<OatClass>): (parts: seq<seq<byte>>)
    requires AllValid(classes) && |statuses| == |classes|
    ensures |parts| == |classes|
    ensures forall c {:trigger parts[c]} :: 0 <= c < |classes| ==>
              parts[c] == OatClassTable.Record(statuses[c], classes[c].methods, CodeOffsets(classes[c].slots))
  {
    seq(|classes|, c requires 0 <= c < |classes| => OatClassTable.Record(statuses[c], classes[c].methods,
                                                                         CodeOffsets(classes[c].slots)))
  }

  predicate ClassOffsetsAre(base: nat, classes: seq<OatClass>, offsets: seq<nat>)
  {
    |offsets| == |classes| && forall i {:trigger offsets[i]} :: 0 <= i < |classes| ==>
        offsets[i] == ClassEnd(base, classes, i)
  }

  function TrampolineStarts(cfg: Config, base: nat, ts: seq<seq<byte>>): (offsets: seq<nat>)
    ensures |offsets| == |ts| && forall i {:trigger offsets[i]} :: 0 <= i < |ts| ==>
              offsets[i] == cfg.AlignCode(TrampolineEnd(cfg, base, ts, i))
  {
    seq(|ts|, i requires 0 <= i < |ts| => cfg.AlignCode(TrampolineEnd(cfg, base, ts, i)))
  }

  /** Every table that is not empty stands at its offset; an empty one has offset 0. */
  predicate TablesAt(out: seq<byte>, mem: OatMaps.Memory, ps: seq<Ptr>, offsets: seq<nat>)
  {
    |offsets| == |ps| && forall i :: 0 <= i < |ps| ==>
      if OatMaps.Table(mem, ps[i]) == [] then offsets[i] == 0 else StandsAt(out, offsets[i], OatMaps.Table(mem, ps[i]))
  }

  lemma {:induction false} TablesStay(before: seq<byte>, out: seq<byte>, mem: OatMaps.Memory, ps: seq<Ptr>,
                                      offsets: seq<nat>)
    requires before <= out && TablesAt(before, mem, ps, offsets)
    ensures TablesAt(out, mem, ps, offsets)
  {
    assert out == before + out[|before|..];
    forall i | 0 <= i < |ps| && OatMaps.Table(mem, ps[i]) != []
      ensures StandsAt(out, offsets[i], OatMaps.Table(mem, ps[i])) {
      StandsStill(before, out[|before|..], offsets[i], OatMaps.Table(mem, ps[i]));
    }
  }

  lemma {:induction false} HeldStands(before: seq<byte>, out: seq<byte>, mem: OatMaps.Memory, p: Ptr, offset: nat)
    requires OatMaps.Holds(mem, |before|, out, p, offset)
    ensures StandsAt(before + out, offset, OatMaps.Table(mem, p))
  {
    var n := |OatMaps.Table(mem, p)|;
    assert (before + out)[offset..offset + n] == out[offset - |before|..offset - |before| + n];
  }

  /** Tables appended behind `before` by the Write pass stand where the Init pass put them. */
  lemma {:induction false} TablesStand(before: seq<byte>, mem: OatMaps.Memory, ps: seq<Ptr>)
    ensures var offsets := OatMaps.InitRun(mem, |before|, ps).offsets;
            |offsets| == |ps| && TablesAt(before + OatMaps.WriteRun(mem, |before|, ps, offsets).out, mem, ps, offsets)
  {
    OatMaps.RunAgrees(mem, |before|, ps);
    var st := OatMaps.InitRun(mem, |before|, ps);
    var w := OatMaps.WriteRun(mem, |before|, ps, st.offsets);
    forall i | 0 <= i < |ps| && OatMaps.Table(mem, ps[i]) != []
      ensures StandsAt(before + w.out, st.offsets[i], OatMaps.Table(mem, ps[i]))
    {
      HeldStands(before, w.out, mem, ps[i], st.offsets[i]);
    }
  }

  class OatStream {
    var out: seq<byte>
    var sizes: Sizes

    constructor (dexFileAlignment: nat, executableOffsetAlignment: nat)
      ensures out == [] && sizes.dexFileAlignment == dexFileAlignment &&
              sizes.executableOffsetAlignment == executableOffsetAlignment
      ensures sizes.Total() == dexFileAlignment + executableOffsetAlignment
    {
      out := [];
      sizes := Sizes(dexFileAlignment, executableOffsetAlignment, 0, 0, 0, 0, 0, CodeSizes(0, 0, 0, 0), 0, 0, 0, 0, 0,
                     0, 0, 0, 0, 0, 0, 0);
    }

    /** Leaves room for the header, which is written last. */
    method ReserveHeader(headerSize: nat, keyValueSize: nat)
      modifies this
      ensures out == old(out) + Zeros(headerSize + keyValueSize)
      ensures sizes.Total() == old(sizes.Total()) + headerSize + keyValueSize
    {
      out := out + Zeros(headerSize + keyValueSize);
      sizes := sizes.(oatHeader := sizes.oatHeader + headerSize, keyValueStore := sizes.keyValueStore + keyValueSize);
    }

    /** The record about one dex file. */
    method WriteRecord(d: DexFile, fileOffset: nat, classOffsets: seq<nat>)
      requires |classOffsets| == d.classDefs
      modifies this
      ensures |out| == old(|out|) + RecordSize(d) && sizes.Total() == old(sizes.Total()) + RecordSize(d)
      ensures out == old(out) + DexRecord(d, fileOffset, classOffsets)
    {
      out := out + Enc(|d.location|, 4);
      out := out + d.location;
      out := out + Enc(d.checksum, 4);
      out := out + Enc(fileOffset, 4);
      out := out + OatClassTable.Slots(classOffsets);
      sizes := sizes.(locationSize := sizes.locationSize + 4, locationData := sizes.locationData + |d.location|,
                      locationChecksum := sizes.locationChecksum + 4, dexFileOffset := sizes.dexFileOffset + 4,
                      methodsOffsets := sizes.methodsOffsets + 4 * |classOffsets|);
    }

    /** A dex file at its offset; the gap before it was counted during the layout. */
    method WriteDexFile(d: DexFile, offset: nat)
      requires |out| <= offset
      modifies this
      ensures old(out) <= out && |out| == offset + |d.file| && StandsAt(out, offset, d.file)
      ensures sizes.Total() == old(sizes.Total()) + |d.file|
    {
      out := out + Zeros(offset - |out|);
      out := out + d.file;
      sizes := sizes.(dexFile := sizes.dexFile + |d.file|);
    }

    method WriteClass(status: nat, oc: OatClass, offsets: seq<nat>)
      requires oc.Valid() && |offsets| == |oc.slots|
      modifies this
      ensures out == old(out) + OatClassTable.Record(status, oc.methods, offsets)
      ensures sizes.Total() == old(sizes.Total()) + OatClassTable.SizeOf(oc.methods)
    {
      var bitmap := OatClassTable.BitmapSize(oc.methods);
      out := out + OatClassTable.Record(status, oc.methods, offsets);
      sizes := sizes.(classStatus := sizes.classStatus + 2, classType := sizes.classType + 2,
                      classBitmaps := sizes.classBitmaps + (if bitmap != 0 then 4 + bitmap else 0),
                      classMethodOffsets := sizes.classMethodOffsets + 4 * |offsets|);
    }

    method WriteTrampoline(cfg: Config, code: seq<byte>)
      modifies this
      ensures |out| == cfg.AlignCode(old(|out|)) + |code| && old(out) <= out &&
              StandsAt(out, cfg.AlignCode(old(|out|)), code)
      ensures sizes.Total() == old(sizes.Total()) + (|out| - old(|out|))
    {
      var padding := cfg.AlignCode(|out|) - |out|;
      out := out + Zeros(padding);
      out := out + code;
      sizes := sizes.(trampolineAlignment := sizes.trampolineAlignment + padding,
                      trampolines := sizes.trampolines + |code|);
    }

    /** Every dex file's record stands behind the one before, with the offsets of its own classes. */
    method WriteRecords(ds: seq<DexFile>, fileOffsets: seq<nat>, classOffsets: seq<nat>)
      requires |fileOffsets| == |ds| && |classOffsets| == ClassDefs(ds, |ds|)
      modifies this
      ensures |out| == RecordsEnd(old(|out|), ds, |ds|) && sizes.Total() == old(sizes.Total()) + (|out| - old(|out|))
      ensures old(out) <= out && PartsAt(out, RecordStarts(old(|out|), ds), DexRecords(ds, fileOffsets, classOffsets),
                                         |ds|)
    {
      var next := 0;
      ghost var base, total := |out|, sizes.Total();
      for i := 0 to |ds|
        invariant next == ClassDefs(ds, i)
        invariant |out| == RecordsEnd(base, ds, i) && sizes.Total() == total + (|out| - base)
        invariant old(out) <= out && PartsAt(out, RecordStarts(base, ds), DexRecords(ds, fileOffsets, classOffsets), i)
      {
        next := NextRecord(ds, fileOffsets, classOffsets, i, next, base);
      }
    }

    method NextRecord(ds: seq<DexFile>, fileOffsets: seq<nat>, classOffsets: seq<nat>, i: nat, next: nat,
                      ghost base: nat) returns (next': nat)
      requires i < |ds| == |fileOffsets| && |classOffsets| == ClassDefs(ds, |ds|) && next == ClassDefs(ds, i) &&
               |out| == RecordsEnd(base, ds, i)
      requires PartsAt(out, RecordStarts(base, ds), DexRecords(ds, fileOffsets, classOffsets), i)
      modifies this
      ensures next' == ClassDefs(ds, i + 1) && |out| == RecordsEnd(base, ds, i + 1) && old(out) <= out
      ensures sizes.Total() == old(sizes.Total()) + (|out| - old(|out|))
      ensures PartsAt(out, RecordStarts(base, ds), DexRecords(ds, fileOffsets, classOffsets), i + 1)
    {
      ghost var before, starts, parts := out, RecordStarts(base, ds), DexRecords(ds, fileOffsets, classOffsets);
      ClassDefsGrow(ds, i);
      WriteRecord(ds[i], fileOffsets[i], classOffsets[next..next + ds[i].classDefs]);
      StandsLast(before, parts[i]);
      PartsNext(before, out, starts, parts, i);
      next' := next + ds[i].classDefs;
    }

    /** Every dex file ends up at its offset. */
    method WriteDexFiles(ds: seq<DexFile>, offsets: seq<nat>, ghost base: nat)
      requires DexOffsetsAre(base, ds, offsets) && |out| == base
      modifies this
      ensures |out| == DexEnd(base, ds, |ds|) && old(out) <= out
      ensures sizes.Total() == old(sizes.Total()) + FileBytes(ds, |ds|)
      ensures PartsAt(out, offsets, Files(ds), |ds|)
    {
      ghost var start, total := out, sizes.Total();
      for i := 0 to |ds|
        invariant |out| == DexEnd(base, ds, i) && start <= out && sizes.Total() == total + FileBytes(ds, i)
        invariant PartsAt(out, offsets, Files(ds), i)
      {
        ghost var before := out;
        WriteDexFile(ds[i], offsets[i]);
        PartsNext(before, out, offsets, Files(ds), i);
      }
    }

    /** Every class record ends up at the offset the layout gave it. */
    method WriteClasses(statuses: seq<nat>, classes: seq<OatClass>, ghost offsets: seq<nat>)
      requires AllValid(classes) && |statuses| == |classes| && ClassOffsetsAre(|out|, classes, offsets)
      modifies this
      ensures |out| == ClassEnd(old(|out|), classes, |classes|) &&
              sizes.Total() == old(sizes.Total()) + (|out| - old(|out|))
      ensures old(out) <= out && PartsAt(out, offsets, ClassRecords(statuses, classes), |classes|)
    {
      ghost var parts := ClassRecords(statuses, classes);
      for c := 0 to |classes|
        invariant |out| == ClassEnd(old(|out|), classes, c) &&
                  sizes.Total() == old(sizes.Total()) + (|out| - old(|out|))
        invariant old(out) <= out && PartsAt(out, offsets, parts, c)
      {
        ghost var before := out;
        WriteClass(statuses[c], classes[c], CodeOffsets(classes[c].slots));
        StandsLast(before, parts[c]);
        PartsNext(before, out, offsets, parts, c);
      }
    }

    method WriteTables(kind: TableKind, mem: OatMaps.Memory, ps: seq<Ptr>, slots: seq<Slot>, ghost offsets: seq<nat>)
      requires offsets == OatMaps.InitRun(mem, |out|, ps).offsets && Decoded(slots, kind, offsets)
      modifies this
      ensures |out| == OatMaps.InitRun(mem, old(|out|), ps).offset &&
              sizes.Total() == old(sizes.Total()) + (|out| - old(|out|))
      ensures old(out) <= out && TablesAt(out, mem, ps, offsets)
    {
      ghost var before := out;
      var tables := WriteMaps(kind, mem, |out|, ps, slots, offsets);
      out := out + tables;
      TablesStand(before, mem, ps);
      match kind
      case GcMaps => sizes := sizes.(gcMap := sizes.gcMap + |tables|);
      case MappingTables => sizes := sizes.(mappingTable := sizes.mappingTable + |tables|);
      case VmapTables => sizes := sizes.(vmapTable := sizes.vmapTable + |tables|);
    }

    /** Passes over the padding in front of the code, which was counted during the layout. */
    method SkipToCode(padding: nat)
      modifies this`out
      ensures out == old(out) + Zeros(padding)
    {
      out := out + Zeros(padding);
    }

    method WriteTrampolines(cfg: Config, ts: seq<seq<byte>>)
      modifies this
      ensures |out| == TrampolineEnd(cfg, old(|out|), ts, |ts|) &&
              sizes.Total() == old(sizes.Total()) + (|out| - old(|out|))
      ensures old(out) <= out && PartsAt(out, TrampolineStarts(cfg, old(|out|), ts), ts, |ts|)
    {
      ghost var starts := TrampolineStarts(cfg, |out|, ts);
      for i := 0 to |ts|
        invariant |out| == TrampolineEnd(cfg, old(|out|), ts, i) &&
                  sizes.Total() == old(sizes.Total()) + (|out| - old(|out|))
        invariant old(out) <= out && PartsAt(out, starts, ts, i)
      {
        ghost var before := out;
        WriteTrampoline(cfg, ts[i]);
        PartsNext(before, out, starts, ts, i);
      }
    }

    method AddCode(code: seq<byte>, codeSizes: CodeSizes)
      requires codeSizes.Total() == |code|
      modifies this
      ensures out == old(out) + code && sizes.Total() == old(sizes.Total()) + |code|
    {
      out := out + code;
      sizes := sizes.(code := sizes.code.Plus(codeSizes));
    }
  }
}
