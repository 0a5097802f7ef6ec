/** The layout of the whole oat file: all Init passes, in the order of the parts. */
module OatLayout {
  import opened Bytes
  import opened CompiledMethods
  import opened OatCode
  import opened OatCodeTheorem
  import opened OatFile
  import opened OatVisitors
  import opened OatWriteVisitor
  import OatMaps
  import OatRecords

  datatype Input = Input(
    headerSize: nat, keyValueSize: nat, dexFiles: seq<DexFile>, statuses: seq<nat>, classes: seq<OatClass>,
    cfg: Config, trampolines: seq<seq<byte>>)
  {
    /** There is a header, and a class for every class definition of every dex file. */
    predicate Valid() {
      0 < headerSize && AllValid(classes) && |statuses| == |classes| && ClassDefs(dexFiles, |dexFiles|) == |classes|
    }

    function Tables(kind: TableKind): seq<Ptr>
      requires Valid()
    {
      TablesOf(AllVisits(classes, |classes|), kind)
    }

    function RecordsBase(): nat {
      headerSize + keyValueSize
    }

    function DexBase(): nat {
      RecordsEnd(RecordsBase(), dexFiles, |dexFiles|)
    }

    function ClassBase(): nat {
      DexEnd(DexBase(), dexFiles, |dexFiles|)
    }

    function GcBase(): nat {
      ClassEnd(ClassBase(), classes, |classes|)
    }

    function MapsOf(kind: TableKind, base: nat): OatMaps.MapState
      requires Valid()
    {
      OatMaps.InitRun(cfg.mem, base, Tables(kind))
    }
  }

  /** What the Init passes leave behind. */
  datatype Layout = Layout(
    dexOffsets: seq<nat>, dexAlignment: nat, classOffsets: seq<nat>, gc: seq<nat>, mapping: seq<nat>, vmap: seq<nat>,
    mappingBase: nat, vmapBase: nat, mapsEnd: nat, codeBase: nat, tabled: seq<OatClass>, filled: seq<OatClass>,
    thunks: seq<nat>, size: nat)

  /** Records, dex files and classes. */
  predicate TablesLaidOut(b: Input, l: Layout)
    requires b.Valid()
  {
    && DexOffsetsAre(b.DexBase(), b.dexFiles, l.dexOffsets) && ClassOffsetsAre(b.ClassBase(), b.classes, l.classOffsets)
    && b.ClassBase() == b.DexBase() + l.dexAlignment + FileBytes(b.dexFiles, |b.dexFiles|)
  }

  /** The three kinds of tables, one behind the other. */
  predicate MapsLaidOut(b: Input, l: Layout)
    requires b.Valid()
  {
    && l.gc == b.MapsOf(GcMaps, b.GcBase()).offsets && l.mappingBase == b.MapsOf(GcMaps, b.GcBase()).offset
    && l.mapping == b.MapsOf(MappingTables, l.mappingBase).offsets
    && l.vmapBase == b.MapsOf(MappingTables, l.mappingBase).offset
    && l.vmap == b.MapsOf(VmapTables, l.vmapBase).offsets && l.mapsEnd == b.MapsOf(VmapTables, l.vmapBase).offset
  }

  /** The classes with the table offsets in their slots. */
  predicate SlotsLaidOut(b: Input, l: Layout)
  {
    && AllValid(l.tabled) && |l.tabled| == |b.classes|
    && (forall c :: 0 <= c < |b.classes| ==>
          l.tabled[c].methods == b.classes[c].methods && l.tabled[c].refs == b.classes[c].refs)
    && |l.gc| == |l.mapping| == |l.vmap| && AllSlots(l.tabled, |l.tabled|) == TableSlots(l.gc, l.mapping, l.vmap)
  }

  /** Code, from a page boundary on. */
  predicate CodeLaidOut(b: Input, l: Layout)
    requires b.Valid()
  {
    && l.codeBase == TrampolineEnd(b.cfg, PageEnd(l.mapsEnd), b.trampolines, |b.trampolines|)
    && SlotsLaidOut(b, l) && SameShape(l.tabled, l.filled, |l.filled|)
    && var init := InitPass(b.cfg, l.codeBase, AllVisits(l.tabled, |l.tabled|));
       && AllSlots(l.filled, |l.filled|) == SlotsOf(init.placed)
       && l.thunks == init.patcher.thunks && l.size == init.offset
  }

  lemma {:induction false} VisitsAreSlots(classes: seq<OatClass>, c: nat)
    requires AllValid(classes) && c <= |classes|
    ensures |AllVisits(classes, c)| == |AllSlots(classes, c)|
  {
    if c > 0 {
      VisitsAreSlots(classes, c - 1);
      assert classes[c - 1].methods[..|classes[c - 1].methods|] == classes[c - 1].methods;
    }
  }

  method InitTables(b: Input) returns (dexOffsets: seq<nat>, dexAlignment: nat, classOffsets: seq<nat>, end: nat)
    requires b.Valid()
    ensures end == b.GcBase() && DexOffsetsAre(b.DexBase(), b.dexFiles, dexOffsets)
    ensures ClassOffsetsAre(b.ClassBase(), b.classes, classOffsets)
    ensures b.ClassBase() == b.DexBase() + dexAlignment + FileBytes(b.dexFiles, |b.dexFiles|)
  {
    end := b.headerSize + b.keyValueSize;
    for i := 0 to |b.dexFiles|
      invariant end == RecordsEnd(b.RecordsBase(), b.dexFiles, i)
    {
      end := end + RecordSize(b.dexFiles[i]);
    }
    dexOffsets, dexAlignment, end := InitDexFiles(end, b.dexFiles);
    classOffsets, end := InitClasses(end, b.classes);
  }

  /** Assigns every offset of the file. */
  method Init(b: Input) returns (l: Layout)
    requires b.Valid()
    ensures TablesLaidOut(b, l) && MapsLaidOut(b, l) && CodeLaidOut(b, l)
  {
    var dexOffsets, dexAlignment, classOffsets, offset := InitTables(b);
    var gc, mappingBase := InitMaps(b.cfg.mem, offset, b.Tables(GcMaps));
    var mapping, vmapBase := InitMaps(b.cfg.mem, mappingBase, b.Tables(MappingTables));
    var vmap, mapsEnd := InitMaps(b.cfg.mem, vmapBase, b.Tables(VmapTables));
    MapsEnd(b.cfg.mem, offset, b.Tables(GcMaps));
    MapsEnd(b.cfg.mem, mappingBase, b.Tables(MappingTables));
    MapsEnd(b.cfg.mem, vmapBase, b.Tables(VmapTables));
    VisitsAreSlots(b.classes, |b.classes|);
    var tabled := FillSlots(b.classes, TableSlots(gc, mapping, vmap));
    var trampolineOffsets, codeBase := InitTrampolines(b.cfg, PageEnd(mapsEnd), b.trampolines);
    var visitor := new InitCodeVisitor(b.cfg, codeBase, tabled);
    visitor.Run();
    l := Layout(dexOffsets, dexAlignment, classOffsets, gc, mapping, vmap, mappingBase, vmapBase, mapsEnd, codeBase,
                tabled, visitor.oatClasses, visitor.patcher.thunks, visitor.offset);
  }

  lemma {:induction false} SameClassSizes(a: seq<OatClass>, c: seq<OatClass>, base: nat, n: nat)
    requires n <= |a| == |c| && forall i :: 0 <= i < |a| ==> a[i].methods == c[i].methods
    ensures ClassEnd(base, a, n) == ClassEnd(base, c, n)
  {
    if n > 0 { SameClassSizes(a, c, base, n - 1); }
  }

  predicate LaidOut(b: Input, l: Layout)
  {
    b.Valid() && TablesLaidOut(b, l) && MapsLaidOut(b, l) && CodeLaidOut(b, l)
  }

  // ----- The tables lie in front of the code -----

  function OffsetsOf(l: Layout, kind: TableKind): seq<nat>
  {
    match kind case GcMaps => l.gc case MappingTables => l.mapping case VmapTables => l.vmap
  }

  lemma {:induction false} TableBelow(mem: OatMaps.Memory, base: nat, ps: seq<Ptr>, i: nat)
    requires i < |ps|
    ensures base <= OatMaps.InitRun(mem, base, ps).offset && |OatMaps.InitRun(mem, base, ps).offsets| == |ps|
    ensures OatMaps.Table(mem, ps[i]) != [] ==>
              base <= OatMaps.InitRun(mem, base, ps).offsets[i] < OatMaps.InitRun(mem, base, ps).offset
    ensures OatMaps.Table(mem, ps[i]) == [] ==> OatMaps.InitRun(mem, base, ps).offsets[i] == 0
    ensures forall j :: 0 <= j < |ps| && ps[j] == ps[i] ==>
              OatMaps.InitRun(mem, base, ps).offsets[j] == OatMaps.InitRun(mem, base, ps).offsets[i]
  {
    OatMaps.RunAgrees(mem, base, ps);
    var st := OatMaps.InitRun(mem, base, ps);
    assert OatMaps.Recorded(mem, ps, st.dedupe, st.offsets);
  }

  /** What the layout says about the table of one kind of compiled method `n`. */
  lemma {:induction false} TableLaidOut(b: Input, l: Layout, kind: TableKind, n: nat)
    requires b.Valid() && MapsLaidOut(b, l) && n < |b.Tables(kind)|
    ensures n < |OffsetsOf(l, kind)|
    ensures var offset, table := OffsetsOf(l, kind)[n], OatMaps.Table(b.cfg.mem, b.Tables(kind)[n]);
            offset < l.mapsEnd && (offset == 0 <==> table == [])
  {
    var mem := b.cfg.mem;
    HeaderInFront(b);
    TableBelow(mem, b.GcBase(), b.Tables(GcMaps), n);
    TableBelow(mem, l.mappingBase, b.Tables(MappingTables), n);
    TableBelow(mem, l.vmapBase, b.Tables(VmapTables), n);
  }

  lemma {:induction false} HeaderInFront(b: Input)
    requires b.Valid()
    ensures b.headerSize <= b.GcBase()
  {
    RecordsBehind(b.RecordsBase(), b.dexFiles, |b.dexFiles|);
    FilesBehind(b.DexBase(), b.dexFiles, |b.dexFiles|);
    ClassesBehind(b.ClassBase(), b.classes, |b.classes|);
  }

  lemma {:induction false} RecordsBehind(base: nat, ds: seq<DexFile>, n: nat)
    requires n <= |ds|
    ensures base <= RecordsEnd(base, ds, n)
  {
    if n > 0 { RecordsBehind(base, ds, n - 1); }
  }

  lemma {:induction false} FilesBehind(base: nat, ds: seq<DexFile>, n: nat)
    requires n <= |ds|
    ensures base <= DexEnd(base, ds, n)
  {
    if n > 0 { FilesBehind(base, ds, n - 1); }
  }

  lemma {:induction false} ClassesBehind(base: nat, classes: seq<OatClass>, n: nat)
    requires n <= |classes|
    ensures base <= ClassEnd(base, classes, n)
  {
    if n > 0 { ClassesBehind(base, classes, n - 1); }
  }

  lemma {:induction false} TrampolinesBehind(cfg: Config, base: nat, ts: seq<seq<byte>>, n: nat)
    requires n <= |ts|
    ensures base <= TrampolineEnd(cfg, base, ts, n)
  {
    if n > 0 { TrampolinesBehind(cfg, base, ts, n - 1); }
  }

  lemma {:induction false} TablesOfVisits(oc: OatClass, i: nat)
    requires oc.Valid() && i <= |oc.methods|
    ensures |Visits(oc, i)| <= |oc.slots|
    ensures forall k :: 0 <= k < |Visits(oc, i)| ==> Visits(oc, i)[k].tables == oc.slots[k].header.tables
  {
    if i > 0 {
      TablesOfVisits(oc, i - 1);
      CompiledGrows(oc.methods, i - 1);
    }
  }

  lemma {:induction false} TablesOfAll(classes: seq<OatClass>, c: nat)
    requires AllValid(classes) && c <= |classes|
    ensures |AllVisits(classes, c)| == |AllSlots(classes, c)|
    ensures forall n :: 0 <= n < |AllVisits(classes, c)| ==>
              AllVisits(classes, c)[n].tables == AllSlots(classes, c)[n].header.tables
  {
    if c > 0 {
      TablesOfAll(classes, c - 1);
      var oc := classes[c - 1];
      TablesOfVisits(oc, |oc.methods|);
      assert oc.methods[..|oc.methods|] == oc.methods;
    }
  }

  /** Before the code pass, the slot of method `n` holds the offsets of its own tables. */
  lemma {:induction false} VisitTable(b: Input, l: Layout, n: nat, kind: TableKind)
    requires LaidOut(b, l) && n < |AllVisits(l.tabled, |l.tabled|)|
    ensures n < |b.Tables(kind)| && n < |OffsetsOf(l, kind)|
    ensures var v := AllVisits(l.tabled, |l.tabled|)[n];
            b.Tables(kind)[n] == TableOf(v.m, kind) && FieldOf(v.tables, kind) == Diff(0, OffsetsOf(l, kind)[n])
  {
    AllBaresMatch(l.tabled, l.tabled, |l.tabled|);
    AllBaresMatch(b.classes, l.tabled, |l.tabled|);
    TablesOfAll(l.tabled, |l.tabled|);
    var v, u := AllVisits(l.tabled, |l.tabled|)[n], AllVisits(b.classes, |b.classes|)[n];
    assert AllBares(l.tabled, |l.tabled|)[n].m == v.m == u.m;
    TableLaidOut(b, l, kind, n);
  }

  // ----- What the finished slots stand for -----

  lemma {:induction false} CodeOffsetBelow(cfg: Config, base: nat, vs: seq<Visited>, i: nat)
    requires i < |vs|
    ensures |InitPass(cfg, base, vs).placed| == |vs| &&
            InitPass(cfg, base, vs).placed[i].codeOffset <= InitPass(cfg, base, vs).offset + 1
  {
    PassPlaces(cfg, base, vs);
    var j := FirstOccurrence(cfg, vs, i);
    OatRecords.SameAsFirst(cfg, base, vs, i, j);
    OatRecords.RangeEnds(cfg, base, vs, j);
    EndsBelow(cfg, base, vs, j + 1);
  }

  lemma {:induction false} EndsBelow(cfg: Config, base: nat, vs: seq<Visited>, i: nat)
    requires i <= |vs|
    ensures At(cfg, base, vs, i).offset <= InitPass(cfg, base, vs).offset
  {
    assert vs[..|vs|] == vs;
    AtPrefix(cfg, base, vs, i, |vs|);
  }

  /** In the finished classes the slot of every method decodes to the offset its table got. */
  lemma {:induction false} SlotDecodes(b: Input, l: Layout, kind: TableKind, n: nat, slot: Slot)
    requires LaidOut(b, l) && l.size + 1 < WORD && n < |AllSlots(l.filled, |l.filled|)| &&
             slot == AllSlots(l.filled, |l.filled|)[n]
    ensures n < |OffsetsOf(l, kind)| && TableOffset(slot, kind) == OffsetsOf(l, kind)[n]
  {
    var vs := AllVisits(l.tabled, |l.tabled|);
    var placed := InitPass(b.cfg, l.codeBase, vs).placed;
    PassPlaces(b.cfg, l.codeBase, vs);
    SlotCount(placed);
    SlotsOfAt(placed, n);
    VisitTable(b, l, n, kind);
    TableLaidOut(b, l, kind, n);
    TrampolinesBehind(b.cfg, PageEnd(l.mapsEnd), b.trampolines, |b.trampolines|);
    CodeOffsetBelow(b.cfg, l.codeBase, vs, n);
    TheoremTableOffset(b.cfg, l.codeBase, vs, n, kind, OffsetsOf(l, kind)[n]);
  }

  lemma {:induction false} SlotCount(placed: seq<Placed>)
    ensures |SlotsOf(placed)| == |placed|
  {
    if placed != [] { SlotCount(placed[..|placed| - 1]); }
  }

  lemma {:induction false} OffsetCount(b: Input, l: Layout, kind: TableKind)
    requires LaidOut(b, l)
    ensures |OffsetsOf(l, kind)| == |AllSlots(l.filled, |l.filled|)|
  {
    var vs := AllVisits(l.tabled, |l.tabled|);
    PassPlaces(b.cfg, l.codeBase, vs);
    SlotCount(InitPass(b.cfg, l.codeBase, vs).placed);
    TablesOfAll(l.tabled, |l.tabled|);
  }

  lemma {:induction false} SlotsDecode(b: Input, l: Layout, kind: TableKind)
    requires LaidOut(b, l) && l.size + 1 < WORD
    ensures Decoded(AllSlots(l.filled, |l.filled|), kind, OffsetsOf(l, kind))
  {
    OffsetCount(b, l, kind);
    var slots := AllSlots(l.filled, |l.filled|);
    forall n | 0 <= n < |slots| ensures TableOffset(slots[n], kind) == OffsetsOf(l, kind)[n] {
      SlotDecodes(b, l, kind, n, slots[n]);
    }
  }
}
