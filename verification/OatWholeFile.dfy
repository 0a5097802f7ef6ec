/** Writing the whole oat file, in the order of its parts. */
module OatWholeFile {
  import opened Bytes
  import opened CompiledMethods
  import opened Options
  import opened OatCode
  import opened OatCodeTheorem
  import opened OatFile
  import opened OatLayout
  import opened OatVisitors
  import opened OatWriteVisitor
  import OatMaps

  // ----- The finished file -----

  /** Records and dex files. */
  predicate FrontAt(b: Input, l: Layout, out: seq<byte>)
    requires b.Valid() && TablesLaidOut(b, l)
  {
    && PartsAt(out, RecordStarts(b.RecordsBase(), b.dexFiles), DexRecords(b.dexFiles, l.dexOffsets, l.classOffsets),
               |b.dexFiles|)
    && PartsAt(out, l.dexOffsets, Files(b.dexFiles), |b.dexFiles|)
  }

  predicate ClassesAt(b: Input, l: Layout, out: seq<byte>)
    requires b.Valid() && CodeLaidOut(b, l)
  {
    PartsAt(out, l.classOffsets, ClassRecords(b.statuses, l.filled), |l.filled|)
  }

  predicate MapsAt(b: Input, l: Layout, out: seq<byte>)
    requires b.Valid()
  {
    && TablesAt(out, b.cfg.mem, b.Tables(GcMaps), l.gc)
    && TablesAt(out, b.cfg.mem, b.Tables(MappingTables), l.mapping)
    && TablesAt(out, b.cfg.mem, b.Tables(VmapTables), l.vmap)
  }

  /** Trampolines, and the Write pass over the methods up to the end of the file. */
  predicate CodeStands(b: Input, l: Layout, out: seq<byte>)
    requires AllValid(l.tabled)
  {
    && PartsAt(out, TrampolineStarts(b.cfg, PageEnd(l.mapsEnd), b.trampolines), b.trampolines, |b.trampolines|)
    && l.codeBase <= |out|
    && out[l.codeBase..] == WritePass(b.cfg, l.codeBase,
                                      InitPass(b.cfg, l.codeBase, AllVisits(l.tabled, |l.tabled|))).out
  }

  /** Every part of the file stands where the layout says. */
  predicate Written(b: Input, l: Layout, out: seq<byte>)
    requires LaidOut(b, l)
  {
    FrontAt(b, l, out) && ClassesAt(b, l, out) && MapsAt(b, l, out) && CodeStands(b, l, out)
  }

  lemma {:induction false} FrontStays(b: Input, l: Layout, before: seq<byte>, out: seq<byte>)
    requires b.Valid() && TablesLaidOut(b, l) && before <= out && FrontAt(b, l, before)
    ensures FrontAt(b, l, out)
  {
    PartsStay(before, out, RecordStarts(b.RecordsBase(), b.dexFiles),
              DexRecords(b.dexFiles, l.dexOffsets, l.classOffsets), |b.dexFiles|);
    PartsStay(before, out, l.dexOffsets, Files(b.dexFiles), |b.dexFiles|);
  }

  lemma {:induction false} ClassesStay(b: Input, l: Layout, before: seq<byte>, out: seq<byte>)
    requires b.Valid() && CodeLaidOut(b, l) && before <= out && ClassesAt(b, l, before)
    ensures ClassesAt(b, l, out)
  {
    PartsStay(before, out, l.classOffsets, ClassRecords(b.statuses, l.filled), |l.filled|);
  }

  lemma {:induction false} MapsStay(b: Input, l: Layout, before: seq<byte>, out: seq<byte>)
    requires b.Valid() && before <= out && MapsAt(b, l, before)
    ensures MapsAt(b, l, out)
  {
    TablesStay(before, out, b.cfg.mem, b.Tables(GcMaps), l.gc);
    TablesStay(before, out, b.cfg.mem, b.Tables(MappingTables), l.mapping);
    TablesStay(before, out, b.cfg.mem, b.Tables(VmapTables), l.vmap);
  }

  lemma {:induction false} RodataStays(b: Input, l: Layout, classes: seq<byte>, maps: seq<byte>, out: seq<byte>)
    requires LaidOut(b, l) && classes <= out && maps <= out
    requires FrontAt(b, l, classes) && ClassesAt(b, l, classes) && MapsAt(b, l, maps)
    ensures FrontAt(b, l, out) && ClassesAt(b, l, out) && MapsAt(b, l, out)
  {
    FrontStays(b, l, classes, out);
    ClassesStay(b, l, classes, out);
    MapsStay(b, l, maps, out);
  }

  lemma {:induction false} FilledOffsets(b: Input, l: Layout)
    requires LaidOut(b, l)
    ensures ClassOffsetsAre(b.ClassBase(), l.filled, l.classOffsets)
    ensures ClassEnd(b.ClassBase(), l.filled, |l.filled|) == b.GcBase()
  {
    forall i | 0 <= i <= |l.filled| ensures ClassEnd(b.ClassBase(), l.filled, i) ==
      ClassEnd(b.ClassBase(), b.classes, i) {
      SameClassSizes(l.filled, b.classes, b.ClassBase(), i);
    }
  }

  /** Header and records. */
  method WriteRecordPart(b: Input, l: Layout) returns (stream: OatStream)
    requires |l.dexOffsets| == |b.dexFiles| && |l.classOffsets| == ClassDefs(b.dexFiles, |b.dexFiles|)
    ensures fresh(stream) && |stream.out| == b.DexBase()
    ensures stream.sizes.Total() == |stream.out| + l.dexAlignment + (PageEnd(l.mapsEnd) - l.mapsEnd)
    ensures PartsAt(stream.out, RecordStarts(b.RecordsBase(), b.dexFiles),
                    DexRecords(b.dexFiles, l.dexOffsets, l.classOffsets), |b.dexFiles|)
  {
    stream := new OatStream(l.dexAlignment, PageEnd(l.mapsEnd) - l.mapsEnd);
    stream.ReserveHeader(b.headerSize, b.keyValueSize);
    stream.WriteRecords(b.dexFiles, l.dexOffsets, l.classOffsets);
  }

  /** Header, records and dex files. */
  method WriteFront(b: Input, l: Layout) returns (stream: OatStream)
    requires b.Valid() && TablesLaidOut(b, l)
    ensures fresh(stream) && |stream.out| == b.ClassBase()
    ensures stream.sizes.Total() == |stream.out| + (PageEnd(l.mapsEnd) - l.mapsEnd)
    ensures FrontAt(b, l, stream.out)
  {
    stream := WriteRecordPart(b, l);
    ghost var records := stream.out;
    stream.WriteDexFiles(b.dexFiles, l.dexOffsets, b.DexBase());
    PartsStay(records, stream.out, RecordStarts(b.RecordsBase(), b.dexFiles),
              DexRecords(b.dexFiles, l.dexOffsets, l.classOffsets), |b.dexFiles|);
  }

  method WriteAllMaps(b: Input, l: Layout, stream: OatStream)
    requires LaidOut(b, l) && l.size + 1 < WORD && |stream.out| == b.GcBase()
    modifies stream
    ensures |stream.out| == l.mapsEnd && old(stream.out) <= stream.out && MapsAt(b, l, stream.out)
    ensures stream.sizes.Total() == old(stream.sizes.Total()) + (|stream.out| - old(|stream.out|))
  {
    var slots := AllSlots(l.filled, |l.filled|);
    SlotsDecode(b, l, GcMaps);
    SlotsDecode(b, l, MappingTables);
    SlotsDecode(b, l, VmapTables);
    stream.WriteTables(GcMaps, b.cfg.mem, b.Tables(GcMaps), slots, l.gc);
    ghost var gc := stream.out;
    stream.WriteTables(MappingTables, b.cfg.mem, b.Tables(MappingTables), slots, l.mapping);
    ghost var mapping := stream.out;
    stream.WriteTables(VmapTables, b.cfg.mem, b.Tables(VmapTables), slots, l.vmap);
    TablesStay(gc, stream.out, b.cfg.mem, b.Tables(GcMaps), l.gc);
    TablesStay(mapping, stream.out, b.cfg.mem, b.Tables(MappingTables), l.mapping);
  }

  /** Header, records, dex files and classes. */
  method WriteClassPart(b: Input, l: Layout) returns (stream: OatStream)
    requires LaidOut(b, l)
    ensures fresh(stream) && |stream.out| == b.GcBase()
    ensures stream.sizes.Total() == |stream.out| + (PageEnd(l.mapsEnd) - l.mapsEnd)
    ensures FrontAt(b, l, stream.out) && ClassesAt(b, l, stream.out)
  {
    stream := WriteFront(b, l);
    ghost var front := stream.out;
    FilledOffsets(b, l);
    stream.WriteClasses(b.statuses, l.filled, l.classOffsets);
    FrontStays(b, l, front, stream.out);
  }

  /** Everything in front of the code. */
  method WriteRodata(b: Input, l: Layout) returns (stream: OatStream)
    requires LaidOut(b, l) && l.size + 1 < WORD
    ensures fresh(stream) && |stream.out| == PageEnd(l.mapsEnd) == stream.sizes.Total()
    ensures FrontAt(b, l, stream.out) && ClassesAt(b, l, stream.out) && MapsAt(b, l, stream.out)
  {
    stream := WriteClassPart(b, l);
    ghost var classes := stream.out;
    WriteAllMaps(b, l, stream);
    ghost var maps := stream.out;
    stream.SkipToCode(PageEnd(l.mapsEnd) - l.mapsEnd);
    RodataStays(b, l, classes, maps, stream.out);
  }

  /** Writes the file. The categories counted add up to the bytes put out; with agreeing code passes both are the
      size the layout computed. */
  method Write(b: Input, l: Layout) returns (out: seq<byte>, sizes: Sizes)
    requires LaidOut(b, l) && l.size + 1 < WORD
    ensures sizes.Total() == |out| && Written(b, l, out)
    ensures var vs := AllVisits(l.tabled, |l.tabled|);
            NonEmptyCode(b.cfg, vs) && NoTinyRepeat(b.cfg, vs) ==> |out| == l.size
  {
    var stream := WriteRodata(b, l);
    ghost var rodata := stream.out;
    stream.WriteTrampolines(b.cfg, b.trampolines);
    ghost var trampolines := stream.out;
    var code, end, codeSizes := WriteCode(b.cfg, l.codeBase, l.tabled, l.filled, l.thunks);
    stream.AddCode(code, codeSizes);
    out, sizes := stream.out, stream.sizes;
    RodataStays(b, l, rodata, rodata, out);
    PartsStay(trampolines, out, TrampolineStarts(b.cfg, PageEnd(l.mapsEnd), b.trampolines), b.trampolines,
              |b.trampolines|);
  }

  /** Layout and writing of any oat file that 32-bit offsets reach. */
  method MakeOatFile(b: Input) returns (l: Layout, out: seq<byte>, sizes: Option<Sizes>)
    requires b.Valid()
    ensures LaidOut(b, l) && (sizes.Some? <==> l.size + 1 < WORD)
    ensures sizes.Some? ==> Written(b, l, out) && sizes.value.Total() == |out|
    ensures var vs := AllVisits(l.tabled, |l.tabled|);
            sizes.Some? && NonEmptyCode(b.cfg, vs) && NoTinyRepeat(b.cfg, vs) ==> sizes.value.Total() == |out| == l.size
  {
    l := Init(b);
    if l.size + 1 < WORD {
      var counted;
      out, counted := Write(b, l);
      sizes := Some(counted);
    } else {
      out, sizes := [], None;
    }
  }
}
