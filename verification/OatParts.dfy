/** The parts of a laid out oat file: where they may lie, without the passes that put them there. */
module OatParts {
  import opened Bytes
  import opened OatCode
  import opened OatFile
  import opened OatLayout
  import opened OatThunks
  import opened OatVisitors
  import OatClassTable

  /** Pieces of the given sizes follow one another without overlap between `lo` and `hi`. */
  predicate InOrder(offsets: seq<nat>, sizes: seq<nat>, lo: nat, hi: nat)
  {
    && |offsets| == |sizes|
    && (forall i :: 0 <= i < |offsets| ==> lo <= offsets[i] && offsets[i] + sizes[i] <= hi)
    && (forall i, j :: 0 <= i < j < |offsets| ==> offsets[i] + sizes[i] <= offsets[j])
  }

  // ----- Dex files -----

  function FileSizes(ds: seq<DexFile>): (sizes: seq<nat>)
    ensures |sizes| == |ds| && forall i :: 0 <= i < |ds| ==> sizes[i] == |ds[i].file|
  {
    seq(|ds|, i requires 0 <= i < |ds| => |ds[i].file|)
  }

  lemma {:induction false} DexEndGrows(base: nat, ds: seq<DexFile>, m: nat, n: nat)
    requires m <= n <= |ds|
    ensures DexEnd(base, ds, m) <= DexEnd(base, ds, n)
    ensures m < n ==> RoundUp4(DexEnd(base, ds, m)) + |ds[m].file| <= DexEnd(base, ds, n)
  {
    if m < n { DexEndGrows(base, ds, m, n - 1); }
  }

  lemma {:induction false} FilesInOrder(base: nat, ds: seq<DexFile>, offsets: seq<nat>)
    requires DexOffsetsAre(base, ds, offsets)
    ensures InOrder(offsets, FileSizes(ds), base, DexEnd(base, ds, |ds|))
    ensures forall i :: 0 <= i < |offsets| ==> offsets[i] % 4 == 0
  {
    var sizes, n := FileSizes(ds), |ds|;
    forall i | 0 <= i < n
      ensures base <= offsets[i] && offsets[i] + sizes[i] <= DexEnd(base, ds, n) && offsets[i] % 4 == 0
    {
      DexEndGrows(base, ds, 0, i);
      DexEndGrows(base, ds, i, n);
    }
    forall i, j | 0 <= i < j < n ensures offsets[i] + sizes[i] <= offsets[j] { DexEndGrows(base, ds, i, j); }
  }

  /** Dex files start at multiples of four, between the records and the classes. */
  lemma {:induction false} TheoremDexFilesPlaced(b: Input, l: Layout)
    requires LaidOut(b, l)
    ensures InOrder(l.dexOffsets, FileSizes(b.dexFiles), b.DexBase(), b.ClassBase())
    ensures forall i :: 0 <= i < |l.dexOffsets| ==> l.dexOffsets[i] % 4 == 0
  {
    FilesInOrder(b.DexBase(), b.dexFiles, l.dexOffsets);
  }

  // ----- Classes -----

  function ClassSizes(classes: seq<OatClass>): (sizes: seq<nat>)
    ensures |sizes| == |classes|
    ensures forall i :: 0 <= i < |classes| ==> sizes[i] == OatClassTable.SizeOf(classes[i].methods)
  {
    seq(|classes|, i requires 0 <= i < |classes| => OatClassTable.SizeOf(classes[i].methods))
  }

  lemma {:induction false} ClassEndGrows(base: nat, classes: seq<OatClass>, m: nat, n: nat)
    requires m <= n <= |classes|
    ensures ClassEnd(base, classes, m) <= ClassEnd(base, classes, n)
    ensures m < n ==> ClassEnd(base, classes, m) + OatClassTable.SizeOf(classes[m].methods) <= ClassEnd(base, classes,
        n)
  {
    if m < n { ClassEndGrows(base, classes, m, n - 1); }
  }

  lemma {:induction false} ClassesInOrder(base: nat, classes: seq<OatClass>, offsets: seq<nat>)
    requires ClassOffsetsAre(base, classes, offsets)
    ensures InOrder(offsets, ClassSizes(classes), base, ClassEnd(base, classes, |classes|))
  {
    var sizes, n := ClassSizes(classes), |classes|;
    forall i | 0 <= i < n ensures base <= offsets[i] && offsets[i] + sizes[i] <= ClassEnd(base, classes, n) {
      ClassEndGrows(base, classes, 0, i);
      ClassEndGrows(base, classes, i, n);
    }
    forall i, j | 0 <= i < j < n ensures offsets[i] + sizes[i] <= offsets[j] {
      ClassEndGrows(base, classes, i, j);
    }
  }

  /** Class records lie between the dex files and the tables. */
  lemma {:induction false} TheoremClassesPlaced(b: Input, l: Layout)
    requires LaidOut(b, l)
    ensures InOrder(l.classOffsets, ClassSizes(b.classes), b.ClassBase(), b.GcBase())
  {
    ClassesInOrder(b.ClassBase(), b.classes, l.classOffsets);
  }

  // ----- The executable part -----

  function TrampolineSizes(ts: seq<seq<byte>>): (sizes: seq<nat>)
    ensures |sizes| == |ts| && forall i :: 0 <= i < |ts| ==> sizes[i] == |ts[i]|
  {
    seq(|ts|, i requires 0 <= i < |ts| => |ts[i]|)
  }

  lemma {:induction false} TrampolineEndGrows(cfg: Config, base: nat, ts: seq<seq<byte>>, m: nat, n: nat)
    requires m <= n <= |ts|
    ensures TrampolineEnd(cfg, base, ts, m) <= TrampolineEnd(cfg, base, ts, n)
    ensures m < n ==> cfg.AlignCode(TrampolineEnd(cfg, base, ts, m)) + |ts[m]| <= TrampolineEnd(cfg, base, ts, n)
  {
    if m < n { TrampolineEndGrows(cfg, base, ts, m, n - 1); }
  }

  lemma {:induction false} TrampolinesInOrder(cfg: Config, base: nat, ts: seq<seq<byte>>)
    ensures InOrder(TrampolineStarts(cfg, base, ts), TrampolineSizes(ts), base, TrampolineEnd(cfg, base, ts, |ts|))
    ensures forall i :: 0 <= i < |ts| ==> TrampolineStarts(cfg, base, ts)[i] % 8 == 0
  {
    var starts, sizes, n := TrampolineStarts(cfg, base, ts), TrampolineSizes(ts), |ts|;
    forall i | 0 <= i < n
      ensures base <= starts[i] && starts[i] + sizes[i] <= TrampolineEnd(cfg, base, ts, n) && starts[i] % 8 == 0
    {
      TrampolineEndGrows(cfg, base, ts, 0, i);
      TrampolineEndGrows(cfg, base, ts, i, n);
      AlignedTo(cfg, TrampolineEnd(cfg, base, ts, i));
    }
    forall i, j | 0 <= i < j < n ensures starts[i] + sizes[i] <= starts[j] {
      TrampolineEndGrows(cfg, base, ts, i, j);
    }
  }

  /** The executable part starts on a page behind the tables, with the aligned trampolines, and then the code. */
  lemma {:induction false} TheoremExecutablePlaced(b: Input, l: Layout)
    requires LaidOut(b, l)
    ensures var exec := PageEnd(l.mapsEnd);
            && l.mapsEnd <= exec < l.mapsEnd + 4096 && exec % 4096 == 0 && exec <= l.codeBase
            && InOrder(TrampolineStarts(b.cfg, exec, b.trampolines), TrampolineSizes(b.trampolines), exec, l.codeBase)
    ensures forall i :: 0 <= i < |b.trampolines| ==>
              TrampolineStarts(b.cfg, PageEnd(l.mapsEnd), b.trampolines)[i] % 8 == 0
  {
    TrampolinesInOrder(b.cfg, PageEnd(l.mapsEnd), b.trampolines);
    TrampolinesBehind(b.cfg, PageEnd(l.mapsEnd), b.trampolines, |b.trampolines|);
  }
}
