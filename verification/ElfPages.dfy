/** What the loader makes of the segments: every section at its address, and every page with one protection. */
module ElfPages {
  import opened Align
  import opened Options
  import opened ElfLayout

  /** The builder's own sections are laid out on pages from .rodata on. */
  lemma {:induction false} OnPages(b: Input, i: nat)
    requires RODATA <= i <= Dynamic(b)
    ensures |b.Sections()| > Dynamic(b) && b.Sections()[i].alloc && b.Sections()[i].addralign == PAGE
    ensures HeaderOf(b.Start(), b.Sections(), i).addr % PAGE == 0
    ensures HeaderOf(b.Start(), b.Sections(), i).offset % PAGE == 0
  {
    SectionsAre(b);
    PlaceAligned(CursorAt(b.Start(), b.Sections(), i), b.Sections()[i]);
  }

  /** Loading the segment puts the section at its address: its bytes from the file, or as much zeroed memory. */
  predicate Loads(p: Phdr, s: Section, h: Shdr)
  {
    p.kind == PtLoad && if s.noBits then p.vaddr == h.addr && p.filesz == 0 && p.memsz == s.size else Maps(p, s, h)
  }

  /** The number of the program header that loads section `i` of the builder's own. */
  function LoadedBy(b: Input, i: nat): nat
  {
    if i <= RODATA then 1 else i - RODATA + 1
  }

  lemma {:induction false} ProgramHeadersAre(b: Input)
    ensures var ph := ProgramHeaders(b);
            && |b.Sections()| > Dynamic(b) && |ph| >= Dynamic(b) && ph[1] == MainSegment(b)
            && ph[2] == Segment(b, PtLoad, RX, TEXT) && (b.bss != 0 ==> ph[3] == Segment(b, PtLoad, RW, TEXT + 1))
            && ph[Dynamic(b) - 2] == Segment(b, PtLoad, RW, Dynamic(b))
            && ph[Dynamic(b) - 1] == Segment(b, PtDynamic, RW, Dynamic(b))
  {
    BodyAre(b);
  }

  lemma {:induction false} SegmentLoads(flags: Flags, s: Section, h: Shdr)
    ensures Loads(SegmentOf(PtLoad, flags, s, h), s, h)
  {
  }

  lemma {:induction false} LoadedSegment(b: Input, i: nat)
    requires TEXT <= i <= Dynamic(b)
    ensures |b.Sections()| > Dynamic(b) && LoadedBy(b, i) < |ProgramHeaders(b)|
    ensures exists flags :: ProgramHeaders(b)[LoadedBy(b, i)] == Segment(b, PtLoad, flags, i)
  {
    ProgramHeadersAre(b);
    assert i == TEXT || i == TEXT + 1 || i == Dynamic(b);
  }

  /** Every section that belongs into memory is loaded. */
  lemma {:induction false} TheoremSectionsLoaded(b: Input, i: nat)
    requires i <= Dynamic(b)
    ensures |b.Sections()| > Dynamic(b) && LoadedBy(b, i) < |ProgramHeaders(b)|
    ensures Loads(ProgramHeaders(b)[LoadedBy(b, i)], b.Sections()[i], HeaderOf(b.Start(), b.Sections(), i))
  {
    if i <= RODATA {
      ProgramHeadersAre(b);
      MainMaps(b, i);
    } else {
      LoadedSegment(b, i);
      var flags :| ProgramHeaders(b)[LoadedBy(b, i)] == Segment(b, PtLoad, flags, i);
      SegmentLoads(flags, b.Sections()[i], HeaderOf(b.Start(), b.Sections(), i));
    }
  }

  lemma {:induction false} DynamicIs(b: Input)
    ensures |b.Sections()| > Dynamic(b)
    ensures !b.Sections()[Dynamic(b)].noBits && b.Sections()[Dynamic(b)].size == b.dynamic
  {
    SectionsAre(b);
  }

  /** The dynamic section is announced where it is. */
  lemma {:induction false} TheoremDynamicAnnounced(b: Input)
    ensures |b.Sections()| > Dynamic(b) && |ProgramHeaders(b)| >= Dynamic(b)
    ensures var p, d := ProgramHeaders(b)[Dynamic(b) - 1], HeaderOf(b.Start(), b.Sections(), Dynamic(b));
            p.kind == PtDynamic && p.vaddr == d.addr && p.offset == d.offset && p.filesz == p.memsz == b.dynamic
  {
    ProgramHeadersAre(b);
    DynamicIs(b);
  }

  /** Registered unwind sections, if any, are on pages of their own. */
  predicate EhOnPage(b: Input)
  {
    EhAlloc(b) && match Find(b.others, ".eh_frame") case None => true case Some(k) => b.others[k].addralign == PAGE
  }

  lemma {:induction false} LoadOnPage(b: Input, p: nat)
    requires EhOnPage(b) && p < |ProgramHeaders(b)| && ProgramHeaders(b)[p].kind == PtLoad
    ensures ProgramHeaders(b)[p].vaddr % PAGE == 0 && ProgramHeaders(b)[p].offset % PAGE == 0
    ensures ProgramHeaders(b)[p].align == PAGE
  {
    ProgramHeadersAre(b);
    if p >= Dynamic(b) {
      EhLoadOnPage(b, p);
    } else if p > 1 {
      var i := if p == Dynamic(b) - 2 then Dynamic(b) else RODATA + p - 1;
      OnPages(b, i);
      assert LoadedBy(b, i) == p;
      LoadedSegment(b, i);
    }
  }

  lemma {:induction false} EhLoadOnPage(b: Input, p: nat)
    requires EhOnPage(b) && Dynamic(b) <= p < |ProgramHeaders(b)| && ProgramHeaders(b)[p].kind == PtLoad
    ensures ProgramHeaders(b)[p].vaddr % PAGE == 0 && ProgramHeaders(b)[p].offset % PAGE == 0
    ensures ProgramHeaders(b)[p].align == PAGE
  {
    BodyAre(b);
    SectionsAre(b);
    assert ProgramHeaders(b)[p] == BodySegments(b)[Dynamic(b) - 1..][p - Dynamic(b)] == EhSegments(b)[p - Dynamic(b)];
    var k := Find(b.others, ".eh_frame").value;
    PlaceAligned(CursorAt(b.Start(), b.Sections(), b.Others() + k), b.Sections()[b.Others() + k]);
  }

  /** The last page of a range in memory that is not empty. */
  function LastPage(p: Phdr): nat
    requires p.memsz > 0
  {
    (p.vaddr + p.memsz - 1) / PAGE
  }

  lemma {:induction false} PageBelow(end: nat, start: nat)
    requires 0 < end <= start && start % PAGE == 0
    ensures (end - 1) / PAGE < start / PAGE
  {
  }

  /** No page belongs to two segments, so every page has the protection of the segment it was laid out for; only the
      code may run, and nothing that may run may be written. */
  lemma {:induction false} TheoremPages(b: Input)
    requires EhOnPage(b)
    ensures var ph := ProgramHeaders(b);
            && (forall p, q :: 0 <= p < q < |ph| && ph[p].kind == PtLoad && ph[q].kind == PtLoad && ph[p].memsz > 0 ==>
                  LastPage(ph[p]) < ph[q].vaddr / PAGE)
            && (forall p :: 0 <= p < |ph| ==> (ph[p].flags == RX <==> p == 2))
            && |b.Sections()| > TEXT && ph[2].kind == PtLoad
            && ph[2].vaddr == HeaderOf(b.Start(), b.Sections(), TEXT).addr && ph[2].memsz == b.text
  {
    ProgramHeadersAre(b);
    SectionsAre(b);
    TheoremProgramHeaders(b);
    var ph := ProgramHeaders(b);
    forall p, q | 0 <= p < q < |ph| && ph[p].kind == PtLoad && ph[q].kind == PtLoad && ph[p].memsz > 0
      ensures LastPage(ph[p]) < ph[q].vaddr / PAGE
    {
      LoadOnPage(b, q);
      PageBelow(ph[p].vaddr + ph[p].memsz, ph[q].vaddr);
    }
    forall p | 0 <= p < |ph| ensures ph[p].flags == RX <==> p == 2 {
      OnlyTextRuns(b, p);
    }
  }

  lemma {:induction false} OnlyTextRuns(b: Input, p: nat)
    requires p < |ProgramHeaders(b)|
    ensures ProgramHeaders(b)[p].flags == RX <==> p == 2
  {
    ProgramHeadersAre(b);
    BodyAre(b);
    if p >= Dynamic(b) {
      assert ProgramHeaders(b)[p] == BodySegments(b)[Dynamic(b) - 1..][p - Dynamic(b)] == EhSegments(b)[p - Dynamic(b)];
    }
  }
}
