/** The layout of an ELF file: sections get file offsets and addresses in one pass, program headers are made from
    them, and a second pass writes the file. */
module ElfLayout {
  import opened Align
  import opened Bytes
  import opened Options
  import opened Streams

  const PAGE: nat := 4096
  const MAX_PROGRAM_HEADERS: nat := 8

  /** Sizes of the 32-bit or 64-bit ELF structures. */
  datatype ElfTypes = ElfTypes(ehdr: nat, phdr: nat, shdr: nat, off: nat)

  const ELF32 := ElfTypes(52, 32, 40, 4)
  const ELF64 := ElfTypes(64, 56, 64, 8)

  datatype Section = Section(name: string, noBits: bool, alloc: bool, addralign: nat, size: nat)
  {
    function Alignment(): (a: nat)
      ensures a > 0
    {
      if addralign > 0 then addralign else 1
    }
  }

  /** The fields of a section header that the layout fills in. */
  datatype Shdr = Shdr(offset: nat, addr: nat)

  datatype Cursor = Cursor(file: nat, load: nat)

  function Place(c: Cursor, s: Section): Shdr
  {
    Shdr(if s.noBits then 0 else RoundUp(c.file, s.Alignment()), if s.alloc then RoundUp(c.load, s.Alignment()) else 0)
  }

  function Advance(c: Cursor, s: Section): Cursor
  {
    var h := Place(c, s);
    Cursor(if s.noBits then c.file else h.offset + s.size, if s.alloc then h.addr + s.size else c.load)
  }

  /** The cursor before section `i`. */
  function CursorAt(start: nat, ss: seq<Section>, i: nat): Cursor
    requires i <= |ss|
  {
    if i == 0 then Cursor(start, start) else Advance(CursorAt(start, ss, i - 1), ss[i - 1])
  }

  function HeaderOf(start: nat, ss: seq<Section>, i: nat): Shdr
    requires i < |ss|
  {
    Place(CursorAt(start, ss, i), ss[i])
  }

  /** Determines all offsets and addresses. */
  method Layout(start: nat, ss: seq<Section>) returns (headers: seq<Shdr>, end: nat)
    ensures HeadersAre(start, ss, headers)
    ensures end == CursorAt(start, ss, |ss|).file
  {
    headers := [];
    var fileOffset: nat, loadAddress: nat := start, start;
    for i := 0 to |ss|
      invariant |headers| == i && forall j :: 0 <= j < i ==> headers[j] == HeaderOf(start, ss, j)
      invariant Cursor(fileOffset, loadAddress) == CursorAt(start, ss, i)
    {
      var alignment := ss[i].Alignment();
      var offset, addr := 0, 0;
      if !ss[i].noBits {
        offset := RoundUp(fileOffset, alignment);
        fileOffset := offset + ss[i].size;
      }
      if ss[i].alloc {
        addr := RoundUp(loadAddress, alignment);
        loadAddress := addr + ss[i].size;
      }
      headers := headers + [Shdr(offset, addr)];
    }
    end := fileOffset;
  }

  // ----- Order of the sections -----

  lemma {:induction false} PlaceAligned(c: Cursor, s: Section)
    ensures var h := Place(c, s);
            && h.offset % s.Alignment() == 0 && h.addr % s.Alignment() == 0
            && (!s.noBits ==> c.file <= h.offset) && (s.alloc ==> c.load <= h.addr)
            && c.file <= Advance(c, s).file && c.load <= Advance(c, s).load
  {
    ZeroMod(s.Alignment());
  }

  lemma {:induction false} ZeroMod(n: nat)
    requires n > 0
    ensures 0 % n == 0
  {
  }

  lemma {:induction false} CursorMonotone(start: nat, ss: seq<Section>, i: nat, j: nat)
    requires i <= j <= |ss|
    ensures CursorAt(start, ss, i).file <= CursorAt(start, ss, j).file
    ensures CursorAt(start, ss, i).load <= CursorAt(start, ss, j).load
  {
    if i < j {
      CursorMonotone(start, ss, i, j - 1);
      PlaceAligned(CursorAt(start, ss, j - 1), ss[j - 1]);
    }
  }

  /** Offsets and addresses are aligned; ranges of sections in the file, and in memory, follow one another. */
  lemma {:induction false} TheoremSectionsApart(start: nat, ss: seq<Section>, i: nat, j: nat)
    requires i < j < |ss|
    ensures var a, b := HeaderOf(start, ss, i), HeaderOf(start, ss, j);
            && a.offset % ss[i].Alignment() == 0 && a.addr % ss[i].Alignment() == 0
            && (!ss[i].noBits ==> start <= a.offset) && (ss[i].alloc ==> start <= a.addr)
            && (!ss[i].noBits && !ss[j].noBits ==> a.offset + ss[i].size <= b.offset)
            && (ss[i].alloc && ss[j].alloc ==> a.addr + ss[i].size <= b.addr)
  {
    PlaceAligned(CursorAt(start, ss, i), ss[i]);
    PlaceAligned(CursorAt(start, ss, j), ss[j]);
    CursorMonotone(start, ss, 0, i);
    CursorMonotone(start, ss, i + 1, j);
  }

  predicate Plain(s: Section)
  {
    s.alloc && !s.noBits
  }

  /** As long as every section is both in the file and in memory, address and file offset are the same. */
  lemma {:induction false} SameAddress(start: nat, ss: seq<Section>, i: nat)
    requires i <= |ss| && forall j :: 0 <= j < i ==> Plain(ss[j])
    ensures CursorAt(start, ss, i).file == CursorAt(start, ss, i).load
  {
    if i > 0 { SameAddress(start, ss, i - 1); }
  }

  // ----- The oat file -----

  /** Sizes of the sections the builder makes itself, and the sections registered with it. */
  datatype Input = Input(
    types: ElfTypes, dynsym: nat, dynstr: nat, hash: nat, rodata: nat, text: nat, bss: nat, dynamic: nat,
    symtab: Option<(nat, nat)>, others: seq<Section>, shstrtab: nat)
  {
    predicate Valid() {
      types == ELF32 || types == ELF64
    }

    function Start(): nat {
      types.ehdr + types.phdr * MAX_PROGRAM_HEADERS
    }

    function Head(): (ss: seq<Section>) {
      [Section(".dynsym", false, true, types.off, dynsym), Section(".dynstr", false, true, 1, dynstr),
       Section(".hash", false, true, 4, hash), Section(".rodata", false, true, PAGE, rodata),
       Section(".text", false, true, PAGE, text)] +
      (if bss != 0 then [Section(".bss", true, true, PAGE, bss)] else []) +
      [Section(".dynamic", false, true, PAGE, dynamic)]
    }

    function Symbols(): seq<Section> {
      match symtab
      case None => []
      case Some((sym, str)) =>
        [Section(".symtab", false, false, types.off, sym), Section(".strtab", false, false, 1, str)]
    }

    function Sections(): seq<Section> {
      Head() + Symbols() + others + [Section(".shstrtab", false, false, 1, shstrtab)]
    }

    /** Where the registered sections start. */
    function Others(): nat {
      |Head()| + |Symbols()|
    }
  }

  const RODATA: nat := 3
  const TEXT: nat := 4

  function Dynamic(b: Input): nat
  {
    if b.bss != 0 then 6 else 5
  }

  lemma {:induction false} SectionsAre(b: Input)
    ensures var ss := b.Sections();
            && |ss| > Dynamic(b) + 1 && |b.Head()| == Dynamic(b) + 1
            && (forall i :: 0 <= i < |b.Head()| ==> ss[i] == b.Head()[i])
            && (forall k :: 0 <= k < |b.others| ==> ss[b.Others() + k] == b.others[k])
  {
  }

  /** The index of the first registered section of a name. */
  function Find(others: seq<Section>, name: string): (k: Option<nat>)
    ensures k.Some? ==> k.value < |others| && others[k.value].name == name
    ensures k.None? ==> forall i :: 0 <= i < |others| ==> others[i].name != name
  {
    if others == [] then None
    else if others[0].name == name then Some(0)
    else match Find(others[1..], name) case None => None case Some(k) => Some(k + 1)
  }

  datatype SegmentType = PtPhdr | PtLoad | PtDynamic | PtGnuEhFrame

  /** What a page may be used for. */
  datatype Flags = R | RX | RW

  datatype Phdr = Phdr(kind: SegmentType, flags: Flags, offset: nat, vaddr: nat, filesz: nat, memsz: nat, align: nat)

  function SegmentOf(kind: SegmentType, flags: Flags, s: Section, h: Shdr): Phdr
  {
    Phdr(kind, flags, h.offset, h.addr, if s.noBits then 0 else s.size, s.size, s.addralign)
  }

  function Segment(b: Input, kind: SegmentType, flags: Flags, i: nat): Phdr
    requires i < |b.Sections()|
  {
    SegmentOf(kind, flags, b.Sections()[i], HeaderOf(b.Start(), b.Sections(), i))
  }

  /** The segment from the start of the file to the end of .rodata. */
  function MainSegment(b: Input): Phdr
  {
    SectionsAre(b);
    var size := HeaderOf(b.Start(), b.Sections(), RODATA).offset + b.rodata;
    Phdr(PtLoad, R, 0, 0, size, size, PAGE)
  }

  function Grown(p: Phdr, more: nat): Phdr
  {
    p.(filesz := p.filesz + more, memsz := p.memsz + more)
  }

  /** Segments for the unwind sections, if registered. */
  function EhSegments(b: Input): seq<Phdr>
  {
    SectionsAre(b);
    match Find(b.others, ".eh_frame")
    case None => []
    case Some(k) =>
      var eh := Segment(b, PtLoad, R, b.Others() + k);
      match Find(b.others, ".eh_frame_hdr")
      case None => [eh]
      case Some(l) => [Grown(eh, b.others[l].size), Segment(b, PtGnuEhFrame, R, b.Others() + l)]
  }

  function BodySegments(b: Input): seq<Phdr>
  {
    SectionsAre(b);
    [MainSegment(b), Segment(b, PtLoad, RX, TEXT)] +
    (if b.bss != 0 then [Segment(b, PtLoad, RW, TEXT + 1)] else []) +
    [Segment(b, PtLoad, RW, Dynamic(b)), Segment(b, PtDynamic, RW, Dynamic(b))] +
    EhSegments(b)
  }

  function Times(n: nat, size: nat): nat
  {
    n * size
  }

  function ProgramHeaders(b: Input): seq<Phdr>
  {
    var body := BodySegments(b);
    var size := Times(1 + |body|, b.types.phdr);
    [Phdr(PtPhdr, R, b.types.ehdr, b.types.ehdr, size, size, b.types.off)] + body
  }

  /** The space reserved for program headers is enough. */
  lemma {:induction false} ProgramHeadersFit(b: Input)
    ensures |ProgramHeaders(b)| <= MAX_PROGRAM_HEADERS
    ensures b.types.ehdr + Times(|ProgramHeaders(b)|, b.types.phdr) <= b.Start()
  {
    Monotone(|ProgramHeaders(b)|, MAX_PROGRAM_HEADERS, b.types.phdr);
  }

  lemma {:induction false} Monotone(a: nat, b: nat, c: nat)
    requires a <= b
    ensures a * c <= b * c
  {
    if a < b { AtLeastOnce(c, b - a); Distribute(c, b, a); }
  }

  // ----- What the loader will do -----

  /** Loading the segment puts every byte of the section at its address. */
  predicate Maps(p: Phdr, s: Section, h: Shdr)
  {
    p.offset <= h.offset && h.offset + s.size <= p.offset + p.filesz <= p.offset + p.memsz &&
      h.addr - p.vaddr == h.offset - p.offset
  }

  predicate Congruent(p: Phdr)
  {
    p.align > 0 ==> p.vaddr % p.align == p.offset % p.align
  }

  /** The source insists that a registered unwind section is loaded. */
  predicate EhAlloc(b: Input)
  {
    && (Find(b.others, ".eh_frame").Some? ==> b.others[Find(b.others, ".eh_frame").value].alloc)
    && (Find(b.others, ".eh_frame_hdr").Some? ==> b.others[Find(b.others, ".eh_frame_hdr").value].alloc)
  }

  lemma {:induction false} SegmentCongruent(b: Input, kind: SegmentType, flags: Flags, i: nat)
    requires i < |b.Sections()|
    ensures Congruent(Segment(b, kind, flags, i))
  {
    PlaceAligned(CursorAt(b.Start(), b.Sections(), i), b.Sections()[i]);
  }

  lemma {:induction false} MainMaps(b: Input, i: nat)
    requires i <= TEXT
    ensures |b.Sections()| > TEXT && Plain(b.Sections()[i])
    ensures var h := HeaderOf(b.Start(), b.Sections(), i);
            h.addr == h.offset && MainSegment(b).filesz <= HeaderOf(b.Start(), b.Sections(), TEXT).addr
    ensures i <= RODATA ==> Maps(MainSegment(b), b.Sections()[i], HeaderOf(b.Start(), b.Sections(), i))
  {
    SectionsAre(b);
    var ss := b.Sections();
    SameAddress(b.Start(), ss, i);
    SameAddress(b.Start(), ss, TEXT);
    TheoremSectionsApart(b.Start(), ss, RODATA, TEXT);
    if i < RODATA { TheoremSectionsApart(b.Start(), ss, i, RODATA); }
  }

  /** Section numbers of the segments behind the main one, in order. */
  predicate LoadIs(b: Input, p: Phdr, i: nat)
  {
    && TEXT <= i < |b.Sections()| && b.Sections()[i].alloc
    && p.vaddr == HeaderOf(b.Start(), b.Sections(), i).addr
    && (i <= Dynamic(b) ==> p.memsz == b.Sections()[i].size)
  }

  lemma {:induction false} LoadsApart(b: Input, p: Phdr, i: nat, q: Phdr, j: nat)
    requires LoadIs(b, p, i) && LoadIs(b, q, j) && i < j && i <= Dynamic(b)
    ensures p.vaddr + p.memsz <= q.vaddr
  {
    TheoremSectionsApart(b.Start(), b.Sections(), i, j);
  }

  /** The section behind program header `p`, if that is loadable and not the main one. */
  function LoadSection(b: Input, p: nat): nat
  {
    if p == 2 then TEXT
    else if b.bss != 0 && p == 3 then TEXT + 1
    else if p == Dynamic(b) - 2 then Dynamic(b)
    else match Find(b.others, ".eh_frame") case None => 0 case Some(k) => b.Others() + k
  }

  lemma {:induction false} BodyAre(b: Input)
    ensures |b.Sections()| > Dynamic(b) && |BodySegments(b)| == Dynamic(b) - 1 + |EhSegments(b)|
    ensures var body := BodySegments(b);
            && body[1] == Segment(b, PtLoad, RX, TEXT) && (b.bss != 0 ==> body[2] == Segment(b, PtLoad, RW, TEXT + 1))
            && body[Dynamic(b) - 3] == Segment(b, PtLoad, RW, Dynamic(b))
            && body[Dynamic(b) - 2] == Segment(b, PtDynamic, RW, Dynamic(b))
            && body[0] == MainSegment(b)
            && body[Dynamic(b) - 1..] == EhSegments(b)
  {
    SectionsAre(b);
    var bss := if b.bss != 0 then [Segment(b, PtLoad, RW, TEXT + 1)] else [];
    BodyParts(MainSegment(b), Segment(b, PtLoad, RX, TEXT), bss, Segment(b, PtLoad, RW, Dynamic(b)),
              Segment(b, PtDynamic, RW, Dynamic(b)), EhSegments(b));
  }

  lemma {:induction false} BodyParts(main: Phdr, text: Phdr, bss: seq<Phdr>, load: Phdr, dynamic: Phdr, eh: seq<Phdr>)
    requires |bss| <= 1
    ensures var body, d := [main, text] + bss + [load, dynamic] + eh, 5 + |bss|;
            && |body| == d - 1 + |eh| && body[0] == main && body[1] == text && (bss != [] ==> body[2] == bss[0])
            && body[d - 3] == load && body[d - 2] == dynamic && body[d - 1..] == eh
  {
  }

  lemma {:induction false} EhLoad(b: Input)
    requires EhAlloc(b) && EhSegments(b) != []
    ensures |EhSegments(b)| <= 2 && LoadIs(b, EhSegments(b)[0], LoadSection(b, Dynamic(b)))
    ensures |EhSegments(b)| == 2 ==> EhSegments(b)[1].kind != PtLoad
  {
    SectionsAre(b);
  }

  lemma {:induction false} BodyLoad(b: Input, p: nat)
    requires EhAlloc(b) && 2 <= p <= |BodySegments(b)| && BodySegments(b)[p - 1].kind == PtLoad
    ensures LoadIs(b, BodySegments(b)[p - 1], LoadSection(b, p)) && (p <= Dynamic(b) - 2 || p == Dynamic(b))
  {
    BodyAre(b);
    if p >= Dynamic(b) {
      EhLoad(b);
      assert BodySegments(b)[p - 1] == EhSegments(b)[p - Dynamic(b)];
    } else {
      SectionsAre(b);
    }
  }

  lemma {:induction false} LoadSectionsAscend(b: Input, p: nat, q: nat)
    requires 2 <= p < q && p <= Dynamic(b) - 2 && (q <= Dynamic(b) - 2 || q == Dynamic(b)) && LoadSection(b, q) >= TEXT
    ensures LoadSection(b, p) < LoadSection(b, q) && LoadSection(b, p) <= Dynamic(b)
  {
    SectionsAre(b);
  }

  lemma {:induction false} MainBelow(b: Input, q: Phdr, j: nat)
    requires LoadIs(b, q, j)
    ensures MainSegment(b).vaddr + MainSegment(b).memsz <= q.vaddr
  {
    MainMaps(b, TEXT);
    if j > TEXT { TheoremSectionsApart(b.Start(), b.Sections(), TEXT, j); }
  }

  lemma {:induction false} LoadsAscend(b: Input, p: nat, q: nat)
    requires EhAlloc(b) && p < q < |ProgramHeaders(b)|
    requires ProgramHeaders(b)[p].kind == PtLoad && ProgramHeaders(b)[q].kind == PtLoad
    ensures ProgramHeaders(b)[p].vaddr + ProgramHeaders(b)[p].memsz <= ProgramHeaders(b)[q].vaddr
  {
    var ph, body := ProgramHeaders(b), BodySegments(b);
    assert p > 0 && ph[p] == body[p - 1] && ph[q] == body[q - 1];
    BodyLoad(b, q);
    if p == 1 {
      MainBelow(b, body[q - 1], LoadSection(b, q));
    } else {
      BodyLoad(b, p);
      LoadSectionsAscend(b, p, q);
      LoadsApart(b, body[p - 1], LoadSection(b, p), body[q - 1], LoadSection(b, q));
    }
  }

  lemma {:induction false} EhCongruent(b: Input, i: nat)
    requires i < |EhSegments(b)|
    ensures Congruent(EhSegments(b)[i])
  {
    SectionsAre(b);
    match Find(b.others, ".eh_frame")
    case Some(k) =>
      SegmentCongruent(b, PtLoad, R, b.Others() + k);
      match Find(b.others, ".eh_frame_hdr") {
        case None =>
        case Some(l) =>
          SegmentCongruent(b, PtGnuEhFrame, R, b.Others() + l);
          GrownCongruent(Segment(b, PtLoad, R, b.Others() + k), b.others[l].size);
      }
  }

  lemma {:induction false} GrownCongruent(p: Phdr, more: nat)
    requires Congruent(p)
    ensures Congruent(Grown(p, more))
  {
  }

  lemma {:induction false} AllCongruent(b: Input, p: nat)
    requires p < |ProgramHeaders(b)|
    ensures Congruent(ProgramHeaders(b)[p])
  {
    BodyAre(b);
    SectionsAre(b);
    SegmentCongruent(b, PtLoad, RX, TEXT);
    SegmentCongruent(b, PtLoad, RW, TEXT + 1);
    SegmentCongruent(b, PtLoad, RW, Dynamic(b));
    SegmentCongruent(b, PtDynamic, RW, Dynamic(b));
    if p > Dynamic(b) - 1 {
      EhCongruent(b, p - Dynamic(b));
      assert ProgramHeaders(b)[p] == BodySegments(b)[Dynamic(b) - 1..][p - Dynamic(b)];
    } else if p > 0 {
      assert ProgramHeaders(b)[p] == BodySegments(b)[p - 1];
    }
  }

  /** The program headers fit the space kept for them; addresses and offsets of each segment agree modulo its
      alignment; loadable segments ascend without overlap. */
  lemma {:induction false} TheoremProgramHeaders(b: Input)
    requires EhAlloc(b)
    ensures |ProgramHeaders(b)| <= MAX_PROGRAM_HEADERS
    ensures forall p :: 0 <= p < |ProgramHeaders(b)| ==> Congruent(ProgramHeaders(b)[p])
    ensures var ph := ProgramHeaders(b);
            forall p, q :: 0 <= p < q < |ph| && ph[p].kind == PtLoad && ph[q].kind == PtLoad ==>
              ph[p].vaddr + ph[p].memsz <= ph[q].vaddr
  {
    ProgramHeadersFit(b);
    var ph := ProgramHeaders(b);
    forall p | 0 <= p < |ph| ensures Congruent(ph[p]) { AllCongruent(b, p); }
    forall p, q | 0 <= p < q < |ph| && ph[p].kind == PtLoad && ph[q].kind == PtLoad
      ensures ph[p].vaddr + ph[p].memsz <= ph[q].vaddr
    {
      LoadsAscend(b, p, q);
    }
  }

  // ----- The unwind sections -----

  /** Two sections in a row in file and memory, the second with the weaker alignment. */
  predicate InRow(ss: seq<Section>, i: nat)
  {
    i + 1 < |ss| && Plain(ss[i]) && Plain(ss[i + 1]) && ss[i].Alignment() % ss[i + 1].Alignment() == 0
  }

  lemma {:induction false} MultipleOfDivisor(x: nat, n: nat, d: nat)
    requires n > 0 && d > 0 && x % n == 0 && n % d == 0
    ensures x % d == 0
  {
    var k, m := x / n, n / d;
    assert x == n * k && n == d * m;
    assert n * k == d * (m * k);
    MultipleMod(m * k, d);
  }

  lemma {:induction false} AddAligned(x: nat, size: nat, d: nat)
    requires d > 0 && x % d == 0
    ensures (x + size) % d == size % d
  {
    var q, r := x / d, size / d;
    assert x + size == d * (q + r) + size % d;
    DivModUnique(x + size, d, q + r, size % d);
  }

  lemma {:induction false} RoundUpStays(x: nat, d: nat)
    requires d > 0
    ensures RoundUp(x, d) == x <==> x % d == 0
  {
  }

  /** The second of two such sections stands immediately behind the first, in the file and in memory, exactly if
      the size of the first is a multiple of its alignment. */
  lemma {:induction false} TheoremNoGapIff(start: nat, ss: seq<Section>, i: nat)
    requires InRow(ss, i)
    ensures var a, c, fits := HeaderOf(start, ss, i), HeaderOf(start, ss, i + 1), ss[i].size % ss[i + 1].Alignment() ==
            0;
            (c.offset == a.offset + ss[i].size <==> fits) && (c.addr == a.addr + ss[i].size <==> fits)
  {
    var a, d := HeaderOf(start, ss, i), ss[i + 1].Alignment();
    PlaceAligned(CursorAt(start, ss, i), ss[i]);
    MultipleOfDivisor(a.offset, ss[i].Alignment(), d);
    MultipleOfDivisor(a.addr, ss[i].Alignment(), d);
    AddAligned(a.offset, ss[i].size, d);
    AddAligned(a.addr, ss[i].size, d);
    RoundUpStays(a.offset + ss[i].size, d);
    RoundUpStays(a.addr + ss[i].size, d);
  }

  /** The unwind sections are registered one behind the other. */
  predicate EhInRow(b: Input, k: nat)
  {
    && Find(b.others, ".eh_frame") == Some(k) && Find(b.others, ".eh_frame_hdr") == Some(k + 1) && InRow(b.others, k)
    && b.others[k].size % b.others[k + 1].Alignment() == 0
  }

  lemma {:induction false} EhAre(b: Input, k: nat)
    requires EhInRow(b, k)
    ensures |b.Sections()| > b.Others() + k + 1 && b.Sections()[b.Others() + k] == b.others[k] &&
            b.Sections()[b.Others() + k + 1] == b.others[k + 1]
    ensures EhSegments(b) == [Grown(Segment(b, PtLoad, R, b.Others() + k), b.others[k + 1].size),
                              Segment(b, PtGnuEhFrame, R, b.Others() + k + 1)]
  {
    SectionsAre(b);
  }

  lemma {:induction false} GrownMaps(s: Section, h: Shdr, t: Section, g: Shdr)
    requires !s.noBits && g.offset == h.offset + s.size && g.addr == h.addr + s.size
    ensures Maps(Grown(SegmentOf(PtLoad, R, s, h), t.size), s, h) &&
            Maps(Grown(SegmentOf(PtLoad, R, s, h), t.size), t, g)
  {
  }

  /** Then one segment maps them both. */
  lemma {:induction false} TheoremEhMapped(b: Input, k: nat)
    requires EhInRow(b, k)
    ensures |b.Sections()| > b.Others() + k + 1 && EhAlloc(b) && |EhSegments(b)| == 2
    ensures var ss, e := b.Sections(), b.Others() + k;
            && Maps(EhSegments(b)[0], ss[e], HeaderOf(b.Start(), ss, e))
            && Maps(EhSegments(b)[0], ss[e + 1], HeaderOf(b.Start(), ss, e + 1))
            && HeaderOf(b.Start(), ss, e + 1).addr == HeaderOf(b.Start(), ss, e).addr + b.others[k].size
  {
    EhAre(b, k);
    var ss, e := b.Sections(), b.Others() + k;
    TheoremNoGapIff(b.Start(), ss, e);
    GrownMaps(ss[e], HeaderOf(b.Start(), ss, e), ss[e + 1], HeaderOf(b.Start(), ss, e + 1));
  }

  // ----- Writing the file -----

  /** The part of a file that holds a section. */
  predicate InFile(data: seq<byte>, s: Section, h: Shdr, content: seq<byte>)
  {
    !s.noBits ==> h.offset + |content| <= |data| && data[h.offset..h.offset + |content|] == content
  }

  predicate Contents(ss: seq<Section>, contents: seq<seq<byte>>)
  {
    |contents| == |ss| && forall i :: 0 <= i < |ss| && !ss[i].noBits ==> |contents[i]| == ss[i].size
  }

  ghost predicate WrittenUpTo(start: nat, ss: seq<Section>, contents: seq<seq<byte>>, n: nat, file: Store)
  {
    && Contents(ss, contents) && n <= |ss| && file.at == |file.data| <= CursorAt(start, ss, n).file
    && forall i :: 0 <= i < n ==> InFile(file.data, ss[i], HeaderOf(start, ss, i), contents[i])
  }

  /** Seeks forward and writes. */
  function WrittenAt(file: Store, to: nat, bytes: seq<byte>): (r: Store)
    requires file.Valid()
    ensures r.Valid()
  {
    WriteTo(SeekTo(file, to), bytes)
  }

  lemma {:induction false} Appends(file: Store, to: nat, bytes: seq<byte>)
    requires file.at == |file.data| <= to
    ensures var r := WrittenAt(file, to, bytes);
            r.at == |r.data| == to + |bytes| && file.data <= r.data && r.data[to..] == bytes
  {
    assert WrittenAt(file, to, bytes).data == SeekTo(file, to).data + bytes;
  }

  lemma {:induction false} WriteNext(start: nat, ss: seq<Section>, contents: seq<seq<byte>>, n: nat, file: Store)
    requires WrittenUpTo(start, ss, contents, n, file) && n < |ss|
    ensures var h := HeaderOf(start, ss, n);
            if ss[n].noBits then WrittenUpTo(start, ss, contents, n + 1, file)
            else && file.at <= h.offset && file.data <= WrittenAt(file, h.offset, contents[n]).data
                 && WrittenUpTo(start, ss, contents, n + 1, WrittenAt(file, h.offset, contents[n]))
  {
    var h := HeaderOf(start, ss, n);
    PlaceAligned(CursorAt(start, ss, n), ss[n]);
    if !ss[n].noBits {
      Appends(file, h.offset, contents[n]);
      var file' := WrittenAt(file, h.offset, contents[n]);
      forall i | 0 <= i < n ensures InFile(file'.data, ss[i], HeaderOf(start, ss, i), contents[i]) {
        Extends(file.data, file'.data, ss[i], HeaderOf(start, ss, i), contents[i]);
      }
      assert InFile(file'.data, ss[n], h, contents[n]);
    }
  }

  lemma {:induction false} Extends(a: seq<byte>, c: seq<byte>, s: Section, h: Shdr, content: seq<byte>)
    requires InFile(a, s, h, content) && a <= c
    ensures InFile(c, s, h, content)
  {
    if !s.noBits {
      var e := h.offset + |content|;
      assert c[h.offset..e] == c[..|a|][h.offset..e];
    }
  }

  lemma {:induction false} PrefixOf(a: seq<byte>, c: seq<byte>, d: seq<byte>)
    requires a <= c && c <= d
    ensures a <= d
  {
  }

  predicate HeadersAre(start: nat, ss: seq<Section>, headers: seq<Shdr>)
  {
    |headers| == |ss| && forall i :: 0 <= i < |ss| ==> headers[i] == HeaderOf(start, ss, i)
  }

  /** Writes section `n` at its offset, never seeking backwards. */
  method WriteSection(start: nat, ss: seq<Section>, headers: seq<Shdr>, contents: seq<seq<byte>>, n: nat, before: Store)
    returns (file: Store)
    requires n < |ss| && HeadersAre(start, ss, headers) && WrittenUpTo(start, ss, contents, n, before)
    ensures WrittenUpTo(start, ss, contents, n + 1, file) && before.data <= file.data
  {
    WriteNext(start, ss, contents, n, before);
    file := before;
    if !ss[n].noBits {
      assert file.at <= headers[n].offset;
      file := WrittenAt(file, headers[n].offset, contents[n]);
    }
  }

  /** Writes the sections front to back; every section ends up at its offset. */
  method WriteSections(start: nat, ss: seq<Section>, headers: seq<Shdr>, contents: seq<seq<byte>>, before: Store)
    returns (file: Store)
    requires HeadersAre(start, ss, headers) && WrittenUpTo(start, ss, contents, 0, before)
    ensures WrittenUpTo(start, ss, contents, |ss|, file) && before.data <= file.data
  {
    file := before;
    for n := 0 to |ss|
      invariant WrittenUpTo(start, ss, contents, n, file) && before.data <= file.data
    {
      var next := WriteSection(start, ss, headers, contents, n, file);
      PrefixOf(before.data, file.data, next.data);
      file := next;
    }
  }

  lemma {:induction false} WriteLast(start: nat, ss: seq<Section>, contents: seq<seq<byte>>, file: Store, to: nat,
                                     bytes: seq<byte>)
    requires WrittenUpTo(start, ss, contents, |ss|, file) && file.at <= to
    ensures var data := WrittenAt(file, to, bytes).data;
            && file.data <= data && |data| == to + |bytes| && data[to..] == bytes
            && forall i :: 0 <= i < |ss| ==> InFile(data, ss[i], HeaderOf(start, ss, i), contents[i])
  {
    Appends(file, to, bytes);
    var data := WrittenAt(file, to, bytes).data;
    forall i | 0 <= i < |ss| ensures InFile(data, ss[i], HeaderOf(start, ss, i), contents[i]) {
      Extends(file.data, data, ss[i], HeaderOf(start, ss, i), contents[i]);
    }
  }

  /** The whole file: ELF header, program headers, sections, section headers. */
  method WriteFile(b: Input, header: seq<byte>, programHeaders: seq<byte>, contents: seq<seq<byte>>,
                   sectionHeaders: seq<byte>)
    returns (file: Store)
    requires Contents(b.Sections(), contents)
    requires |header| == b.types.ehdr && |programHeaders| == Times(|ProgramHeaders(b)|, b.types.phdr) && b.types.off > 0
    ensures header + programHeaders <= file.data
    ensures var ss := b.Sections();
            forall i :: 0 <= i < |ss| ==> InFile(file.data, ss[i], HeaderOf(b.Start(), ss, i), contents[i])
    ensures var shoff := RoundUp(CursorAt(b.Start(), b.Sections(), |b.Sections()|).file, b.types.off);
            |file.data| == shoff + |sectionHeaders| && file.data[shoff..] == sectionHeaders
  {
    var ss := b.Sections();
    var headers, end := Layout(b.Start(), ss);
    ProgramHeadersFit(b);
    WriteTwice(Store([], 0), header, programHeaders);
    file := WriteTo(WriteTo(Store([], 0), header), programHeaders);
    assert file == Store(header + programHeaders, |header| + |programHeaders|);
    file := WriteSections(b.Start(), ss, headers, contents, file);
    var shoff := RoundUp(end, b.types.off);
    WriteLast(b.Start(), ss, contents, file, shoff, sectionHeaders);
    PrefixOf(header + programHeaders, file.data, WrittenAt(file, shoff, sectionHeaders).data);
    file := WrittenAt(file, shoff, sectionHeaders);
  }
}
