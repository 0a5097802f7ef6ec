/** The unwind index of a whole oat file: debug records from the code pass, addresses from the ELF layout. */
module UnwindFile {
  import opened Bytes
  import opened CompiledMethods
  import opened Options
  import opened OatCode
  import opened OatCodeTheorem
  import opened OatRecords
  import opened Patching
  import opened Unwind
  import ElfLayout

  /** The debug record of method `i`; a repeated method is marked as deduped. */
  ghost function InfoOf(cfg: Config, base: nat, exec: nat, vs: seq<Visited>, cfi: CompiledMethod -> Option<seq<byte>>,
                        i: nat): MethodInfo
    requires exec <= base && i < |vs|
  {
    var low := if RangeStart(cfg, base, vs, i) >= exec then RangeStart(cfg, base, vs, i) - exec else 0;
    MethodInfo(low, low + cfg.Size(vs[i].m), Repeat(cfg, vs, i), cfi(vs[i].m))
  }

  ghost function Infos(cfg: Config, base: nat, exec: nat, vs: seq<Visited>,
                       cfi: CompiledMethod -> Option<seq<byte>>): (infos: seq<MethodInfo>)
    requires exec <= base
    ensures |infos| == |vs| && forall i :: 0 <= i < |vs| ==> infos[i] == InfoOf(cfg, base, exec, vs, cfi, i)
  {
    seq(|vs|, i requires 0 <= i < |vs| => InfoOf(cfg, base, exec, vs, cfi, i))
  }

  lemma {:induction false} FirstBehindBase(cfg: Config, base: nat, vs: seq<Visited>, i: nat)
    requires i < |vs| && !Repeat(cfg, vs, i)
    ensures RangeStart(cfg, base, vs, i) >= base
  {
    RangeEnds(cfg, base, vs, i);
    assert vs[..0] == [];
    AtPrefix(cfg, base, vs, 0, i);
  }

  /** Only the first method of each address gets an entry, so no two entries share an address. */
  lemma {:induction false} TheoremOneEntryPerAddress(cfg: Config, base: nat, exec: nat, vs: seq<Visited>,
                                                     cfi: CompiledMethod -> Option<seq<byte>>)
    requires exec <= base
    ensures Increasing(Infos(cfg, base, exec, vs, cfi))
  {
    var infos := Infos(cfg, base, exec, vs, cfi);
    forall i, j | 0 <= i < j < |infos| && infos[i].HasEntry() && infos[j].HasEntry()
      ensures infos[i].lowPc < infos[j].lowPc {
      FirstBehindBase(cfg, base, vs, i);
      FirstBehindBase(cfg, base, vs, j);
      TheoremRangesDisjoint(cfg, base, vs, i, j);
    }
  }

  /** The unwind sections as they are registered: the frame on a page, its header behind it. */
  predicate Registered(b: ElfLayout.Input, k: nat, f: Frame)
  {
    && ElfLayout.Find(b.others, ".eh_frame") == Some(k) && ElfLayout.Find(b.others, ".eh_frame_hdr") == Some(k + 1)
    && k + 1 < |b.others|
    && b.others[k] == ElfLayout.Section(".eh_frame", false, true, ElfLayout.PAGE, |f.data|)
    && b.others[k + 1] == ElfLayout.Section(".eh_frame_hdr", false, true, 4, 12 + 8 * |f.table|)
  }

  function AddressOf(b: ElfLayout.Input, i: nat): nat
    requires i < |b.Sections()|
  {
    ElfLayout.HeaderOf(b.Start(), b.Sections(), i).addr
  }

  lemma {:induction false} HeaderBehindFrame(b: ElfLayout.Input, k: nat, f: Frame)
    requires Registered(b, k, f) && |f.data| % 4 == 0
    ensures |b.Sections()| > b.Others() + k + 1
    ensures AddressOf(b, b.Others() + k + 1) == AddressOf(b, b.Others() + k) + |f.data|
  {
    ElfLayout.TheoremEhMapped(b, k);
  }

  /** Rows of any frame, patched with the addresses the layout chose. */
  lemma {:induction false} RowsResolve(b: ElfLayout.Input, k: nat, f: Frame, frame: nat, hdr: nat, text: nat, row: nat,
                                       code: nat)
    requires row < |f.table| && code == text + f.table[row].lowPc
    requires Registered(b, k, f) && |f.data| % 4 == 0 && row < |f.table| && f.table[row].lowPc < WORD
    requires |b.Sections()| > b.Others() + k + 1 && frame == AddressOf(b, b.Others() + k) &&
             hdr == AddressOf(b, b.Others() + k + 1)
    ensures RowResolves(PatchedHdr(f, hdr, text), hdr, row, code, frame + f.table[row].offset)
  {
    HeaderBehindFrame(b, k, f);
    TheoremRowResolves(f, frame, text, row);
  }

  /** The file holds the unwind sections of the methods of an Init pass, and addresses fit their fields. */
  ghost predicate InFile(b: ElfLayout.Input, k: nat, is64: bool, f: Frame, infos: seq<MethodInfo>, cie: seq<byte>)
  {
    && Registered(b, k, f) && f == FrameOf(is64, cie, infos) && AddressesFit(f, infos)
    && |b.Sections()| > b.Others() + k + 1 && |b.Sections()| > ElfLayout.TEXT
  }

  lemma {:induction false} InfoRange(cfg: Config, base: nat, exec: nat, vs: seq<Visited>,
                                     cfi: CompiledMethod -> Option<seq<byte>>, i: nat)
    requires exec <= base && i < |vs| && Infos(cfg, base, exec, vs, cfi)[i].HasEntry()
    ensures var info := Infos(cfg, base, exec, vs, cfi)[i];
            && !Repeat(cfg, vs, i) && cfi(vs[i].m).Some? && info.cfi == cfi(vs[i].m)
            && info.lowPc == RangeStart(cfg, base, vs, i) - exec && info.highPc == info.lowPc + cfg.Size(vs[i].m)
  {
    FirstBehindBase(cfg, base, vs, i);
  }

  /** A row leads to this code and this entry, and the entry back to the code, its size and its instructions. */
  predicate RowLeads(is64: bool, f: Frame, frame: nat, hdr: nat, text: nat, row: nat, code: nat, size: nat,
                     cfi: seq<byte>)
    requires row < |f.table| && Inside(f.patches, PointerSize(is64), |f.data|)
  {
    && RowResolves(PatchedHdr(f, hdr, text), hdr, row, code, frame + f.table[row].offset)
    && EntryResolves(is64, PatchedFrame(is64, f, frame, text), frame, f.table[row].offset, code, size, cfi)
  }

  /** The entry that a row leads to. */
  lemma {:induction false} EntryOfRecord(is64: bool, f: Frame, infos: seq<MethodInfo>, cie: seq<byte>, frame: nat,
                                         text: nat, row: nat)
    returns (i: nat, code: nat, size: nat)
    requires f == FrameOf(is64, cie, infos) && AddressesFit(f, infos) && row < |f.table|
    ensures i < |infos| && infos[i].HasEntry() && Inside(f.patches, PointerSize(is64), |f.data|)
    ensures code == text + infos[i].lowPc == text + f.table[row].lowPc && size == infos[i].highPc - infos[i].lowPc &&
            f.table[row].lowPc < WORD
    ensures EntryResolves(is64, PatchedFrame(is64, f, frame, text), frame, f.table[row].offset, code, size,
                     infos[i].cfi.value)
  {
    i := TheoremRowEntry(is64, cie, infos, frame, text, row);
    code, size := text + infos[i].lowPc, infos[i].highPc - infos[i].lowPc;
  }

  lemma {:induction false} RowOfRecord(b: ElfLayout.Input, k: nat, is64: bool, f: Frame, infos: seq<MethodInfo>,
                                       cie: seq<byte>,
                                       frame: nat, hdr: nat, text: nat, row: nat) returns (i: nat, code: nat, size: nat)
    requires InFile(b, k, is64, f, infos, cie) && row < |f.table|
    requires frame == AddressOf(b, b.Others() + k) && hdr == AddressOf(b, b.Others() + k + 1)
    ensures i < |infos| && infos[i].HasEntry() && Inside(f.patches, PointerSize(is64), |f.data|)
    ensures code == text + infos[i].lowPc && size == infos[i].highPc - infos[i].lowPc
    ensures RowLeads(is64, f, frame, hdr, text, row, code, size, infos[i].cfi.value)
  {
    i, code, size := EntryOfRecord(is64, f, infos, cie, frame, text, row);
    FrameAligned(is64, cie, infos);
    RowsResolve(b, k, f, frame, hdr, text, row, code);
  }

  lemma {:induction false} FrameAligned(is64: bool, cie: seq<byte>, infos: seq<MethodInfo>)
    ensures |FrameOf(is64, cie, infos).data| % 4 == 0
  {
    TheoremUnwindTable(is64, cie, infos);
  }

  /** In the finished file every row of the search table leads to the code of a method of the Init pass, where the text
      section has it, and to the entry of exactly that method. */
  lemma {:induction false} TheoremRowsInFile(cfg: Config, base: nat, exec: nat, vs: seq<Visited>,
                                             cfi: CompiledMethod -> Option<seq<byte>>,
                                             is64: bool, cie: seq<byte>, b: ElfLayout.Input, k: nat,
                                             f: Frame, frame: nat, hdr: nat, text: nat, row: nat)
    returns (i: nat, code: nat, size: nat)
    requires exec <= base && InFile(b, k, is64, f, Infos(cfg, base, exec, vs, cfi), cie) && row < |f.table|
    requires frame == AddressOf(b, b.Others() + k) && hdr == AddressOf(b, b.Others() + k + 1) &&
             text == AddressOf(b, ElfLayout.TEXT)
    ensures i < |vs| && !Repeat(cfg, vs, i) && cfi(vs[i].m).Some? && RangeStart(cfg, base, vs, i) >= exec
    ensures code == text + (RangeStart(cfg, base, vs, i) - exec) && size == cfg.Size(vs[i].m)
    ensures Inside(f.patches, PointerSize(is64), |f.data|) &&
            RowLeads(is64, f, frame, hdr, text, row, code, size, cfi(vs[i].m).value)
  {
    i, code, size := RowOfRecord(b, k, is64, f, Infos(cfg, base, exec, vs, cfi), cie, frame, hdr, text, row);
    InfoRange(cfg, base, exec, vs, cfi, i);
  }

  /** And every method with unwind information that is not repeated has a row. */
  lemma {:induction false} TheoremMethodHasRow(cfg: Config, base: nat, exec: nat, vs: seq<Visited>,
                                               cfi: CompiledMethod -> Option<seq<byte>>,
                                               is64: bool, cie: seq<byte>, i: nat)
    requires exec <= base && i < |vs| && !Repeat(cfg, vs, i) && cfi(vs[i].m).Some?
    ensures RangeStart(cfg, base, vs, i) >= exec
    ensures HasAddress(FrameOf(is64, cie, Infos(cfg, base, exec, vs, cfi)).table, RangeStart(cfg, base, vs, i) - exec)
  {
    FirstBehindBase(cfg, base, vs, i);
    var infos := Infos(cfg, base, exec, vs, cfi);
    TheoremUnwindTable(is64, cie, infos);
    assert infos[i].HasEntry();
  }
}
