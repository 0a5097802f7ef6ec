/** Thunks and alignment of the code part: a thunk is reserved only for a call that needs it and is written where it was
    reserved, and code starts where the processor wants it. */
module OatThunks {
  import opened Align
  import opened Bytes
  import opened CompiledMethods
  import opened CallReach
  import opened OatCode
  import opened OatCodeAgreement
  import opened OatCodeTheorem
  import OatRecords

  // ----- Alignment -----

  lemma {:induction false} AlignedTo(cfg: Config, offset: nat)
    ensures cfg.isa.Arm64? || cfg.isa.X86? || cfg.isa.X86_64? ==> cfg.AlignCode(offset) % 16 == 0
    ensures cfg.AlignCode(offset) % 8 == 0
  {
    RoundUpLiterals(offset);
    var y := offset + 15;
    assert (y - y % 16) == 16 * (y / 16);
    var z := offset + 7;
    assert (z - z % 8) == 8 * (z / 8);
    Sixteen(y / 16);
    Eight(z / 8);
  }

  lemma {:induction false} Sixteen(k: nat)
    ensures 16 * k % 16 == 0 && 16 * k % 8 == 0
  {
    Eight(2 * k);
  }

  lemma {:induction false} Eight(k: nat)
    ensures 8 * k % 8 == 0
  {
  }

  /** The header of every method starts at a multiple of 16 on Arm64 and x86, of 8 elsewhere; the code follows its 28
      bytes, and the offset of the code is odd exactly on Thumb2. */
  lemma {:induction false} TheoremCodeAligned(cfg: Config, base: nat, vs: seq<Visited>, i: nat)
    requires i < |vs|
    ensures var start := OatRecords.RangeStart(cfg, base, vs, i);
            && start >= base + 28 && (start - 28) % 8 == 0
            && (cfg.isa.Arm64? || cfg.isa.X86? || cfg.isa.X86_64? ==> (start - 28) % 16 == 0)
    ensures |InitPass(cfg, base, vs).placed| == |vs|
    ensures InitPass(cfg, base, vs).placed[i].codeOffset ==
            OatRecords.RangeStart(cfg, base, vs, i) + (if cfg.isa.Thumb2? then 1 else 0)
  {
    var j := FirstOccurrence(cfg, vs, i);
    OatRecords.SameAsFirst(cfg, base, vs, i, j);
    OatRecords.Recorded(cfg, base, vs);
    FirstAligned(cfg, base, vs, j);
  }

  lemma {:induction false} FirstAligned(cfg: Config, base: nat, vs: seq<Visited>, j: nat)
    requires j < |vs| && !Repeat(cfg, vs, j)
    ensures var start := OatRecords.RangeStart(cfg, base, vs, j);
            && start >= base + 28 && (start - 28) % 8 == 0
            && (cfg.isa.Arm64? || cfg.isa.X86? || cfg.isa.X86_64? ==> (start - 28) % 16 == 0)
  {
    var st, v := At(cfg, base, vs, j), vs[j];
    OatRecords.SlotOf(cfg, base, vs, j);
    OatRecords.RangeEnds(cfg, base, vs, j);
    SharesIsRepeat(cfg, base, vs, j);
    AtStep(cfg, base, vs, j);
    AtTracks(cfg, base, vs, j);
    assert vs[..0] == [];
    AtPrefix(cfg, base, vs, 0, j);
    var offset := ReserveSpace(cfg, st.patcher, st.methods, st.offset, v).1;
    AlignedTo(cfg, offset);
    assert OatRecords.RangeStart(cfg, base, vs, j) == cfg.AlignCode(offset) + 28;
  }

  // ----- A thunk is reserved only if a call needs it -----

  /** The last thunk, if there is one, is too far back. */
  predicate NoThunkBehind(cfg: Config, thunks: seq<nat>, c: Pending)
  {
    thunks != [] ==> c.offset - thunks[|thunks| - 1] > cfg.MaxNegative()
  }

  /** Call `c` cannot wait: what it calls is placed out of its range here or has been placed out of its range, or it
      could not reach a thunk behind `next`, and no thunk is in its range. */
  predicate CannotWait(cfg: Config, thunks: seq<nat>, methods: map<MethodRef, nat>, codeOffset: nat, ref: MethodRef,
                       next: nat, c: Pending)
  {
    if c.ref == ref then codeOffset - c.offset > cfg.MaxPositive()
    else if c.ref !in methods then NoThunkBehind(cfg, thunks, c) && next - c.offset > cfg.MaxPositive()
    else NoThunkBehind(cfg, thunks, c) && c.offset - (methods[c.ref] - cfg.Delta()) > cfg.MaxNegative()
  }

  /** What the first waiting call makes of the search: a thunk is needed, or it goes on or ends without one. */
  predicate AsksForThunk(cfg: Config, thunks: seq<nat>, methods: map<MethodRef, nat>, codeOffset: nat, ref: MethodRef,
                         next: nat, c: Pending)
  {
    if c.ref == ref then Diff(codeOffset, c.offset) > cfg.MaxPositive()
    else if c.ref !in methods then
      (thunks == [] || Diff(c.offset, thunks[|thunks| - 1]) > cfg.MaxNegative()) &&
      Diff(next, c.offset) > cfg.MaxPositive()
    else
      var target := Diff(methods[c.ref], cfg.Delta());
      target < c.offset &&
      Diff(c.offset, if thunks != [] && thunks[|thunks| - 1] > target then thunks[|thunks| - 1] else target) >
      cfg.MaxNegative()
  }

  lemma {:induction false} HeadAsks(cfg: Config, thunks: seq<nat>, q: seq<Pending>, methods: map<MethodRef, nat>,
                                    codeOffset: nat, ref: MethodRef, next: nat)
    requires q != [] && ProcessPatches(cfg, thunks, q, methods, codeOffset, ref, next).0
    ensures AsksForThunk(cfg, thunks, methods, codeOffset, ref, next, q[0]) ||
            ProcessPatches(cfg, thunks, q[1..], methods, codeOffset, ref, next).0
  {
  }

  lemma {:induction false} AskerCannotWait(cfg: Config, thunks: seq<nat>, methods: map<MethodRef, nat>, codeOffset: nat,
                                           ref: MethodRef, next: nat, c: Pending)
    requires AsksForThunk(cfg, thunks, methods, codeOffset, ref, next, c) && c.offset < codeOffset <= next < WORD
    requires thunks != [] ==> thunks[|thunks| - 1] < c.offset
    requires c.ref in methods ==> cfg.Delta() <= methods[c.ref] < WORD
    ensures CannotWait(cfg, thunks, methods, codeOffset, ref, next, c)
  {
    DiffIs(codeOffset, c.offset);
    DiffIs(next, c.offset);
    if thunks != [] { DiffIs(c.offset, thunks[|thunks| - 1]); }
    if c.ref in methods {
      DiffIs(methods[c.ref], cfg.Delta());
      var target := methods[c.ref] - cfg.Delta();
      if target < c.offset { DiffIs(c.offset, target); }
    }
  }

  lemma {:induction false} HeadBelow(cfg: Config, thunks: seq<nat>, q: seq<Pending>, offset: nat)
    requires q != [] && QueueInv(cfg, thunks, q, offset)
    ensures q[0].offset < offset && (thunks != [] ==> thunks[|thunks| - 1] < q[0].offset)
  {
  }

  lemma {:induction false} HeadCannotWait(cfg: Config, thunks: seq<nat>, q: seq<Pending>, methods: map<MethodRef, nat>,
                                          offset: nat, codeOffset: nat, ref: MethodRef, next: nat)
    requires q != [] && QueueInv(cfg, thunks, q, offset) && MethodsBelow(cfg, methods, offset)
    requires cfg.AlignCode(offset) <= codeOffset <= next < WORD - 1
    requires AsksForThunk(cfg, thunks, methods, codeOffset, ref, next, q[0])
    ensures CannotWait(cfg, thunks, methods, codeOffset, ref, next, q[0])
  {
    HeadBelow(cfg, thunks, q, offset);
    AskerCannotWait(cfg, thunks, methods, codeOffset, ref, next, q[0]);
  }

  lemma {:induction false} SomeCannotWait(cfg: Config, thunks: seq<nat>, q: seq<Pending>, methods: map<MethodRef, nat>,
                                          offset: nat, codeOffset: nat, ref: MethodRef, next: nat) returns (c: Pending)
    requires QueueInv(cfg, thunks, q, offset) && MethodsBelow(cfg, methods, offset)
    requires cfg.AlignCode(offset) <= codeOffset <= next < WORD - 1
    requires ProcessPatches(cfg, thunks, q, methods, codeOffset, ref, next).0
    ensures c in q && CannotWait(cfg, thunks, methods, codeOffset, ref, next, c)
    decreases |q|
  {
    HeadAsks(cfg, thunks, q, methods, codeOffset, ref, next);
    if AsksForThunk(cfg, thunks, methods, codeOffset, ref, next, q[0]) {
      HeadCannotWait(cfg, thunks, q, methods, offset, codeOffset, ref, next);
      c := q[0];
    } else {
      TailInv(cfg, thunks, q, offset, 1);
      c := SomeCannotWait(cfg, thunks, q[1..], methods, offset, codeOffset, ref, next);
    }
  }

  /** In every run a thunk is reserved in front of a method only if some call waits that cannot wait any longer. */
  lemma {:induction false} TheoremThunkNeeded(cfg: Config, base: nat, vs: seq<Visited>, i: nat) returns (c: Pending)
    requires RunFits(cfg, base, vs) && i < |vs|
    requires At(cfg, base, vs, i + 1).patcher.thunks != At(cfg, base, vs, i).patcher.thunks
    ensures var st := At(cfg, base, vs, i);
            && !Repeat(cfg, vs, i) && c in st.patcher.unprocessed
            && CannotWait(cfg, st.patcher.thunks, st.methods, CodeAt(cfg, st.offset), vs[i].ref,
                          NextAt(cfg, st.offset, vs[i].m), c)
  {
    var st, v := At(cfg, base, vs, i), vs[i];
    AtStep(cfg, base, vs, i);
    SharesIsRepeat(cfg, base, vs, i);
    RunKeepsReach(cfg, base, vs, i);
    NextBelow(cfg, base, vs, i);
    c := SomeCannotWait(cfg, st.patcher.thunks, st.patcher.unprocessed, st.methods, st.offset, CodeAt(cfg, st.offset),
                        v.ref, NextAt(cfg, st.offset, v.m));
  }

  lemma {:induction false} NextBelow(cfg: Config, base: nat, vs: seq<Visited>, i: nat)
    requires RunFits(cfg, base, vs) && i < |vs|
    ensures NextAt(cfg, At(cfg, base, vs, i).offset, vs[i].m) < WORD - 1
  {
    AtPrefix(cfg, base, vs, i, |vs|);
    assert MethodFits(cfg, vs[i].m);
  }

  // ----- Thunks in the output -----

  predicate ThunkAt(cfg: Config, base: nat, out: seq<byte>, t: nat)
  {
    base <= t && t - base + |cfg.thunk| <= |out| && out[t - base..t - base + |cfg.thunk|] == cfg.thunk
  }

  /** All thunks that the Write pass has counted stand in its output. */
  predicate ThunksOut(cfg: Config, base: nat, thunks: seq<nat>, w: WriteState)
  {
    && w.offset == base + |w.out| && w.thunksWritten <= |thunks|
    && forall k :: 0 <= k < w.thunksWritten ==> ThunkAt(cfg, base, w.out, thunks[k])
  }

  lemma {:induction false} ThunksStay(cfg: Config, base: nat, thunks: seq<nat>, w: WriteState, w': WriteState,
                                      bytes: seq<byte>)
    requires ThunksOut(cfg, base, thunks, w) && w'.thunksWritten == w.thunksWritten
    requires w'.out == w.out + bytes && w'.offset == w.offset + |bytes|
    ensures ThunksOut(cfg, base, thunks, w')
  {
    forall k | 0 <= k < w.thunksWritten ensures ThunkAt(cfg, base, w'.out, thunks[k]) {
      assert ThunkAt(cfg, base, w.out, thunks[k]);
      var from := thunks[k] - base;
      assert w'.out[from..from + |cfg.thunk|] == w.out[from..from + |cfg.thunk|];
    }
  }

  lemma {:induction false} WriteThunksOut(cfg: Config, base: nat, thunks: seq<nat>, w: WriteState)
    requires ThunksOut(cfg, base, thunks, w)
    ensures ThunksOut(cfg, base, thunks, WriteThunks(cfg, thunks, w))
  {
    var n := w.thunksWritten;
    if cfg.HasThunks() && n < |thunks| && cfg.AlignCode(w.offset) == thunks[n] {
      var w1 := Pad(cfg, w);
      ThunksStay(cfg, base, thunks, w, w1, Zeros(cfg.AlignCode(w.offset) - w.offset));
      ThunkOut(cfg, base, thunks, w1);
      var w2 := Emit(w1, cfg.thunk).(thunksWritten := n + 1);
      ThunksStay(cfg, base, thunks, w2, Pad(cfg, w2), Zeros(cfg.AlignCode(w2.offset) - w2.offset));
      assert WriteThunks(cfg, thunks, w) == Pad(cfg, w2);
    }
  }

  lemma {:induction false} ThunkOut(cfg: Config, base: nat, thunks: seq<nat>, w: WriteState)
    requires ThunksOut(cfg, base, thunks, w) && w.thunksWritten < |thunks| && thunks[w.thunksWritten] == w.offset
    ensures ThunksOut(cfg, base, thunks, Emit(w, cfg.thunk).(thunksWritten := w.thunksWritten + 1))
  {
    ThunksStay(cfg, base, thunks, w, Emit(w, cfg.thunk), cfg.thunk);
    var out := w.out + cfg.thunk;
    assert out[|w.out|..|w.out| + |cfg.thunk|] == cfg.thunk;
  }

  lemma {:induction false} VisitOut(cfg: Config, base: nat, thunks: seq<nat>, w: WriteState, p: Placed)
    requires ThunksOut(cfg, base, thunks, w)
    ensures ThunksOut(cfg, base, thunks, WriteVisit(cfg, thunks, w, p))
  {
    if Fires(w, p) {
      WriteThunksOut(cfg, base, thunks, w);
      var w1 := WriteThunks(cfg, thunks, w);
      var w2 := Pad(cfg, w1);
      ThunksStay(cfg, base, thunks, w1, w2, Zeros(cfg.AlignCode(w1.offset) - w1.offset));
      ThunksStay(cfg, base, thunks, w2, WriteBlob(cfg, w1, p), Blob(cfg, p, w2.offset + HEADER_SIZE));
    }
  }

  lemma {:induction false} RunOut(cfg: Config, base: nat, thunks: seq<nat>, w: WriteState, ps: seq<Placed>)
    requires ThunksOut(cfg, base, thunks, w)
    ensures ThunksOut(cfg, base, thunks, WriteRun(cfg, thunks, w, ps))
    decreases |ps|
  {
    if ps != [] {
      VisitOut(cfg, base, thunks, w, ps[0]);
      RunOut(cfg, base, thunks, WriteVisit(cfg, thunks, w, ps[0]), ps[1..]);
    }
  }

  /** Every thunk that was reserved stands in the output, where it was reserved. */
  lemma {:induction false} TheoremThunksStand(cfg: Config, base: nat, vs: seq<Visited>, k: nat)
    requires NonEmptyCode(cfg, vs) && NoTinyRepeat(cfg, vs) && k < |InitPass(cfg, base, vs).patcher.thunks|
    ensures var end := InitPass(cfg, base, vs);
            ThunkAt(cfg, base, WritePass(cfg, base, end).out, end.patcher.thunks[k])
  {
    var end := InitPass(cfg, base, vs);
    RunOut(cfg, base, end.patcher.thunks, WriteStart(base), end.placed);
    WriteThunksOut(cfg, base, end.patcher.thunks, WriteRun(cfg, end.patcher.thunks, WriteStart(base), end.placed));
    TheoremPassesAgree(cfg, base, vs);
  }
}
