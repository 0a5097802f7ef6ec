/** Relative calls in the finished file: the instruction that the patcher leaves at a call takes the processor to the
    called method, to a thunk, or to a trampoline. */
module LinkedCalls {
  import opened Align
  import opened Bytes
  import opened CallEncoding
  import opened CallReach
  import opened CodePatching
  import opened CompiledMethods
  import opened Options
  import opened OatCode
  import opened OatCodeAgreement
  import opened OatCodeTheorem
  import opened OatLayout
  import opened OatVisitors
  import opened OatWriteVisitor
  import OatFile
  import OatReadBack
  import OatRecords

  // ----- One call -----

  /** The word that a displacement becomes; Thumb2 counts from the instruction behind the call. */
  function CallWord(isa: Isa, displacement: nat): nat
  {
    if isa == Thumb2 then
      var insn := EncodeBlThumb(Diff(displacement, 4));
      if insn < WORD then ThumbWord(insn) else 0
    else EncodeBl64(displacement)
  }

  predicate IsCall(isa: Isa, word: nat)
  {
    word < WORD && if isa == Thumb2 then IsBlThumb(ThumbWord(word)) else IsBl64(word)
  }

  /** Where the processor goes from the instruction `word` at `at`. */
  function BranchTarget(isa: Isa, word: nat, at: nat): int
    requires word < WORD
  {
    if isa == Thumb2 then at + 4 + BlThumbOffset(ThumbWord(word)) else at + Bl64Offset(word)
  }

  /** Instructions are at even addresses, on Arm64 at multiples of four. */
  predicate InsnAligned(isa: Isa, at: int)
  {
    if isa == Thumb2 then at % 2 == 0 else at % 4 == 0
  }

  lemma {:induction false} SignedDiff(to: nat, at: nat)
    requires to < LIMIT && at < LIMIT
    ensures Diff(to, at) < WORD && Signed(Diff(to, at)) == to - at
  {
    DiffIs(to, at);
  }

  lemma {:induction false} ThumbCall(to: nat, at: nat, d: nat)
    requires to < LIMIT && at < LIMIT && to % 2 == 0 && at % 2 == 0 && d == Diff(to, at)
    requires d <= 0x100_0002 || WORD - 0xff_fffc <= d
    ensures IsCall(Thumb2, CallWord(Thumb2, d)) && BranchTarget(Thumb2, CallWord(Thumb2, d), at) == to
  {
    SignedDiff(to, at);
    var e := Diff(d, 4);
    DiffIs(d, 4);
    EvenDiff(to, at, d, e);
    assert e < 0x100_0000 || 0xff00_0000 <= e;
    TheoremBlThumb(e);
    HalvesSwap(EncodeBlThumb(e));
    assert Signed(e) == Signed(d) - 4;
  }

  lemma {:induction false} EvenDiff(to: nat, at: nat, d: nat, e: nat)
    requires to % 2 == 0 && at % 2 == 0 && (d == to - at || d == to - at + WORD) && (e == d - 4 || e == d - 4 + WORD)
    ensures e % 2 == 0
  {
  }

  lemma {:induction false} FourDiff(to: nat, at: nat, d: nat)
    requires to % 4 == 0 && at % 4 == 0 && (d == to - at || d == to - at + WORD)
    ensures d % 4 == 0
  {
  }

  lemma {:induction false} Arm64Call(to: nat, at: nat, d: nat)
    requires to < LIMIT && at < LIMIT && to % 4 == 0 && at % 4 == 0 && d == Diff(to, at)
    requires d <= 0x7ff_fffc || WORD - 0x800_0000 <= d
    ensures IsCall(Arm64, CallWord(Arm64, d)) && BranchTarget(Arm64, CallWord(Arm64, d), at) == to
  {
    SignedDiff(to, at);
    DiffIs(to, at);
    FourDiff(to, at, d);
    TheoremBl64(d);
  }

  /** A displacement in range takes the processor where it was meant to. */
  lemma {:induction false} TheoremCallWord(cfg: Config, to: nat, at: nat, d: nat)
    requires cfg.HasThunks() && to < LIMIT && at < LIMIT && InsnAligned(cfg.isa, to) && InsnAligned(cfg.isa, at)
    requires d == Diff(to, at) && InRange(cfg, d)
    ensures IsCall(cfg.isa, CallWord(cfg.isa, d)) && BranchTarget(cfg.isa, CallWord(cfg.isa, d), at) == to
  {
    if cfg.isa == Thumb2 { ThumbCall(to, at, d); } else { Arm64Call(to, at, d); }
  }

  /** The word for a displacement is read as that displacement. */
  predicate Encodable(isa: Isa, d: nat)
    requires d < WORD
  {
    IsCall(isa, CallWord(isa, d)) && BranchTarget(isa, CallWord(isa, d), 0) == Signed(d)
  }

  /** The range that the patchers allow is exactly what the branch instruction can encode. */
  lemma {:induction false} TheoremRangeIsEncodable(cfg: Config, d: nat)
    requires cfg.HasThunks() && d < WORD && InsnAligned(cfg.isa, d)
    ensures InRange(cfg, d) <==> Encodable(cfg.isa, d)
  {
    if cfg.isa == Thumb2 {
      var e := Diff(d, 4);
      DiffIs(d, 4);
      ThumbRange(d, e);
      TheoremBlThumb(e);
      HalvesSwap(EncodeBlThumb(e));
    } else {
      TheoremBl64(d);
      FourRange(d);
    }
  }

  lemma {:induction false} ThumbRange(d: nat, e: nat)
    requires d < WORD && d % 2 == 0 && e == (if d >= 4 then d - 4 else d - 4 + WORD)
    ensures e % 2 == 0 && (e < 0x100_0000 || 0xff00_0000 <= e <==> d <= 0x100_0002 || WORD - 0xff_fffc <= d)
    ensures (d <= 0x100_0002 || WORD - 0xff_fffc <= d ==> Signed(e) == Signed(d) - 4)
    ensures !(e < 0x100_0000 || 0xff00_0000 <= e) ==> Signed(e) == Signed(d) - 4 || Signed(e) == Signed(d) - 4 + WORD
  {
    var h := d / 2;
    assert d == 2 * h;
    if d >= 4 { TimesTwo(h - 2); } else { TimesTwo(h - 2 + 0x8000_0000); }
  }

  lemma {:induction false} FourRange(d: nat)
    requires d % 4 == 0
    ensures d <= 0x7ff_fffc <==> d < 0x800_0000
  {
    var k := d / 4;
    assert d == 4 * k;
  }

  // ----- Where methods and thunks are -----

  /** The offset that calls are linked to is that of the first method of this name. */
  lemma {:induction false} MethodPlace(cfg: Config, base: nat, vs: seq<Visited>, n: nat, r: MethodRef) returns (j: nat)
    requires n <= |vs| && r in At(cfg, base, vs, n).methods
    ensures j < n && vs[j].ref == r && (forall k :: 0 <= k < j ==> vs[k].ref != r)
    ensures j < |At(cfg, base, vs, n).placed| &&
            At(cfg, base, vs, n).methods[r] == At(cfg, base, vs, n).placed[j].codeOffset
  {
    if n > 0 {
      var st, v := At(cfg, base, vs, n - 1), vs[n - 1];
      AtStep(cfg, base, vs, n - 1);
      AtTracks(cfg, base, vs, n - 1);
      AtTracks(cfg, base, vs, n);
      VisitPlaces(cfg, st, v);
      if r in st.methods {
        j := MethodPlace(cfg, base, vs, n - 1, r);
      } else {
        j := n - 1;
        RunRemembers(cfg, base, vs, n - 1, r);
        forall k | 0 <= k < j ensures vs[k].ref != r { assert vs[..n - 1][k] == vs[k]; }
      }
    }
  }

  lemma {:induction false} VisitPlaces(cfg: Config, st: InitState, v: Visited)
    ensures var st' := InitVisit(cfg, st, v);
            && |st'.placed| == |st.placed| + 1 && st.placed <= st'.placed
            && st'.methods == Remember(st.methods, v.ref, st'.placed[|st.placed|].codeOffset)
  {
  }

  predicate Multiples(thunks: seq<nat>)
  {
    forall k :: 0 <= k < |thunks| ==> thunks[k] % 4 == 0
  }

  lemma {:induction false} AlignedByFour(cfg: Config, offset: nat)
    ensures cfg.AlignCode(offset) % 4 == 0
  {
    RoundUpByFour(offset);
  }

  lemma {:induction false} ThunksAligned(cfg: Config, base: nat, vs: seq<Visited>, n: nat)
    requires n <= |vs|
    ensures Multiples(At(cfg, base, vs, n).patcher.thunks)
  {
    if n > 0 {
      ThunksAligned(cfg, base, vs, n - 1);
      AtStep(cfg, base, vs, n - 1);
      var st, v := At(cfg, base, vs, n - 1), vs[n - 1];
      ReserveCases(cfg, st.patcher, st.methods, st.offset, v);
      AlignedByFour(cfg, st.offset);
    }
  }

  lemma {:induction false} AllThunksAligned(cfg: Config, base: nat, vs: seq<Visited>)
    ensures Multiples(InitPass(cfg, base, vs).patcher.thunks)
  {
    PassIsAt(cfg, base, vs);
    ThunksAligned(cfg, base, vs, |vs|);
    AlignedByFour(cfg, At(cfg, base, vs, |vs|).offset);
  }

  // ----- All calls -----

  /** The offset that a patch is written for: the first method of its name, or a trampoline. */
  ghost predicate IsTarget(cfg: Config, base: nat, vs: seq<Visited>, r: MethodRef, trampoline: nat, target: int)
  {
    if CallReach.Compiled(vs, r) then
      exists j :: 0 <= j < |vs| && vs[j].ref == r && (forall k :: 0 <= k < j ==> vs[k].ref != r) &&
                  target == OatRecords.RangeStart(cfg, base, vs, j)
    else target == trampoline
  }

  lemma {:induction false} PassMethods(cfg: Config, base: nat, vs: seq<Visited>)
    ensures InitPass(cfg, base, vs).methods == At(cfg, base, vs, |vs|).methods
    ensures InitPass(cfg, base, vs).placed == At(cfg, base, vs, |vs|).placed
  {
    PassIsAt(cfg, base, vs);
  }

  lemma {:induction false} TargetIs(cfg: Config, base: nat, vs: seq<Visited>, c: Pending, trampoline: nat)
    requires InsnAligned(cfg.isa, trampoline)
    ensures var target := TargetOf(cfg, InitPass(cfg, base, vs), c, trampoline);
            IsTarget(cfg, base, vs, c.ref, trampoline, target) && InsnAligned(cfg.isa, target)
  {
    var end := InitPass(cfg, base, vs);
    PassMethods(cfg, base, vs);
    assert vs[..|vs|] == vs;
    RunRemembers(cfg, base, vs, |vs|, c.ref);
    if c.ref in end.methods { var j := MethodTarget(cfg, base, vs, c.ref); }
  }

  lemma {:induction false} MethodTarget(cfg: Config, base: nat, vs: seq<Visited>, r: MethodRef) returns (j: nat)
    requires r in InitPass(cfg, base, vs).methods
    ensures j < |vs| && vs[j].ref == r && (forall k :: 0 <= k < j ==> vs[k].ref != r)
    ensures var target := InitPass(cfg, base, vs).methods[r] - cfg.Delta();
            target == OatRecords.RangeStart(cfg, base, vs, j) && InsnAligned(cfg.isa, target)
  {
    PassMethods(cfg, base, vs);
    j := MethodPlace(cfg, base, vs, |vs|, r);
    PlacedAligned(cfg, base, vs, j);
  }

  lemma {:induction false} PlacedAligned(cfg: Config, base: nat, vs: seq<Visited>, j: nat)
    requires j < |vs|
    ensures |InitPass(cfg, base, vs).placed| == |vs| && InsnAligned(cfg.isa, OatRecords.RangeStart(cfg, base, vs, j))
    ensures InitPass(cfg, base, vs).placed[j].codeOffset - cfg.Delta() == OatRecords.RangeStart(cfg, base, vs, j)
  {
    OatRecords.Recorded(cfg, base, vs);
    OatFile.PlacedBehind(cfg, base, vs, j);
    CodeAligned(cfg.isa, OatRecords.RangeStart(cfg, base, vs, j));
  }

  lemma {:induction false} CodeAligned(isa: Isa, start: int)
    requires start % 4 == 0
    ensures InsnAligned(isa, start)
  {
    TimesFour(start / 4);
  }

  /** The patcher: what it writes for a call at `at` when `written` thunks are out. */
  ghost predicate LinksCall(cfg: Config, thunks: seq<nat>, written: nat, p: LinkerPatch, at: nat, target: int)
  {
    0 <= target && written <= |thunks| && CalculateDisplacement(cfg, thunks, written, at, target).Some? ==>
      forall was: nat ::
        cfg.resolve(p, at, was) == CallWord(cfg.isa, CalculateDisplacement(cfg, thunks, written, at, target).value)
  }

  /** The call that patch `k` of method `i` stands for. */
  function CallOf(cfg: Config, base: nat, vs: seq<Visited>, i: nat, k: nat): Pending
    requires i < |vs| && k < |vs[i].m.patches|
  {
    var p := vs[i].m.patches[k];
    var placed := InitPass(cfg, base, vs).placed;
    Pending(MethodRef(p.dexFile, p.cmp1), (if i < |placed| then Begin(cfg, placed[i]) else 0) + p.literalOffset)
  }

  lemma {:induction false} CallListed(patches: seq<LinkerPatch>, start: nat, k: nat)
    requires k < |patches| && patches[k].kind == PatchCallRelative
    ensures Pending(MethodRef(patches[k].dexFile, patches[k].cmp1), start + patches[k].literalOffset) in Calls(patches,
        start)
  {
    if k > 0 { CallListed(patches[1..], start, k - 1); }
  }

  /** The condition under which a call can be encoded: its target or the last thunk in front of it is in range, or it is
      neither left over nor exactly at the maximum displacement from its next thunk. */
  ghost predicate CanReach(cfg: Config, base: nat, vs: seq<Visited>, i: nat, c: Pending, target: int)
    requires i < |vs|
  {
    var thunks, written := InitPass(cfg, base, vs).patcher.thunks, WrittenAt(cfg, base, vs, i);
    || Direct(cfg, c.offset, target) || BackInRange(cfg, thunks, written, c.offset)
    || (written <= |thunks| && !AtTheLimit(cfg, thunks, written, c.offset) && !LeftOver(cfg, base, vs, c))
  }

  /** Patch `k` of method `i` is a relative call that the patcher links and that can be encoded. */
  ghost predicate Linked(cfg: Config, base: nat, vs: seq<Visited>, i: nat, k: nat, trampoline: nat)
  {
    && i < |vs| && !Repeat(cfg, vs, i) && k < |vs[i].m.patches| && vs[i].m.patches[k].kind == PatchCallRelative
    && trampoline < LIMIT && InsnAligned(cfg.isa, trampoline) && InsnAligned(cfg.isa, vs[i].m.patches[k].literalOffset)
    && var end, c := InitPass(cfg, base, vs), CallOf(cfg, base, vs, i, k);
       var target := TargetOf(cfg, end, c, trampoline);
       && LinksCall(cfg, end.patcher.thunks, WrittenAt(cfg, base, vs, i), vs[i].m.patches[k], c.offset, target)
       && CanReach(cfg, base, vs, i, c, target)
  }

  lemma {:induction false} LinkedReaches(cfg: Config, base: nat, vs: seq<Visited>, i: nat, k: nat, trampoline: nat,
                                         c: Pending, target: int)
    requires RunFits(cfg, base, vs) && i < |vs| && !Repeat(cfg, vs, i) && trampoline < LIMIT
    requires k < |vs[i].m.patches| && vs[i].m.patches[k].kind == PatchCallRelative
    requires c == CallOf(cfg, base, vs, i, k) && target == TargetOf(cfg, InitPass(cfg, base, vs), c, trampoline)
    requires CanReach(cfg, base, vs, i, c, target)
    ensures var thunks, written := InitPass(cfg, base, vs).patcher.thunks, WrittenAt(cfg, base, vs, i);
            written <= |thunks| && 0 <= target && Reaches(cfg, thunks, written, c.offset, target)
  {
    IsListed(cfg, base, vs, i, k, c);
    ListedReaches(cfg, base, vs, i, trampoline, c, target);
  }

  lemma {:induction false} IsListed(cfg: Config, base: nat, vs: seq<Visited>, i: nat, k: nat, c: Pending)
    requires i < |vs| && k < |vs[i].m.patches| && vs[i].m.patches[k].kind == PatchCallRelative
    requires c == CallOf(cfg, base, vs, i, k)
    ensures |InitPass(cfg, base, vs).placed| == |vs|
    ensures c in Calls(vs[i].m.patches, Begin(cfg, InitPass(cfg, base, vs).placed[i]))
  {
    OatRecords.Recorded(cfg, base, vs);
    CallListed(vs[i].m.patches, Begin(cfg, InitPass(cfg, base, vs).placed[i]), k);
  }

  lemma {:induction false} ListedReaches(cfg: Config, base: nat, vs: seq<Visited>, i: nat, trampoline: nat, c: Pending,
                                         target: int)
    requires RunFits(cfg, base, vs) && i < |vs| && !Repeat(cfg, vs, i) && trampoline < LIMIT
    requires |InitPass(cfg, base, vs).placed| == |vs|
    requires c in Calls(vs[i].m.patches, Begin(cfg, InitPass(cfg, base, vs).placed[i]))
    requires target == TargetOf(cfg, InitPass(cfg, base, vs), c, trampoline) && CanReach(cfg, base, vs, i, c, target)
    ensures var thunks, written := InitPass(cfg, base, vs).patcher.thunks, WrittenAt(cfg, base, vs, i);
            written <= |thunks| && 0 <= target && Reaches(cfg, thunks, written, c.offset, target)
  {
    TheoremCallsReach(cfg, base, vs, i, c, trampoline, WrittenAt(cfg, base, vs, i));
  }

  /** From `at` the processor gets to the target of the call, or to a thunk if the target is out of range. */
  ghost predicate Lands(cfg: Config, base: nat, vs: seq<Visited>, r: MethodRef, trampoline: nat, word: nat, at: nat)
  {
    IsCall(cfg.isa, word) && exists target :: LandsFor(cfg, base, vs, r, trampoline, BranchTarget(cfg.isa, word, at),
                                                       at, target)
  }

  ghost predicate LandsFor(cfg: Config, base: nat, vs: seq<Visited>, r: MethodRef, trampoline: nat, to: int, at: nat,
                           target: int)
  {
    && IsTarget(cfg, base, vs, r, trampoline, target)
    && (to == target || (!InRange(cfg, Diff(target, at)) && to in InitPass(cfg, base, vs).patcher.thunks))
  }

  /** What was chosen for a call: straight to the target, or to one of the thunks. */
  lemma {:induction false} Chosen(cfg: Config, thunks: seq<nat>, written: nat, at: nat, target: nat) returns (to: nat)
    requires written <= |thunks| && Reaches(cfg, thunks, written, at, target)
    ensures CalculateDisplacement(cfg, thunks, written, at, target) == Some(Diff(to, at)) && InRange(cfg, Diff(to, at))
    ensures to == target || (!InRange(cfg, Diff(target, at)) && to in thunks)
  {
    var displacement := Diff(target, at);
    if displacement > cfg.MaxPositive() && displacement < WORD - cfg.MaxNegative() {
      if written != |thunks| && Diff(thunks[written], at) < cfg.MaxPositive() {
        to := thunks[written];
      } else {
        to := thunks[written - 1];
      }
    } else {
      to := target;
    }
  }

  /** Where a call stands. */
  lemma {:induction false} CallOffset(cfg: Config, base: nat, vs: seq<Visited>, i: nat, k: nat)
    requires i < |vs| && k < |vs[i].m.patches|
    ensures |InitPass(cfg, base, vs).placed| == |vs|
    ensures CallOf(cfg, base, vs, i, k).offset ==
            OatRecords.RangeStart(cfg, base, vs, i) + vs[i].m.patches[k].literalOffset
    ensures Begin(cfg, InitPass(cfg, base, vs).placed[i]) == OatRecords.RangeStart(cfg, base, vs, i)
    ensures OatRecords.RangeStart(cfg, base, vs, i) % 4 == 0
  {
    OatRecords.Recorded(cfg, base, vs);
    OatFile.PlacedBehind(cfg, base, vs, i);
  }

  lemma {:induction false} FitsAt(cfg: Config, base: nat, vs: seq<Visited>, i: nat, k: nat)
    requires RunFits(cfg, base, vs) && i < |vs| && k < |vs[i].m.patches|
    ensures vs[i].m.patches[k].literalOffset < cfg.Size(vs[i].m) && At(cfg, base, vs, |vs|).offset < LIMIT
  {
    assert MethodFits(cfg, vs[i].m);
  }

  lemma {:induction false} CallBelow(cfg: Config, base: nat, vs: seq<Visited>, i: nat, k: nat)
    requires RunFits(cfg, base, vs) && i < |vs| && !Repeat(cfg, vs, i) && k < |vs[i].m.patches|
    ensures CallOf(cfg, base, vs, i, k).offset < LIMIT
  {
    FitsAt(cfg, base, vs, i, k);
    FirstInside(cfg, base, vs, i);
  }

  lemma {:induction false} PlaceAligned(isa: Isa, start: int, literal: nat)
    requires start % 4 == 0 && InsnAligned(isa, literal)
    ensures InsnAligned(isa, start + literal)
  {
    SumAligned(start, literal);
  }

  lemma {:induction false} SumAligned(start: int, literal: nat)
    requires start % 4 == 0
    ensures (literal % 2 == 0 ==> (start + literal) % 2 == 0) && (literal % 4 == 0 ==> (start + literal) % 4 == 0)
  {
    var a := start / 4;
    if literal % 2 == 0 { TimesTwo(2 * a + literal / 2); }
    if literal % 4 == 0 { TimesFour(a + literal / 4); }
  }

  lemma {:induction false} TimesTwo(x: int)
    ensures 2 * x % 2 == 0
  {
  }

  lemma {:induction false} TimesFour(x: int)
    ensures 4 * x % 4 == 0 && 4 * x % 2 == 0
  {
    TimesTwo(2 * x);
  }

  lemma {:induction false} ThunkPlace(cfg: Config, base: nat, vs: seq<Visited>, i: nat, t: nat)
    requires RunFits(cfg, base, vs) && i < |vs| && !Repeat(cfg, vs, i) && t in InitPass(cfg, base, vs).patcher.thunks
    ensures t < LIMIT && InsnAligned(cfg.isa, t)
  {
    ThunksAround(cfg, base, vs, i);
    AllThunksAligned(cfg, base, vs);
    ThunkOfSplit(InitPass(cfg, base, vs).patcher.thunks, t);
    TimesFour(t / 4);
  }

  lemma {:induction false} ThunkOfSplit(thunks: seq<nat>, t: nat)
    requires t in thunks && Multiples(thunks) && forall k :: 0 <= k < |thunks| ==> thunks[k] < LIMIT
    ensures t < LIMIT && t == 4 * (t / 4)
  {
    var k :| 0 <= k < |thunks| && thunks[k] == t;
  }

  lemma {:induction false} TargetPlace(cfg: Config, base: nat, vs: seq<Visited>, c: Pending, trampoline: nat)
    requires RunFits(cfg, base, vs) && trampoline < LIMIT && InsnAligned(cfg.isa, trampoline)
    ensures var target := TargetOf(cfg, InitPass(cfg, base, vs), c, trampoline);
            0 <= target < LIMIT && IsTarget(cfg, base, vs, c.ref, trampoline, target) && InsnAligned(cfg.isa, target)
  {
    TargetIs(cfg, base, vs, c, trampoline);
    TargetBounded(cfg, base, vs, c.ref);
  }

  /** Where a linked call goes. */
  lemma {:induction false} GoesTo(cfg: Config, base: nat, vs: seq<Visited>, i: nat, k: nat, trampoline: nat, c: Pending)
    returns (to: nat, target: int)
    requires RunFits(cfg, base, vs) && Linked(cfg, base, vs, i, k, trampoline) && c == CallOf(cfg, base, vs, i, k)
    ensures forall was: nat :: cfg.resolve(vs[i].m.patches[k], c.offset, was) == CallWord(cfg.isa, Diff(to, c.offset))
    ensures InRange(cfg, Diff(to, c.offset)) && to < LIMIT && InsnAligned(cfg.isa, to)
    ensures LandsFor(cfg, base, vs, c.ref, trampoline, to, c.offset, target)
  {
    var end := InitPass(cfg, base, vs);
    TargetPlace(cfg, base, vs, c, trampoline);
    var written := WrittenAt(cfg, base, vs, i);
    target := TargetOf(cfg, end, c, trampoline);
    LinkedReaches(cfg, base, vs, i, k, trampoline, c, target);
    to := Chosen(cfg, end.patcher.thunks, written, c.offset, target);
    if to != target { ThunkPlace(cfg, base, vs, i, to); }
  }

  /** The word that the patcher computes for a call lands. */
  lemma {:induction false} WordLands(cfg: Config, base: nat, vs: seq<Visited>, r: MethodRef, trampoline: nat, to: nat,
                                     at: nat, word: nat, target: int)
    requires cfg.HasThunks() && to < LIMIT && at < LIMIT && InsnAligned(cfg.isa, to) && InsnAligned(cfg.isa, at)
    requires InRange(cfg, Diff(to, at)) && word == CallWord(cfg.isa, Diff(to, at)) % WORD
    requires LandsFor(cfg, base, vs, r, trampoline, to, at, target)
    ensures Lands(cfg, base, vs, r, trampoline, word, at)
  {
    TheoremCallWord(cfg, to, at, Diff(to, at));
    OatReadBack.SmallWord(CallWord(cfg.isa, Diff(to, at)));
  }

  lemma {:induction false} CallAligned(cfg: Config, base: nat, vs: seq<Visited>, i: nat, k: nat)
    requires i < |vs| && k < |vs[i].m.patches| && InsnAligned(cfg.isa, vs[i].m.patches[k].literalOffset)
    ensures InsnAligned(cfg.isa, CallOf(cfg, base, vs, i, k).offset)
  {
    CallOffset(cfg, base, vs, i, k);
    PlaceAligned(cfg.isa, OatRecords.RangeStart(cfg, base, vs, i), vs[i].m.patches[k].literalOffset);
  }

  lemma {:induction false} LinkedLands(cfg: Config, base: nat, vs: seq<Visited>, i: nat, k: nat, trampoline: nat,
                                       c: Pending, was: nat, word: nat)
    requires RunFits(cfg, base, vs) && Linked(cfg, base, vs, i, k, trampoline) && c == CallOf(cfg, base, vs, i, k)
    requires word == cfg.resolve(vs[i].m.patches[k], c.offset, was) % WORD
    ensures Lands(cfg, base, vs, c.ref, trampoline, word, c.offset)
  {
    CallBelow(cfg, base, vs, i, k);
    CallAligned(cfg, base, vs, i, k);
    var to, target := GoesTo(cfg, base, vs, i, k, trampoline, c);
    WordLands(cfg, base, vs, c.ref, trampoline, to, c.offset, word, target);
  }

  // ----- In the file -----

  /** The patched code of `m` stands at `start`. */
  predicate CodeStands(cfg: Config, file: seq<byte>, start: int, m: CompiledMethod)
  {
    && 0 <= start && start + cfg.Size(m) <= |file|
    && IsPatched(cfg, cfg.mem(m.code), m.patches, start, file[start..start + cfg.Size(m)])
  }

  /** The word of patch `k` in a file is what the patch makes of the word in the code. */
  predicate WordAt(cfg: Config, file: seq<byte>, start: int, m: CompiledMethod, k: nat)
    requires k < |m.patches|
  {
    var literal := m.patches[k].literalOffset;
    && 0 <= start && start + literal + 4 <= |file| && literal + 4 <= |cfg.mem(m.code)|
    && Read32(file, start + literal) ==
       cfg.resolve(m.patches[k], start + literal, Read32(cfg.mem(m.code), literal)) % WORD
  }

  lemma {:induction false} WordInCode(cfg: Config, file: seq<byte>, start: nat, m: CompiledMethod, k: nat)
    requires CodeStands(cfg, file, start, m) && k < |m.patches| && Alone(m.patches, cfg.Size(m), k)
    ensures WordAt(cfg, file, start, m, k)
  {
    var code, literal := file[start..start + cfg.Size(m)], m.patches[k].literalOffset;
    OatReadBack.SliceOfSlice(file, start, cfg.Size(m), literal, 4);
    Read32Local(file, start + literal, code, literal);
  }

  lemma {:induction false} CodeRead(cfg: Config, file: seq<byte>, codeOffset: nat, start: nat, m: CompiledMethod)
    requires OatReadBack.ReadsBack(cfg, file, codeOffset, m) && start % 4 == 0 && codeOffset == start + cfg.Delta()
    ensures CodeStands(cfg, file, start, m)
  {
    OatReadBack.ThumbCleared(start, cfg.Delta());
    OatReadBack.ReadsCode(cfg, file, codeOffset, start, m);
  }

  lemma {:induction false} CodeOfVisit(cfg: Config, base: nat, vs: seq<Visited>, out: seq<byte>, i: nat)
    requires i < |vs| == |InitPass(cfg, base, vs).placed|
    requires OatReadBack.ReadsBack(cfg, out, InitPass(cfg, base, vs).placed[i].codeOffset, vs[i].m)
    ensures CodeStands(cfg, out, OatRecords.RangeStart(cfg, base, vs, i), vs[i].m)
  {
    OatFile.PlacedBehind(cfg, base, vs, i);
    CodeRead(cfg, out, InitPass(cfg, base, vs).placed[i].codeOffset, OatRecords.RangeStart(cfg, base, vs, i), vs[i].m);
  }

  lemma {:induction false} CodeInFile(b: Input, l: Layout, out: seq<byte>, vs: seq<Visited>, i: nat)
    requires OatReadBack.Sound(b, l, out) && vs == AllVisits(l.tabled, |l.tabled|) && i < |vs|
    ensures CodeStands(b.cfg, out, OatRecords.RangeStart(b.cfg, l.codeBase, vs, i), vs[i].m)
  {
    OatReadBack.VisitReadsBack(b, l, out, vs, i);
    CodeOfVisit(b.cfg, l.codeBase, vs, out, i);
  }

  lemma {:induction false} WordStands(b: Input, l: Layout, out: seq<byte>, vs: seq<Visited>, i: nat, k: nat, start: int,
                                      m: CompiledMethod)
    requires OatReadBack.Sound(b, l, out) && vs == AllVisits(l.tabled, |l.tabled|) && i < |vs| && m == vs[i].m
    requires k < |m.patches| && Alone(m.patches, b.cfg.Size(m), k)
    requires start == OatRecords.RangeStart(b.cfg, l.codeBase, vs, i)
    ensures WordAt(b.cfg, out, start, m, k)
  {
    CodeInFile(b, l, out, vs, i);
    WordInCode(b.cfg, out, start, m, k);
  }

  lemma {:induction false} StandingLands(cfg: Config, base: nat, vs: seq<Visited>, out: seq<byte>, i: nat, k: nat,
                                         trampoline: nat, start: int)
    requires RunFits(cfg, base, vs) && Linked(cfg, base, vs, i, k, trampoline)
    requires start == OatRecords.RangeStart(cfg, base, vs, i) && WordAt(cfg, out, start, vs[i].m, k)
    ensures CallLands(cfg, base, vs, out, i, k, trampoline)
  {
    var was, word := ReadCall(cfg, base, vs, out, i, k, start);
    LinkedLands(cfg, base, vs, i, k, trampoline, CallOf(cfg, base, vs, i, k), was, word);
  }

  lemma {:induction false} ReadCall(cfg: Config, base: nat, vs: seq<Visited>, out: seq<byte>, i: nat, k: nat,
                                    start: int)
    returns (was: nat, word: nat)
    requires i < |vs| && k < |vs[i].m.patches|
    requires start == OatRecords.RangeStart(cfg, base, vs, i) && WordAt(cfg, out, start, vs[i].m, k)
    ensures var c := CallOf(cfg, base, vs, i, k);
            && c.offset == start + vs[i].m.patches[k].literalOffset && c.offset + 4 <= |out|
            && word == Read32(out, c.offset) == cfg.resolve(vs[i].m.patches[k], c.offset, was) % WORD
  {
    CallOffset(cfg, base, vs, i, k);
    was := ReadWord(cfg, out, start, vs[i].m, k);
    word := Read32(out, start + vs[i].m.patches[k].literalOffset);
  }

  lemma {:induction false} ReadWord(cfg: Config, out: seq<byte>, start: int, m: CompiledMethod, k: nat)
    returns (was: nat)
    requires k < |m.patches| && WordAt(cfg, out, start, m, k)
    ensures 0 <= start && start + m.patches[k].literalOffset + 4 <= |out|
    ensures Read32(out, start + m.patches[k].literalOffset) ==
            cfg.resolve(m.patches[k], start + m.patches[k].literalOffset, was) % WORD
  {
    was := Read32(cfg.mem(m.code), m.patches[k].literalOffset);
  }

  /** The word at the call of patch `k` of method `i` takes the processor where the call should go. */
  ghost predicate CallLands(cfg: Config, base: nat, vs: seq<Visited>, out: seq<byte>, i: nat, k: nat, trampoline: nat)
    requires i < |vs| && k < |vs[i].m.patches|
  {
    var c := CallOf(cfg, base, vs, i, k);
    && c.offset == OatRecords.RangeStart(cfg, base, vs, i) + vs[i].m.patches[k].literalOffset
    && c.offset + 4 <= |out|
    && Lands(cfg, base, vs, c.ref, trampoline, Read32(out, c.offset), c.offset)
  }

  /** In the finished file every relative call that can be encoded takes the processor to the first method of its name,
      to a thunk if that is out of range, or to the trampoline if there is no such method. */
  lemma {:induction false} TheoremCallInFile(b: Input, l: Layout, out: seq<byte>, vs: seq<Visited>, i: nat, k: nat,
                                             trampoline: nat)
    requires OatReadBack.Sound(b, l, out) && vs == AllVisits(l.tabled, |l.tabled|)
    requires RunFits(b.cfg, l.codeBase, vs) && Linked(b.cfg, l.codeBase, vs, i, k, trampoline)
    requires Alone(vs[i].m.patches, b.cfg.Size(vs[i].m), k)
    ensures CallLands(b.cfg, l.codeBase, vs, out, i, k, trampoline)
  {
    var start := OatRecords.RangeStart(b.cfg, l.codeBase, vs, i);
    WordStands(b, l, out, vs, i, k, start, vs[i].m);
    StandingLands(b.cfg, l.codeBase, vs, out, i, k, trampoline, start);
  }
}
