/** Two ways in which the ARM thunk scheme leaves a call without a branch that can encode it. */
module CallReachLimits {
  import opened Align
  import opened Bytes
  import opened CompiledMethods
  import opened OatCode
  import opened OatCodeAgreement
  import opened OatCodeTheorem
  import opened CallReach

  /** The parts of a state that decide where the next method goes. */
  predicate Stands(st: InitState, n: nat, offset: nat, thunks: seq<nat>, queue: seq<Pending>, known: set<MethodRef>)
  {
    && |st.placed| == n && st.offset == offset && st.patcher == Patcher(thunks, queue) && st.methods.Keys == known
  }

  predicate ThumbDebug(cfg: Config)
  {
    cfg.isa == Thumb2 && cfg.debuggable && |cfg.thunk| == 8
  }

  lemma {:induction false} DiffSmall(a: nat, b: nat)
    requires b <= a && a - b < WORD
    ensures Diff(a, b) == a - b
  {
  }

  lemma {:induction false} PlaceStands(cfg: Config, st: InitState, v: Visited, patcher: Patcher, offset: nat,
                                       aligned: nat)
    requires ThumbDebug(cfg) && aligned == RoundUp8(offset)
    ensures Stands(Place(cfg, st, v, patcher, offset), |st.placed| + 1, aligned + HEADER_SIZE + cfg.Size(v.m),
                   patcher.thunks, patcher.unprocessed, st.methods.Keys + {v.ref})
  {
  }

  /** The queue can wait for another method. */
  lemma {:induction false} StepWaits(cfg: Config, st: InitState, v: Visited, n: nat, offset: nat, aligned: nat,
                                     next: nat,
                  thunks: seq<nat>, queue: seq<Pending>, known: set<MethodRef>)
    requires ThumbDebug(cfg) && Stands(st, n, offset, thunks, queue, known)
    requires aligned == RoundUp8(offset) && next == RoundUp8(aligned + HEADER_SIZE + cfg.Size(v.m))
    requires queue == [] || (queue[0].offset <= next && next - queue[0].offset <= 0x100_0002)
    ensures Stands(InitVisit(cfg, st, v), n + 1, aligned + HEADER_SIZE + cfg.Size(v.m), thunks,
                   queue + Calls(v.m.patches, aligned + HEADER_SIZE), known + {v.ref})
  {
    if queue != [] { DiffSmall(next, queue[0].offset); }
    ReserveWaits(cfg, st, v);
    PlaceStands(cfg, st, v, Patcher(thunks, queue + Calls(v.m.patches, aligned + HEADER_SIZE)), offset, aligned);
  }

  lemma {:induction false} ThunkNeeded(cfg: Config, st: InitState, v: Visited, c: Pending, next: nat)
    requires ThumbDebug(cfg) && st.patcher == Patcher([], [c]) && c.ref !in st.methods && c.ref != v.ref
    requires next == NextAt(cfg, st.offset, v.m) && 0x100_0002 < next - c.offset < WORD
    ensures Crowded(cfg, st.patcher, st.offset, v.m)
    ensures Processed(cfg, st.patcher, st.methods, st.offset, v).0
  {
    DiffSmall(next, c.offset);
  }

  /** A call to an unknown method that cannot wait any longer gets a thunk. */
  lemma {:induction false} StepThunk(cfg: Config, st: InitState, v: Visited, next: nat, aligned: nat, resume: nat,
                                     c: Pending)
    requires ThumbDebug(cfg) && st.patcher == Patcher([], [c]) && c.ref !in st.methods && c.ref != v.ref &&
             v.m.patches == []
    requires next == NextAt(cfg, st.offset, v.m) && 0x100_0002 < next - c.offset < WORD
    requires aligned == cfg.AlignCode(st.offset) && resume == cfg.AlignCode(aligned + 8)
    ensures InitVisit(cfg, st, v) == Place(cfg, st, v, Patcher([aligned], []), resume)
  {
    ThunkNeeded(cfg, st, v, c, next);
    ReserveThunk(cfg, st, v);
  }

  // ----- A thunk at exactly the maximum displacement -----

  const CALL := Pending(MethodRef(1, 9), 30)

  /** Two fillers put the end of the code at exactly the maximum displacement from the call in the first
      method; the next method needs a thunk there, and the target of the call comes last. */
  predicate LimitRun(cfg: Config, vs: seq<Visited>)
  {
    && ThumbDebug(cfg) && |vs| == 5
    && (forall i :: 0 <= i < 4 ==> vs[i].ref == MethodRef(1, i)) && vs[4].ref == MethodRef(1, 9)
    && vs[0].m.patches == [LinkerPatch(2, PatchCallRelative, 1, 9, 0)]
    && (forall i :: 1 <= i < 5 ==> vs[i].m.patches == [])
    && cfg.Size(vs[0].m) == 6 && cfg.Size(vs[1].m) == 8388608 && cfg.Size(vs[2].m) == 8388540
    && cfg.Size(vs[3].m) == 8 && cfg.Size(vs[4].m) == 8
  }

  lemma {:induction false} LimitStep1(cfg: Config, vs: seq<Visited>)
    requires LimitRun(cfg, vs)
    ensures Stands(At(cfg, 0, vs, 1), 1, 34, [], [CALL], {MethodRef(1, 0)})
  {
    AtStep(cfg, 0, vs, 0);
    StepWaits(cfg, At(cfg, 0, vs, 0), vs[0], 0, 0, 0, 40, [], [], {});
    assert Calls(vs[0].m.patches[1..], 28) == [];
  }

  lemma {:induction false} LimitStep2(cfg: Config, vs: seq<Visited>)
    requires LimitRun(cfg, vs)
    ensures Stands(At(cfg, 0, vs, 2), 2, 8388676, [], [CALL], {MethodRef(1, 0), MethodRef(1, 1)})
  {
    LimitStep1(cfg, vs);
    AtStep(cfg, 0, vs, 1);
    StepWaits(cfg, At(cfg, 0, vs, 1), vs[1], 1, 34, 40, 8388680, [], [CALL], {MethodRef(1, 0)});
    assert {MethodRef(1, 0)} + {MethodRef(1, 1)} == {MethodRef(1, 0), MethodRef(1, 1)};
  }

  const FILLED := {MethodRef(1, 0), MethodRef(1, 1), MethodRef(1, 2)}

  lemma {:induction false} LimitStep3(cfg: Config, vs: seq<Visited>)
    requires LimitRun(cfg, vs)
    ensures Stands(At(cfg, 0, vs, 3), 3, 16777248, [], [CALL], FILLED)
  {
    LimitStep2(cfg, vs);
    AtStep(cfg, 0, vs, 2);
    StepWaits(cfg, At(cfg, 0, vs, 2), vs[2], 2, 8388676, 8388680, 16777248, [], [CALL],
              {MethodRef(1, 0), MethodRef(1, 1)});
    assert {MethodRef(1, 0), MethodRef(1, 1)} + {MethodRef(1, 2)} == FILLED;
  }

  lemma {:induction false} LimitNext(cfg: Config, m: CompiledMethod)
    requires ThumbDebug(cfg) && cfg.Size(m) == 8
    ensures cfg.AlignCode(16777248) == 16777248 && NextAt(cfg, 16777248, m) == 16777288
    ensures cfg.AlignCode(16777256) == 16777256 == RoundUp8(16777256)
  {
  }

  lemma {:induction false} LimitStep4(cfg: Config, vs: seq<Visited>)
    requires LimitRun(cfg, vs)
    ensures Stands(At(cfg, 0, vs, 4), 4, 16777292, [16777248], [], FILLED + {MethodRef(1, 3)})
  {
    var st := At(cfg, 0, vs, 3);
    LimitStep3(cfg, vs);
    AtStep(cfg, 0, vs, 3);
    LimitNext(cfg, vs[3].m);
    StepThunk(cfg, st, vs[3], 16777288, 16777248, 16777256, CALL);
    PlaceStands(cfg, st, vs[3], Patcher([16777248], []), 16777256, 16777256);
  }

  lemma {:induction false} LastPlaced(cfg: Config, st: InitState, v: Visited)
    requires ThumbDebug(cfg) && Stands(st, 4, 16777292, [16777248], [], FILLED + {MethodRef(1, 3)})
    requires v.ref == MethodRef(1, 9) && v.m.patches == [] && cfg.Size(v.m) == 8
    ensures var st' := InitVisit(cfg, st, v);
            && st'.patcher == Patcher([16777248], [])
            && MethodRef(1, 9) in st'.methods && st'.methods[MethodRef(1, 9)] == 16777325
  {
    ReserveWaits(cfg, st, v);
    assert MethodRef(1, 9) !in FILLED + {MethodRef(1, 3)};
  }

  lemma {:induction false} EndWithEmptyQueue(cfg: Config, st: InitState)
    requires st.patcher.unprocessed == []
    ensures InitEnd(cfg, st).patcher.thunks == st.patcher.thunks && InitEnd(cfg, st).methods == st.methods
  {
  }

  lemma {:induction false} LimitEnd(cfg: Config, vs: seq<Visited>)
    requires LimitRun(cfg, vs)
    ensures var end := InitPass(cfg, 0, vs);
            && end.patcher.thunks == [16777248]
            && MethodRef(1, 9) in end.methods && end.methods[MethodRef(1, 9)] == 16777325
    ensures WrittenAt(cfg, 0, vs, 0) == 0
  {
    LimitStep1(cfg, vs);
    LimitStep4(cfg, vs);
    PassIsAt(cfg, 0, vs);
    AtStep(cfg, 0, vs, 4);
    LastPlaced(cfg, At(cfg, 0, vs, 4), vs[4]);
    EndWithEmptyQueue(cfg, At(cfg, 0, vs, 5));
  }

  lemma {:induction false} OutOfReach(cfg: Config, thunks: seq<nat>)
    requires ThumbDebug(cfg) && thunks == [16777248]
    ensures !Reaches(cfg, thunks, 0, CALL.offset, 16777324)
    ensures AtTheLimit(cfg, thunks, 0, CALL.offset)
  {
    DiffSmall(16777324, 30);
    DiffSmall(16777248, 30);
  }

  lemma {:induction false} LimitTargets(cfg: Config, vs: seq<Visited>)
    requires LimitRun(cfg, vs)
    ensures TargetsCompiled(cfg, vs)
  {
    assert vs[4].ref == MethodRef(1, 9);
  }

  /** The property fails at the limit although every target is compiled: the call in the first method is
      neither in range of its target nor sent to the thunk reserved for it. */
  lemma {:induction false} LimitCallFails(cfg: Config, vs: seq<Visited>, end: InitState, written: nat)
    requires LimitRun(cfg, vs) && end == InitPass(cfg, 0, vs) && written == WrittenAt(cfg, 0, vs, 0)
    ensures TargetsCompiled(cfg, vs)
    ensures written <= |end.patcher.thunks| && CALL.ref in end.methods && cfg.Delta() <= end.methods[CALL.ref]
    ensures !Reaches(cfg, end.patcher.thunks, written, CALL.offset, end.methods[CALL.ref] - cfg.Delta())
  {
    LimitTargets(cfg, vs);
    LimitEnd(cfg, vs);
    OutOfReach(cfg, end.patcher.thunks);
  }

  // ----- A call left over at the end of the code -----

  const FAR_BASE: nat := 4096
  const FAR_CALL := Pending(MethodRef(1, 9), 16781406)

  /** Two fillers of 8 MiB and then a method that calls a method without code. */
  predicate FarRun(cfg: Config, vs: seq<Visited>)
  {
    && ThumbDebug(cfg) && |vs| == 3 && (forall i :: 0 <= i < 3 ==> vs[i].ref == MethodRef(1, i))
    && vs[0].m.patches == [] && vs[1].m.patches == [] && vs[2].m.patches == [LinkerPatch(2, PatchCallRelative, 1, 9, 0)]
    && cfg.Size(vs[0].m) == 8388608 && cfg.Size(vs[1].m) == 8388608 && cfg.Size(vs[2].m) == 6
  }

  lemma {:induction false} FarStep1(cfg: Config, vs: seq<Visited>)
    requires FarRun(cfg, vs)
    ensures Stands(At(cfg, FAR_BASE, vs, 1), 1, 8392732, [], [], {MethodRef(1, 0)})
  {
    AtStep(cfg, FAR_BASE, vs, 0);
    StepWaits(cfg, At(cfg, FAR_BASE, vs, 0), vs[0], 0, 4096, 4096, 8392736, [], [], {});
  }

  lemma {:induction false} FarStep2(cfg: Config, vs: seq<Visited>)
    requires FarRun(cfg, vs)
    ensures Stands(At(cfg, FAR_BASE, vs, 2), 2, 16781372, [], [], {MethodRef(1, 0), MethodRef(1, 1)})
  {
    FarStep1(cfg, vs);
    AtStep(cfg, FAR_BASE, vs, 1);
    StepWaits(cfg, At(cfg, FAR_BASE, vs, 1), vs[1], 1, 8392732, 8392736, 16781376, [], [], {MethodRef(1, 0)});
    assert {MethodRef(1, 0)} + {MethodRef(1, 1)} == {MethodRef(1, 0), MethodRef(1, 1)};
  }

  lemma {:induction false} FarStep3(cfg: Config, vs: seq<Visited>)
    requires FarRun(cfg, vs)
    ensures Stands(At(cfg, FAR_BASE, vs, 3), 3, 16781410, [], [FAR_CALL], FILLED)
  {
    FarStep2(cfg, vs);
    AtStep(cfg, FAR_BASE, vs, 2);
    StepWaits(cfg, At(cfg, FAR_BASE, vs, 2), vs[2], 2, 16781372, 16781376, 16781416, [], [],
              {MethodRef(1, 0), MethodRef(1, 1)});
    assert Calls(vs[2].m.patches[1..], 16781404) == [];
    assert {MethodRef(1, 0), MethodRef(1, 1)} + {MethodRef(1, 2)} == FILLED;
  }

  lemma {:induction false} WaitsOn(cfg: Config, st: InitState, c: Pending)
    requires cfg.HasThunks() && st.patcher == Patcher([], [c]) && c.ref !in st.methods && c.ref != NO_METHOD
    requires Diff(cfg.AlignCode(st.offset), c.offset) <= cfg.MaxPositive()
    ensures InitEnd(cfg, st).patcher == Patcher([], [c]) && InitEnd(cfg, st).methods == st.methods
  {
  }

  lemma {:induction false} FarWaits(cfg: Config, st: InitState)
    requires ThumbDebug(cfg) && Stands(st, 3, 16781410, [], [FAR_CALL], FILLED)
    ensures InitEnd(cfg, st).patcher == Patcher([], [FAR_CALL]) && InitEnd(cfg, st).methods == st.methods
  {
    assert cfg.AlignCode(16781410) == 16781416;
    DiffSmall(16781416, 16781406);
    WaitsOn(cfg, st, FAR_CALL);
  }

  lemma {:induction false} FarEnd(cfg: Config, vs: seq<Visited>, st: InitState)
    requires FarRun(cfg, vs) && st == At(cfg, FAR_BASE, vs, 3)
    ensures Stands(st, 3, 16781410, [], [FAR_CALL], FILLED) && InitPass(cfg, FAR_BASE, vs) == InitEnd(cfg, st)
    ensures InitEnd(cfg, st).patcher == Patcher([], [FAR_CALL]) && InitEnd(cfg, st).methods == st.methods
  {
    FarStep3(cfg, vs);
    PassIsAt(cfg, FAR_BASE, vs);
    FarWaits(cfg, st);
  }

  lemma {:induction false} FarFits(cfg: Config, vs: seq<Visited>)
    requires FarRun(cfg, vs)
    ensures RunFits(cfg, FAR_BASE, vs)
  {
    FarStep3(cfg, vs);
  }

  lemma {:induction false} IsLeftOver(cfg: Config, base: nat, vs: seq<Visited>, st: InitState, end: InitState,
                                      c: Pending)
    requires st == At(cfg, base, vs, |vs|) && end == InitPass(cfg, base, vs)
    requires end.patcher.thunks == st.patcher.thunks && c in end.patcher.unprocessed
    ensures LeftOver(cfg, base, vs, c)
  {
  }

  /** The last method calls a method without code, no thunk is reserved, and no trampoline in front of the code is in
      range of the branch. */
  lemma {:induction false} FarCallFails(cfg: Config, vs: seq<Visited>, end: InitState, written: nat, trampoline: nat)
    requires FarRun(cfg, vs) && trampoline <= FAR_BASE && end == InitPass(cfg, FAR_BASE, vs) &&
             written == WrittenAt(cfg, FAR_BASE, vs, 2)
    ensures RunFits(cfg, FAR_BASE, vs) && LeftOver(cfg, FAR_BASE, vs, FAR_CALL)
    ensures end.patcher.thunks == [] && FAR_CALL.ref !in end.methods
    ensures written == 0 && !Reaches(cfg, end.patcher.thunks, written, FAR_CALL.offset, trampoline)
  {
    var st := At(cfg, FAR_BASE, vs, 3);
    FarFits(cfg, vs);
    FarEnd(cfg, vs, st);
    IsLeftOver(cfg, FAR_BASE, vs, st, end, FAR_CALL);
    TooFar(cfg, trampoline);
  }

  lemma {:induction false} TooFar(cfg: Config, trampoline: nat)
    requires ThumbDebug(cfg) && trampoline <= FAR_BASE
    ensures !Reaches(cfg, [], 0, FAR_CALL.offset, trampoline)
  {
    ReachesIff(cfg, [], 0, FAR_CALL.offset, trampoline);
  }

  // ----- There are such methods -----

  /** Code of `p` zero bytes stands at address `p`. */
  function SampleConfig(): Config
  {
    Config(Thumb2, true, Zeros(8), (p: nat) => Zeros(p), (patch, at, word) => word)
  }

  function Sample(index: nat, size: nat, patches: seq<LinkerPatch>): Visited
  {
    Visited(MethodRef(1, index), CompiledMethod(size, 0, 0, 0, patches, 0, 0, 0), Tables(0, 0, 0))
  }

  lemma {:induction false} LimitRunExists()
    ensures LimitRun(SampleConfig(), [Sample(0, 6, [LinkerPatch(2, PatchCallRelative, 1, 9, 0)]),
                                      Sample(1, 8388608, []),
                                      Sample(2, 8388540, []), Sample(3, 8, []), Sample(9, 8, [])])
  {
    var cfg := SampleConfig();
    SampleSize(cfg, 0, 6, [LinkerPatch(2, PatchCallRelative, 1, 9, 0)]);
    SampleSize(cfg, 1, 8388608, []);
    SampleSize(cfg, 2, 8388540, []);
    SampleSize(cfg, 3, 8, []);
    SampleSize(cfg, 9, 8, []);
  }

  lemma {:induction false} FarRunExists()
    ensures FarRun(SampleConfig(), [Sample(0, 8388608, []), Sample(1, 8388608, []),
                                    Sample(2, 6, [LinkerPatch(2, PatchCallRelative, 1, 9, 0)])])
  {
    var cfg := SampleConfig();
    SampleSize(cfg, 0, 8388608, []);
    SampleSize(cfg, 1, 8388608, []);
    SampleSize(cfg, 2, 6, [LinkerPatch(2, PatchCallRelative, 1, 9, 0)]);
  }

  lemma {:induction false} SampleSize(cfg: Config, index: nat, size: nat, patches: seq<LinkerPatch>)
    requires cfg == SampleConfig()
    ensures cfg.Size(Sample(index, size, patches).m) == size && ThumbDebug(cfg)
  {
  }
}
