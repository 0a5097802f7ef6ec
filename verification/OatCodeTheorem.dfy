/** The main results about the code passes, stated on the list of methods alone. */
module OatCodeTheorem {
  import opened Align
  import opened Bytes
  import opened CompiledMethods
  import opened OatCode
  import opened OatCodeAgreement

  /** Method `i` has the code, tables and patches of an earlier one, and code is being shared. */
  ghost predicate Repeat(cfg: Config, vs: seq<Visited>, i: nat)
    requires i < |vs|
  {
    !cfg.debuggable && exists j :: 0 <= j < i && KeyOf(vs[j].m) == KeyOf(vs[i].m)
  }

  /** The Init pass just before method `i`. */
  function At(cfg: Config, base: nat, vs: seq<Visited>, i: nat): InitState
    requires i <= |vs|
  {
    InitRun(cfg, InitStart(base), vs[..i])
  }

  lemma {:induction false} RunSnoc(cfg: Config, st: InitState, vs: seq<Visited>, v: Visited)
    ensures InitRun(cfg, st, vs + [v]) == InitVisit(cfg, InitRun(cfg, st, vs), v)
    decreases |vs|
  {
    if vs == [] {
      assert (vs + [v])[1..] == [];
    } else {
      assert (vs + [v])[1..] == vs[1..] + [v];
      RunSnoc(cfg, InitVisit(cfg, st, vs[0]), vs[1..], v);
    }
  }

  lemma {:induction false} AtStep(cfg: Config, base: nat, vs: seq<Visited>, i: nat)
    requires i < |vs|
    ensures At(cfg, base, vs, i + 1) == InitVisit(cfg, At(cfg, base, vs, i), vs[i])
  {
    assert vs[..i + 1] == vs[..i] + [vs[i]];
    RunSnoc(cfg, InitStart(base), vs[..i], vs[i]);
  }

  predicate Tracks(st: InitState, vs: seq<Visited>, i: nat)
    requires i <= |vs|
  {
    && |st.placed| == i
    && forall k :: 0 <= k < i ==> st.placed[k].m == vs[k].m && st.placed[k].ref == vs[k].ref
  }

  lemma {:induction false} TracksStep(st: InitState, st': InitState, vs: seq<Visited>, i: nat)
    requires i < |vs| && Tracks(st, vs, i)
    requires |st'.placed| == i + 1 && st'.placed[..i] == st.placed
    requires st'.placed[i].m == vs[i].m && st'.placed[i].ref == vs[i].ref
    ensures Tracks(st', vs, i + 1)
  {
    forall k | 0 <= k < i
      ensures st'.placed[k].m == vs[k].m && st'.placed[k].ref == vs[k].ref
    {
      assert st'.placed[k] == st'.placed[..i][k] == st.placed[k];
    }
  }

  lemma {:induction false} AtTracks(cfg: Config, base: nat, vs: seq<Visited>, i: nat)
    requires i <= |vs|
    ensures Tracks(At(cfg, base, vs, i), vs, i)
  {
    if i > 0 {
      AtTracks(cfg, base, vs, i - 1);
      AtStep(cfg, base, vs, i - 1);
      VisitGrows(cfg, At(cfg, base, vs, i - 1), vs[i - 1]);
      TracksStep(At(cfg, base, vs, i - 1), At(cfg, base, vs, i), vs, i - 1);
    }
  }

  lemma {:induction false} AtInv(cfg: Config, base: nat, vs: seq<Visited>, i: nat)
    requires i <= |vs|
    ensures InitInv(cfg, base, At(cfg, base, vs, i))
    ensures Tracks(At(cfg, base, vs, i), vs, i)
  {
    AtTracks(cfg, base, vs, i);
    if i > 0 {
      AtInv(cfg, base, vs, i - 1);
      VisitKeepsInv(cfg, base, At(cfg, base, vs, i - 1), vs[i - 1]);
      AtStep(cfg, base, vs, i - 1);
    }
  }

  lemma {:induction false} StepGrows(cfg: Config, base: nat, vs: seq<Visited>, i: nat)
    requires i < |vs|
    ensures |At(cfg, base, vs, i).placed| == i && |At(cfg, base, vs, i + 1).placed| == i + 1
    ensures At(cfg, base, vs, i + 1).placed[..i] == At(cfg, base, vs, i).placed
    ensures At(cfg, base, vs, i).offset <= At(cfg, base, vs, i + 1).offset
  {
    AtInv(cfg, base, vs, i);
    AtStep(cfg, base, vs, i);
    VisitGrows(cfg, At(cfg, base, vs, i), vs[i]);
  }

  /** Slots once filled are not touched again. */
  lemma {:induction false} AtPrefix(cfg: Config, base: nat, vs: seq<Visited>, i: nat, k: nat)
    requires i <= k <= |vs|
    ensures |At(cfg, base, vs, k).placed| == k
    ensures At(cfg, base, vs, k).placed[..i] == At(cfg, base, vs, i).placed
    ensures At(cfg, base, vs, i).offset <= At(cfg, base, vs, k).offset
    decreases k
  {
    if i < k {
      AtPrefix(cfg, base, vs, i, k - 1);
      StepGrows(cfg, base, vs, k - 1);
      var b := At(cfg, base, vs, k).placed;
      assert b[..i] == b[..k - 1][..i];
    } else {
      AtInv(cfg, base, vs, k);
    }
  }

  /** The deduplication map knows exactly the keys met so far. */
  lemma {:induction false} SharesIsRepeat(cfg: Config, base: nat, vs: seq<Visited>, i: nat)
    requires i < |vs|
    ensures Shares(cfg, At(cfg, base, vs, i), vs[i]) <==> Repeat(cfg, vs, i)
  {
    AtInv(cfg, base, vs, i);
    var st := At(cfg, base, vs, i);
    if Shares(cfg, st, vs[i]) {
      assert HasFirst(st.placed, KeyOf(vs[i].m), st.codeMap[KeyOf(vs[i].m)]);
      var j :| 0 <= j < |st.placed| && KeyOf(st.placed[j].m) == KeyOf(vs[i].m);
      assert KeyOf(vs[j].m) == KeyOf(vs[i].m);
    }
    if Repeat(cfg, vs, i) {
      var j :| 0 <= j < i && KeyOf(vs[j].m) == KeyOf(vs[i].m);
      assert st.placed[j].m == vs[j].m;
    }
  }

  // ----- When the Write pass test is right -----

  /** A method whose code is no longer than the PC delta comes again before any new code. */
  ghost predicate TinyRepeat(cfg: Config, vs: seq<Visited>, i: nat)
    requires i < |vs|
  {
    && Repeat(cfg, vs, i)
    && cfg.Size(vs[i].m) <= cfg.Delta()
    && exists j ::
         0 <= j < i && KeyOf(vs[j].m) == KeyOf(vs[i].m) && !Repeat(cfg, vs, j) && OnlyRepeats(cfg, vs, j + 1, i)
  }

  ghost predicate OnlyRepeats(cfg: Config, vs: seq<Visited>, j: nat, i: nat)
    requires i <= |vs|
  {
    forall k :: j <= k < i ==> Repeat(cfg, vs, k)
  }

  /** Code is never empty. */
  predicate NonEmptyCode(cfg: Config, vs: seq<Visited>)
  {
    forall i :: 0 <= i < |vs| ==> cfg.Size(vs[i].m) > 0
  }

  /** The offset moves exactly when new code is met. */
  lemma {:induction false} OffsetMoves(cfg: Config, base: nat, vs: seq<Visited>, j: nat, i: nat)
    requires j <= i <= |vs|
    ensures OnlyRepeats(cfg, vs, j, i) ==> At(cfg, base, vs, i).offset == At(cfg, base, vs, j).offset
    ensures !OnlyRepeats(cfg, vs, j, i) ==> At(cfg, base, vs, i).offset >= At(cfg, base, vs, j).offset + HEADER_SIZE
  {
    if j < i {
      OffsetMoves(cfg, base, vs, j, i - 1);
      AtStep(cfg, base, vs, i - 1);
      SharesIsRepeat(cfg, base, vs, i - 1);
      VisitGrows(cfg, At(cfg, base, vs, i - 1), vs[i - 1]);
      assert OnlyRepeats(cfg, vs, j, i) <==> OnlyRepeats(cfg, vs, j, i - 1) && Repeat(cfg, vs, i - 1);
    }
  }

  /** Behind a first occurrence the offset stands at the end of its code. */
  lemma {:induction false} FirstEnds(cfg: Config, base: nat, vs: seq<Visited>, j: nat, i: nat)
    requires j < i <= |vs| && !Repeat(cfg, vs, j) && !cfg.debuggable
    ensures KeyOf(vs[j].m) in At(cfg, base, vs, i).codeMap
    ensures At(cfg, base, vs, i).codeMap[KeyOf(vs[j].m)] - cfg.Delta() + cfg.Size(vs[j].m) ==
            At(cfg, base, vs, j + 1).offset
  {
    AtStep(cfg, base, vs, j);
    SharesIsRepeat(cfg, base, vs, j);
    AtInv(cfg, base, vs, i);
    AtInv(cfg, base, vs, j);
    AtPrefix(cfg, base, vs, j + 1, i);
    var st := At(cfg, base, vs, i);
    assert st.placed[j] == st.placed[..j + 1][j];
  }

  lemma {:induction false} FirstOccurrence(cfg: Config, vs: seq<Visited>, i: nat) returns (j: nat)
    requires i < |vs|
    ensures j <= i && KeyOf(vs[j].m) == KeyOf(vs[i].m) && !Repeat(cfg, vs, j)
    ensures if Repeat(cfg, vs, i) then j < i else j == i
  {
    j := i;
    if Repeat(cfg, vs, i) {
      var j' :| 0 <= j' < i && KeyOf(vs[j'].m) == KeyOf(vs[i].m);
      j := FirstOccurrence(cfg, vs, j');
    }
  }

  lemma {:induction false} MisfireIsTinyRepeat(cfg: Config, base: nat, vs: seq<Visited>, i: nat)
    requires i < |vs| && NonEmptyCode(cfg, vs)
    ensures Misfires(cfg, At(cfg, base, vs, i), vs[i]) <==> TinyRepeat(cfg, vs, i)
  {
    SharesIsRepeat(cfg, base, vs, i);
    if Repeat(cfg, vs, i) {
      forall j | 0 <= j < i && KeyOf(vs[j].m) == KeyOf(vs[i].m) && !Repeat(cfg, vs, j)
        ensures Misfires(cfg, At(cfg, base, vs, i), vs[i]) <==>
                cfg.Size(vs[i].m) <= cfg.Delta() && OnlyRepeats(cfg, vs, j + 1, i)
      {
        FirstEnds(cfg, base, vs, j, i);
        OffsetMoves(cfg, base, vs, j + 1, i);
        assert cfg.Size(vs[j].m) == cfg.Size(vs[i].m) > 0;
      }
      var j := FirstOccurrence(cfg, vs, i);
    }
  }

  lemma {:induction false} NoMisfireFrom(cfg: Config, base: nat, vs: seq<Visited>, i: nat)
    requires i <= |vs|
    ensures NoMisfire(cfg, At(cfg, base, vs, i), vs[i..]) <==>
            forall k :: i <= k < |vs| ==> !Misfires(cfg, At(cfg, base, vs, k), vs[k])
    decreases |vs| - i
  {
    if i < |vs| {
      AtStep(cfg, base, vs, i);
      NoMisfireFrom(cfg, base, vs, i + 1);
      assert vs[i..][1..] == vs[i + 1..];
    }
  }

  ghost predicate NoTinyRepeat(cfg: Config, vs: seq<Visited>)
  {
    forall i :: 0 <= i < |vs| ==> !TinyRepeat(cfg, vs, i)
  }

  lemma {:induction false} NoTinyNoMisfire(cfg: Config, base: nat, vs: seq<Visited>)
    requires NonEmptyCode(cfg, vs) && NoTinyRepeat(cfg, vs)
    ensures NoMisfire(cfg, InitStart(base), vs)
  {
    forall k | 0 <= k < |vs|
      ensures !Misfires(cfg, At(cfg, base, vs, k), vs[k])
    {
      MisfireIsTinyRepeat(cfg, base, vs, k);
    }
    NoMisfireFrom(cfg, base, vs, 0);
    assert vs[..0] == [] && vs[0..] == vs;
  }

  /** The two passes agree on a list of methods: the Write pass fires exactly at first occurrences,
      ends at the offset where the Init pass ended, and every first blob stands where it was placed. */
  ghost predicate PassesAgree(cfg: Config, base: nat, vs: seq<Visited>)
  {
    var end, w := InitPass(cfg, base, vs), WritePass(cfg, base, InitPass(cfg, base, vs));
    && FiresAtFirsts(cfg, vs, w)
    && w.offset == end.offset == base + |w.out|
    && w.thunksWritten == |end.patcher.thunks|
    && |end.placed| == |vs|
    && forall i :: 0 <= i < |vs| && !Repeat(cfg, vs, i) ==> Landed(cfg, base, w.out, end.placed[i])
  }

  ghost predicate FiresAtFirsts(cfg: Config, vs: seq<Visited>, w: WriteState)
  {
    && |w.fired| == |vs|
    && forall i :: 0 <= i < |vs| ==> (w.fired[i] <==> !Repeat(cfg, vs, i))
  }

  lemma {:induction false} FirstIsNotRepeat(cfg: Config, base: nat, vs: seq<Visited>, i: nat)
    requires i < |vs|
    ensures |InitPass(cfg, base, vs).placed| == |vs|
    ensures InitPass(cfg, base, vs).placed[i].first <==> !Repeat(cfg, vs, i)
  {
    assert vs[..|vs|] == vs;
    AtPrefix(cfg, base, vs, i + 1, |vs|);
    AtStep(cfg, base, vs, i);
    SharesIsRepeat(cfg, base, vs, i);
    var end := At(cfg, base, vs, |vs|);
    assert end.placed[i] == end.placed[..i + 1][i];
    AtInv(cfg, base, vs, i);
  }

  lemma {:induction false} LastThunkAgrees(cfg: Config, base: nat, st: InitState, w: WriteState)
    requires Sim(cfg, base, st, w)
    ensures var w' := WriteThunks(cfg, InitEnd(cfg, st).patcher.thunks, w);
            && w'.offset == InitEnd(cfg, st).offset == base + |w'.out|
            && w'.thunksWritten == |InitEnd(cfg, st).patcher.thunks|
            && w'.fired == w.fired && w.out <= w'.out
  {
  }

  lemma {:induction false} TheoremPassesAgree(cfg: Config, base: nat, vs: seq<Visited>)
    requires NonEmptyCode(cfg, vs) && NoTinyRepeat(cfg, vs)
    ensures PassesAgree(cfg, base, vs)
  {
    var st, end := InitRun(cfg, InitStart(base), vs), InitPass(cfg, base, vs);
    var w := WriteRun(cfg, end.patcher.thunks, WriteStart(base), end.placed);
    NoTinyNoMisfire(cfg, base, vs);
    EndGrows(cfg, st);
    SimRun(cfg, base, InitStart(base), WriteStart(base), vs, end.patcher.thunks);
    assert st.placed[0..] == st.placed;
    LastThunkAgrees(cfg, base, st, w);
    var w' := WritePass(cfg, base, end);
    if vs != [] { FirstIsNotRepeat(cfg, base, vs, 0); }
    RunGrows(cfg, InitStart(base), vs);
    forall i | 0 <= i < |vs|
      ensures w'.fired[i] <==> !Repeat(cfg, vs, i)
      ensures !Repeat(cfg, vs, i) ==> Landed(cfg, base, w'.out, end.placed[i])
    {
      FirstIsNotRepeat(cfg, base, vs, i);
      if !Repeat(cfg, vs, i) {
        assert w'.out == w.out + w'.out[|w.out|..];
        LandedStays(cfg, base, w.out, w'.out[|w.out|..], end.placed[i]);
      }
    }
  }

  lemma {:induction false} FiredStays(cfg: Config, thunks: seq<nat>, w: WriteState, ps: seq<Placed>)
    ensures w.fired <= WriteRun(cfg, thunks, w, ps).fired
    decreases |ps|
  {
    if ps != [] {
      WriteVisitFired(cfg, thunks, w, ps[0]);
      FiredStays(cfg, thunks, WriteVisit(cfg, thunks, w, ps[0]), ps[1..]);
    }
  }

  lemma {:induction false} WriteVisitFired(cfg: Config, thunks: seq<nat>, w: WriteState, p: Placed)
    ensures WriteVisit(cfg, thunks, w, p).fired == w.fired + [Fires(w, p)]
  {
  }

  lemma {:induction false} WriteRunSplit(cfg: Config, thunks: seq<nat>, w: WriteState, ps: seq<Placed>, qs: seq<Placed>)
    ensures WriteRun(cfg, thunks, w, ps + qs) == WriteRun(cfg, thunks, WriteRun(cfg, thunks, w, ps), qs)
    decreases |ps|
  {
    if ps == [] {
      assert ps + qs == qs;
    } else {
      assert (ps + qs)[1..] == ps[1..] + qs;
      WriteRunSplit(cfg, thunks, WriteVisit(cfg, thunks, w, ps[0]), ps[1..], qs);
    }
  }

  /** The Write pass as far as method `i`, as long as nothing has misfired. */
  lemma {:induction false} SimUpTo(cfg: Config, base: nat, vs: seq<Visited>, i: nat)
    requires i <= |vs|
    requires forall k :: 0 <= k < i ==> !Misfires(cfg, At(cfg, base, vs, k), vs[k])
    ensures |InitPass(cfg, base, vs).placed| == |vs|
    ensures var end := InitPass(cfg, base, vs);
            Sim(cfg, base, At(cfg, base, vs, i), WriteRun(cfg, end.patcher.thunks, WriteStart(base), end.placed[..i]))
  {
    var end := InitPass(cfg, base, vs);
    AtPrefix(cfg, base, vs, i, |vs|);
    assert vs[..|vs|] == vs;
    EndGrows(cfg, At(cfg, base, vs, |vs|));
    RunFrom(cfg, base, vs, i);
    LaterThunks(cfg, At(cfg, base, vs, i), vs[i..], end.patcher.thunks);
    forall k | 0 <= k < i
      ensures At(cfg, base, vs[..i], k) == At(cfg, base, vs, k) && vs[..i][k] == vs[k]
    {
      assert vs[..i][..k] == vs[..k];
    }
    NoMisfireFrom(cfg, base, vs[..i], 0);
    assert vs[..i][..0] == [] && vs[..i][0..] == vs[..i];
    SimRun(cfg, base, InitStart(base), WriteStart(base), vs[..i], end.patcher.thunks);
    assert At(cfg, base, vs, i).placed[0..] == end.placed[..i];
  }

  lemma {:induction false} RunFrom(cfg: Config, base: nat, vs: seq<Visited>, i: nat)
    requires i <= |vs|
    ensures InitRun(cfg, At(cfg, base, vs, i), vs[i..]) == InitRun(cfg, InitStart(base), vs)
    decreases |vs| - i
  {
    if i == |vs| {
      assert vs[..i] == vs;
    } else {
      RunFrom(cfg, base, vs, i + 1);
      AtStep(cfg, base, vs, i);
      assert vs[i..][1..] == vs[i + 1..];
    }
  }

  /** The flag of method `i` is its test against the offset reached before it. */
  lemma {:induction false} FiredAt(cfg: Config, thunks: seq<nat>, w: WriteState, ps: seq<Placed>, i: nat)
    requires i < |ps|
    ensures var wi, w' := WriteRun(cfg, thunks, w, ps[..i]), WriteRun(cfg, thunks, w, ps);
            |wi.fired| < |w'.fired| && w'.fired[|wi.fired|] == Fires(wi, ps[i])
  {
    var wi := WriteRun(cfg, thunks, w, ps[..i]);
    WriteVisitFired(cfg, thunks, wi, ps[i]);
    assert ps == ps[..i] + ps[i..];
    WriteRunSplit(cfg, thunks, w, ps[..i], ps[i..]);
    FiredStays(cfg, thunks, WriteVisit(cfg, thunks, wi, ps[i]), ps[i..][1..]);
  }

  /** A shared method's slot holds the offset of its first occurrence. */
  lemma {:induction false} SharedSlot(cfg: Config, base: nat, vs: seq<Visited>, i: nat)
    requires i < |vs| && Shares(cfg, At(cfg, base, vs, i), vs[i])
    ensures |InitPass(cfg, base, vs).placed| == |vs|
    ensures InitPass(cfg, base, vs).placed[i].codeOffset == At(cfg, base, vs, i).codeMap[KeyOf(vs[i].m)]
  {
    AtPrefix(cfg, base, vs, i + 1, |vs|);
    AtStep(cfg, base, vs, i);
    AtInv(cfg, base, vs, i);
    assert vs[..|vs|] == vs;
    var placed := InitPass(cfg, base, vs).placed;
    assert placed[i] == placed[..i + 1][i];
  }

  /** The first misfire makes the Write pass write a repeated method once more. */
  lemma {:induction false} MisfireShows(cfg: Config, base: nat, vs: seq<Visited>, i: nat)
    requires i < |vs| && Misfires(cfg, At(cfg, base, vs, i), vs[i])
    requires forall k :: 0 <= k < i ==> !Misfires(cfg, At(cfg, base, vs, k), vs[k])
    ensures Repeat(cfg, vs, i)
    ensures var w := WritePass(cfg, base, InitPass(cfg, base, vs)); |w.fired| > i && w.fired[i]
  {
    SharesIsRepeat(cfg, base, vs, i);
    SimUpTo(cfg, base, vs, i);
    SharedSlot(cfg, base, vs, i);
    AtInv(cfg, base, vs, i);
    var end := InitPass(cfg, base, vs);
    FiredAt(cfg, end.patcher.thunks, WriteStart(base), end.placed, i);
    ThunksKeepFired(cfg, end.patcher.thunks, WriteRun(cfg, end.patcher.thunks, WriteStart(base), end.placed));
  }

  lemma {:induction false} ThunksKeepFired(cfg: Config, thunks: seq<nat>, w: WriteState)
    ensures WriteThunks(cfg, thunks, w).fired == w.fired
  {
  }

  lemma {:induction false} FirstMisfire(cfg: Config, base: nat, vs: seq<Visited>, i: nat) returns (k: nat)
    requires i < |vs| && Misfires(cfg, At(cfg, base, vs, i), vs[i])
    ensures k <= i && Misfires(cfg, At(cfg, base, vs, k), vs[k])
    ensures forall j :: 0 <= j < k ==> !Misfires(cfg, At(cfg, base, vs, j), vs[j])
  {
    k := i;
    if exists j :: 0 <= j < i && Misfires(cfg, At(cfg, base, vs, j), vs[j]) {
      var j :| 0 <= j < i && Misfires(cfg, At(cfg, base, vs, j), vs[j]);
      k := FirstMisfire(cfg, base, vs, j);
    }
  }

  /** The offset comparison in the Write pass is an exact substitute for a deduplication map if and
      only if no method with code as short as the Thumb bit is repeated before new code appears. */
  lemma {:induction false} TheoremAgreeIff(cfg: Config, base: nat, vs: seq<Visited>)
    requires NonEmptyCode(cfg, vs)
    ensures PassesAgree(cfg, base, vs) <==> NoTinyRepeat(cfg, vs)
  {
    if NoTinyRepeat(cfg, vs) {
      TheoremPassesAgree(cfg, base, vs);
    } else {
      var i :| 0 <= i < |vs| && TinyRepeat(cfg, vs, i);
      MisfireIsTinyRepeat(cfg, base, vs, i);
      var k := FirstMisfire(cfg, base, vs, i);
      MisfireShows(cfg, base, vs, k);
    }
  }

  /** Longer code than the Thumb bit is always enough. */
  lemma {:induction false} LongCodeAgrees(cfg: Config, base: nat, vs: seq<Visited>)
    requires forall i :: 0 <= i < |vs| ==> cfg.Size(vs[i].m) > cfg.Delta()
    ensures PassesAgree(cfg, base, vs)
  {
    assert NonEmptyCode(cfg, vs);
    assert NoTinyRepeat(cfg, vs);
    TheoremPassesAgree(cfg, base, vs);
  }

  function TinyConfig(): Config
  {
    Config(Thumb2, false, [], p => [0], (p, at, was) => 0)
  }

  function TinyMethods(): seq<Visited>
  {
    var m := CompiledMethod(8, 0, 0, 0, [], 0, 0, 0);
    [Visited(MethodRef(1, 0), m, Tables(0, 0, 0)), Visited(MethodRef(1, 1), m, Tables(0, 0, 0))]
  }

  /** Two methods made of the same single Thumb byte: the second one is written again. */
  lemma {:induction false} TinyThumbExample(base: nat)
    ensures NonEmptyCode(TinyConfig(), TinyMethods())
    ensures !PassesAgree(TinyConfig(), base, TinyMethods())
  {
    var cfg, vs := TinyConfig(), TinyMethods();
    assert KeyOf(vs[0].m) == KeyOf(vs[1].m);
    assert !Repeat(cfg, vs, 0);
    assert OnlyRepeats(cfg, vs, 1, 1);
    assert TinyRepeat(cfg, vs, 1);
    TheoremAgreeIff(cfg, base, vs);
  }
}
