/** The Init and Write code passes agree: the Write pass meets every blob at the offset the
    Init pass recorded, although it keeps no deduplication map. */
module OatCodeAgreement {
  import opened Align
  import opened Bytes
  import opened CompiledMethods
  import opened OatCode

  // ----- What one visit and a whole run add -----

  function Start(cfg: Config, p: Placed): int
  {
    p.codeOffset - cfg.Delta()
  }

  lemma {:induction false} VisitGrows(cfg: Config, st: InitState, v: Visited)
    ensures var st' := InitVisit(cfg, st, v);
            && |st'.placed| == |st.placed| + 1 && st'.placed[..|st.placed|] == st.placed
            && st'.placed[|st.placed|].m == v.m && st'.placed[|st.placed|].ref == v.ref
            && st'.offset >= st.offset
            && (st'.patcher.thunks == st.patcher.thunks
                || st'.patcher.thunks == st.patcher.thunks + [cfg.AlignCode(st.offset)])
            && (!Shares(cfg, st, v) ==> st'.offset >= cfg.AlignCode(st.offset) + HEADER_SIZE)
  {
  }

  /** Every thunk reserved later lies at or behind the current offset. */
  predicate ThunksBehind(thunks: seq<nat>, from: nat, offset: nat)
  {
    forall i :: from <= i < |thunks| ==> thunks[i] >= offset
  }

  lemma {:induction false} RunGrows(cfg: Config, st: InitState, vs: seq<Visited>)
    ensures var st' := InitRun(cfg, st, vs);
            && |st'.placed| == |st.placed| + |vs| && st'.placed[..|st.placed|] == st.placed
            && st'.offset >= st.offset
            && st.patcher.thunks <= st'.patcher.thunks
            && ThunksBehind(st'.patcher.thunks, |st.patcher.thunks|, st.offset)
    decreases |vs|
  {
    if vs != [] {
      VisitGrows(cfg, st, vs[0]);
      RunGrows(cfg, InitVisit(cfg, st, vs[0]), vs[1..]);
      var mid, end := InitVisit(cfg, st, vs[0]), InitRun(cfg, st, vs);
      assert end.placed[..|st.placed|] == end.placed[..|mid.placed|][..|st.placed|];
    }
  }

  // ----- The invariant of the Init pass -----

  /** A first occurrence lies between the base and the current offset. */
  predicate Inside(cfg: Config, base: nat, st: InitState, p: Placed)
  {
    && base + HEADER_SIZE <= Start(cfg, p)
    && Start(cfg, p) + cfg.Size(p.m) <= st.offset
    && Start(cfg, p) % 4 == 0
  }

  ghost predicate InitInv(cfg: Config, base: nat, st: InitState)
  {
    && base <= st.offset
    && (forall i :: 0 <= i < |st.placed| && st.placed[i].first ==> Inside(cfg, base, st, st.placed[i]))
    && (forall i :: 0 <= i < |st.placed| && !cfg.debuggable ==>
          KeyOf(st.placed[i].m) in st.codeMap && st.codeMap[KeyOf(st.placed[i].m)] == st.placed[i].codeOffset)
    && (forall k :: k in st.codeMap ==> HasFirst(st.placed, k, st.codeMap[k]))
  }

  /** Some first occurrence has this key and this offset. */
  ghost predicate HasFirst(placed: seq<Placed>, k: Key, codeOffset: nat)
  {
    exists i :: 0 <= i < |placed| && placed[i].first && KeyOf(placed[i].m) == k && placed[i].codeOffset == codeOffset
  }

  lemma {:induction false} FourDivides(cfg: Config, offset: nat)
    ensures (cfg.AlignCode(offset) + HEADER_SIZE) % 4 == 0
  {
    RoundUpByFour(offset);
  }

  lemma {:induction false} VisitKeepsInv(cfg: Config, base: nat, st: InitState, v: Visited)
    requires InitInv(cfg, base, st)
    ensures InitInv(cfg, base, InitVisit(cfg, st, v))
  {
    VisitGrows(cfg, st, v);
    var st' := InitVisit(cfg, st, v);
    var last := st'.placed[|st.placed|];
    if !Shares(cfg, st, v) {
      FourDivides(cfg, ReserveSpace(cfg, st.patcher, st.methods, st.offset, v).1);
    }
    forall i | 0 <= i < |st'.placed| && st'.placed[i].first
      ensures Inside(cfg, base, st', st'.placed[i])
    {
      if i < |st.placed| {
        assert st'.placed[i] == st.placed[i];
        assert Inside(cfg, base, st, st.placed[i]);
      }
    }
    forall k | k in st'.codeMap
      ensures HasFirst(st'.placed, k, st'.codeMap[k])
    {
      if k == KeyOf(v.m) && last.first {
        assert !cfg.debuggable ==> st'.codeMap[k] == last.codeOffset;
        if !cfg.debuggable {
          assert HasFirst(st'.placed, k, st'.codeMap[k]);
        }
      }
      if k in st.codeMap && st'.codeMap[k] == st.codeMap[k] {
        assert HasFirst(st.placed, k, st.codeMap[k]);
        var i :| 0 <= i < |st.placed| && st.placed[i].first && KeyOf(st.placed[i].m) == k &&
          st.placed[i].codeOffset == st.codeMap[k];
        assert st'.placed[i] == st.placed[i];
      }
    }
    forall i | 0 <= i < |st'.placed| && !cfg.debuggable
      ensures KeyOf(st'.placed[i].m) in st'.codeMap && st'.codeMap[KeyOf(st'.placed[i].m)] == st'.placed[i].codeOffset
    {
      if i < |st.placed| {
        assert st'.placed[i] == st.placed[i];
      }
    }
  }

  // ----- Simulation -----

  /** The blob of `p` stands in the output where the Init pass put it. */
  predicate Landed(cfg: Config, base: nat, out: seq<byte>, p: Placed)
  {
    var from := Start(cfg, p) - HEADER_SIZE - base;
    && 0 <= from <= from + HEADER_SIZE + cfg.Size(p.m) <= |out|
    && out[from..from + HEADER_SIZE + cfg.Size(p.m)] == Blob(cfg, p, Start(cfg, p))
  }

  lemma {:induction false} LandedStays(cfg: Config, base: nat, out: seq<byte>, more: seq<byte>, p: Placed)
    requires Landed(cfg, base, out, p)
    ensures Landed(cfg, base, out + more, p)
  {
    var from := Start(cfg, p) - HEADER_SIZE - base;
    var to := from + HEADER_SIZE + cfg.Size(p.m);
    assert (out + more)[from..to] == out[from..to];
  }

  ghost predicate Sim(cfg: Config, base: nat, st: InitState, w: WriteState)
  {
    && w.offset == st.offset == base + |w.out|
    && w.thunksWritten == |st.patcher.thunks|
    && |w.fired| == |st.placed|
    && (forall i :: 0 <= i < |st.placed| ==> w.fired[i] == st.placed[i].first)
    && (forall i :: 0 <= i < |st.placed| && st.placed[i].first ==> Landed(cfg, base, w.out, st.placed[i]))
  }

  /** The Write pass test is wrong about a repeated method only in this case. */
  predicate Misfires(cfg: Config, st: InitState, v: Visited)
  {
    Shares(cfg, st, v) && st.codeMap[KeyOf(v.m)] >= st.offset
  }

  lemma {:induction false} ReserveCases(cfg: Config, p: Patcher, methods: map<MethodRef, nat>, offset: nat, v: Visited)
    ensures var r := ReserveSpace(cfg, p, methods, offset, v);
            || (r.0.thunks == p.thunks && r.1 == offset)
            || (cfg.HasThunks() && r.0.thunks == p.thunks + [cfg.AlignCode(offset)]
                && r.1 == cfg.AlignCode(cfg.AlignCode(offset) + |cfg.thunk|))
  {
  }

  /** Writing thunks repeats what reserving did, as long as no later thunk is taken for the next one. */
  lemma {:induction false} WriteThunksRepeats(cfg: Config, w: WriteState, before: seq<nat>, after: seq<nat>,
                                              thunks: seq<nat>)
    requires w.thunksWritten == |before| && after <= thunks
    requires after == before || (cfg.HasThunks() && after == before + [cfg.AlignCode(w.offset)])
    requires after == before && |thunks| > |before| ==> thunks[|before|] > cfg.AlignCode(w.offset)
    ensures var w' := WriteThunks(cfg, thunks, w);
            && w'.offset == (if after == before then w.offset else cfg.AlignCode(cfg.AlignCode(w.offset) + |cfg.thunk|))
            && w'.thunksWritten == |after|
            && w'.fired == w.fired
            && w.out <= w'.out && |w'.out| - |w.out| == w'.offset - w.offset
  {
    if after != before {
      assert thunks[|before|] == after[|before|];
    }
  }

  /** Emitting thunks reaches the offset that reserving them did. */
  lemma {:induction false} ThunksAgree(cfg: Config, st: InitState, v: Visited, w: WriteState, thunks: seq<nat>)
    requires !Shares(cfg, st, v)
    requires w.offset == st.offset && w.thunksWritten == |st.patcher.thunks|
    requires InitVisit(cfg, st, v).patcher.thunks <= thunks
    requires ThunksBehind(thunks, |InitVisit(cfg, st, v).patcher.thunks|, InitVisit(cfg, st, v).offset)
    ensures var w' := WriteThunks(cfg, thunks, w);
            && w'.offset == ReserveSpace(cfg, st.patcher, st.methods, st.offset, v).1
            && w'.thunksWritten == |InitVisit(cfg, st, v).patcher.thunks|
            && w'.fired == w.fired
            && w.out <= w'.out && |w'.out| - |w.out| == w'.offset - w.offset
  {
    VisitGrows(cfg, st, v);
    ReserveCases(cfg, st.patcher, st.methods, st.offset, v);
    var after := ReserveSpace(cfg, st.patcher, st.methods, st.offset, v).0.thunks;
    assert after == InitVisit(cfg, st, v).patcher.thunks;
    WriteThunksRepeats(cfg, w, st.patcher.thunks, after, thunks);
  }

  lemma {:induction false} EmitLands(cfg: Config, base: nat, w: WriteState, p: Placed)
    requires w.offset == base + |w.out| && w.offset + HEADER_SIZE == Start(cfg, p)
    ensures Landed(cfg, base, w.out + Blob(cfg, p, w.offset + HEADER_SIZE), p)
  {
    var blob := Blob(cfg, p, w.offset + HEADER_SIZE);
    assert (w.out + blob)[|w.out|..|w.out| + |blob|] == blob;
  }

  /** New code placed behind the thunks lands. */
  lemma {:induction false} PlaceLands(cfg: Config, base: nat, st: InitState, v: Visited, patcher: Patcher, offset: nat,
                                      w: WriteState)
    requires w.offset == offset == base + |w.out|
    ensures var st' := Place(cfg, st, v, patcher, offset);
            var p := st'.placed[|st.placed|];
            var w' := WriteBlob(cfg, w, p);
            && w'.fired == w.fired + [true]
            && w'.offset == st'.offset == base + |w'.out|
            && w'.thunksWritten == w.thunksWritten
            && w.out <= w'.out
            && Landed(cfg, base, w'.out, p)
  {
    EmitLands(cfg, base, Pad(cfg, w), Place(cfg, st, v, patcher, offset).placed[|st.placed|]);
  }

  /** A first occurrence fires and lands. */
  lemma {:induction false} FirstLands(cfg: Config, base: nat, st: InitState, w: WriteState, v: Visited,
                                      thunks: seq<nat>)
    requires w.offset == st.offset == base + |w.out| && w.thunksWritten == |st.patcher.thunks|
    requires !Shares(cfg, st, v)
    requires InitVisit(cfg, st, v).patcher.thunks <= thunks
    requires ThunksBehind(thunks, |InitVisit(cfg, st, v).patcher.thunks|, InitVisit(cfg, st, v).offset)
    ensures |InitVisit(cfg, st, v).placed| == |st.placed| + 1
    ensures var st' := InitVisit(cfg, st, v);
            var p := st'.placed[|st.placed|];
            var w' := WriteVisit(cfg, thunks, w, p);
            && p.first && Fires(w, p)
            && w'.fired == w.fired + [true]
            && w'.offset == st'.offset == base + |w'.out|
            && w'.thunksWritten == |st'.patcher.thunks|
            && w.out <= w'.out
            && Landed(cfg, base, w'.out, p)
  {
    VisitGrows(cfg, st, v);
    ThunksAgree(cfg, st, v, w, thunks);
    var reserved := ReserveSpace(cfg, st.patcher, st.methods, st.offset, v);
    PlaceLands(cfg, base, st, v, reserved.0, reserved.1, WriteThunks(cfg, thunks, w));
  }

  /** Adding one method to both sides keeps the simulation. */
  lemma {:induction false} SimExtends(cfg: Config, base: nat, st: InitState, w: WriteState, st': InitState,
                                      w': WriteState, p: Placed)
    requires Sim(cfg, base, st, w)
    requires st'.placed == st.placed + [p] && w'.fired == w.fired + [p.first] && w.out <= w'.out
    requires w'.offset == st'.offset == base + |w'.out| && w'.thunksWritten == |st'.patcher.thunks|
    requires p.first ==> Landed(cfg, base, w'.out, p)
    ensures Sim(cfg, base, st', w')
  {
    forall i | 0 <= i < |st'.placed| && st'.placed[i].first
      ensures Landed(cfg, base, w'.out, st'.placed[i])
    {
      if i < |st.placed| {
        assert w'.out == w.out + w'.out[|w.out|..];
        LandedStays(cfg, base, w.out, w'.out[|w.out|..], st.placed[i]);
      }
    }
  }

  lemma {:induction false} SimVisit(cfg: Config, base: nat, st: InitState, w: WriteState, v: Visited, thunks: seq<nat>)
    requires Sim(cfg, base, st, w)
    requires !Misfires(cfg, st, v)
    requires InitVisit(cfg, st, v).patcher.thunks <= thunks
    requires ThunksBehind(thunks, |InitVisit(cfg, st, v).patcher.thunks|, InitVisit(cfg, st, v).offset)
    ensures |InitVisit(cfg, st, v).placed| == |st.placed| + 1
    ensures var st' := InitVisit(cfg, st, v);
            Sim(cfg, base, st', WriteVisit(cfg, thunks, w, st'.placed[|st.placed|]))
  {
    VisitGrows(cfg, st, v);
    var st' := InitVisit(cfg, st, v);
    var p := st'.placed[|st.placed|];
    if !Shares(cfg, st, v) {
      FirstLands(cfg, base, st, w, v, thunks);
    }
    assert st'.placed == st.placed + [p];
    SimExtends(cfg, base, st, w, st', WriteVisit(cfg, thunks, w, p), p);
  }

  // ----- Whole runs -----

  /** No repeated method is met while the Write pass test would take it for a new one. */
  predicate NoMisfire(cfg: Config, st: InitState, vs: seq<Visited>)
    decreases |vs|
  {
    vs != [] ==> !Misfires(cfg, st, vs[0]) && NoMisfire(cfg, InitVisit(cfg, st, vs[0]), vs[1..])
  }

  lemma {:induction false} SimRun(cfg: Config, base: nat, st: InitState, w: WriteState, vs: seq<Visited>,
                                  thunks: seq<nat>)
    requires Sim(cfg, base, st, w)
    requires NoMisfire(cfg, st, vs)
    requires InitRun(cfg, st, vs).patcher.thunks <= thunks
    requires ThunksBehind(thunks, |InitRun(cfg, st, vs).patcher.thunks|, InitRun(cfg, st, vs).offset)
    ensures |st.placed| <= |InitRun(cfg, st, vs).placed|
    ensures Sim(cfg, base, InitRun(cfg, st, vs), WriteRun(cfg, thunks, w, InitRun(cfg, st, vs).placed[|st.placed|..]))
    decreases |vs|
  {
    RunGrows(cfg, st, vs);
    var end := InitRun(cfg, st, vs);
    if vs == [] {
      assert end.placed[|st.placed|..] == [];
    } else {
      var st' := InitVisit(cfg, st, vs[0]);
      RunGrows(cfg, st', vs[1..]);
      LaterThunks(cfg, st', vs[1..], thunks);
      SimVisit(cfg, base, st, w, vs[0], thunks);
      var rest := end.placed[|st.placed|..];
      assert rest[0] == end.placed[..|st'.placed|][|st.placed|] == st'.placed[|st.placed|];
      assert rest[1..] == end.placed[|st'.placed|..];
      SimRun(cfg, base, st', WriteVisit(cfg, thunks, w, rest[0]), vs[1..], thunks);
    }
  }

  /** Thunks behind the end of a run lie behind its beginning too. */
  lemma {:induction false} LaterThunks(cfg: Config, st: InitState, vs: seq<Visited>, thunks: seq<nat>)
    requires InitRun(cfg, st, vs).patcher.thunks <= thunks
    requires ThunksBehind(thunks, |InitRun(cfg, st, vs).patcher.thunks|, InitRun(cfg, st, vs).offset)
    ensures st.patcher.thunks <= thunks
    ensures ThunksBehind(thunks, |st.patcher.thunks|, st.offset)
  {
    RunGrows(cfg, st, vs);
    var end := InitRun(cfg, st, vs);
    forall i | |st.patcher.thunks| <= i < |thunks|
      ensures thunks[i] >= st.offset
    {
      if i < |end.patcher.thunks| { assert thunks[i] == end.patcher.thunks[i]; }
    }
  }

  lemma {:induction false} EndGrows(cfg: Config, st: InitState)
    ensures InitEnd(cfg, st).placed == st.placed
    ensures st.patcher.thunks <= InitEnd(cfg, st).patcher.thunks
    ensures ThunksBehind(InitEnd(cfg, st).patcher.thunks, |st.patcher.thunks|, st.offset)
  {
  }
}
