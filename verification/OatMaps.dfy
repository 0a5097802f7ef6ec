/** The map passes: GC maps, mapping tables and vmap tables are placed once per distinct table and
    found again by a test on offsets alone. Tables of one kind, one entry per compiled method. */
module OatMaps {
  import opened Bytes
  import opened CompiledMethods

  type Memory = Ptr -> seq<byte>

  /** The table behind an address; none for null. */
  function Table(mem: Memory, p: Ptr): seq<byte>
  {
    if p == 0 then [] else mem(p)
  }

  // ----- Init pass -----

  datatype MapState = MapState(offset: nat, dedupe: map<Ptr, nat>, offsets: seq<nat>)

  /** An empty table keeps offset 0. */
  function InitVisit(mem: Memory, st: MapState, p: Ptr): MapState
  {
    if Table(mem, p) == [] then st.(offsets := st.offsets + [0])
    else if p in st.dedupe then st.(offsets := st.offsets + [st.dedupe[p]])
    else MapState(st.offset + |Table(mem, p)|, st.dedupe[p := st.offset], st.offsets + [st.offset])
  }

  function InitRun(mem: Memory, base: nat, ps: seq<Ptr>): MapState
  {
    if ps == [] then MapState(base, map[], [])
    else InitVisit(mem, InitRun(mem, base, ps[..|ps| - 1]), ps[|ps| - 1])
  }

  // ----- Write pass -----

  datatype MapWriter = MapWriter(offset: nat, out: seq<byte>, written: seq<bool>)

  function WriteVisit(mem: Memory, w: MapWriter, p: Ptr, offset: nat): MapWriter
  {
    if Table(mem, p) != [] && offset == w.offset then
      MapWriter(w.offset + |Table(mem, p)|, w.out + Table(mem, p), w.written + [true])
    else w.(written := w.written + [false])
  }

  function WriteRun(mem: Memory, base: nat, ps: seq<Ptr>, offsets: seq<nat>): MapWriter
    requires |ps| == |offsets|
  {
    if ps == [] then MapWriter(base, [], [])
    else
      var n := |ps| - 1;
      WriteVisit(mem, WriteRun(mem, base, ps[..n], offsets[..n]), ps[n], offsets[n])
  }

  // ----- Agreement -----

  /** Table `i` is not empty and has not occurred before. */
  ghost predicate FirstTable(mem: Memory, ps: seq<Ptr>, i: nat)
    requires i < |ps|
  {
    Table(mem, ps[i]) != [] && ps[i] !in ps[..i]
  }

  predicate Holds(mem: Memory, base: nat, out: seq<byte>, p: Ptr, offset: nat)
  {
    base <= offset && offset + |Table(mem, p)| <= base + |out| &&
      out[offset - base..offset - base + |Table(mem, p)|] == Table(mem, p)
  }

  /** The deduplication map holds the non-empty tables seen so far, each standing in the output. */
  ghost predicate Known(mem: Memory, base: nat, ps: seq<Ptr>, dedupe: map<Ptr, nat>, out: seq<byte>)
  {
    && (forall p :: p in dedupe <==> p in ps && Table(mem, p) != [])
    && (forall p :: p in dedupe ==> Holds(mem, base, out, p, dedupe[p]))
  }

  ghost predicate WrittenFirsts(mem: Memory, ps: seq<Ptr>, written: seq<bool>)
  {
    && |written| == |ps|
    && forall i {:trigger written[i]} :: 0 <= i < |ps| ==> (written[i] <==> FirstTable(mem, ps, i))
  }

  predicate Recorded(mem: Memory, ps: seq<Ptr>, dedupe: map<Ptr, nat>, offsets: seq<nat>)
  {
    && |offsets| == |ps|
    && forall i :: 0 <= i < |ps| ==>
      if Table(mem, ps[i]) == [] then offsets[i] == 0 else ps[i] in dedupe && offsets[i] == dedupe[ps[i]]
  }

  /** What the Init pass has recorded after the tables `ps`, and what a Write pass over them has put out. */
  ghost predicate Agree(mem: Memory, base: nat, ps: seq<Ptr>, st: MapState, w: MapWriter)
  {
    && w.offset == st.offset == base + |w.out|
    && Known(mem, base, ps, st.dedupe, w.out)
    && WrittenFirsts(mem, ps, w.written)
    && Recorded(mem, ps, st.dedupe, st.offsets)
  }

  lemma {:induction false} HoldsStays(mem: Memory, base: nat, out: seq<byte>, more: seq<byte>, p: Ptr, offset: nat)
    requires Holds(mem, base, out, p, offset)
    ensures Holds(mem, base, out + more, p, offset)
  {
    var from, to := offset - base, offset - base + |Table(mem, p)|;
    assert (out + more)[from..to] == out[from..to];
  }

  lemma {:induction false} WrittenSnoc(mem: Memory, ps: seq<Ptr>, written: seq<bool>, p: Ptr)
    requires WrittenFirsts(mem, ps, written)
    ensures WrittenFirsts(mem, ps + [p], written + [Table(mem, p) != [] && p !in ps])
  {
    var qs := ps + [p];
    assert forall i :: 0 <= i < |ps| ==> qs[..i] == ps[..i] && qs[i] == ps[i];
    assert qs[..|ps|] == ps;
  }

  /** A new table is appended; the others stay where they are. */
  lemma {:induction false} NewTable(mem: Memory, base: nat, ps: seq<Ptr>, dedupe: map<Ptr, nat>, out: seq<byte>, p: Ptr)
    requires Known(mem, base, ps, dedupe, out) && Table(mem, p) != []
    requires p !in dedupe
    ensures Known(mem, base, ps + [p], dedupe[p := base + |out|], out + Table(mem, p))
  {
    var table := Table(mem, p);
    assert (out + table)[|out|..|out| + |table|] == table;
    forall q | q in dedupe
      ensures Holds(mem, base, out + table, q, dedupe[q])
    {
      HoldsStays(mem, base, out, table, q, dedupe[q]);
    }
  }

  lemma {:induction false} KnownSnoc(mem: Memory, base: nat, ps: seq<Ptr>, dedupe: map<Ptr, nat>, out: seq<byte>,
                                     p: Ptr)
    requires Known(mem, base, ps, dedupe, out) && (Table(mem, p) == [] || p in dedupe)
    ensures Known(mem, base, ps + [p], dedupe, out)
  {
  }

  lemma {:induction false} RecordedSnoc(mem: Memory, ps: seq<Ptr>, dedupe: map<Ptr, nat>, offsets: seq<nat>, p: Ptr,
                                        offset: nat)
    requires Recorded(mem, ps, dedupe, offsets)
    requires if Table(mem, p) == [] then offset == 0 else p in dedupe ==> offset == dedupe[p]
    ensures Recorded(mem, ps + [p], if Table(mem, p) == [] then dedupe else dedupe[p := offset], offsets + [offset])
  {
  }

  /** What the Write pass does with a table that the Init pass saw as new, repeated or empty. */
  lemma {:induction false} WriteCases(mem: Memory, base: nat, ps: seq<Ptr>, st: MapState, w: MapWriter, p: Ptr)
    requires Agree(mem, base, ps, st, w)
    ensures var st' := InitVisit(mem, st, p);
            var new' := Table(mem, p) != [] && p !in ps;
            && |st'.offsets| == |ps| + 1
            && st'.dedupe == (if Table(mem, p) == [] then st.dedupe else st.dedupe[p := st'.offsets[|ps|]])
            && st'.offsets == st.offsets + [if Table(mem, p) ==
                                            [] then 0 else if new' then st.offset else st'.dedupe[p]]
            && st'.offset == (if new' then st.offset + |Table(mem, p)| else st.offset)
            && WriteVisit(mem, w, p, st'.offsets[|ps|]) ==
               MapWriter(st'.offset, if new' then w.out + Table(mem, p) else w.out, w.written + [new'])
  {
    if Table(mem, p) != [] && p in st.dedupe {
      assert Holds(mem, base, w.out, p, st.dedupe[p]);
      assert st.dedupe[p := st.dedupe[p]] == st.dedupe;
    }
  }

  /** One table: the Write pass test is true exactly when the Init pass found a new table. */
  lemma {:induction false} VisitAgrees(mem: Memory, base: nat, ps: seq<Ptr>, st: MapState, w: MapWriter, p: Ptr)
    requires Agree(mem, base, ps, st, w)
    ensures |InitVisit(mem, st, p).offsets| == |ps| + 1
    ensures var st' := InitVisit(mem, st, p);
            Agree(mem, base, ps + [p], st', WriteVisit(mem, w, p, st'.offsets[|ps|]))
  {
    WriteCases(mem, base, ps, st, w, p);
    WrittenSnoc(mem, ps, w.written, p);
    var st' := InitVisit(mem, st, p);
    RecordedSnoc(mem, ps, st.dedupe, st.offsets, p, st'.offsets[|ps|]);
    if Table(mem, p) != [] && p !in ps {
      NewTable(mem, base, ps, st.dedupe, w.out, p);
    } else {
      KnownSnoc(mem, base, ps, st.dedupe, w.out, p);
      assert st'.dedupe == st.dedupe;
    }
    var w' := WriteVisit(mem, w, p, st'.offsets[|ps|]);
    assert w'.offset == st'.offset == base + |w'.out|;
    assert Known(mem, base, ps + [p], st'.dedupe, w'.out);
    assert WrittenFirsts(mem, ps + [p], w'.written);
    assert Recorded(mem, ps + [p], st'.dedupe, st'.offsets);
  }

  lemma {:induction false} RunAgrees(mem: Memory, base: nat, ps: seq<Ptr>)
    ensures |InitRun(mem, base, ps).offsets| == |ps|
    ensures Agree(mem, base, ps, InitRun(mem, base, ps), WriteRun(mem, base, ps, InitRun(mem, base, ps).offsets))
  {
    if ps != [] {
      var n := |ps| - 1;
      RunAgrees(mem, base, ps[..n]);
      var before, after := InitRun(mem, base, ps[..n]), InitRun(mem, base, ps);
      assert after.offsets[..n] == before.offsets;
      assert ps == ps[..n] + [ps[n]];
      VisitAgrees(mem, base, ps[..n], before, WriteRun(mem, base, ps[..n], before.offsets), ps[n]);
    }
  }

  /** Each distinct non-empty table is written exactly once, where every method that uses it finds it,
      and both passes end at the same offset. */
  lemma {:induction false} TheoremMapsAgree(mem: Memory, base: nat, ps: seq<Ptr>)
    ensures |InitRun(mem, base, ps).offsets| == |ps|
    ensures var st := InitRun(mem, base, ps);
            var w := WriteRun(mem, base, ps, st.offsets);
            && w.offset == st.offset == base + |w.out|
            && |w.written| == |ps|
            && (forall i {:trigger w.written[i]} :: 0 <= i < |ps| ==> (w.written[i] <==> FirstTable(mem, ps, i)))
            && (forall i :: 0 <= i < |ps| && Table(mem, ps[i]) != [] ==> Holds(mem, base, w.out, ps[i], st.offsets[i]))
            && (forall i, j :: 0 <= i < j < |ps| && ps[i] == ps[j] ==> st.offsets[i] == st.offsets[j])
  {
    RunAgrees(mem, base, ps);
  }

  // ----- Offsets in the method header -----

  /** The low bit of a code offset, the Thumb mode, cleared. */
  function ClearThumb(codeOffset: nat): nat
  {
    codeOffset - codeOffset % 2
  }

  /** A header field: the distance from the table up to the code, modulo 2^32. */
  function SetOffset(codeOffset: nat, offset: nat): nat
    requires codeOffset < WORD && offset < WORD
  {
    Sub32(ClearThumb(codeOffset), offset)
  }

  function GetOffset(codeOffset: nat, field: nat): nat
    requires codeOffset < WORD && field < WORD
  {
    if field == 0 then 0 else Sub32(ClearThumb(codeOffset), field)
  }

  /** The Init code pass adds the code offset to a field that was set while it was still 0. */
  function AddCodeOffset(field: nat, codeStart: nat): nat
    requires codeStart < WORD && field < WORD
  {
    if field == 0 then 0 else Add32(field, codeStart)
  }

  /** Whatever was recorded before the code offset was known is read back after it, for code that starts
      at an even offset behind the table; and the field of an empty table stays 0. */
  lemma {:induction false} TheoremHeaderOffset(offset: nat, codeStart: nat, delta: nat)
    requires 0 < offset < codeStart && codeStart + delta < WORD && codeStart % 2 == 0 && delta <= 1
    ensures GetOffset(codeStart + delta, AddCodeOffset(SetOffset(0, offset), codeStart)) == offset
    ensures AddCodeOffset(SetOffset(0, offset), codeStart) == codeStart - offset
    ensures AddCodeOffset(0, codeStart) == 0 && GetOffset(codeStart + delta, 0) == 0
  {
    assert ClearThumb(codeStart + delta) == codeStart;
  }
}
