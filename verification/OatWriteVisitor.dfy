/** The Write code pass over the classes as the Init code pass left them, and both passes together. */
module OatWriteVisitor {
  import opened Bytes
  import opened CompiledMethods
  import opened Options
  import opened DedupeMap
  import opened OatCode
  import opened OatCodeAgreement
  import opened OatCodeTheorem
  import opened RelativePatcher
  import opened OatVisitors

  /** What the Write pass sees of a placed method. */
  function Bare(m: CompiledMethod, slot: Slot): Placed
  {
    Placed(NO_METHOD, m, slot.header, slot.codeOffset, false, 0)
  }

  /** The compiled methods among the first `i` of a class with their slots. */
  function Bares(oc: OatClass, i: nat): (ps: seq<Placed>)
    requires oc.Valid() && i <= |oc.methods|
    ensures |ps| == Compiled(oc.methods[..i])
  {
    if i == 0 then []
    else
      CompiledGrows(oc.methods, i - 1);
      match oc.methods[i - 1]
      case None => Bares(oc, i - 1)
      case Some(m) => Bares(oc, i - 1) + [Bare(m, oc.slots[Compiled(oc.methods[..i - 1])])]
  }

  function AllBares(classes: seq<OatClass>, c: nat): seq<Placed>
    requires AllValid(classes) && c <= |classes|
  {
    if c == 0 then [] else AllBares(classes, c - 1) + Bares(classes[c - 1], |classes[c - 1].methods|)
  }

  /** Bytes put out, by what they are. */
  datatype CodeSizes = CodeSizes(alignment: nat, thunks: nat, headers: nat, code: nat)
  {
    function Total(): nat {
      alignment + thunks + headers + code
    }

    function Plus(other: CodeSizes): CodeSizes {
      CodeSizes(alignment + other.alignment, thunks + other.thunks, headers + other.headers, code + other.code)
    }
  }

  class WriteCodeVisitor {
    const cfg: Config
    const thunks: seq<nat>
    var offset: nat
    var currentThunk: nat
    var out: seq<byte>
    var sizes: CodeSizes
    ghost var fired: seq<bool>

    ghost function State(): WriteState
      reads this
    {
      WriteState(offset, currentThunk, out, fired)
    }

    constructor (cfg: Config, thunks: seq<nat>, base: nat)
      ensures this.cfg == cfg && this.thunks == thunks && State() == WriteStart(base) && sizes.Total() == |out|
    {
      this.cfg, this.thunks, this.offset, this.currentThunk, this.out, this.fired := cfg, thunks, base, 0, [], [];
      this.sizes := CodeSizes(0, 0, 0, 0);
    }

    method Write(bytes: seq<byte>)
      modifies this`offset, this`out
      ensures State() == Emit(old(State()), bytes)
    {
      out := out + bytes;
      offset := offset + |bytes|;
    }

    method WriteCodeAlignment()
      requires sizes.Total() == |out|
      modifies this`offset, this`out, this`sizes
      ensures State() == Pad(cfg, old(State())) && sizes.Total() == |out|
    {
      var padding := cfg.AlignCode(offset) - offset;
      Write(Zeros(padding));
      sizes := sizes.(alignment := sizes.alignment + padding);
    }

    method WriteNextThunk()
      requires sizes.Total() == |out|
      modifies this`offset, this`out, this`currentThunk, this`sizes
      ensures State() == WriteThunks(cfg, thunks, old(State())) && sizes.Total() == |out|
    {
      if cfg.HasThunks() && currentThunk < |thunks| && cfg.AlignCode(offset) == thunks[currentThunk] {
        currentThunk := currentThunk + 1;
        WriteCodeAlignment();
        Write(cfg.thunk);
        sizes := sizes.(thunks := sizes.thunks + |cfg.thunk|);
        WriteCodeAlignment();
      }
    }

    /** Writes thunk, padding, header and code unless the recorded offset already lies behind us. */
    method VisitMethod(m: CompiledMethod, slot: Slot)
      requires sizes.Total() == |out|
      modifies this
      ensures State() == WriteVisit(cfg, thunks, old(State()), Bare(m, slot)) && sizes.Total() == |out|
    {
      if slot.codeOffset >= offset {
        WriteNextThunk();
        WriteCodeAlignment();
        var code := PatchCode(cfg, m, offset + HEADER_SIZE);
        Write(HeaderBytes(slot.header) + code);
        sizes := sizes.(headers := sizes.headers + HEADER_SIZE, code := sizes.code + |code|);
        fired := fired + [true];
      } else {
        fired := fired + [false];
      }
    }

    method VisitClass(oc: OatClass, ghost base: nat, ghost before: seq<Placed>)
      requires oc.Valid() && State() == WriteRun(cfg, thunks, WriteStart(base), before) && sizes.Total() == |out|
      modifies this
      ensures State() == WriteRun(cfg, thunks, WriteStart(base), before + Bares(oc, |oc.methods|)) &&
              sizes.Total() == |out|
    {
      var k := 0;
      assert before + Bares(oc, 0) == before && oc.methods[..0] == [];
      for i := 0 to |oc.methods|
        invariant k == Compiled(oc.methods[..i])
        invariant State() == WriteRun(cfg, thunks, WriteStart(base), before + Bares(oc, i)) && sizes.Total() == |out|
      {
        CompiledGrows(oc.methods, i);
        if oc.methods[i].Some? {
          NextBare(cfg, thunks, WriteStart(base), before, oc, i);
          VisitMethod(oc.methods[i].value, oc.slots[k]);
          k := k + 1;
        }
      }
    }

    /** The whole Write code pass. */
    method Run(classes: seq<OatClass>, ghost base: nat)
      requires AllValid(classes) && State() == WriteStart(base) && sizes.Total() == |out|
      modifies this
      ensures State() == WriteThunks(cfg, thunks, WriteRun(cfg, thunks, WriteStart(base), AllBares(classes, |classes|)))
      ensures sizes.Total() == |out|
    {
      for c := 0 to |classes|
        invariant State() == WriteRun(cfg, thunks, WriteStart(base), AllBares(classes, c)) && sizes.Total() == |out|
      {
        VisitClass(classes[c], base, AllBares(classes, c));
      }
      WriteNextThunk();
    }
  }

  lemma {:induction false} NextBare(cfg: Config, thunks: seq<nat>, w: WriteState, before: seq<Placed>, oc: OatClass,
                                    i: nat)
    requires oc.Valid() && i < |oc.methods| && oc.methods[i].Some?
    ensures Compiled(oc.methods[..i]) < |oc.slots|
    ensures WriteRun(cfg, thunks, w, before + Bares(oc, i + 1)) ==
            WriteVisit(cfg, thunks, WriteRun(cfg, thunks, w, before + Bares(oc, i)),
                       Bare(oc.methods[i].value, oc.slots[Compiled(oc.methods[..i])]))
  {
    CompiledGrows(oc.methods, i);
    var p := Bare(oc.methods[i].value, oc.slots[Compiled(oc.methods[..i])]);
    assert before + Bares(oc, i + 1) == before + Bares(oc, i) + [p];
    WriteRunSplit(cfg, thunks, w, before + Bares(oc, i), [p]);
    assert [p][1..] == [];
  }

  // ----- The slots are all the Write pass needs -----

  predicate Alike(ps: seq<Placed>, qs: seq<Placed>)
  {
    |ps| == |qs| && forall i :: 0 <= i < |ps| ==>
      ps[i].m == qs[i].m && ps[i].header == qs[i].header && ps[i].codeOffset == qs[i].codeOffset
  }

  lemma {:induction false} WriteRunAlike(cfg: Config, thunks: seq<nat>, w: WriteState, ps: seq<Placed>, qs: seq<Placed>)
    requires Alike(ps, qs)
    ensures WriteRun(cfg, thunks, w, ps) == WriteRun(cfg, thunks, w, qs)
    decreases |ps|
  {
    if ps != [] {
      WriteVisitAlike(cfg, thunks, w, ps[0], qs[0]);
      WriteRunAlike(cfg, thunks, WriteVisit(cfg, thunks, w, ps[0]), ps[1..], qs[1..]);
    }
  }

  lemma {:induction false} WriteVisitAlike(cfg: Config, thunks: seq<nat>, w: WriteState, p: Placed, q: Placed)
    requires p.m == q.m && p.header == q.header && p.codeOffset == q.codeOffset
    ensures WriteVisit(cfg, thunks, w, p) == WriteVisit(cfg, thunks, w, q)
  {
  }

  /** A list of bare methods matches what was placed if methods and slots do. */
  predicate Matches(bares: seq<Placed>, vs: seq<Visited>, slots: seq<Slot>)
  {
    |bares| == |vs| == |slots| && forall i :: 0 <= i < |bares| ==> bares[i] == Bare(vs[i].m, slots[i])
  }

  lemma {:induction false} BaresMatch(init: OatClass, oc: OatClass, i: nat)
    requires init.Valid() && oc.Valid() && oc.methods == init.methods && i <= |oc.methods|
    ensures |Visits(init, i)| == |Bares(oc, i)| == Compiled(oc.methods[..i]) <= |oc.slots|
    ensures Matches(Bares(oc, i), Visits(init, i), oc.slots[..Compiled(oc.methods[..i])])
  {
    if i > 0 {
      BaresMatch(init, oc, i - 1);
      CompiledGrows(oc.methods, i - 1);
    }
  }

  lemma {:induction false} AllBaresMatch(init: seq<OatClass>, classes: seq<OatClass>, c: nat)
    requires AllValid(init) && SameShape(init, classes, |init|) && c <= |init|
    ensures Matches(AllBares(classes, c), AllVisits(init, c), AllSlots(classes, c))
  {
    if c > 0 {
      AllBaresMatch(init, classes, c - 1);
      var oc := classes[c - 1];
      BaresMatch(init[c - 1], oc, |oc.methods|);
      assert oc.methods[..|oc.methods|] == oc.methods && oc.slots[..|oc.slots|] == oc.slots;
      MatchesJoin(AllBares(classes, c - 1), Bares(oc, |oc.methods|), AllVisits(init, c - 1),
                  Visits(init[c - 1], |oc.methods|),
                  AllSlots(classes, c - 1), oc.slots);
    }
  }

  lemma {:induction false} MatchesJoin(a: seq<Placed>, b: seq<Placed>, vs: seq<Visited>, ws: seq<Visited>,
                                       slots: seq<Slot>, more: seq<Slot>)
    requires Matches(a, vs, slots) && Matches(b, ws, more)
    ensures Matches(a + b, vs + ws, slots + more)
  {
  }

  lemma {:induction false} SlotsOfAt(placed: seq<Placed>, i: nat)
    requires i < |placed|
    ensures |SlotsOf(placed)| == |placed| && SlotsOf(placed)[i] == SlotOf(placed[i])
  {
    var n := |placed| - 1;
    if n > 0 { SlotsOfAt(placed[..n], if i < n then i else 0); }
    if i < n { assert SlotsOf(placed)[i] == SlotsOf(placed[..n])[i]; }
  }

  lemma {:induction false} BaresAlike(bares: seq<Placed>, vs: seq<Visited>, placed: seq<Placed>)
    requires Matches(bares, vs, SlotsOf(placed)) && |placed| == |vs|
    requires forall i :: 0 <= i < |vs| ==> placed[i].m == vs[i].m
    ensures Alike(bares, placed)
  {
    forall i | 0 <= i < |bares|
      ensures bares[i].m == placed[i].m && bares[i].header == placed[i].header &&
              bares[i].codeOffset == placed[i].codeOffset
    {
      SlotsOfAt(placed, i);
    }
  }

  lemma {:induction false} PassPlaces(cfg: Config, base: nat, vs: seq<Visited>)
    ensures var placed := InitPass(cfg, base, vs).placed;
            |placed| == |vs| && forall i :: 0 <= i < |vs| ==> placed[i].m == vs[i].m
  {
    AtTracks(cfg, base, vs, |vs|);
    assert vs[..|vs|] == vs;
  }

  /** Visiting the filled classes is the Write pass on what the Init pass placed. */
  lemma {:induction false} SlotsDriveWritePass(cfg: Config, base: nat, classes: seq<OatClass>, filled: seq<OatClass>)
    requires AllValid(classes) && SameShape(classes, filled, |filled|)
    requires AllSlots(filled, |filled|) == SlotsOf(InitPass(cfg, base, AllVisits(classes, |classes|)).placed)
    ensures var init := InitPass(cfg, base, AllVisits(classes, |classes|));
            WriteThunks(cfg, init.patcher.thunks,
                        WriteRun(cfg, init.patcher.thunks, WriteStart(base), AllBares(filled, |filled|))) ==
            WritePass(cfg, base, init)
  {
    var vs := AllVisits(classes, |classes|);
    var init := InitPass(cfg, base, vs);
    PassPlaces(cfg, base, vs);
    AllBaresMatch(classes, filled, |classes|);
    BaresAlike(AllBares(filled, |filled|), vs, init.placed);
    WriteRunAlike(cfg, init.patcher.thunks, WriteStart(base), AllBares(filled, |filled|), init.placed);
  }

  /** The Write code pass over classes as the Init pass left them. */
  method WriteCode(cfg: Config, base: nat, ghost classes: seq<OatClass>, filled: seq<OatClass>, thunks: seq<nat>)
    returns (out: seq<byte>, end: nat, sizes: CodeSizes)
    requires AllValid(classes) && SameShape(classes, filled, |filled|)
    requires AllSlots(filled, |filled|) == SlotsOf(InitPass(cfg, base, AllVisits(classes, |classes|)).placed)
    requires thunks == InitPass(cfg, base, AllVisits(classes, |classes|)).patcher.thunks
    ensures sizes.Total() == |out|
    ensures var vs := AllVisits(classes, |classes|);
            var init := InitPass(cfg, base, vs);
            && out == WritePass(cfg, base, init).out && end == WritePass(cfg, base, init).offset
            && (NonEmptyCode(cfg, vs) && NoTinyRepeat(cfg, vs) ==>
                PassesAgree(cfg, base, vs) && end == init.offset == base + |out|)
  {
    var writer := new WriteCodeVisitor(cfg, thunks, base);
    writer.Run(filled, base);
    out, end, sizes := writer.out, writer.offset, writer.sizes;
    SlotsDriveWritePass(cfg, base, classes, filled);
    ghost var vs := AllVisits(classes, |classes|);
    if NonEmptyCode(cfg, vs) && NoTinyRepeat(cfg, vs) {
      TheoremPassesAgree(cfg, base, vs);
    }
  }

  /** Runs both passes over all classes. The bytes put out and the final offset are those of the Write pass on
      what the Init pass placed; unless a method with code as short as the Thumb bit is repeated before new code
      appears, every blob therefore stands at its recorded offset. */
  method LayOutAndWrite(cfg: Config, base: nat, classes: seq<OatClass>)
    returns (filled: seq<OatClass>, out: seq<byte>, end: nat, sizes: CodeSizes)
    requires AllValid(classes)
    ensures sizes.Total() == |out| && SameShape(classes, filled, |filled|)
    ensures var vs := AllVisits(classes, |classes|);
            var init := InitPass(cfg, base, vs);
            && AllSlots(filled, |filled|) == SlotsOf(init.placed)
            && out == WritePass(cfg, base, init).out && end == WritePass(cfg, base, init).offset
            && (NonEmptyCode(cfg, vs) && NoTinyRepeat(cfg, vs) ==> PassesAgree(cfg, base, vs) && end == init.offset)
  {
    var init := new InitCodeVisitor(cfg, base, classes);
    init.Run();
    filled := init.oatClasses;
    out, end, sizes := WriteCode(cfg, base, classes, filled, init.patcher.thunks);
  }
}
