/** The code passes as the oat writer runs them: visitors that walk all methods of all classes, keep
    running offsets, and leave their results in the slots of the classes. */
module OatVisitors {
  import opened Bytes
  import opened CompiledMethods
  import opened Options
  import opened DedupeMap
  import opened OatCode
  import opened OatCodeAgreement
  import opened OatCodeTheorem
  import opened RelativePatcher

  /** Code offset and method header of one compiled method. */
  datatype Slot = Slot(codeOffset: nat, header: Header)

  /** One class: a method may be missing; there is a slot for each compiled method only. */
  datatype OatClass = OatClass(refs: seq<MethodRef>, methods: seq<Option<CompiledMethod>>, slots: seq<Slot>)
  {
    predicate Valid() {
      |refs| == |methods| && |slots| == Compiled(methods)
    }
  }

  function Compiled(methods: seq<Option<CompiledMethod>>): nat
  {
    if methods == [] then 0
    else Compiled(methods[..|methods| - 1]) + (if methods[|methods| - 1].Some? then 1 else 0)
  }

  lemma {:induction false} CompiledGrows(methods: seq<Option<CompiledMethod>>, i: nat)
    requires i < |methods|
    ensures Compiled(methods[..i + 1]) == Compiled(methods[..i]) + (if methods[i].Some? then 1 else 0)
    ensures Compiled(methods[..i + 1]) <= Compiled(methods)
    decreases |methods| - i
  {
    assert methods[..i + 1][..i] == methods[..i];
    if i + 1 < |methods| {
      CompiledGrows(methods, i + 1);
    } else {
      assert methods[..i + 1] == methods;
    }
  }

  /** The compiled methods among the first `i` of a class, with the tables its slots hold. */
  function Visits(oc: OatClass, i: nat): (vs: seq<Visited>)
    requires oc.Valid() && i <= |oc.methods|
    ensures |vs| == Compiled(oc.methods[..i])
  {
    if i == 0 then []
    else
      CompiledGrows(oc.methods, i - 1);
      match oc.methods[i - 1]
      case None => Visits(oc, i - 1)
      case Some(m) => Visits(oc, i - 1) + [Visited(oc.refs[i - 1], m,
                                                   oc.slots[Compiled(oc.methods[..i - 1])].header.tables)]
  }

  predicate AllValid(classes: seq<OatClass>)
  {
    forall c :: 0 <= c < |classes| ==> classes[c].Valid()
  }

  /** The compiled methods of the first `c` classes. */
  function AllVisits(classes: seq<OatClass>, c: nat): seq<Visited>
    requires AllValid(classes) && c <= |classes|
  {
    if c == 0 then [] else AllVisits(classes, c - 1) + Visits(classes[c - 1], |classes[c - 1].methods|)
  }

  function AllSlots(classes: seq<OatClass>, c: nat): seq<Slot>
    requires c <= |classes|
  {
    if c == 0 then [] else AllSlots(classes, c - 1) + classes[c - 1].slots
  }

  lemma {:induction false} AllSlotsFrame(a: seq<OatClass>, b: seq<OatClass>, c: nat)
    requires c <= |a| && c <= |b| && forall d :: 0 <= d < c ==> a[d] == b[d]
    ensures AllSlots(a, c) == AllSlots(b, c)
  {
    if c > 0 { AllSlotsFrame(a, b, c - 1); }
  }

  function SlotOf(p: Placed): Slot
  {
    Slot(p.codeOffset, p.header)
  }

  function SlotsOf(placed: seq<Placed>): seq<Slot>
  {
    if placed == [] then [] else SlotsOf(placed[..|placed| - 1]) + [SlotOf(placed[|placed| - 1])]
  }

  /** The visit of method `i` of a class, which must be compiled. */
  function VisitAt(oc: OatClass, i: nat): Visited
    requires oc.Valid() && i < |oc.methods| && oc.methods[i].Some?
  {
    CompiledGrows(oc.methods, i);
    Visited(oc.refs[i], oc.methods[i].value, oc.slots[Compiled(oc.methods[..i])].header.tables)
  }

  lemma {:induction false} NextVisit(cfg: Config, st: InitState, before: seq<Visited>, oc: OatClass, i: nat)
    requires oc.Valid() && i < |oc.methods|
    ensures InitRun(cfg, st, before + Visits(oc, i + 1)) ==
            if oc.methods[i].None? then InitRun(cfg, st, before + Visits(oc, i))
            else InitVisit(cfg, InitRun(cfg, st, before + Visits(oc, i)), VisitAt(oc, i))
  {
    if oc.methods[i].Some? {
      RunSnoc(cfg, st, before + Visits(oc, i), VisitAt(oc, i));
      assert before + Visits(oc, i + 1) == before + Visits(oc, i) + [VisitAt(oc, i)];
    }
  }

  /** `oc` is `init` with its first `k` slots rewritten. */
  predicate PartlyFilled(init: OatClass, oc: OatClass, i: nat, k: nat)
  {
    && init.Valid() && oc.refs == init.refs && oc.methods == init.methods && |oc.slots| == |init.slots|
    && i <= |init.methods| && k == Compiled(init.methods[..i]) <= |init.slots|
    && oc.slots[k..] == init.slots[k..]
  }

  lemma {:induction false} FillNext(init: OatClass, oc: OatClass, i: nat, k: nat, slot: Slot)
    requires PartlyFilled(init, oc, i, k) && i < |init.methods| && init.methods[i].Some? && k < |oc.slots|
    ensures PartlyFilled(init, oc.(slots := oc.slots[k := slot]), i + 1, k + 1)
    ensures oc.slots[k := slot][..k + 1] == oc.slots[..k] + [slot]
  {
    CompiledGrows(init.methods, i);
    StoreSlot(oc.slots, init.slots, k, slot);
  }

  lemma {:induction false} FillNone(init: OatClass, oc: OatClass, i: nat, k: nat)
    requires PartlyFilled(init, oc, i, k) && i < |init.methods|
    ensures init.methods[i].None? ==> PartlyFilled(init, oc, i + 1, k)
    ensures init.methods[i].Some? ==>
              k < |oc.slots| && VisitAt(init, i) == Visited(oc.refs[i], oc.methods[i].value, oc.slots[k].header.tables)
  {
    CompiledGrows(init.methods, i);
    if k < |oc.slots| { assert oc.slots[k] == oc.slots[k..][0] == init.slots[k..][0]; }
  }

  predicate SameShape(init: seq<OatClass>, classes: seq<OatClass>, c: nat)
  {
    && |classes| == |init| && AllValid(classes)
    && (forall d :: c <= d < |init| ==> classes[d] == init[d])
    && (forall d :: 0 <= d < |init| ==> classes[d].methods == init[d].methods)
  }

  lemma {:induction false} StoreClass(init: seq<OatClass>, classes: seq<OatClass>, c: nat, oc: OatClass)
    requires c < |init| && SameShape(init, classes, c) && oc.Valid() && oc.methods == init[c].methods
    ensures SameShape(init, classes[c := oc], c + 1)
    ensures AllSlots(classes[c := oc], c + 1) == AllSlots(classes, c) + oc.slots
  {
    AllSlotsFrame(classes, classes[c := oc], c);
  }

  class InitCodeVisitor {
    const cfg: Config
    const base: nat
    var oatClasses: seq<OatClass>
    var offset: nat
    var entries: seq<Entry>
    var patcher: Patcher
    var methodOffsets: map<MethodRef, nat>
    ghost var placed: seq<Placed>

    ghost function State(): InitState
      reads this
    {
      InitState(offset, patcher, AsMap(entries), methodOffsets, placed)
    }

    constructor (cfg: Config, base: nat, classes: seq<OatClass>)
      ensures this.cfg == cfg && this.base == base && oatClasses == classes
      ensures State() == InitStart(base) && SortedEntries(entries)
    {
      this.cfg, this.base, this.oatClasses, this.offset := cfg, base, classes, base;
      this.entries, this.patcher, this.methodOffsets, this.placed := [], Patcher([], []), map[], [];
    }

    /** The offset of a compiled method: shared with equal code or new. */
    method CodeOffset(v: Visited) returns (codeOffset: nat, ghost first: bool)
      requires SortedEntries(entries)
      modifies this`offset, this`entries, this`patcher
      ensures SortedEntries(entries)
      ensures var old', new' := old(State()), InitVisit(cfg, old(State()), v);
              && offset == new'.offset && AsMap(entries) == new'.codeMap && patcher == new'.patcher
              && new'.placed == placed + [Placed(v.ref, v.m, MakeHeader(cfg, v, Diff(codeOffset, cfg.Delta())),
                                                 codeOffset, first, old'.offset)]
              && new'.methods == Remember(methodOffsets, v.ref, codeOffset)
    {
      var lb := LowerBound(entries, v.m);
      LowerBoundFinds(entries, v.m, lb);
      var equal := false;
      if !cfg.debuggable && lb < |entries| {
        var less := CompareKeys(v.m, entries[lb].0);
        equal := !less;
      }
      if equal {
        codeOffset, first := entries[lb].1, false;
      } else {
        codeOffset := NewQuickCodeOffset(v);
        first := true;
        if !cfg.debuggable {
          InsertKeeps(entries, v.m, lb, codeOffset);
          entries := Inserted(entries, lb, (v.m, codeOffset));
        }
      }
    }

    /** Reserves space for the thunks, the alignment, the header and the code of a method. */
    method NewQuickCodeOffset(v: Visited) returns (codeOffset: nat)
      modifies this`offset, this`patcher
      ensures var reserved := ReserveSpace(cfg, old(patcher), methodOffsets, old(offset), v);
              && patcher == reserved.0 && codeOffset == cfg.AlignCode(reserved.1) + HEADER_SIZE + cfg.Delta()
              && offset == cfg.AlignCode(reserved.1) + HEADER_SIZE + cfg.Size(v.m)
    {
      var p, o := ReserveSpaceBefore(cfg, patcher, methodOffsets, offset, v);
      var start := cfg.AlignCode(o);
      codeOffset := start + HEADER_SIZE + cfg.Delta();
      patcher := p;
      offset := start + HEADER_SIZE + cfg.Size(v.m);
    }

    /** Places one compiled method and returns what goes into its slot. */
    method VisitMethod(v: Visited) returns (slot: Slot)
      requires SortedEntries(entries)
      modifies this`offset, this`entries, this`patcher, this`methodOffsets, this`placed
      ensures SortedEntries(entries)
      ensures State() == InitVisit(cfg, old(State()), v)
      ensures SlotsOf(placed) == SlotsOf(old(placed)) + [slot]
    {
      ghost var before, was := offset, placed;
      var codeOffset, first := CodeOffset(v);
      methodOffsets := Remember(methodOffsets, v.ref, codeOffset);
      slot := Slot(codeOffset, MakeHeader(cfg, v, Diff(codeOffset, cfg.Delta())));
      placed := placed + [Placed(v.ref, v.m, slot.header, codeOffset, first, before)];
      assert placed[..|placed| - 1] == was;
    }

    /** `i` methods of a class are visited: `oc` is the class with its first `k` slots filled. */
    ghost predicate Half(init: OatClass, oc: OatClass, before: seq<Visited>, slots: seq<Slot>, i: nat, k: nat)
      reads this
    {
      && SortedEntries(entries) && PartlyFilled(init, oc, i, k)
      && State() == InitRun(cfg, InitStart(base), before + Visits(init, i))
      && SlotsOf(placed) == slots + oc.slots[..k]
    }

    /** Visits the next method of a class, if it is compiled, and fills its slot. */
    method VisitNext(init: OatClass, oc: OatClass, ghost before: seq<Visited>, ghost slots: seq<Slot>, i: nat, k: nat)
      returns (oc': OatClass, k': nat)
      requires Half(init, oc, before, slots, i, k) && i < |init.methods|
      modifies this`offset, this`entries, this`patcher, this`methodOffsets, this`placed
      ensures Half(init, oc', before, slots, i + 1, k')
    {
      NextVisit(cfg, InitStart(base), before, init, i);
      FillNone(init, oc, i, k);
      oc', k' := oc, k;
      if oc.methods[i].Some? {
        var slot := VisitMethod(Visited(oc.refs[i], oc.methods[i].value, oc.slots[k].header.tables));
        FillNext(init, oc, i, k, slot);
        oc' := oc.(slots := oc.slots[k := slot]);
        k' := k + 1;
        assert slots + oc.slots[..k] + [slot] == slots + (oc.slots[..k] + [slot]);
      }
    }

    /** Visits the compiled methods of one class in order and fills its slots. */
    method VisitClass(init: OatClass, ghost before: seq<Visited>) returns (oc: OatClass)
      requires SortedEntries(entries) && init.Valid() && State() == InitRun(cfg, InitStart(base), before)
      modifies this`offset, this`entries, this`patcher, this`methodOffsets, this`placed
      ensures SortedEntries(entries) && oc.Valid() && oc.methods == init.methods
      ensures State() == InitRun(cfg, InitStart(base), before + Visits(init, |init.methods|))
      ensures SlotsOf(placed) == SlotsOf(old(placed)) + oc.slots
    {
      oc := init;
      var k: nat := 0;
      ghost var slots := SlotsOf(placed);
      assert before + Visits(init, 0) == before && oc.slots[..0] == [] && init.methods[..0] == [] &&
             slots + [] == slots;
      for i := 0 to |init.methods|
        invariant Half(init, oc, before, slots, i, k)
      {
        oc, k := VisitNext(init, oc, before, slots, i, k);
      }
      assert init.methods[..|init.methods|] == init.methods && oc.slots[..k] == oc.slots;
    }

    /** The first `c` classes are visited. */
    ghost predicate Done(init: seq<OatClass>, c: nat)
      reads this
    {
      && AllValid(init) && c <= |init| && SortedEntries(entries) && SameShape(init, oatClasses, c)
      && State() == InitRun(cfg, InitStart(base), AllVisits(init, c)) && AllSlots(oatClasses, c) == SlotsOf(placed)
    }

    method VisitNextClass(c: nat, ghost init: seq<OatClass>)
      requires Done(init, c) && c < |oatClasses|
      modifies this
      ensures Done(init, c + 1)
    {
      var oc := VisitClass(oatClasses[c], AllVisits(init, c));
      StoreClass(init, oatClasses, c, oc);
      oatClasses := oatClasses[c := oc];
    }

    /** Reserves space for a last thunk. */
    method Finish()
      modifies this`offset, this`patcher
      ensures State() == InitEnd(cfg, old(State()))
    {
      var p, o := ReserveSpaceAfter(cfg, patcher, methodOffsets, offset);
      patcher, offset := p, o;
    }

    method VisitClasses(ghost init: seq<OatClass>)
      requires Done(init, 0) && init == oatClasses
      modifies this
      ensures Done(init, |init|)
    {
      for c := 0 to |oatClasses|
        invariant Done(init, c)
      {
        VisitNextClass(c, init);
      }
    }

    /** The whole Init code pass. */
    method Run()
      requires SortedEntries(entries) && AllValid(oatClasses) && State() == InitStart(base)
      modifies this
      ensures State() == InitPass(cfg, base, AllVisits(old(oatClasses), |old(oatClasses)|))
      ensures SameShape(old(oatClasses), oatClasses, |oatClasses|)
      ensures AllSlots(oatClasses, |oatClasses|) == SlotsOf(placed)
    {
      VisitClasses(oatClasses);
      Finish();
    }
  }

  lemma {:induction false} StoreSlot(slots: seq<Slot>, init: seq<Slot>, k: nat, slot: Slot)
    requires k < |slots| == |init| && slots[k..] == init[k..]
    ensures slots[k := slot][k + 1..] == init[k + 1..]
    ensures slots[k := slot][..k + 1] == slots[..k] + [slot]
  {
    assert slots[k + 1..] == slots[k..][1..] && init[k + 1..] == init[k..][1..];
  }
}
