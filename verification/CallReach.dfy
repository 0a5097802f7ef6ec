/** Relative calls on ARM: the thunks that the Init pass reserves bring every call within the
    range of its branch instruction. */
module CallReach {
  import opened Align
  import opened Bytes
  import opened CompiledMethods
  import opened Options
  import opened OatCode
  import opened OatCodeAgreement
  import opened OatCodeTheorem

  /** Oat files stay below 2 GiB, so 32-bit differences tell forwards from backwards. */
  const LIMIT: nat := 0x8000_0000

  // ----- Writing a call -----

  /** The displacement the Write pass encodes, as an unsigned 32-bit number; `written` thunks
      precede the call. None if the code would look for a thunk before the first one. */
  function CalculateDisplacement(cfg: Config, thunks: seq<nat>, written: nat, patch: nat, target: nat): Option<nat>
    requires written <= |thunks|
  {
    var displacement := Diff(target, patch);
    if displacement > cfg.MaxPositive() && displacement < WORD - cfg.MaxNegative() then
      if written != |thunks| && Diff(thunks[written], patch) < cfg.MaxPositive() then Some(Diff(thunks[written], patch))
      else if written == 0 then None
      else Some(Diff(thunks[written - 1], patch))
    else Some(displacement)
  }

  predicate InRange(cfg: Config, displacement: nat)
  {
    displacement <= cfg.MaxPositive() || WORD - cfg.MaxNegative() <= displacement < WORD
  }

  /** A branch at `from` can go straight to `to`. */
  predicate Direct(cfg: Config, from: int, to: int)
  {
    if to >= from then to - from <= cfg.MaxPositive() else from - to <= cfg.MaxNegative()
  }

  predicate Reaches(cfg: Config, thunks: seq<nat>, written: nat, patch: nat, target: nat)
    requires written <= |thunks|
  {
    match CalculateDisplacement(cfg, thunks, written, patch, target)
    case None => false
    case Some(d) => InRange(cfg, d)
  }

  /** The encoded displacement is in range exactly when the target is, or the next thunk is closer than
      the maximum, or the previous thunk is in range. */
  lemma {:induction false} ReachesIff(cfg: Config, thunks: seq<nat>, written: nat, patch: nat, target: nat)
    requires written <= |thunks| && patch < LIMIT && target < LIMIT
    requires written < |thunks| ==> patch < thunks[written] < LIMIT
    requires written > 0 ==> thunks[written - 1] < patch
    ensures Reaches(cfg, thunks, written, patch, target) <==>
            || Direct(cfg, patch, target)
            || (written < |thunks| && thunks[written] - patch < cfg.MaxPositive())
            || (written > 0 && Direct(cfg, patch, thunks[written - 1]))
  {
    DiffIs(target, patch);
    if written < |thunks| { DiffIs(thunks[written], patch); }
    if written > 0 { DiffIs(thunks[written - 1], patch); }
  }

  /** The branch ends at its target or at a thunk. */
  lemma {:induction false} LandsOnTargetOrThunk(cfg: Config, thunks: seq<nat>, written: nat, patch: nat, target: nat)
    requires written <= |thunks| && patch < WORD && target < WORD
    requires forall t :: t in thunks ==> t < WORD
    ensures var d := CalculateDisplacement(cfg, thunks, written, patch, target);
            d.Some? ==> Add32(patch, d.value % WORD) == target || Add32(patch, d.value % WORD) in thunks
  {
    DiffLands(target, patch);
    if written < |thunks| { assert thunks[written] in thunks; DiffLands(thunks[written], patch); }
    if written > 0 { assert thunks[written - 1] in thunks; DiffLands(thunks[written - 1], patch); }
  }

  lemma {:induction false} DiffLands(a: nat, b: nat)
    requires a < WORD && b < WORD
    ensures Diff(a, b) % WORD == Diff(a, b) && Add32(b, Diff(a, b)) == a
  {
    DiffIs(a, b);
  }

  lemma {:induction false} DiffIs(a: nat, b: nat)
    requires a < WORD && b < WORD
    ensures Diff(a, b) == if b <= a then a - b else a - b + WORD
  {
  }

  // ----- The invariant -----

  /** A call has a way to its target that later steps of the Init pass cannot take away. */
  ghost predicate Served(cfg: Config, st: InitState, c: Pending)
  {
    || (c.ref in st.methods && Direct(cfg, c.offset, st.methods[c.ref] - cfg.Delta()))
    || (exists t :: t in st.patcher.thunks && t < c.offset && c.offset - t <= cfg.MaxNegative())
    || (exists t :: t in st.patcher.thunks && c.offset < t && t - c.offset <= cfg.MaxPositive())
  }

  predicate Sorted(q: seq<Pending>)
  {
    forall i, j :: 0 <= i < j < |q| ==> q[i].offset <= q[j].offset
  }

  /** A thunk at the next aligned offset is still in range of every unprocessed call. */
  predicate QueueInv(cfg: Config, thunks: seq<nat>, q: seq<Pending>, offset: nat)
  {
    && Sorted(q)
    && forall i :: 0 <= i < |q| ==>
      && q[i].offset < offset
      && cfg.AlignCode(offset) - q[i].offset <= cfg.MaxPositive()
      && (thunks != [] ==> thunks[|thunks| - 1] < q[i].offset)
  }

  predicate Increasing(thunks: seq<nat>, offset: nat)
  {
    && (forall i, j :: 0 <= i < j < |thunks| ==> thunks[i] < thunks[j])
    && (forall i :: 0 <= i < |thunks| ==> thunks[i] < offset)
  }

  predicate MethodsBelow(cfg: Config, methods: map<MethodRef, nat>, offset: nat)
  {
    forall r :: r in methods ==> cfg.Delta() <= methods[r] && methods[r] - cfg.Delta() <= offset
  }

  ghost predicate ServedOrQueued(cfg: Config, st: InitState, c: Pending)
  {
    Served(cfg, st, c) || c in st.patcher.unprocessed
  }

  ghost predicate CallsCovered(cfg: Config, st: InitState)
  {
    forall i, c ::
      0 <= i < |st.placed| && st.placed[i].first && c in Calls(st.placed[i].m.patches, Begin(cfg, st.placed[i])) ==>
      ServedOrQueued(cfg, st, c)
  }

  function Begin(cfg: Config, p: Placed): nat
  {
    if p.codeOffset >= cfg.Delta() then p.codeOffset - cfg.Delta() else 0
  }

  ghost predicate ReachInv(cfg: Config, st: InitState)
  {
    && QueueInv(cfg, st.patcher.thunks, st.patcher.unprocessed, st.offset)
    && Increasing(st.patcher.thunks, st.offset)
    && MethodsBelow(cfg, st.methods, st.offset)
    && CallsCovered(cfg, st)
  }

  // ----- Processing the queue -----

  /** Why a call may be dropped from the queue. */
  predicate Dropped(cfg: Config, thunks: seq<nat>, methods: map<MethodRef, nat>, codeOffset: nat, ref: MethodRef,
                    c: Pending)
  {
    || (c.ref == ref && codeOffset - c.offset <= cfg.MaxPositive())
    || (thunks != [] && c.offset - thunks[|thunks| - 1] <= cfg.MaxNegative())
    || (c.ref in methods && Direct(cfg, c.offset, methods[c.ref] - cfg.Delta()))
  }

  /** The next call is dropped for a reason, or processing stops there. */
  lemma {:induction false} ProcessHead(cfg: Config, thunks: seq<nat>, q: seq<Pending>, methods: map<MethodRef, nat>,
                    offset: nat, codeOffset: nat, ref: MethodRef, next: nat)
    requires q != []
    requires QueueInv(cfg, thunks, q, offset) && MethodsBelow(cfg, methods, offset)
    requires cfg.AlignCode(offset) <= codeOffset <= next < WORD
    ensures var r := ProcessPatches(cfg, thunks, q, methods, codeOffset, ref, next);
            || (r == ProcessPatches(cfg, thunks, q[1..], methods, codeOffset, ref, next)
                && Dropped(cfg, thunks, methods, codeOffset, ref, q[0]))
            || (r.1 == q
                && (!r.0 ==> next - q[0].offset <= cfg.MaxPositive() && q[0].ref !in methods && q[0].ref != ref))
  {
    var c := q[0];
    assert c.offset < offset <= cfg.AlignCode(offset);
    DiffIs(codeOffset, c.offset);
    DiffIs(next, c.offset);
    if thunks != [] { DiffIs(c.offset, thunks[|thunks| - 1]); }
    if c.ref in methods {
      TargetDiff(cfg, methods[c.ref], c.offset);
    }
  }

  predicate AllDropped(cfg: Config, thunks: seq<nat>, methods: map<MethodRef, nat>, codeOffset: nat, ref: MethodRef,
                       q: seq<Pending>, n: nat)
    requires n <= |q|
  {
    forall i :: 0 <= i < n ==> Dropped(cfg, thunks, methods, codeOffset, ref, q[i])
  }

  lemma {:induction false} TailInv(cfg: Config, thunks: seq<nat>, q: seq<Pending>, offset: nat, n: nat)
    requires n <= |q| && QueueInv(cfg, thunks, q, offset)
    ensures QueueInv(cfg, thunks, q[n..], offset)
  {
    var tail := q[n..];
    assert forall i :: 0 <= i < |tail| ==> tail[i] == q[i + n];
  }

  lemma {:induction false} DroppedCons(cfg: Config, thunks: seq<nat>, methods: map<MethodRef, nat>, codeOffset: nat,
                                       ref: MethodRef,
                    q: seq<Pending>, n: nat)
    requires n < |q| && Dropped(cfg, thunks, methods, codeOffset, ref, q[0])
    requires AllDropped(cfg, thunks, methods, codeOffset, ref, q[1..], n)
    ensures AllDropped(cfg, thunks, methods, codeOffset, ref, q, n + 1)
  {
    forall i | 0 <= i < n + 1
      ensures Dropped(cfg, thunks, methods, codeOffset, ref, q[i])
    {
      if i > 0 { assert q[i] == q[1..][i - 1]; }
    }
  }

  /** Every call that leaves the queue has a reason to; what remains can wait for the next method. */
  lemma {:induction false} ProcessDrops(cfg: Config, thunks: seq<nat>, q: seq<Pending>, methods: map<MethodRef, nat>,
                                        offset: nat, codeOffset: nat, ref: MethodRef, next: nat)
    requires QueueInv(cfg, thunks, q, offset) && MethodsBelow(cfg, methods, offset)
    requires cfg.AlignCode(offset) <= codeOffset <= next < WORD
    ensures var r := ProcessPatches(cfg, thunks, q, methods, codeOffset, ref, next);
            && AllDropped(cfg, thunks, methods, codeOffset, ref, q, |q| - |r.1|)
            && (!r.0 && r.1 != [] ==>
                  next - r.1[0].offset <= cfg.MaxPositive() && r.1[0].ref !in methods && r.1[0].ref != ref)
    decreases |q|
  {
    if q != [] {
      ProcessHead(cfg, thunks, q, methods, offset, codeOffset, ref, next);
      TailInv(cfg, thunks, q, offset, 1);
      ProcessDrops(cfg, thunks, q[1..], methods, offset, codeOffset, ref, next);
      var r := ProcessPatches(cfg, thunks, q, methods, codeOffset, ref, next);
      if r.1 != q {
        DroppedCons(cfg, thunks, methods, codeOffset, ref, q, |q| - 1 - |r.1|);
      }
    }
  }

  lemma {:induction false} TargetDiff(cfg: Config, found: nat, offset: nat)
    requires cfg.Delta() <= found && found - cfg.Delta() < WORD && offset < WORD
    ensures Diff(found, cfg.Delta()) == found - cfg.Delta()
    ensures found - cfg.Delta() <= offset ==> Diff(offset, found - cfg.Delta()) == offset - (found - cfg.Delta())
  {
  }

  // ----- One method -----

  /** What the compiler guarantees of a method: sorted patches inside its code, and code well
      below the range of a branch. */
  predicate MethodFits(cfg: Config, m: CompiledMethod)
  {
    && (forall i, j :: 0 <= i < j < |m.patches| ==> m.patches[i].literalOffset <= m.patches[j].literalOffset)
    && (forall i :: 0 <= i < |m.patches| ==> m.patches[i].literalOffset < cfg.Size(m) && m.patches[i].dexFile != 0)
    && |cfg.thunk| + HEADER_SIZE + 32 + cfg.Size(m) <= cfg.MaxNegative()
    && |cfg.thunk| + HEADER_SIZE + 32 + cfg.Size(m) <= cfg.MaxPositive()
  }

  lemma {:induction false} CallsOrdered(patches: seq<LinkerPatch>, start: nat, size: nat)
    requires forall i, j :: 0 <= i < j < |patches| ==> patches[i].literalOffset <= patches[j].literalOffset
    requires forall i :: 0 <= i < |patches| ==> patches[i].literalOffset < size
    ensures Sorted(Calls(patches, start))
    ensures forall i :: 0 <= i < |Calls(patches, start)| ==> start <= Calls(patches, start)[i].offset < start + size
    ensures patches != [] ==>
              forall i :: 0 <= i < |Calls(patches, start)| ==>
                  start + patches[0].literalOffset <= Calls(patches, start)[i].offset
  {
    if patches != [] {
      var tail := patches[1..];
      assert forall i :: 0 <= i < |tail| ==> tail[i] == patches[i + 1];
      CallsOrdered(tail, start, size);
      if tail != [] { assert patches[0].literalOffset <= tail[0].literalOffset; }
    }
  }

  lemma {:induction false} ServedStays(cfg: Config, st: InitState, st': InitState, c: Pending)
    requires Served(cfg, st, c)
    requires st.patcher.thunks <= st'.patcher.thunks
    requires forall r :: r in st.methods ==> r in st'.methods && st'.methods[r] == st.methods[r]
    ensures Served(cfg, st', c)
  {
    assert forall t :: t in st.patcher.thunks ==> t in st'.patcher.thunks;
  }

  lemma {:induction false} RememberKeeps(methods: map<MethodRef, nat>, ref: MethodRef, codeOffset: nat)
    ensures forall r :: r in methods ==>
              r in Remember(methods, ref, codeOffset) && Remember(methods, ref, codeOffset)[r] == methods[r]
    ensures ref !in methods ==>
              ref in Remember(methods, ref, codeOffset) && Remember(methods, ref, codeOffset)[ref] == codeOffset
    ensures forall r :: r in Remember(methods, ref, codeOffset) ==> r in methods || r == ref
  {
  }

  /** Covering the waiting calls and those of the new method is enough. */
  lemma {:induction false} CoverStep(cfg: Config, st: InitState, st': InitState, p: Placed)
    requires CallsCovered(cfg, st) && st'.placed == st.placed + [p]
    requires st.patcher.thunks <= st'.patcher.thunks
    requires forall r :: r in st.methods ==> r in st'.methods && st'.methods[r] == st.methods[r]
    requires forall c :: c in st.patcher.unprocessed ==> ServedOrQueued(cfg, st', c)
    requires p.first ==> forall c :: c in Calls(p.m.patches, Begin(cfg, p)) ==> ServedOrQueued(cfg, st', c)
    ensures CallsCovered(cfg, st')
  {
    forall i, c | 0 <= i < |st'.placed| && st'.placed[i].first &&
      c in Calls(st'.placed[i].m.patches, Begin(cfg, st'.placed[i]))
      ensures ServedOrQueued(cfg, st', c)
    {
      if i < |st.placed| {
        assert st'.placed[i] == st.placed[i];
        assert ServedOrQueued(cfg, st, c);
        if Served(cfg, st, c) { ServedStays(cfg, st, st', c); }
      }
    }
  }

  lemma {:induction false} ShareKeeps(cfg: Config, base: nat, st: InitState, v: Visited)
    requires ReachInv(cfg, st) && InitInv(cfg, base, st) && Shares(cfg, st, v)
    ensures ReachInv(cfg, InitVisit(cfg, st, v))
  {
    var st' := InitVisit(cfg, st, v);
    var codeOffset := st.codeMap[KeyOf(v.m)];
    RememberKeeps(st.methods, v.ref, codeOffset);
    assert HasFirst(st.placed, KeyOf(v.m), codeOffset);
    var k :| 0 <= k < |st.placed| && st.placed[k].first && KeyOf(st.placed[k].m) == KeyOf(v.m) &&
      st.placed[k].codeOffset == codeOffset;
    assert Inside(cfg, base, st, st.placed[k]);
    CoverStep(cfg, st, st', st'.placed[|st.placed|]);
  }

  /** The calls of earlier methods stay covered when the queue loses its first `n` entries for a reason. */
  lemma {:induction false} DroppedServed(cfg: Config, st: InitState, st': InitState, codeOffset: nat, ref: MethodRef,
                                         n: nat, c: Pending)
    requires QueueInv(cfg, st.patcher.thunks, st.patcher.unprocessed, st.offset)
    requires n <= |st.patcher.unprocessed| && cfg.AlignCode(st.offset) <= codeOffset
    requires AllDropped(cfg, st.patcher.thunks, st.methods, codeOffset, ref, st.patcher.unprocessed, n)
    requires st'.patcher.thunks == st.patcher.thunks
    requires forall r :: r in st.methods ==> r in st'.methods && st'.methods[r] == st.methods[r]
    requires ref in st'.methods && st'.methods[ref] == codeOffset + cfg.Delta()
    requires c in st.patcher.unprocessed && c !in st.patcher.unprocessed[n..]
    ensures Served(cfg, st', c)
  {
    var i :| 0 <= i < |st.patcher.unprocessed| && st.patcher.unprocessed[i] == c;
    assert i < n;
    assert Dropped(cfg, st.patcher.thunks, st.methods, codeOffset, ref, c);
    if st.patcher.thunks != [] {
      assert st.patcher.thunks[|st.patcher.thunks| - 1] in st'.patcher.thunks;
    }
  }

  predicate MayQueue(cfg: Config, st: InitState, v: Visited, n: nat)
  {
    && v.ref !in st.methods && n <= |st.patcher.unprocessed|
    && AllDropped(cfg, st.patcher.thunks, st.methods, CodeAt(cfg, st.offset), v.ref, st.patcher.unprocessed, n)
    && (n < |st.patcher.unprocessed| ==>
          NextAt(cfg, st.offset, v.m) - st.patcher.unprocessed[n].offset <= cfg.MaxPositive())
  }

  lemma {:induction false} QueuedCovers(cfg: Config, st: InitState, v: Visited, n: nat)
    requires ReachInv(cfg, st) && MayQueue(cfg, st, v, n)
    ensures CallsCovered(cfg, Queued(cfg, st, v, st.patcher.unprocessed[n..]))
  {
    var st' := Queued(cfg, st, v, st.patcher.unprocessed[n..]);
    RememberKeeps(st.methods, v.ref, CodeAt(cfg, st.offset) + cfg.Delta());
    forall c | c in st.patcher.unprocessed
      ensures ServedOrQueued(cfg, st', c)
    {
      if c !in st.patcher.unprocessed[n..] { DroppedServed(cfg, st, st', CodeAt(cfg, st.offset), v.ref, n, c); }
    }
    CoverStep(cfg, st, st', st'.placed[|st.placed|]);
  }

  /** Placing a method without a thunk: its calls join what is left of the queue. */
  lemma {:induction false} PlaceQueued(cfg: Config, st: InitState, v: Visited, n: nat)
    requires ReachInv(cfg, st) && MethodFits(cfg, v.m) && MayQueue(cfg, st, v, n)
    ensures ReachInv(cfg, Queued(cfg, st, v, st.patcher.unprocessed[n..]))
  {
    RememberKeeps(st.methods, v.ref, CodeAt(cfg, st.offset) + cfg.Delta());
    QueueJoins(cfg, st, v.m, n);
    QueuedCovers(cfg, st, v, n);
  }

  lemma {:induction false} QueueJoins(cfg: Config, st: InitState, m: CompiledMethod, n: nat)
    requires QueueInv(cfg, st.patcher.thunks, st.patcher.unprocessed, st.offset) && MethodFits(cfg, m)
    requires Increasing(st.patcher.thunks, st.offset) && n <= |st.patcher.unprocessed|
    requires n < |st.patcher.unprocessed| ==>
               NextAt(cfg, st.offset, m) - st.patcher.unprocessed[n].offset <= cfg.MaxPositive()
    ensures var codeOffset := CodeAt(cfg, st.offset);
            QueueInv(cfg, st.patcher.thunks, st.patcher.unprocessed[n..] + Calls(m.patches, codeOffset),
                     codeOffset + cfg.Size(m))
  {
    var codeOffset := CodeAt(cfg, st.offset);
    var calls := Calls(m.patches, codeOffset);
    var left := st.patcher.unprocessed[n..];
    CallsOrdered(m.patches, codeOffset, cfg.Size(m));
    TailInv(cfg, st.patcher.thunks, st.patcher.unprocessed, st.offset, n);
    assert left != [] ==> left[0] == st.patcher.unprocessed[n];
    if st.patcher.thunks != [] { assert st.patcher.thunks[|st.patcher.thunks| - 1] < st.offset; }
  }

  lemma {:induction false} BehindThunkQueue(cfg: Config, thunks: seq<nat>, aligned: nat, m: CompiledMethod)
    requires MethodFits(cfg, m)
    ensures QueueInv(cfg, thunks + [aligned], Calls(m.patches, aligned + HEADER_SIZE),
                     cfg.AlignCode(cfg.AlignCode(aligned + |cfg.thunk|)) + HEADER_SIZE + cfg.Size(m))
  {
    CallsOrdered(m.patches, aligned + HEADER_SIZE, cfg.Size(m));
    var calls := Calls(m.patches, aligned + HEADER_SIZE);
    var thunks' := thunks + [aligned];
    assert thunks'[|thunks'| - 1] == aligned;
  }

  /** A thunk at the aligned offset serves every waiting call. */
  lemma {:induction false} ThunkServesQueue(cfg: Config, st: InitState, st': InitState, c: Pending)
    requires QueueInv(cfg, st.patcher.thunks, st.patcher.unprocessed, st.offset)
    requires cfg.AlignCode(st.offset) in st'.patcher.thunks && c in st.patcher.unprocessed
    ensures Served(cfg, st', c)
  {
  }

  /** The thunk just before a method serves the calls of the method. */
  lemma {:induction false} ThunkServesNext(cfg: Config, st': InitState, aligned: nat, m: CompiledMethod, c: Pending)
    requires MethodFits(cfg, m) && aligned in st'.patcher.thunks
    requires c in Calls(m.patches, cfg.AlignCode(cfg.AlignCode(aligned + |cfg.thunk|)) + HEADER_SIZE)
    ensures Served(cfg, st', c)
  {
    CallsOrdered(m.patches, cfg.AlignCode(cfg.AlignCode(aligned + |cfg.thunk|)) + HEADER_SIZE, cfg.Size(m));
  }

  function BehindThunk(cfg: Config, st: InitState, v: Visited): InitState
  {
    var aligned := cfg.AlignCode(st.offset);
    Place(cfg, st, v, Patcher(st.patcher.thunks + [aligned], Calls(v.m.patches, CodeAt(cfg, st.offset))),
          cfg.AlignCode(aligned + |cfg.thunk|))
  }

  lemma {:induction false} BehindThunkCovers(cfg: Config, st: InitState, v: Visited)
    requires ReachInv(cfg, st) && MethodFits(cfg, v.m)
    ensures CallsCovered(cfg, BehindThunk(cfg, st, v))
  {
    var st' := BehindThunk(cfg, st, v);
    var p := st'.placed[|st.placed|];
    RememberKeeps(st.methods, v.ref, p.codeOffset);
    var aligned := cfg.AlignCode(st.offset);
    assert aligned in st'.patcher.thunks;
    forall c | c in st.patcher.unprocessed
      ensures ServedOrQueued(cfg, st', c)
    {
      ThunkServesQueue(cfg, st, st', c);
    }
    forall c | c in Calls(p.m.patches, Begin(cfg, p))
      ensures ServedOrQueued(cfg, st', c)
    {
      ThunkServesNext(cfg, st', aligned, v.m, c);
    }
    CoverStep(cfg, st, st', p);
  }

  /** Placing a method behind a new thunk: the thunk serves all waiting calls and those of the method. */
  lemma {:induction false} PlaceBehindThunk(cfg: Config, st: InitState, v: Visited)
    requires ReachInv(cfg, st) && MethodFits(cfg, v.m)
    ensures ReachInv(cfg, BehindThunk(cfg, st, v))
  {
    BehindThunkBelow(cfg, st, v);
    BehindThunkQueue(cfg, st.patcher.thunks, cfg.AlignCode(st.offset), v.m);
    BehindThunkCovers(cfg, st, v);
  }

  lemma {:induction false} BehindThunkBelow(cfg: Config, st: InitState, v: Visited)
    requires ReachInv(cfg, st)
    ensures var st' := BehindThunk(cfg, st, v);
            Increasing(st'.patcher.thunks, st'.offset) && MethodsBelow(cfg, st'.methods, st'.offset)
  {
    var st' := BehindThunk(cfg, st, v);
    RememberKeeps(st.methods, v.ref, st'.placed[|st.placed|].codeOffset);
  }

  function Queued(cfg: Config, st: InitState, v: Visited, left: seq<Pending>): InitState
  {
    Place(cfg, st, v, Patcher(st.patcher.thunks, left + Calls(v.m.patches, CodeAt(cfg, st.offset))), st.offset)
  }

  lemma {:induction false} ReserveWaits(cfg: Config, st: InitState, v: Visited)
    requires cfg.HasThunks() && !Crowded(cfg, st.patcher, st.offset, v.m)
    ensures ReserveSpace(cfg, st.patcher, st.methods, st.offset, v) ==
            (Patcher(st.patcher.thunks, st.patcher.unprocessed + Calls(v.m.patches, CodeAt(cfg, st.offset))), st.offset)
  {
  }

  lemma {:induction false} ReserveThunk(cfg: Config, st: InitState, v: Visited)
    requires cfg.HasThunks() && Crowded(cfg, st.patcher, st.offset, v.m)
    requires Processed(cfg, st.patcher, st.methods, st.offset, v).0
    ensures ReserveSpace(cfg, st.patcher, st.methods, st.offset, v) ==
            (Patcher(st.patcher.thunks + [cfg.AlignCode(st.offset)], Calls(v.m.patches, CodeAt(cfg, st.offset))),
            cfg.AlignCode(cfg.AlignCode(st.offset) + |cfg.thunk|))
  {
  }

  lemma {:induction false} ReserveDrops(cfg: Config, st: InitState, v: Visited)
    requires cfg.HasThunks() && Crowded(cfg, st.patcher, st.offset, v.m)
    requires !Processed(cfg, st.patcher, st.methods, st.offset, v).0
    ensures ReserveSpace(cfg, st.patcher, st.methods, st.offset, v) ==
            (Patcher(st.patcher.thunks,
                     Processed(cfg, st.patcher, st.methods, st.offset, v).1 + Calls(v.m.patches,
                         CodeAt(cfg, st.offset))), st.offset)
  {
  }

  /** New code goes behind a thunk, or directly with its calls queued. */
  lemma {:induction false} VisitCases(cfg: Config, st: InitState, v: Visited)
    requires cfg.HasThunks() && !Shares(cfg, st, v)
    ensures InitVisit(cfg, st, v) ==
            if !Crowded(cfg, st.patcher, st.offset, v.m) then Queued(cfg, st, v, st.patcher.unprocessed)
            else if Processed(cfg, st.patcher, st.methods, st.offset, v).0 then BehindThunk(cfg, st, v)
            else Queued(cfg, st, v, Processed(cfg, st.patcher, st.methods, st.offset, v).1)
  {
    if !Crowded(cfg, st.patcher, st.offset, v.m) {
      ReserveWaits(cfg, st, v);
    } else if Processed(cfg, st.patcher, st.methods, st.offset, v).0 {
      ReserveThunk(cfg, st, v);
    } else {
      ReserveDrops(cfg, st, v);
    }
  }

  lemma {:induction false} FreshKeepsReach(cfg: Config, st: InitState, v: Visited)
    requires ReachInv(cfg, st) && MethodFits(cfg, v.m) && v.ref !in st.methods
    requires NextAt(cfg, st.offset, v.m) < LIMIT
    ensures ReachInv(cfg, if !Crowded(cfg, st.patcher, st.offset, v.m) then Queued(cfg, st, v, st.patcher.unprocessed)
                     else if Processed(cfg, st.patcher, st.methods, st.offset, v).0 then BehindThunk(cfg, st, v)
                     else Queued(cfg, st, v, Processed(cfg, st.patcher, st.methods, st.offset, v).1))
  {
    if !Crowded(cfg, st.patcher, st.offset, v.m) {
      VisitWaits(cfg, st, v);
    } else if Processed(cfg, st.patcher, st.methods, st.offset, v).0 {
      PlaceBehindThunk(cfg, st, v);
    } else {
      VisitDrops(cfg, st, v);
    }
  }

  lemma {:induction false} VisitKeepsReach(cfg: Config, base: nat, st: InitState, v: Visited)
    requires cfg.HasThunks() && ReachInv(cfg, st) && InitInv(cfg, base, st)
    requires MethodFits(cfg, v.m) && v.ref !in st.methods
    requires Shares(cfg, st, v) || NextAt(cfg, st.offset, v.m) < LIMIT
    ensures ReachInv(cfg, InitVisit(cfg, st, v))
  {
    if Shares(cfg, st, v) {
      ShareKeeps(cfg, base, st, v);
    } else {
      VisitCases(cfg, st, v);
      FreshKeepsReach(cfg, st, v);
    }
  }

  lemma {:induction false} VisitWaits(cfg: Config, st: InitState, v: Visited)
    requires ReachInv(cfg, st)
    requires MethodFits(cfg, v.m) && v.ref !in st.methods
    requires NextAt(cfg, st.offset, v.m) < LIMIT
    requires !Crowded(cfg, st.patcher, st.offset, v.m)
    ensures ReachInv(cfg, Queued(cfg, st, v, st.patcher.unprocessed))
  {
    var q := st.patcher.unprocessed;
    if q != [] { DiffIs(NextAt(cfg, st.offset, v.m), q[0].offset); }
    assert q[0..] == q;
    PlaceQueued(cfg, st, v, 0);
  }

  lemma {:induction false} VisitDrops(cfg: Config, st: InitState, v: Visited)
    requires ReachInv(cfg, st)
    requires MethodFits(cfg, v.m) && v.ref !in st.methods
    requires NextAt(cfg, st.offset, v.m) < LIMIT
    requires !Processed(cfg, st.patcher, st.methods, st.offset, v).0
    ensures ReachInv(cfg, Queued(cfg, st, v, Processed(cfg, st.patcher, st.methods, st.offset, v).1))
  {
    var q := st.patcher.unprocessed;
    ProcessDrops(cfg, st.patcher.thunks, q, st.methods, st.offset, CodeAt(cfg, st.offset), v.ref,
                 NextAt(cfg, st.offset, v.m));
    PlaceQueued(cfg, st, v, |q| - |Processed(cfg, st.patcher, st.methods, st.offset, v).1|);
  }

  // ----- Whole runs -----

  /** The methods a run is made of: each compiled once, small enough, in a file that is small enough. */
  predicate RunFits(cfg: Config, base: nat, vs: seq<Visited>)
  {
    && cfg.HasThunks()
    && (forall i :: 0 <= i < |vs| ==> MethodFits(cfg, vs[i].m))
    && (forall i, j :: 0 <= i < j < |vs| ==> vs[i].ref != vs[j].ref)
    && At(cfg, base, vs, |vs|).offset + 16 < LIMIT
  }

  lemma {:induction false} RunRemembers(cfg: Config, base: nat, vs: seq<Visited>, i: nat, r: MethodRef)
    requires i <= |vs|
    ensures r in At(cfg, base, vs, i).methods <==> Compiled(vs[..i], r)
  {
    if i > 0 {
      RunRemembers(cfg, base, vs, i - 1, r);
      AtStep(cfg, base, vs, i - 1);
      VisitRemembers(cfg, At(cfg, base, vs, i - 1), vs[i - 1]);
      CompiledSnoc(vs, i - 1, r);
    }
  }

  lemma {:induction false} CompiledSnoc(vs: seq<Visited>, i: nat, r: MethodRef)
    requires i < |vs|
    ensures Compiled(vs[..i + 1], r) <==> Compiled(vs[..i], r) || vs[i].ref == r
  {
    if Compiled(vs[..i], r) {
      var j :| 0 <= j < i && vs[..i][j].ref == r;
      assert vs[..i + 1][j].ref == r;
    }
    if vs[i].ref == r { assert vs[..i + 1][i].ref == r; }
    if Compiled(vs[..i + 1], r) {
      var j :| 0 <= j < i + 1 && vs[..i + 1][j].ref == r;
      if j < i { assert vs[..i][j].ref == r; }
    }
  }

  lemma {:induction false} VisitRemembers(cfg: Config, st: InitState, v: Visited)
    ensures InitVisit(cfg, st, v).methods.Keys == st.methods.Keys + {v.ref}
  {
  }

  lemma {:induction false} NotYetCompiled(cfg: Config, base: nat, vs: seq<Visited>, i: nat)
    requires i < |vs|
    requires forall j :: 0 <= j < i ==> vs[j].ref != vs[i].ref
    ensures vs[i].ref !in At(cfg, base, vs, i).methods
  {
    RunRemembers(cfg, base, vs, i, vs[i].ref);
  }

  lemma {:induction false} VisitEnds(cfg: Config, st: InitState, v: Visited)
    ensures Shares(cfg, st, v) || NextAt(cfg, st.offset, v.m) < InitVisit(cfg, st, v).offset + 16
  {
    if !Shares(cfg, st, v) {
      ReserveCases(cfg, st.patcher, st.methods, st.offset, v);
    }
  }

  lemma {:induction false} StepKeepsReach(cfg: Config, base: nat, vs: seq<Visited>, i: nat)
    requires i < |vs| && cfg.HasThunks() && ReachInv(cfg, At(cfg, base, vs, i)) && MethodFits(cfg, vs[i].m)
    requires vs[i].ref !in At(cfg, base, vs, i).methods
    requires At(cfg, base, vs, |vs|).offset + 16 < LIMIT
    ensures ReachInv(cfg, At(cfg, base, vs, i + 1))
  {
    AtInv(cfg, base, vs, i);
    AtStep(cfg, base, vs, i);
    AtPrefix(cfg, base, vs, i + 1, |vs|);
    VisitEnds(cfg, At(cfg, base, vs, i), vs[i]);
    VisitKeepsReach(cfg, base, At(cfg, base, vs, i), vs[i]);
  }

  lemma {:induction false} RunKeepsReach(cfg: Config, base: nat, vs: seq<Visited>, i: nat)
    requires RunFits(cfg, base, vs) && i <= |vs|
    ensures ReachInv(cfg, At(cfg, base, vs, i))
  {
    if i > 0 {
      RunKeepsReach(cfg, base, vs, i - 1);
      NotYetCompiled(cfg, base, vs, i - 1);
      StepKeepsReach(cfg, base, vs, i - 1);
    }
  }

  /** Every relative call in the file goes to a method that is compiled into the file. */
  ghost predicate TargetsCompiled(cfg: Config, vs: seq<Visited>)
  {
    forall i, k :: 0 <= i < |vs| && 0 <= k < |vs[i].m.patches| && vs[i].m.patches[k].kind == PatchCallRelative ==>
      Compiled(vs, MethodRef(vs[i].m.patches[k].dexFile, vs[i].m.patches[k].cmp1))
  }

  ghost predicate Compiled(vs: seq<Visited>, ref: MethodRef)
  {
    exists j :: 0 <= j < |vs| && vs[j].ref == ref
  }

  lemma {:induction false} CallRefs(patches: seq<LinkerPatch>, start: nat, c: Pending) returns (k: nat)
    requires c in Calls(patches, start)
    ensures k < |patches| && patches[k].kind == PatchCallRelative
    ensures c == Pending(MethodRef(patches[k].dexFile, patches[k].cmp1), start + patches[k].literalOffset)
  {
    var rest := Calls(patches[1..], start);
    if patches[0].kind == PatchCallRelative && c == Calls(patches, start)[0] {
      k := 0;
    } else {
      assert c in rest;
      k := CallRefs(patches[1..], start, c);
      k := k + 1;
    }
  }

  ghost predicate QueueCompiled(vs: seq<Visited>, q: seq<Pending>)
  {
    forall c :: c in q ==> Compiled(vs, c.ref)
  }

  lemma {:induction false} VisitQueue(cfg: Config, st: InitState, v: Visited, c: Pending)
    requires c in InitVisit(cfg, st, v).patcher.unprocessed
    ensures c in st.patcher.unprocessed || c in Calls(v.m.patches, CodeAt(cfg, st.offset))
  {
  }

  lemma {:induction false} RunQueueCompiled(cfg: Config, base: nat, vs: seq<Visited>, i: nat)
    requires TargetsCompiled(cfg, vs) && i <= |vs|
    ensures QueueCompiled(vs, At(cfg, base, vs, i).patcher.unprocessed)
  {
    if i > 0 {
      RunQueueCompiled(cfg, base, vs, i - 1);
      AtStep(cfg, base, vs, i - 1);
      var st, v := At(cfg, base, vs, i - 1), vs[i - 1];
      forall c | c in At(cfg, base, vs, i).patcher.unprocessed
        ensures Compiled(vs, c.ref)
      {
        VisitQueue(cfg, st, v, c);
        if c !in st.patcher.unprocessed {
          var k := CallRefs(v.m.patches, CodeAt(cfg, st.offset), c);
        }
      }
    }
  }

  /** At the end of the code a thunk is reserved, or calls without a reason to be dropped are left over. */
  lemma {:induction false} EndServes(cfg: Config, st: InitState, c: Pending)
    requires cfg.HasThunks() && ReachInv(cfg, st) && ServedOrQueued(cfg, st, c)
    requires cfg.AlignCode(st.offset) < LIMIT && c.ref != NO_METHOD
    ensures var end := InitEnd(cfg, st);
            Served(cfg, end, c) || (end.patcher.thunks == st.patcher.thunks && c in end.patcher.unprocessed)
  {
    var end := InitEnd(cfg, st);
    var aligned, q := cfg.AlignCode(st.offset), st.patcher.unprocessed;
    var r := ProcessPatches(cfg, st.patcher.thunks, q, st.methods, aligned, NO_METHOD, aligned);
    if Served(cfg, st, c) {
      ServedStays(cfg, st, end, c);
    } else if r.0 {
      assert aligned in end.patcher.thunks;
      ThunkServesQueue(cfg, st, end, c);
    } else if c !in r.1 {
      ProcessDrops(cfg, st.patcher.thunks, q, st.methods, st.offset, aligned, NO_METHOD, aligned);
      EndDropped(cfg, st, end, |q| - |r.1|, c);
    }
  }

  lemma {:induction false} EndDropped(cfg: Config, st: InitState, end: InitState, n: nat, c: Pending)
    requires QueueInv(cfg, st.patcher.thunks, st.patcher.unprocessed, st.offset) && n <= |st.patcher.unprocessed|
    requires AllDropped(cfg, st.patcher.thunks, st.methods, cfg.AlignCode(st.offset), NO_METHOD, st.patcher.unprocessed,
                        n)
    requires end.patcher.thunks == st.patcher.thunks && end.methods == st.methods
    requires c in st.patcher.unprocessed && c !in st.patcher.unprocessed[n..] && c.ref != NO_METHOD
    ensures Served(cfg, end, c)
  {
    var i :| 0 <= i < |st.patcher.unprocessed| && st.patcher.unprocessed[i] == c;
    assert i < n;
    assert Dropped(cfg, st.patcher.thunks, st.methods, cfg.AlignCode(st.offset), NO_METHOD, c);
    if st.patcher.thunks != [] {
      assert st.patcher.thunks[|st.patcher.thunks| - 1] in end.patcher.thunks;
    }
  }

  /** Nothing is left over when every target is compiled. */
  lemma {:induction false} NothingLeft(cfg: Config, base: nat, vs: seq<Visited>)
    requires RunFits(cfg, base, vs) && TargetsCompiled(cfg, vs)
    ensures var st := At(cfg, base, vs, |vs|);
            InitEnd(cfg, st).patcher.thunks != st.patcher.thunks || InitEnd(cfg, st).patcher.unprocessed == []
  {
    var st := At(cfg, base, vs, |vs|);
    RunKeepsReach(cfg, base, vs, |vs|);
    RunQueueCompiled(cfg, base, vs, |vs|);
    var aligned, q := cfg.AlignCode(st.offset), st.patcher.unprocessed;
    ProcessDrops(cfg, st.patcher.thunks, q, st.methods, st.offset, aligned, NO_METHOD, aligned);
    var r := ProcessPatches(cfg, st.patcher.thunks, q, st.methods, aligned, NO_METHOD, aligned);
    if !r.0 && r.1 != [] {
      assert r.1[0] in q;
      assert vs[..|vs|] == vs;
      RunRemembers(cfg, base, vs, |vs|, r.1[0].ref);
      assert false;
    }
  }

  lemma {:induction false} PassIsAt(cfg: Config, base: nat, vs: seq<Visited>)
    ensures InitPass(cfg, base, vs) == InitEnd(cfg, At(cfg, base, vs, |vs|))
    ensures InitPass(cfg, base, vs).placed == At(cfg, base, vs, |vs|).placed
    ensures |InitPass(cfg, base, vs).placed| == |vs|
  {
    assert vs[..|vs|] == vs;
    AtInv(cfg, base, vs, |vs|);
  }

  lemma {:induction false} FirstCovered(cfg: Config, base: nat, vs: seq<Visited>, i: nat, c: Pending)
    requires RunFits(cfg, base, vs) && i < |vs| && !Repeat(cfg, vs, i)
    requires |InitPass(cfg, base, vs).placed| == |vs|
    requires c in Calls(vs[i].m.patches, Begin(cfg, InitPass(cfg, base, vs).placed[i]))
    ensures ServedOrQueued(cfg, At(cfg, base, vs, |vs|), c)
  {
    var st := At(cfg, base, vs, |vs|);
    PassIsAt(cfg, base, vs);
    RunKeepsReach(cfg, base, vs, |vs|);
    AtInv(cfg, base, vs, |vs|);
    FirstIsNotRepeat(cfg, base, vs, i);
    assert st.placed[i].first && st.placed[i].m == vs[i].m;
  }

  /** A call that waits in the queue when the code ends and for which no last thunk is reserved. */
  ghost predicate LeftOver(cfg: Config, base: nat, vs: seq<Visited>, c: Pending)
  {
    && InitPass(cfg, base, vs).patcher.thunks == At(cfg, base, vs, |vs|).patcher.thunks
    && c in InitPass(cfg, base, vs).patcher.unprocessed
  }

  lemma {:induction false} AllServed(cfg: Config, base: nat, vs: seq<Visited>, i: nat, c: Pending)
    requires RunFits(cfg, base, vs) && i < |vs| && !Repeat(cfg, vs, i)
    requires |InitPass(cfg, base, vs).placed| == |vs|
    requires c in Calls(vs[i].m.patches, Begin(cfg, InitPass(cfg, base, vs).placed[i]))
    ensures Served(cfg, InitPass(cfg, base, vs), c) || LeftOver(cfg, base, vs, c)
  {
    PassIsAt(cfg, base, vs);
    FirstCovered(cfg, base, vs, i, c);
    var k := CallRefs(vs[i].m.patches, Begin(cfg, InitPass(cfg, base, vs).placed[i]), c);
    assert c.ref != NO_METHOD;
    RunKeepsReach(cfg, base, vs, |vs|);
    EndServes(cfg, At(cfg, base, vs, |vs|), c);
  }

  // ----- The Write pass -----

  /** How many thunks are out when the Write pass patches method `i`. */
  function WrittenAt(cfg: Config, base: nat, vs: seq<Visited>, i: nat): nat
    requires i < |vs|
  {
    |At(cfg, base, vs, i + 1).patcher.thunks|
  }

  /** The Write pass really has that many thunks behind it. */
  lemma {:induction false} WrittenAtIsWritten(cfg: Config, base: nat, vs: seq<Visited>, i: nat)
    requires i < |vs| && NonEmptyCode(cfg, vs) && NoTinyRepeat(cfg, vs)
    ensures |InitPass(cfg, base, vs).placed| == |vs|
    ensures var end := InitPass(cfg, base, vs);
            WriteRun(cfg, end.patcher.thunks, WriteStart(base), end.placed[..i + 1]).thunksWritten ==
              WrittenAt(cfg, base, vs, i)
  {
    forall k | 0 <= k < i + 1
      ensures !Misfires(cfg, At(cfg, base, vs, k), vs[k])
    {
      MisfireIsTinyRepeat(cfg, base, vs, k);
    }
    SimUpTo(cfg, base, vs, i + 1);
  }

  /** The first `written` thunks lie before `lo`, the others at or behind `hi`, in increasing order. */
  predicate ThunksSplit(thunks: seq<nat>, written: nat, lo: nat, hi: nat)
  {
    && written <= |thunks|
    && (forall k :: 0 <= k < written ==> thunks[k] < lo)
    && (forall k :: written <= k < |thunks| ==> hi <= thunks[k])
    && (forall k, l :: 0 <= k < l < |thunks| ==> thunks[k] < thunks[l])
    && (forall k :: 0 <= k < |thunks| ==> thunks[k] < LIMIT)
  }

  lemma {:induction false} ThunksOfPrefix(cfg: Config, base: nat, vs: seq<Visited>, i: nat)
    requires i <= |vs|
    ensures At(cfg, base, vs, i).patcher.thunks <= InitPass(cfg, base, vs).patcher.thunks
    ensures ThunksBehind(InitPass(cfg, base, vs).patcher.thunks, |At(cfg, base, vs, i).patcher.thunks|,
                         At(cfg, base, vs, i).offset)
  {
    PassIsAt(cfg, base, vs);
    assert vs[..|vs|] == vs;
    RunFrom(cfg, base, vs, i);
    EndGrows(cfg, At(cfg, base, vs, |vs|));
    LaterThunks(cfg, At(cfg, base, vs, i), vs[i..], InitPass(cfg, base, vs).patcher.thunks);
  }

  lemma {:induction false} FinalSlot(cfg: Config, base: nat, vs: seq<Visited>, i: nat)
    requires i < |vs|
    ensures |InitPass(cfg, base, vs).placed| == |vs| && |At(cfg, base, vs, i + 1).placed| == i + 1
    ensures InitPass(cfg, base, vs).placed[i] == At(cfg, base, vs, i + 1).placed[i]
  {
    PassIsAt(cfg, base, vs);
    AtPrefix(cfg, base, vs, i + 1, |vs|);
    AtInv(cfg, base, vs, i + 1);
    var placed := InitPass(cfg, base, vs).placed;
    assert placed[i] == placed[..i + 1][i];
  }

  /** Thunks written before a method lie before its code, the others behind it. */
  lemma {:induction false} ThunksAround(cfg: Config, base: nat, vs: seq<Visited>, i: nat)
    requires RunFits(cfg, base, vs) && i < |vs| && !Repeat(cfg, vs, i)
    ensures |InitPass(cfg, base, vs).placed| == |vs|
    ensures var end := InitPass(cfg, base, vs);
            var start := Begin(cfg, end.placed[i]);
            ThunksSplit(end.patcher.thunks, WrittenAt(cfg, base, vs, i), start, start + cfg.Size(vs[i].m))
  {
    FinalThunks(cfg, base, vs);
    ThunksOfPrefix(cfg, base, vs, i + 1);
    FreshThunks(cfg, base, vs, i);
    FinalSlot(cfg, base, vs, i);
    var start := Begin(cfg, InitPass(cfg, base, vs).placed[i]);
    SplitFrom(InitPass(cfg, base, vs).patcher.thunks, At(cfg, base, vs, i + 1).patcher.thunks, start,
              start + cfg.Size(vs[i].m));
  }

  lemma {:induction false} FinalThunks(cfg: Config, base: nat, vs: seq<Visited>)
    requires RunFits(cfg, base, vs)
    ensures var thunks := InitPass(cfg, base, vs).patcher.thunks;
            && (forall k, l :: 0 <= k < l < |thunks| ==> thunks[k] < thunks[l])
            && (forall k :: 0 <= k < |thunks| ==> thunks[k] < LIMIT)
  {
    PassIsAt(cfg, base, vs);
    RunKeepsReach(cfg, base, vs, |vs|);
    EndThunks(cfg, At(cfg, base, vs, |vs|));
  }

  lemma {:induction false} SplitFrom(thunks: seq<nat>, part: seq<nat>, lo: nat, hi: nat)
    requires part <= thunks && ThunksBehind(thunks, |part|, hi)
    requires forall k :: 0 <= k < |part| ==> part[k] < lo
    requires forall k, l :: 0 <= k < l < |thunks| ==> thunks[k] < thunks[l]
    requires forall k :: 0 <= k < |thunks| ==> thunks[k] < LIMIT
    ensures ThunksSplit(thunks, |part|, lo, hi)
  {
    assert forall k :: 0 <= k < |part| ==> thunks[k] == part[k];
  }

  lemma {:induction false} EndThunks(cfg: Config, st: InitState)
    requires Increasing(st.patcher.thunks, st.offset) && cfg.AlignCode(st.offset) < LIMIT
    ensures var thunks := InitEnd(cfg, st).patcher.thunks;
            && (forall k, l :: 0 <= k < l < |thunks| ==> thunks[k] < thunks[l])
            && (forall k :: 0 <= k < |thunks| ==> thunks[k] < LIMIT)
  {
  }

  /** A new method lies behind all thunks reserved so far. */
  lemma {:induction false} FreshThunks(cfg: Config, base: nat, vs: seq<Visited>, i: nat)
    requires RunFits(cfg, base, vs) && i < |vs| && !Repeat(cfg, vs, i)
    ensures |At(cfg, base, vs, i + 1).placed| == i + 1
    ensures var st := At(cfg, base, vs, i + 1);
            && (forall k :: 0 <= k < |st.patcher.thunks| ==> st.patcher.thunks[k] < Begin(cfg, st.placed[i]))
            && st.offset == Begin(cfg, st.placed[i]) + cfg.Size(vs[i].m)
  {
    AtInv(cfg, base, vs, i);
    AtStep(cfg, base, vs, i);
    SharesIsRepeat(cfg, base, vs, i);
    RunKeepsReach(cfg, base, vs, i);
    VisitThunks(cfg, At(cfg, base, vs, i), vs[i]);
  }

  lemma {:induction false} VisitThunks(cfg: Config, st: InitState, v: Visited)
    requires Increasing(st.patcher.thunks, st.offset) && !Shares(cfg, st, v)
    ensures var st' := InitVisit(cfg, st, v);
            && (forall k :: 0 <= k < |st'.patcher.thunks| ==>
                st'.patcher.thunks[k] < Begin(cfg, st'.placed[|st.placed|]))
            && st'.offset == Begin(cfg, st'.placed[|st.placed|]) + cfg.Size(v.m)
  {
  }

  /** The next thunk lies exactly at the maximum displacement, where the Write pass does not take it. */
  predicate AtTheLimit(cfg: Config, thunks: seq<nat>, written: nat, patch: nat)
  {
    written < |thunks| && thunks[written] - patch == cfg.MaxPositive()
  }

  /** A thunk before a call is no closer than the last one written; one behind it no closer than the next. */
  lemma {:induction false} NearestThunk(thunks: seq<nat>, written: nat, lo: nat, hi: nat, at: nat, t: nat)
    requires ThunksSplit(thunks, written, lo, hi) && lo <= at < hi && t in thunks
    ensures t < at ==> written > 0 && t <= thunks[written - 1] < at
    ensures t >= at ==> written < |thunks| && at < thunks[written] <= t
  {
    var k :| 0 <= k < |thunks| && thunks[k] == t;
    if k < written {
      assert thunks[k] < lo;
      if k < written - 1 { assert thunks[k] < thunks[written - 1]; }
    } else {
      assert hi <= thunks[k];
      if written < k { assert thunks[written] < thunks[k]; }
    }
  }

  /** A served call is within reach when it is written, except at the exact limit. */
  lemma {:induction false} ServedReaches(cfg: Config, end: InitState, written: nat, lo: nat, hi: nat, c: Pending,
                                         target: nat)
    requires Served(cfg, end, c) && c.offset < LIMIT && target < LIMIT
    requires c.ref in end.methods ==> target == end.methods[c.ref] - cfg.Delta()
    requires ThunksSplit(end.patcher.thunks, written, lo, hi) && lo <= c.offset < hi
    ensures Reaches(cfg, end.patcher.thunks, written, c.offset, target)
            || AtTheLimit(cfg, end.patcher.thunks, written, c.offset)
  {
    var thunks := end.patcher.thunks;
    forall t | t in thunks
      ensures t < c.offset ==> written > 0 && t <= thunks[written - 1] < c.offset
      ensures t >= c.offset ==> written < |thunks| && c.offset < thunks[written] <= t
    {
      NearestThunk(thunks, written, lo, hi, c.offset, t);
    }
    if written > 0 { assert thunks[written - 1] in thunks; }
    if written < |thunks| { assert thunks[written] in thunks; }
    ReachesIff(cfg, thunks, written, c.offset, target);
  }

  lemma {:induction false} TargetBounded(cfg: Config, base: nat, vs: seq<Visited>, ref: MethodRef)
    requires RunFits(cfg, base, vs)
    ensures var end := InitPass(cfg, base, vs);
            ref in end.methods ==> cfg.Delta() <= end.methods[ref] && end.methods[ref] - cfg.Delta() < LIMIT
  {
    PassIsAt(cfg, base, vs);
    RunKeepsReach(cfg, base, vs, |vs|);
  }

  /** A call lies inside its method. */
  lemma {:induction false} CallInside(cfg: Config, base: nat, vs: seq<Visited>, i: nat, c: Pending)
    requires RunFits(cfg, base, vs) && i < |vs| && !Repeat(cfg, vs, i)
    requires |InitPass(cfg, base, vs).placed| == |vs|
    requires c in Calls(vs[i].m.patches, Begin(cfg, InitPass(cfg, base, vs).placed[i]))
    ensures var start := Begin(cfg, InitPass(cfg, base, vs).placed[i]);
            start <= c.offset < start + cfg.Size(vs[i].m) < LIMIT
  {
    var start := Begin(cfg, InitPass(cfg, base, vs).placed[i]);
    CallsOrdered(vs[i].m.patches, start, cfg.Size(vs[i].m));
    FirstInside(cfg, base, vs, i);
  }

  lemma {:induction false} FirstInside(cfg: Config, base: nat, vs: seq<Visited>, i: nat)
    requires i < |vs| && !Repeat(cfg, vs, i)
    ensures |InitPass(cfg, base, vs).placed| == |vs|
    ensures Begin(cfg, InitPass(cfg, base, vs).placed[i]) + cfg.Size(vs[i].m) <= At(cfg, base, vs, |vs|).offset
  {
    assert vs[..|vs|] == vs;
    AtInv(cfg, base, vs, |vs|);
    FirstIsNotRepeat(cfg, base, vs, i);
    var st := At(cfg, base, vs, |vs|);
    assert Inside(cfg, base, st, st.placed[i]);
  }

  /** The offset a call is written for: its target's code if that is compiled, else the given trampoline. */
  function TargetOf(cfg: Config, end: InitState, c: Pending, trampoline: nat): int
  {
    if c.ref in end.methods then end.methods[c.ref] - cfg.Delta() else trampoline
  }

  /** Every relative call of every method gets a displacement its branch can encode, unless its next
      thunk lies at exactly the maximum displacement or it is left over at the end of the code. */
  lemma {:induction false} ReachesUnless(cfg: Config, base: nat, vs: seq<Visited>, i: nat, c: Pending, trampoline: nat)
    requires RunFits(cfg, base, vs) && i < |vs| && !Repeat(cfg, vs, i) && trampoline < LIMIT
    requires |InitPass(cfg, base, vs).placed| == |vs|
    requires c in Calls(vs[i].m.patches, Begin(cfg, InitPass(cfg, base, vs).placed[i]))
    ensures WrittenAt(cfg, base, vs, i) <= |InitPass(cfg, base, vs).patcher.thunks|
    ensures var end := InitPass(cfg, base, vs);
            && 0 <= TargetOf(cfg, end, c, trampoline) < LIMIT
            && (|| Reaches(cfg, end.patcher.thunks, WrittenAt(cfg, base, vs, i), c.offset,
                           TargetOf(cfg, end, c, trampoline))
                || AtTheLimit(cfg, end.patcher.thunks, WrittenAt(cfg, base, vs, i), c.offset)
                || LeftOver(cfg, base, vs, c))
  {
    var end := InitPass(cfg, base, vs);
    var start := Begin(cfg, end.placed[i]);
    AllServed(cfg, base, vs, i, c);
    ThunksAround(cfg, base, vs, i);
    CallInside(cfg, base, vs, i, c);
    TargetBounded(cfg, base, vs, c.ref);
    if Served(cfg, end, c) {
      ServedReaches(cfg, end, WrittenAt(cfg, base, vs, i), start, start + cfg.Size(vs[i].m), c,
                    TargetOf(cfg, end, c, trampoline));
    }
  }

  /** A call left over lies behind every thunk. */
  lemma {:induction false} LeftOverBehind(cfg: Config, base: nat, vs: seq<Visited>, c: Pending, t: nat)
    requires RunFits(cfg, base, vs) && LeftOver(cfg, base, vs, c) && t in InitPass(cfg, base, vs).patcher.thunks
    ensures t < c.offset
  {
    PassIsAt(cfg, base, vs);
    RunKeepsReach(cfg, base, vs, |vs|);
    WaitsBehind(cfg, At(cfg, base, vs, |vs|), c, t);
  }

  lemma {:induction false} WaitsBehind(cfg: Config, st: InitState, c: Pending, t: nat)
    requires QueueInv(cfg, st.patcher.thunks, st.patcher.unprocessed, st.offset) &&
             Increasing(st.patcher.thunks, st.offset)
    requires c in InitEnd(cfg, st).patcher.unprocessed && t in st.patcher.thunks
    ensures t < c.offset
  {
    StillWaiting(cfg, st, c);
    BehindLast(st.patcher.thunks, t, c.offset, st.offset);
  }

  lemma {:induction false} StillWaiting(cfg: Config, st: InitState, c: Pending)
    requires c in InitEnd(cfg, st).patcher.unprocessed
    ensures c in st.patcher.unprocessed
  {
  }

  lemma {:induction false} BehindLast(thunks: seq<nat>, t: nat, at: nat, offset: nat)
    requires Increasing(thunks, offset) && t in thunks && thunks[|thunks| - 1] < at
    ensures t < at
  {
    var k :| 0 <= k < |thunks| && thunks[k] == t;
    if k < |thunks| - 1 { assert thunks[k] < thunks[|thunks| - 1]; }
  }

  /** The last thunk in front of a call is in range of its branch. */
  predicate BackInRange(cfg: Config, thunks: seq<nat>, written: nat, patch: nat)
  {
    0 < written <= |thunks| && Direct(cfg, patch, thunks[written - 1])
  }

  /** A call is reached by way of the next thunk only if it is neither at the limit nor left over. */
  lemma {:induction false} NextThunkReaches(cfg: Config, base: nat, vs: seq<Visited>, i: nat, c: Pending, written: nat)
    requires RunFits(cfg, base, vs) && i < |vs| && !Repeat(cfg, vs, i) && written == WrittenAt(cfg, base, vs, i)
    requires |InitPass(cfg, base, vs).placed| == |vs|
    requires c in Calls(vs[i].m.patches, Begin(cfg, InitPass(cfg, base, vs).placed[i]))
    requires written < |InitPass(cfg, base, vs).patcher.thunks|
    ensures !LeftOver(cfg, base, vs, c)
  {
    var end := InitPass(cfg, base, vs);
    ThunksAround(cfg, base, vs, i);
    CallInside(cfg, base, vs, i, c);
    if LeftOver(cfg, base, vs, c) { LeftOverBehind(cfg, base, vs, c, end.patcher.thunks[written]); }
  }

  lemma {:induction false} ReachWays(cfg: Config, base: nat, vs: seq<Visited>, i: nat, c: Pending, target: nat,
                                     written: nat)
    requires RunFits(cfg, base, vs) && i < |vs| && !Repeat(cfg, vs, i) && written == WrittenAt(cfg, base, vs, i)
    requires |InitPass(cfg, base, vs).placed| == |vs| && target < LIMIT
    requires c in Calls(vs[i].m.patches, Begin(cfg, InitPass(cfg, base, vs).placed[i]))
    ensures var thunks := InitPass(cfg, base, vs).patcher.thunks;
            && written <= |thunks|
            && (Reaches(cfg, thunks, written, c.offset, target) <==>
                || Direct(cfg, c.offset, target)
                || (written < |thunks| && thunks[written] - c.offset < cfg.MaxPositive())
                || BackInRange(cfg, thunks, written, c.offset))
  {
    ThunksAround(cfg, base, vs, i);
    CallInside(cfg, base, vs, i, c);
    ReachesIff(cfg, InitPass(cfg, base, vs).patcher.thunks, written, c.offset, target);
  }

  /** Over whole runs: a relative call can be encoded exactly if its target or the last thunk in front of it is in
      range, or it is neither left over nor exactly at the maximum displacement from its next thunk. `written` is what
      the Write pass has behind it. */
  lemma {:induction false} TheoremCallsReach(cfg: Config, base: nat, vs: seq<Visited>, i: nat, c: Pending,
                                             trampoline: nat, written: nat)
    requires RunFits(cfg, base, vs) && i < |vs| && !Repeat(cfg, vs, i) && trampoline < LIMIT
    requires |InitPass(cfg, base, vs).placed| == |vs| && written == WrittenAt(cfg, base, vs, i)
    requires c in Calls(vs[i].m.patches, Begin(cfg, InitPass(cfg, base, vs).placed[i]))
    ensures var end := InitPass(cfg, base, vs);
            && written <= |end.patcher.thunks| && 0 <= TargetOf(cfg, end, c, trampoline) < LIMIT
            && (Reaches(cfg, end.patcher.thunks, written, c.offset, TargetOf(cfg, end, c, trampoline)) <==>
                || Direct(cfg, c.offset, TargetOf(cfg, end, c, trampoline))
                || BackInRange(cfg, end.patcher.thunks, written, c.offset)
                || (!AtTheLimit(cfg, end.patcher.thunks, written, c.offset) && !LeftOver(cfg, base, vs, c)))
    ensures NonEmptyCode(cfg, vs) && NoTinyRepeat(cfg, vs) ==>
              var end := InitPass(cfg, base, vs);
              WriteRun(cfg, end.patcher.thunks, WriteStart(base), end.placed[..i + 1]).thunksWritten == written
  {
    var end := InitPass(cfg, base, vs);
    ReachesUnless(cfg, base, vs, i, c, trampoline);
    ReachWays(cfg, base, vs, i, c, TargetOf(cfg, end, c, trampoline), written);
    if written < |end.patcher.thunks| { NextThunkReaches(cfg, base, vs, i, c, written); }
    if NonEmptyCode(cfg, vs) && NoTinyRepeat(cfg, vs) { WrittenAtIsWritten(cfg, base, vs, i); }
  }

  // ----- Exactly which calls are left over -----

  lemma {:induction false} QueueNamed(cfg: Config, base: nat, vs: seq<Visited>, i: nat, c: Pending)
    requires RunFits(cfg, base, vs) && i <= |vs| && c in At(cfg, base, vs, i).patcher.unprocessed
    ensures c.ref != NO_METHOD
  {
    if i > 0 {
      AtStep(cfg, base, vs, i - 1);
      var st, v := At(cfg, base, vs, i - 1), vs[i - 1];
      VisitQueue(cfg, st, v, c);
      if c in st.patcher.unprocessed {
        QueueNamed(cfg, base, vs, i - 1, c);
      } else {
        var k := CallRefs(v.m.patches, CodeAt(cfg, st.offset), c);
      }
    }
  }

  lemma {:induction false} EndHeadUnknown(cfg: Config, thunks: seq<nat>, q: seq<Pending>, methods: map<MethodRef, nat>,
                                          offset: nat, aligned: nat)
    requires q != [] && q[0].ref != NO_METHOD && q[0].ref !in methods && aligned == cfg.AlignCode(offset) < WORD
    requires QueueInv(cfg, thunks, q, offset)
    ensures ProcessPatches(cfg, thunks, q, methods, aligned, NO_METHOD, aligned) ==
            if thunks != [] && q[0].offset - thunks[|thunks| - 1] <= cfg.MaxNegative()
            then ProcessPatches(cfg, thunks, q[1..], methods, aligned, NO_METHOD, aligned)
            else (false, q)
  {
    DiffIs(aligned, q[0].offset);
    if thunks != [] { DiffIs(q[0].offset, thunks[|thunks| - 1]); }
  }

  lemma {:induction false} ProcessKnown(cfg: Config, thunks: seq<nat>, q: seq<Pending>, methods: map<MethodRef, nat>,
                                        aligned: nat, target: nat)
    requires q != [] && q[0].ref != NO_METHOD && q[0].ref in methods && Diff(methods[q[0].ref], cfg.Delta()) == target
    requires target < q[0].offset ==> Diff(q[0].offset, target) == q[0].offset - target
    requires thunks != [] ==> Diff(q[0].offset, thunks[|thunks| - 1]) == q[0].offset - thunks[|thunks| - 1]
    ensures ProcessPatches(cfg, thunks, q, methods, aligned, NO_METHOD, aligned) ==
            if target >= q[0].offset || q[0].offset - target <= cfg.MaxNegative()
               || (thunks != [] && q[0].offset - thunks[|thunks| - 1] <= cfg.MaxNegative())
            then ProcessPatches(cfg, thunks, q[1..], methods, aligned, NO_METHOD, aligned)
            else (true, q)
  {
  }

  lemma {:induction false} EndHeadKnown(cfg: Config, thunks: seq<nat>, q: seq<Pending>, methods: map<MethodRef, nat>,
                                        offset: nat, aligned: nat)
    requires q != [] && q[0].ref != NO_METHOD && q[0].ref in methods && aligned == cfg.AlignCode(offset) < WORD
    requires QueueInv(cfg, thunks, q, offset) && MethodsBelow(cfg, methods, offset)
    ensures ProcessPatches(cfg, thunks, q, methods, aligned, NO_METHOD, aligned) ==
            if Direct(cfg, q[0].offset, methods[q[0].ref] - cfg.Delta())
               || (thunks != [] && q[0].offset - thunks[|thunks| - 1] <= cfg.MaxNegative())
            then ProcessPatches(cfg, thunks, q[1..], methods, aligned, NO_METHOD, aligned)
            else (true, q)
  {
    var c := q[0];
    TargetDiff(cfg, methods[c.ref], c.offset);
    if thunks != [] { DiffIs(c.offset, thunks[|thunks| - 1]); }
    ProcessKnown(cfg, thunks, q, methods, aligned, methods[c.ref] - cfg.Delta());
  }

  /** At the end of the code a call with a reason to be dropped is dropped; at the first other one processing stops, and
      a thunk is reserved exactly if its target is compiled. */
  lemma {:induction false} EndHead(cfg: Config, thunks: seq<nat>, q: seq<Pending>, methods: map<MethodRef, nat>,
                                   offset: nat, aligned: nat)
    requires q != [] && q[0].ref != NO_METHOD && aligned == cfg.AlignCode(offset) < WORD
    requires QueueInv(cfg, thunks, q, offset) && MethodsBelow(cfg, methods, offset)
    ensures ProcessPatches(cfg, thunks, q, methods, aligned, NO_METHOD, aligned) ==
            if Dropped(cfg, thunks, methods, aligned, NO_METHOD, q[0])
            then ProcessPatches(cfg, thunks, q[1..], methods, aligned, NO_METHOD, aligned)
            else (q[0].ref in methods, q)
  {
    if q[0].ref in methods {
      EndHeadKnown(cfg, thunks, q, methods, offset, aligned);
    } else {
      EndHeadUnknown(cfg, thunks, q, methods, offset, aligned);
    }
  }

  lemma {:induction false} EndStops(cfg: Config, thunks: seq<nat>, q: seq<Pending>, methods: map<MethodRef, nat>,
                                    offset: nat, aligned: nat)
    requires (forall c :: c in q ==> c.ref != NO_METHOD) && aligned == cfg.AlignCode(offset) < WORD
    requires QueueInv(cfg, thunks, q, offset) && MethodsBelow(cfg, methods, offset)
    ensures var r := ProcessPatches(cfg, thunks, q, methods, aligned, NO_METHOD, aligned);
            && AllDropped(cfg, thunks, methods, aligned, NO_METHOD, q, |q| - |r.1|)
            && (if r.1 == [] then !r.0
                else !Dropped(cfg, thunks, methods, aligned, NO_METHOD, r.1[0]) && (r.0 <==> r.1[0].ref in methods))
    decreases |q|
  {
    if q != [] {
      EndHead(cfg, thunks, q, methods, offset, aligned);
      if Dropped(cfg, thunks, methods, aligned, NO_METHOD, q[0]) {
        TailInv(cfg, thunks, q, offset, 1);
        EndStops(cfg, thunks, q[1..], methods, offset, aligned);
        var r := ProcessPatches(cfg, thunks, q[1..], methods, aligned, NO_METHOD, aligned);
        DroppedCons(cfg, thunks, methods, aligned, NO_METHOD, q, |q[1..]| - |r.1|);
      }
    }
  }

  /** The first waiting call without a target or thunk in range is number `n`, and its target is not compiled. */
  predicate StopsAt(cfg: Config, st: InitState, n: nat)
  {
    var q, aligned := st.patcher.unprocessed, cfg.AlignCode(st.offset);
    && n < |q| && AllDropped(cfg, st.patcher.thunks, st.methods, aligned, NO_METHOD, q, n)
    && !Dropped(cfg, st.patcher.thunks, st.methods, aligned, NO_METHOD, q[n]) && q[n].ref !in st.methods
  }

  /** A call is left over exactly if, when the code ends, it waits at or behind the first waiting call without a target
      or thunk in range, and the target of that one is not compiled into the file. */
  lemma {:induction false} TheoremLeftOverIff(cfg: Config, base: nat, vs: seq<Visited>, c: Pending)
    requires RunFits(cfg, base, vs)
    ensures var st := At(cfg, base, vs, |vs|);
            LeftOver(cfg, base, vs, c) <==> exists n: nat {:trigger StopsAt(cfg, st, n)} ::
                StopsAt(cfg, st, n) && c in st.patcher.unprocessed[n..]
  {
    var st := At(cfg, base, vs, |vs|);
    PassIsAt(cfg, base, vs);
    RunKeepsReach(cfg, base, vs, |vs|);
    forall d | d in st.patcher.unprocessed ensures d.ref != NO_METHOD {
      QueueNamed(cfg, base, vs, |vs|, d);
    }
    LeftOverAt(cfg, st, c);
  }

  lemma {:induction false} LeftOverAt(cfg: Config, st: InitState, c: Pending)
    requires cfg.HasThunks() && ReachInv(cfg, st) && cfg.AlignCode(st.offset) < WORD
    requires forall d :: d in st.patcher.unprocessed ==> d.ref != NO_METHOD
    ensures InitEnd(cfg, st).patcher.thunks == st.patcher.thunks && c in InitEnd(cfg, st).patcher.unprocessed <==>
            exists n: nat {:trigger StopsAt(cfg, st, n)} :: StopsAt(cfg, st, n) && c in st.patcher.unprocessed[n..]
  {
    var q, aligned := st.patcher.unprocessed, cfg.AlignCode(st.offset);
    EndStops(cfg, st.patcher.thunks, q, st.methods, st.offset, aligned);
    var r := ProcessPatches(cfg, st.patcher.thunks, q, st.methods, aligned, NO_METHOD, aligned);
    var m := |q| - |r.1|;
    if !r.0 && r.1 != [] { assert StopsAt(cfg, st, m); }
    forall n: nat | StopsAt(cfg, st, n) ensures n == m && !r.0 && r.1 != [] {
      OneStop(cfg, st, n, m);
    }
  }

  /** Processing can only stop at the first call that is not dropped. */
  lemma {:induction false} OneStop(cfg: Config, st: InitState, n: nat, m: nat)
    requires StopsAt(cfg, st, n) && m <= |st.patcher.unprocessed|
    requires AllDropped(cfg, st.patcher.thunks, st.methods, cfg.AlignCode(st.offset), NO_METHOD, st.patcher.unprocessed,
                        m)
    requires m < |st.patcher.unprocessed| ==>
               !Dropped(cfg, st.patcher.thunks, st.methods, cfg.AlignCode(st.offset), NO_METHOD,
                        st.patcher.unprocessed[m])
    ensures n == m
  {
  }

  /** No call is left over when every target is compiled into the file. */
  lemma {:induction false} TheoremNothingLeftOver(cfg: Config, base: nat, vs: seq<Visited>, c: Pending)
    requires RunFits(cfg, base, vs) && TargetsCompiled(cfg, vs)
    ensures !LeftOver(cfg, base, vs, c)
  {
    PassIsAt(cfg, base, vs);
    NothingLeft(cfg, base, vs);
  }
}
