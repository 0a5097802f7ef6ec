/** 64-bit accesses made of two half-word accesses under a striped lock, as a step system over all interleavings. */
module SwapMutex {
  import opened Options

  const STRIPES: nat := 32

  /** A 64-bit value by its halves. */
  datatype Val = Val(lo: int, hi: int)

  datatype Op = Read(addr: nat) | Write(addr: nat, value: Val) | Cas(addr: nat, expected: Val, value: Val)

  function Stripe(addr: nat): (i: nat)
    ensures i < STRIPES
  {
    addr / 8 % STRIPES
  }

  /** Cells that are less than 32 cells apart never wait for each other. */
  lemma {:induction false} StripesApart(a: nat, k: nat)
    requires 0 < k < STRIPES
    ensures Stripe(a + 8 * k) != Stripe(a)
  {
    var q, r := a / 8 / STRIPES, a / 8 % STRIPES;
    assert (a + 8 * k) / 8 == STRIPES * q + (r + k);
  }

  datatype Pc =
    | Idle
    | Wants(op: Op)
    | Held(op: Op)
    | LoadedLow(op: Op, lo: int)
    | Loaded(op: Op, seen: Val)
    | StoredLow(op: Op, value: Val)
    | Stored(op: Op, value: Val)

  predicate Holding(pc: Pc)
  {
    !pc.Idle? && !pc.Wants?
  }

  /** A finished operation: the value read, or whether it wrote. */
  datatype Record = Record(op: Op, seen: Val, wrote: bool)

  /** `log` lists the operations in the order in which they gave the lock back. */
  datatype State = State(mem: map<nat, int>, locks: seq<Option<nat>>, threads: seq<Pc>, log: seq<Record>)

  // ----- Steps -----

  datatype Event =
    | Start(t: nat, op: Op)
    | Acquire(t: nat)
    | LoadLow(t: nat)
    | LoadHigh(t: nat)
    | StoreLow(t: nat)
    | StoreHigh(t: nat)
    | Release(t: nat)

  /** May go on to store: a write at once, a compare-and-swap if it saw what it expects. */
  predicate StoresNext(pc: Pc)
  {
    (pc.Held? && pc.op.Write?) || (pc.Loaded? && pc.op.Cas? && pc.seen == pc.op.expected)
  }

  predicate Finished(pc: Pc)
  {
    pc.Stored? || (pc.Loaded? && !StoresNext(pc))
  }

  predicate Enabled(cells: set<nat>, s: State, e: Event)
  {
    e.t < |s.threads| && |s.locks| == STRIPES &&
    var pc := s.threads[e.t];
    match e
    case Start(_, op) => pc.Idle? && op.addr in cells
    case Acquire(_) => pc.Wants? && s.locks[Stripe(pc.op.addr)].None?
    case LoadLow(_) => pc.Held? && !pc.op.Write? && pc.op.addr in s.mem
    case LoadHigh(_) => pc.LoadedLow? && pc.op.addr + 4 in s.mem
    case StoreLow(_) => StoresNext(pc)
    case StoreHigh(_) => pc.StoredLow?
    case Release(_) => Finished(pc)
  }

  function At(s: State, t: nat, pc: Pc): State
    requires t < |s.threads|
  {
    s.(threads := s.threads[t := pc])
  }

  function RecordOf(pc: Pc): Record
    requires Finished(pc)
  {
    if pc.Stored? then Record(pc.op, pc.value, true) else Record(pc.op, pc.seen, false)
  }

  function Apply(cells: set<nat>, s: State, e: Event): State
    requires Enabled(cells, s, e)
  {
    var t, pc := e.t, s.threads[e.t];
    match e
    case Start(_, op) => At(s, t, Wants(op))
    case Acquire(_) => At(s, t, Held(pc.op)).(locks := s.locks[Stripe(pc.op.addr) := Some(t)])
    case LoadLow(_) => At(s, t, LoadedLow(pc.op, s.mem[pc.op.addr]))
    case LoadHigh(_) => At(s, t, Loaded(pc.op, Val(pc.lo, s.mem[pc.op.addr + 4])))
    case StoreLow(_) => At(s, t, StoredLow(pc.op, pc.op.value)).(mem := s.mem[pc.op.addr := pc.op.value.lo])
    case StoreHigh(_) => At(s, t, Stored(pc.op, pc.value)).(mem := s.mem[pc.op.addr + 4 := pc.value.hi])
    case Release(_) => At(s, t, Idle).(locks := s.locks[Stripe(pc.op.addr) := None], log := s.log + [RecordOf(pc)])
  }

  // ----- What the log must say -----

  /** The value of the latest write or successful compare-and-swap to an address. */
  function Latest(initial: map<nat, Val>, log: seq<Record>, addr: nat): Val
    requires addr in initial
  {
    if log == [] then initial[addr]
    else
      var r := log[|log| - 1];
      if r.op.addr == addr && r.wrote && !r.op.Read? then r.op.value else Latest(initial, log[..|log| - 1], addr)
  }

  /** Reads return the latest value, writes write, and a compare-and-swap succeeds exactly if the latest value is
      the expected one. */
  predicate LegalRecord(initial: map<nat, Val>, log: seq<Record>, r: Record)
  {
    r.op.addr in initial &&
    var latest := Latest(initial, log, r.op.addr);
    match r.op
    case Read(_) => r.seen == latest && !r.wrote
    case Write(_, _) => r.wrote
    case Cas(_, expected, _) => r.wrote <==> latest == expected
  }

  predicate Legal(initial: map<nat, Val>, log: seq<Record>)
  {
    forall i :: 0 <= i < |log| ==> LegalRecord(initial, log[..i], log[i])
  }

  // ----- What every step keeps -----

  /** Cells that do not overlap. Aligned addresses are such cells. */
  predicate Apart(cells: set<nat>)
  {
    forall a, b :: a in cells && b in cells && a != b ==> a + 8 <= b || b + 8 <= a
  }

  lemma {:induction false} AlignedApart(cells: set<nat>)
    requires forall a :: a in cells ==> a % 8 == 0
    ensures Apart(cells)
  {
  }

  predicate LockInv(s: State)
  {
    && |s.locks| == STRIPES
    && (forall t :: 0 <= t < |s.threads| && Holding(s.threads[t]) ==> s.locks[Stripe(s.threads[t].op.addr)] == Some(t))
    && (forall i :: 0 <= i < STRIPES && s.locks[i].Some? ==>
          s.locks[i].value < |s.threads| && Holding(s.threads[s.locks[i].value]) &&
            Stripe(s.threads[s.locks[i].value].op.addr) == i)
  }

  /** The caller at work on a cell, if any. */
  function Worker(s: State, a: nat): Pc
    requires |s.locks| == STRIPES
  {
    var lock := s.locks[Stripe(a)];
    if lock.Some? && lock.value < |s.threads| && Holding(s.threads[lock.value]) && s.threads[lock.value].op.addr == a
    then s.threads[lock.value] else Idle
  }

  /** A cell holds the latest value, except for the halves its worker has already stored; and the worker has seen
      nothing but the latest value. */
  predicate CellInv(mem: map<nat, int>, a: nat, pc: Pc, latest: Val)
  {
    && a in mem && a + 4 in mem
    && mem[a] == (if pc.StoredLow? || pc.Stored? then pc.value.lo else latest.lo)
    && mem[a + 4] == (if pc.Stored? then pc.value.hi else latest.hi)
    && (pc.LoadedLow? ==> pc.lo == latest.lo && !pc.op.Write?) && (pc.Loaded? ==> pc.seen == latest && !pc.op.Write?)
    && (pc.StoredLow? || pc.Stored? ==>
          !pc.op.Read? && pc.value == pc.op.value && (pc.op.Cas? ==> latest == pc.op.expected))
  }

  predicate Inv(cells: set<nat>, initial: map<nat, Val>, s: State)
  {
    && LockInv(s) && Legal(initial, s.log) && initial.Keys == cells
    && (forall t :: 0 <= t < |s.threads| && !s.threads[t].Idle? ==> s.threads[t].op.addr in cells)
    && (forall a :: a in cells ==> CellInv(s.mem, a, Worker(s, a), Latest(initial, s.log, a)))
  }

  /** Callers at the same address are one after the other. */
  lemma {:induction false} WorkerIs(cells: set<nat>, initial: map<nat, Val>, s: State, t: nat)
    requires Inv(cells, initial, s) && t < |s.threads| && Holding(s.threads[t])
    ensures Worker(s, s.threads[t].op.addr) == s.threads[t]
  {
  }

  lemma {:induction false} LockStep(cells: set<nat>, initial: map<nat, Val>, s: State, e: Event)
    requires Inv(cells, initial, s) && Enabled(cells, s, e)
    ensures LockInv(Apply(cells, s, e))
  {
  }

  lemma {:induction false} LegalSnoc(initial: map<nat, Val>, log: seq<Record>, r: Record)
    requires Legal(initial, log) && LegalRecord(initial, log, r)
    ensures Legal(initial, log + [r])
  {
    var log' := log + [r];
    forall i | 0 <= i < |log'| ensures LegalRecord(initial, log'[..i], log'[i]) {
      if i < |log| {
        assert log'[..i] == log[..i];
      } else {
        assert log'[..i] == log;
      }
    }
  }

  lemma {:induction false} LatestSnoc(initial: map<nat, Val>, log: seq<Record>, r: Record, a: nat)
    requires a in initial
    ensures Latest(initial, log + [r], a) ==
            if r.op.addr == a && r.wrote && !r.op.Read? then r.op.value else Latest(initial, log, a)
  {
    assert (log + [r])[..|log|] == log;
  }

  /** The step at its own cell. */
  lemma {:induction false} CellStep(cells: set<nat>, initial: map<nat, Val>, s: State, e: Event)
    requires Inv(cells, initial, s) && Enabled(cells, s, e) && !e.Start?
    ensures var s', a := Apply(cells, s, e), s.threads[e.t].op.addr;
            LockInv(s') && CellInv(s'.mem, a, Worker(s', a), Latest(initial, s'.log, a))
  {
    var s', pc := Apply(cells, s, e), s.threads[e.t];
    LockStep(cells, initial, s, e);
    var a := pc.op.addr;
    assert CellInv(s.mem, a, Worker(s, a), Latest(initial, s.log, a));
    if Holding(pc) { WorkerIs(cells, initial, s, e.t); }
    if e.Release? { LatestSnoc(initial, s.log, RecordOf(pc), a); }
  }

  lemma {:induction false} OtherWorker(cells: set<nat>, initial: map<nat, Val>, s: State, e: Event, b: nat)
    requires Inv(cells, initial, s) && Enabled(cells, s, e) && (e.Start? || s.threads[e.t].op.addr != b)
    ensures LockInv(Apply(cells, s, e)) && Worker(Apply(cells, s, e), b) == Worker(s, b)
  {
    LockStep(cells, initial, s, e);
  }

  /** A step leaves every other cell and its worker alone. */
  lemma {:induction false} OtherCellStep(cells: set<nat>, initial: map<nat, Val>, s: State, e: Event, b: nat)
    requires Inv(cells, initial, s) && Enabled(cells, s, e) && Apart(cells) && b in cells
    requires e.Start? || s.threads[e.t].op.addr != b
    ensures var s' := Apply(cells, s, e);
            LockInv(s') && CellInv(s'.mem, b, Worker(s', b), Latest(initial, s'.log, b))
  {
    var s', pc := Apply(cells, s, e), s.threads[e.t];
    OtherWorker(cells, initial, s, e, b);
    assert CellInv(s.mem, b, Worker(s, b), Latest(initial, s.log, b));
    if e.Release? { LatestSnoc(initial, s.log, RecordOf(pc), b); }
    if !e.Start? { assert pc.op.addr + 8 <= b || b + 8 <= pc.op.addr; }
  }

  lemma {:induction false} LogStep(cells: set<nat>, initial: map<nat, Val>, s: State, e: Event)
    requires Inv(cells, initial, s) && Enabled(cells, s, e)
    ensures Legal(initial, Apply(cells, s, e).log)
  {
    if e.Release? {
      var pc := s.threads[e.t];
      WorkerIs(cells, initial, s, e.t);
      assert CellInv(s.mem, pc.op.addr, pc, Latest(initial, s.log, pc.op.addr));
      LegalSnoc(initial, s.log, RecordOf(pc));
    }
  }

  lemma {:induction false} StepKeepsInv(cells: set<nat>, initial: map<nat, Val>, s: State, e: Event)
    requires Inv(cells, initial, s) && Enabled(cells, s, e) && Apart(cells)
    ensures Inv(cells, initial, Apply(cells, s, e))
  {
    var s' := Apply(cells, s, e);
    LockStep(cells, initial, s, e);
    LogStep(cells, initial, s, e);
    forall a | a in cells ensures CellInv(s'.mem, a, Worker(s', a), Latest(initial, s'.log, a)) {
      if e.Start? || s.threads[e.t].op.addr != a {
        OtherCellStep(cells, initial, s, e, a);
      } else {
        CellStep(cells, initial, s, e);
      }
    }
  }

  // ----- Runs -----

  predicate AllEnabled(cells: set<nat>, s: State, es: seq<Event>)
    decreases |es|
  {
    es == [] || (Enabled(cells, s, es[0]) && AllEnabled(cells, Apply(cells, s, es[0]), es[1..]))
  }

  function Run(cells: set<nat>, s: State, es: seq<Event>): State
    requires AllEnabled(cells, s, es)
    decreases |es|
  {
    if es == [] then s else Run(cells, Apply(cells, s, es[0]), es[1..])
  }

  /** The memory holds the two halves of each cell's initial value; nobody is at work. */
  predicate IsFresh(cells: set<nat>, initial: map<nat, Val>, s: State)
  {
    && initial.Keys == cells && s.log == [] && s.locks == seq(STRIPES, _ => None)
    && (forall t :: 0 <= t < |s.threads| ==> s.threads[t].Idle?)
    && (forall a :: a in cells ==>
          a in s.mem && a + 4 in s.mem && s.mem[a] == initial[a].lo && s.mem[a + 4] == initial[a].hi)
  }

  lemma {:induction false} FreshInv(cells: set<nat>, initial: map<nat, Val>, s: State)
    requires IsFresh(cells, initial, s)
    ensures Inv(cells, initial, s)
  {
  }

  lemma {:induction false} RunKeepsInv(cells: set<nat>, initial: map<nat, Val>, s: State, es: seq<Event>)
    requires Inv(cells, initial, s) && AllEnabled(cells, s, es) && Apart(cells)
    ensures Inv(cells, initial, Run(cells, s, es))
    decreases |es|
  {
    if es != [] {
      StepKeepsInv(cells, initial, s, es[0]);
      RunKeepsInv(cells, initial, Apply(cells, s, es[0]), es[1..]);
    }
  }

  /** Nothing tears: in every interleaving, in lock order, each read returns the latest value written and each
      compare-and-swap succeeds exactly if the latest value was the expected one. */
  lemma {:induction false} TheoremNoTearing(cells: set<nat>, initial: map<nat, Val>, s: State, es: seq<Event>)
    requires IsFresh(cells, initial, s) && AllEnabled(cells, s, es) && Apart(cells)
    ensures Legal(initial, Run(cells, s, es).log)
  {
    FreshInv(cells, initial, s);
    RunKeepsInv(cells, initial, s, es);
  }
}
