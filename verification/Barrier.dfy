/** The barrier over a futex condition variable and a futex mutex, as a step system over all interleavings of its
    callers. */
module Barrier {
  import opened Options

  /** The futex word has 32 bits. */
  const LAP: nat := 0x1_0000_0000

  /** `Wait` is `Increment(-1)`. */
  datatype Call = Pass | Increment(delta: int) | TimedIncrement(delta: int) | Init(count: int)

  /** Where a caller is. `seen` is the number of broadcasts when it read the futex word; the word itself is that
      number modulo 2^32. */
  datatype Pc =
    | Idle
    | Wants                              // contends for the lock
    | Blocked                            // asleep on the lock, on its way in
    | Entered                            // holds it, before setting the count
    | Bumping                            // holds it, about to change the futex word
    | Requeueing                         // holds it, about to move the sleepers
    | Counted                            // holds it, count set
    | PreSleep(seen: nat)                // has unlocked, not yet in the futex
    | Sleeping(seen: nat)                // asleep on the futex word
    | Requeued                           // moved to the queue of the lock
    | Woken(timedOut: bool)              // contends for the lock again
    | BlockedAgain(timedOut: bool)       // asleep on the lock, on its way back
    | Rechecking(timedOut: bool)
    | Returned(timedOut: bool)

  predicate Holds(pc: Pc)
  {
    pc.Entered? || pc.Bumping? || pc.Requeueing? || pc.Counted? || pc.Rechecking?
  }

  predicate Waits(pc: Pc)
  {
    pc.PreSleep? || pc.Sleeping? || pc.Requeued? || pc.Woken? || pc.BlockedAgain?
  }

  /** Asleep in the queue of the lock, where only an unlock wakes. */
  predicate Queued(pc: Pc)
  {
    pc.Blocked? || pc.Requeued? || pc.BlockedAgain?
  }

  /** Awake and about to take the lock. */
  predicate Contends(pc: Pc)
  {
    pc.Wants? || pc.Woken?
  }

  /** The call has set the count. */
  predicate Applied(pc: Pc)
  {
    !(pc.Idle? || pc.Wants? || pc.Blocked? || pc.Entered?)
  }

  /** Caller `t` makes the one call `calls[t]`. `owed` is the number of unlocks that have not yet woken a caller
      from the queue of the lock. */
  datatype State = State(
    count: int, lock: Option<nat>, owed: nat, sequence: nat, numWaiters: int, threads: seq<Pc>,
    start: int, calls: seq<Call>)
  {
    predicate Timed(t: nat)
      requires t < |calls|
    {
      calls[t].TimedIncrement?
    }

    predicate Blocks(t: nat)
      requires t < |calls|
    {
      calls[t].Increment? || calls[t].TimedIncrement?
    }
  }

  function Fresh(start: int, calls: seq<Call>): State
  {
    State(start, None, 0, 0, 0, seq(|calls|, _ => Idle), start, calls)
  }

  // ----- Steps -----

  /** `Signal` is an interrupted futex call; `NoWaiter` is the wake-up of an unlock that finds nobody. */
  datatype Event =
    | Start(t: nat)
    | Acquire(t: nat)
    | Block(t: nat)
    | SetCount(t: nat)
    | Bump(t: nat)
    | Requeue(t: nat)
    | Return(t: nat)
    | Expire(t: nat)
    | StartWait(t: nat)
    | FutexWait(t: nat)
    | Dequeue(t: nat)
    | NoWaiter(t: nat)
    | Signal(t: nat)
    | TimeOut(t: nat)
    | Reacquire(t: nat)

  predicate NobodyQueued(threads: seq<Pc>)
  {
    forall t :: 0 <= t < |threads| ==> !Queued(threads[t])
  }

  /** The call is over: a Pass or Init once it has set the count, an Increment once the count is zero, a timed
      one also when its wait timed out. */
  predicate MayReturn(s: State, t: nat)
    requires t < |s.threads| == |s.calls|
  {
    match s.threads[t]
    case Counted => !s.Blocks(t) || s.count == 0
    case Rechecking(timedOut) => s.count == 0 || (s.Timed(t) && timedOut)
    case _ => false
  }

  /** An Increment that must wait. */
  predicate MustWait(s: State, t: nat)
    requires t < |s.threads| == |s.calls|
  {
    (s.threads[t].Counted? || s.threads[t].Rechecking?) && !MayReturn(s, t)
  }

  predicate Enabled(s: State, e: Event)
  {
    e.t < |s.threads| == |s.calls| &&
    var pc := s.threads[e.t];
    match e
    case Start(_) => pc.Idle?
    case Acquire(_) => pc.Wants? && s.lock.None?
    case Block(_) => Contends(pc) && s.lock.Some?
    case SetCount(_) => pc.Entered?
    case Bump(_) => pc.Bumping?
    case Requeue(_) => pc.Requeueing?
    case Return(t) => MayReturn(s, t)
    case Expire(t) => pc.Rechecking? && s.Timed(t) && MustWait(s, t)
    case StartWait(t) => MustWait(s, t)
    case FutexWait(_) => pc.PreSleep?
    case Dequeue(_) => s.owed > 0 && Queued(pc)
    case NoWaiter(_) => s.owed > 0 && NobodyQueued(s.threads)
    case Signal(_) => pc.Sleeping? || Queued(pc)
    case TimeOut(t) => (pc.PreSleep? || pc.Sleeping? || pc.Requeued?) && s.Timed(t)
    case Reacquire(_) => pc.Woken? && s.lock.None?
  }

  function At(s: State, t: nat, pc: Pc): State
    requires t < |s.threads|
  {
    s.(threads := s.threads[t := pc])
  }

  function NewCount(s: State, call: Call): int
  {
    match call
    case Pass => s.count - 1
    case Increment(delta) => s.count + delta
    case TimedIncrement(delta) => s.count + delta
    case Init(count) => count
  }

  /** Setting the count to zero broadcasts if anybody waits. */
  function Set(s: State, t: nat, call: Call): State
    requires t < |s.threads|
  {
    var count := NewCount(s, call);
    At(s, t, if count == 0 && s.numWaiters > 0 then Bumping else Counted).(count := count)
  }

  function Moved(pc: Pc): Pc
  {
    if pc.Sleeping? then Requeued else pc
  }

  function MoveSleepers(threads: seq<Pc>): (r: seq<Pc>)
    ensures |r| == |threads| && forall i :: 0 <= i < |r| ==> r[i] == Moved(threads[i])
  {
    seq(|threads|, i requires 0 <= i < |threads| => Moved(threads[i]))
  }

  /** The value compared is the futex word, 32 bits wide. */
  predicate WordUnchanged(seen: nat, sequence: nat)
  {
    seen % LAP == sequence % LAP
  }

  /** A sleeper wakes up. */
  function Awake(pc: Pc): Pc
  {
    match pc
    case Blocked => Wants
    case BlockedAgain(timedOut) => Woken(timedOut)
    case _ => Woken(false)
  }

  function Apply(s: State, e: Event): (s': State)
    requires Enabled(s, e)
    ensures |s'.threads| == |s.threads|
  {
    var t, pc := e.t, s.threads[e.t];
    match e
    case Start(_) => At(s, t, Wants)
    case Acquire(_) => At(s, t, Entered).(lock := Some(t))
    case Block(_) => At(s, t, if pc.Wants? then Blocked else BlockedAgain(pc.timedOut))
    case SetCount(_) => Set(s, t, s.calls[t])
    case Bump(_) => At(s, t, Requeueing).(sequence := s.sequence + 1)
    case Requeue(_) => At(s.(threads := MoveSleepers(s.threads)), t, Counted)
    case Return(_) => At(s, t, Returned(pc.Rechecking? && pc.timedOut)).(lock := None, owed := s.owed + 1)
    case Expire(_) => At(s, t, Returned(true)).(lock := None, owed := s.owed + 1)
    case StartWait(_) => At(s, t, PreSleep(s.sequence)).(lock := None, owed := s.owed + 1,
                                                         numWaiters := s.numWaiters + 1)
    case FutexWait(_) => At(s, t, if WordUnchanged(pc.seen, s.sequence) then Sleeping(pc.seen) else Woken(false))
    case Dequeue(_) => At(s, t, Awake(pc)).(owed := s.owed - 1)
    case NoWaiter(_) => s.(owed := s.owed - 1)
    case Signal(_) => At(s, t, Awake(pc))
    case TimeOut(_) => At(s, t, Woken(true))
    case Reacquire(_) => At(s, t, Rechecking(pc.timedOut)).(lock := Some(t), numWaiters := s.numWaiters - 1)
  }

  predicate AllEnabled(s: State, es: seq<Event>)
    decreases |es|
  {
    es == [] || (Enabled(s, es[0]) && AllEnabled(Apply(s, es[0]), es[1..]))
  }

  function Run(s: State, es: seq<Event>): (s': State)
    requires AllEnabled(s, es)
    ensures |s'.threads| == |s.threads|
    decreases |es|
  {
    if es == [] then s else Run(Apply(s, es[0]), es[1..])
  }

  // ----- What every step keeps -----

  function CountWaits(threads: seq<Pc>): nat
  {
    if threads == [] then 0 else CountWaits(threads[..|threads| - 1]) + (if Waits(threads[|threads| - 1]) then 1 else 0)
  }

  function Effect(call: Call): int
  {
    match call
    case Pass => -1
    case Increment(delta) => delta
    case TimedIncrement(delta) => delta
    case Init(_) => 0
  }

  /** The sum of what the calls applied so far have added. */
  function Sum(threads: seq<Pc>, calls: seq<Call>): int
    requires |threads| == |calls|
  {
    if threads == [] then 0
    else
      var n := |threads| - 1;
      Sum(threads[..n], calls[..n]) + (if Applied(threads[n]) then Effect(calls[n]) else 0)
  }

  predicate NoInit(calls: seq<Call>)
  {
    forall t :: 0 <= t < |calls| ==> !calls[t].Init?
  }

  predicate LockInv(s: State)
  {
    && (forall t :: 0 <= t < |s.threads| && Holds(s.threads[t]) ==> s.lock == Some(t))
    && (s.lock.Some? ==> s.lock.value < |s.threads| && Holds(s.threads[s.lock.value]))
  }

  /** The lock holder is in the middle of a broadcast. */
  predicate Broadcasting(s: State)
  {
    s.lock.Some? && s.lock.value < |s.threads| &&
      (s.threads[s.lock.value].Bumping? || s.threads[s.lock.value].Requeueing?)
  }

  predicate BumpPending(s: State)
  {
    s.lock.Some? && s.lock.value < |s.threads| && s.threads[s.lock.value].Bumping?
  }

  /** What is known of one waiting caller. */
  predicate SleepInv(s: State, pc: Pc)
  {
    && (pc.PreSleep? || pc.Sleeping? ==> pc.seen <= s.sequence)
    && (s.count == 0 && !BumpPending(s) && (pc.PreSleep? || pc.Sleeping?) ==> pc.seen < s.sequence)
    && (s.count == 0 && !Broadcasting(s) && pc.Sleeping? ==> pc.seen + LAP <= s.sequence)
  }

  predicate AllSleepInv(s: State)
  {
    forall t :: 0 <= t < |s.threads| ==> SleepInv(s, s.threads[t])
  }

  /** Somebody in the queue of the lock will be woken: the lock is held, a wake-up is owed, or a caller that will
      take and release the lock is awake. */
  predicate QueueInv(s: State)
  {
    s.lock.None? && s.owed == 0 && !NobodyQueued(s.threads) ==> exists u ::
        0 <= u < |s.threads| && Contends(s.threads[u])
  }

  predicate Inv(s: State)
  {
    && |s.threads| == |s.calls| && LockInv(s) && QueueInv(s) && s.numWaiters == CountWaits(s.threads) && AllSleepInv(s)
    && (Broadcasting(s) ==> s.count == 0)
    && (NoInit(s.calls) ==> s.count == s.start + Sum(s.threads, s.calls))
  }

  lemma {:induction false} CountUpdate(threads: seq<Pc>, t: nat, pc: Pc)
    requires t < |threads|
    ensures CountWaits(threads[t := pc]) ==
            CountWaits(threads) - (if Waits(threads[t]) then 1 else 0) + (if Waits(pc) then 1 else 0)
  {
    var n := |threads| - 1;
    if t < n {
      CountUpdate(threads[..n], t, pc);
      assert threads[t := pc][..n] == threads[..n][t := pc];
    } else {
      assert threads[t := pc][..n] == threads[..n];
    }
  }

  lemma {:induction false} SumUpdate(threads: seq<Pc>, calls: seq<Call>, t: nat, pc: Pc)
    requires t < |threads| == |calls|
    ensures Sum(threads[t := pc], calls) ==
            Sum(threads, calls) - (if Applied(threads[t]) then Effect(calls[t]) else 0) +
            (if Applied(pc) then Effect(calls[t]) else 0)
  {
    var n := |threads| - 1;
    if t < n {
      SumUpdate(threads[..n], calls[..n], t, pc);
      assert threads[t := pc][..n] == threads[..n][t := pc];
    } else {
      assert threads[t := pc][..n] == threads[..n];
    }
  }

  lemma {:induction false} MovedCounts(threads: seq<Pc>, calls: seq<Call>)
    requires |threads| == |calls|
    ensures CountWaits(MoveSleepers(threads)) == CountWaits(threads)
    ensures Sum(MoveSleepers(threads), calls) == Sum(threads, calls)
  {
    if threads != [] {
      var n := |threads| - 1;
      MovedCounts(threads[..n], calls[..n]);
      assert MoveSleepers(threads)[..n] == MoveSleepers(threads[..n]);
    }
  }

  lemma {:induction false} SomeWaits(threads: seq<Pc>, t: nat)
    requires t < |threads| && Waits(threads[t])
    ensures CountWaits(threads) > 0
  {
    if t < |threads| - 1 { SomeWaits(threads[..|threads| - 1], t); }
  }

  lemma {:induction false} IdleCounts(calls: seq<Call>)
    ensures CountWaits(seq(|calls|, _ => Idle)) == 0 && Sum(seq(|calls|, _ => Idle), calls) == 0
  {
    var n := |calls| - 1;
    if calls != [] {
      IdleCounts(calls[..n]);
      assert seq(|calls|, _ => Idle)[..n] == seq(n, _ => Idle);
    }
  }

  lemma {:induction false} Lapped(seen: nat, sequence: nat)
    requires seen < sequence && WordUnchanged(seen, sequence)
    ensures seen + LAP <= sequence
  {
  }

  lemma {:induction false} LockStep(s: State, e: Event)
    requires |s.threads| == |s.calls| && LockInv(s) && Enabled(s, e)
    ensures LockInv(Apply(s, e))
  {
  }

  lemma {:induction false} BroadcastStep(s: State, e: Event)
    requires Inv(s) && Enabled(s, e)
    ensures Broadcasting(Apply(s, e)) ==> Apply(s, e).count == 0
  {
  }

  lemma {:induction false} QueueStep(s: State, e: Event)
    requires Inv(s) && Enabled(s, e)
    ensures QueueInv(Apply(s, e))
  {
    var s' := Apply(s, e);
    if s'.lock.None? && s'.owed == 0 && !NobodyQueued(s'.threads) {
      if e.Dequeue? || e.Signal? {
        assert Contends(s'.threads[e.t]);
      } else if e.TimeOut? || e.FutexWait? || e.Start? {
        QueueKept(s, s', e);
      }
    }
  }

  lemma {:induction false} QueueKept(s: State, s': State, e: Event)
    requires Inv(s) && Enabled(s, e) && s' == Apply(s, e) && (e.TimeOut? || e.FutexWait? || e.Start?)
    requires s.lock.None? && s.owed == 0 && !NobodyQueued(s'.threads)
    ensures exists u :: 0 <= u < |s'.threads| && Contends(s'.threads[u])
  {
    var q :| 0 <= q < |s'.threads| && Queued(s'.threads[q]);
    if Contends(s'.threads[e.t]) {
      assert Contends(s'.threads[e.t]);
    } else {
      assert s.threads[q] == s'.threads[q];
      var u :| 0 <= u < |s.threads| && Contends(s.threads[u]);
      assert s'.threads[u] == s.threads[u];
    }
  }

  lemma {:induction false} WaitersStep(s: State, e: Event)
    requires |s.threads| == |s.calls| && s.numWaiters == CountWaits(s.threads) && Enabled(s, e)
    ensures Apply(s, e).numWaiters == CountWaits(Apply(s, e).threads)
  {
    var s' := Apply(s, e);
    var threads := if e.Requeue? then MoveSleepers(s.threads) else s.threads;
    MovedCounts(s.threads, s.calls);
    CountUpdate(threads, e.t, s'.threads[e.t]);
  }

  lemma {:induction false} SumStep(s: State, e: Event)
    requires |s.threads| == |s.calls| && s.count == s.start + Sum(s.threads, s.calls) && Enabled(s, e) &&
             NoInit(s.calls)
    ensures Apply(s, e).count == s.start + Sum(Apply(s, e).threads, s.calls)
  {
    var pc := Apply(s, e).threads[e.t];
    if e.Requeue? {
      MovedCounts(s.threads, s.calls);
      SumUpdate(MoveSleepers(s.threads), s.calls, e.t, pc);
    } else {
      SumUpdate(s.threads, s.calls, e.t, pc);
    }
  }

  /** The caller that takes the step. */
  lemma {:induction false} SleepStepSelf(s: State, e: Event)
    requires Inv(s) && Enabled(s, e)
    ensures SleepInv(Apply(s, e), Apply(s, e).threads[e.t])
  {
    var pc := s.threads[e.t];
    assert SleepInv(s, pc);
    if e.FutexWait? && WordUnchanged(pc.seen, s.sequence) && pc.seen < s.sequence {
      Lapped(pc.seen, s.sequence);
    }
  }

  /** Any other caller. */
  lemma {:induction false} SleepStepOther(s: State, e: Event, t: nat)
    requires Inv(s) && Enabled(s, e) && t < |s.threads| && t != e.t
    ensures SleepInv(Apply(s, e), Apply(s, e).threads[t])
  {
    var pc := s.threads[t];
    assert SleepInv(s, pc);
    if Waits(pc) { SomeWaits(s.threads, t); }
  }

  lemma {:induction false} StepKeepsInv(s: State, e: Event)
    requires Inv(s) && Enabled(s, e)
    ensures Inv(Apply(s, e))
  {
    LockStep(s, e);
    BroadcastStep(s, e);
    QueueStep(s, e);
    WaitersStep(s, e);
    if NoInit(s.calls) { SumStep(s, e); }
    forall t | 0 <= t < |s.threads| ensures SleepInv(Apply(s, e), Apply(s, e).threads[t]) {
      if t == e.t { SleepStepSelf(s, e); } else { SleepStepOther(s, e, t); }
    }
  }

  lemma {:induction false} RunKeepsInv(s: State, es: seq<Event>)
    requires Inv(s) && AllEnabled(s, es)
    ensures Inv(Run(s, es)) && Run(s, es).calls == s.calls && Run(s, es).start == s.start
    decreases |es|
  {
    if es != [] {
      StepKeepsInv(s, es[0]);
      RunKeepsInv(Apply(s, es[0]), es[1..]);
    }
  }

  lemma {:induction false} FreshRun(start: int, calls: seq<Call>, es: seq<Event>)
    requires AllEnabled(Fresh(start, calls), es)
    ensures var s := Run(Fresh(start, calls), es); Inv(s) && s.calls == calls && s.start == start
  {
    IdleCounts(calls);
    RunKeepsInv(Fresh(start, calls), es);
  }

  // ----- Results over all runs -----

  /** No lost wake-up: whenever the count is zero and nobody is broadcasting, a caller still asleep went to sleep
      after 2^32 or more broadcasts had passed it by, and one not yet asleep falls asleep exactly if the number of
      broadcasts since it looked is a multiple of 2^32. */
  lemma {:induction false} TheoremNoLostWakeUp(start: int, calls: seq<Call>, es: seq<Event>, t: nat)
    requires AllEnabled(Fresh(start, calls), es)
    requires var s := Run(Fresh(start, calls), es); s.count == 0 && !Broadcasting(s) && t < |s.threads|
    ensures var s := Run(Fresh(start, calls), es);
            && (s.threads[t].Sleeping? ==> s.threads[t].seen + LAP <= s.sequence)
            && (s.threads[t].PreSleep? ==>
                  && s.threads[t].seen < s.sequence && Enabled(s, FutexWait(t))
                  && (Apply(s, FutexWait(t)).threads[t].Sleeping? <==> (s.sequence - s.threads[t].seen) % LAP == 0))
  {
    FreshRun(start, calls, es);
    var s := Run(Fresh(start, calls), es);
    var pc := s.threads[t];
    assert SleepInv(s, pc);
    if pc.PreSleep? { Distance(pc.seen, s.sequence); }
  }

  lemma {:induction false} Distance(seen: nat, sequence: nat)
    requires seen <= sequence
    ensures WordUnchanged(seen, sequence) <==> (sequence - seen) % LAP == 0
  {
  }

  // ----- Everybody leaves -----

  predicate AllApplied(threads: seq<Pc>)
  {
    forall t :: 0 <= t < |threads| ==> Applied(threads[t])
  }

  /** All calls have set the count, and it has come to zero. */
  predicate Over(s: State)
  {
    Inv(s) && AllApplied(s.threads) && s.count == 0
  }

  /** How far a caller is from having returned. */
  function Rank(pc: Pc): nat
  {
    match pc
    case PreSleep(_) => 7
    case Sleeping(_) => 6
    case Requeued => 6
    case Bumping => 6
    case Requeueing => 5
    case Woken(_) => 5
    case BlockedAgain(_) => 4
    case Counted => 3
    case Rechecking(_) => 3
    case _ => 0
  }

  function Ranks(threads: seq<Pc>): nat
  {
    if threads == [] then 0 else Ranks(threads[..|threads| - 1]) + Rank(threads[|threads| - 1])
  }

  function Measure(s: State): nat
  {
    Ranks(s.threads) + 2 * s.owed
  }

  function Signals(es: seq<Event>): nat
  {
    if es == [] then 0 else (if es[0].Signal? then 1 else 0) + Signals(es[1..])
  }

  lemma {:induction false} RanksUpdate(threads: seq<Pc>, t: nat, pc: Pc)
    requires t < |threads|
    ensures Ranks(threads[t := pc]) == Ranks(threads) - Rank(threads[t]) + Rank(pc)
  {
    var n := |threads| - 1;
    if t < n {
      RanksUpdate(threads[..n], t, pc);
      assert threads[t := pc][..n] == threads[..n][t := pc];
    } else {
      assert threads[t := pc][..n] == threads[..n];
    }
  }

  lemma {:induction false} RanksMoved(threads: seq<Pc>)
    ensures Ranks(MoveSleepers(threads)) == Ranks(threads)
  {
    if threads != [] {
      var n := |threads| - 1;
      RanksMoved(threads[..n]);
      assert MoveSleepers(threads)[..n] == MoveSleepers(threads[..n]);
    }
  }

  /** Nobody waits again. */
  lemma {:induction false} StaysOver(s: State, e: Event)
    requires Over(s) && Enabled(s, e)
    ensures Over(Apply(s, e)) && !e.StartWait?
  {
    StepKeepsInv(s, e);
    assert Applied(s.threads[e.t]);
  }

  lemma {:induction false} RankStep(s: State, e: Event)
    requires Over(s) && Enabled(s, e)
    ensures Ranks(Apply(s, e).threads) == Ranks(s.threads) - Rank(s.threads[e.t]) + Rank(Apply(s, e).threads[e.t])
  {
    var threads := if e.Requeue? then MoveSleepers(s.threads) else s.threads;
    RanksMoved(s.threads);
    RanksUpdate(threads, e.t, Apply(s, e).threads[e.t]);
  }

  /** Every step but a signal brings somebody closer to returning. */
  lemma {:induction false} OverStep(s: State, e: Event)
    requires Over(s) && Enabled(s, e)
    ensures Measure(Apply(s, e)) + 1 <= Measure(s) + (if e.Signal? then 2 else 0)
  {
    assert Applied(s.threads[e.t]);
    RankStep(s, e);
  }

  lemma {:induction false} OverRun(s: State, es: seq<Event>)
    requires Over(s) && AllEnabled(s, es)
    ensures Over(Run(s, es)) && Measure(Run(s, es)) + |es| <= Measure(s) + 2 * Signals(es)
    ensures forall i :: 0 <= i < |es| ==> !es[i].StartWait?
    decreases |es|
  {
    if es != [] {
      StaysOver(s, es[0]);
      OverStep(s, es[0]);
      OverRun(Apply(s, es[0]), es[1..]);
    }
  }

  predicate AllReturned(threads: seq<Pc>)
  {
    forall t :: 0 <= t < |threads| ==> threads[t].Returned?
  }

  predicate RegularStep(e: Event)
  {
    !e.Signal? && !e.TimeOut?
  }

  /** Nothing happens any more unless a signal or a time-out comes. */
  ghost predicate Stuck(s: State)
  {
    forall e :: Enabled(s, e) ==> !RegularStep(e)
  }

  lemma {:induction false} HolderMoves(s: State) returns (e: Event)
    requires Over(s) && s.lock.Some?
    ensures Enabled(s, e) && RegularStep(e)
  {
    var t := s.lock.value;
    assert Applied(s.threads[t]) && Holds(s.threads[t]);
    e := if s.threads[t].Bumping? then Bump(t) else if s.threads[t].Requeueing? then Requeue(t) else Return(t);
  }

  /** As long as somebody has not returned and is not asleep on the futex word, somebody moves. */
  lemma {:induction false} SomebodyMoves(s: State, t: nat) returns (e: Event)
    requires Over(s) && t < |s.threads| && !s.threads[t].Returned? && (s.lock.Some? || !s.threads[t].Sleeping?)
    ensures Enabled(s, e) && RegularStep(e)
  {
    assert Applied(s.threads[t]);
    if s.lock.Some? {
      e := HolderMoves(s);
    } else if s.threads[t].PreSleep? {
      e := FutexWait(t);
    } else if s.threads[t].Woken? {
      e := Reacquire(t);
    } else if s.owed > 0 {
      e := Dequeue(t);
    } else {
      assert Queued(s.threads[t]);
      var u :| 0 <= u < |s.threads| && Contends(s.threads[u]);
      assert Applied(s.threads[u]);
      e := Reacquire(u);
    }
  }

  /** Returned, or asleep since the futex word went round. */
  predicate DoneOrLapped(s: State, pc: Pc)
  {
    pc.Returned? || (pc.Sleeping? && pc.seen + LAP <= s.sequence)
  }

  lemma {:induction false} StuckAreLapped(s: State, t: nat)
    requires Over(s) && Stuck(s) && t < |s.threads|
    ensures DoneOrLapped(s, s.threads[t])
  {
    assert SleepInv(s, s.threads[t]);
    if !DoneOrLapped(s, s.threads[t]) {
      var e := SomebodyMoves(s, t);
      assert false;
    }
  }

  /** Once every call of the group is applied and the count is zero, whatever happens then: the count stays zero,
      nobody waits again, only so many steps are left, and when only a signal or a time-out can still happen,
      everybody has returned but those who went to sleep 2^32 broadcasts late. */
  lemma {:induction false} TheoremEverybodyLeaves(start: int, calls: seq<Call>, es: seq<Event>, fs: seq<Event>)
    requires AllEnabled(Fresh(start, calls), es)
    requires var s := Run(Fresh(start, calls), es); AllApplied(s.threads) && s.count == 0 && AllEnabled(s, fs)
    ensures var s := Run(Fresh(start, calls), es);
            && Run(s, fs).count == 0 && AllApplied(Run(s, fs).threads) && |fs| <= Measure(s) + 2 * Signals(fs)
            && (forall i :: 0 <= i < |fs| ==> !fs[i].StartWait?)
            && (Stuck(Run(s, fs)) ==> forall t :: 0 <= t < |calls| ==> DoneOrLapped(Run(s, fs), Run(s, fs).threads[t]))
  {
    FreshRun(start, calls, es);
    var s := Run(Fresh(start, calls), es);
    OverRun(s, fs);
    if Stuck(Run(s, fs)) {
      forall t | 0 <= t < |calls| ensures DoneOrLapped(Run(s, fs), Run(s, fs).threads[t]) {
        StuckAreLapped(Run(s, fs), t);
      }
    }
  }

  /** The steps of a run without signals and time-outs. */
  predicate Regular(es: seq<Event>)
  {
    forall i :: 0 <= i < |es| ==> RegularStep(es[i])
  }

  /** Asleep, or bound to fall asleep, with no broadcast to come. */
  predicate Misses(s: State, pc: Pc)
  {
    pc.Sleeping? || (pc.PreSleep? && WordUnchanged(pc.seen, s.sequence))
  }

  predicate NobodyMisses(s: State)
  {
    Broadcasting(s) || forall t :: 0 <= t < |s.threads| ==> !Misses(s, s.threads[t])
  }

  ghost predicate LeavesBy(s: State, fs: seq<Event>)
  {
    Regular(fs) && AllEnabled(s, fs) && AllReturned(Run(s, fs).threads)
  }

  /** Everybody can leave without help from signals or time-outs exactly if a broadcast is in progress or nobody has
      missed the last one. */
  lemma {:induction false} TheoremCanLeave(start: int, calls: seq<Call>, es: seq<Event>)
    requires AllEnabled(Fresh(start, calls), es)
    requires var s := Run(Fresh(start, calls), es); AllApplied(s.threads) && s.count == 0
    ensures var s := Run(Fresh(start, calls), es); (exists fs :: LeavesBy(s, fs)) <==> NobodyMisses(s)
  {
    FreshRun(start, calls, es);
    var s := Run(Fresh(start, calls), es);
    if NobodyMisses(s) {
      var fs := Finish(s);
      assert LeavesBy(s, fs);
    } else {
      var t :| 0 <= t < |s.threads| && Misses(s, s.threads[t]);
      forall fs | Regular(fs) && AllEnabled(s, fs) ensures !LeavesBy(s, fs) {
        MissesForever(s, fs, t);
      }
    }
  }

  lemma {:induction false} NoBumpLeft(s: State, e: Event)
    requires Over(s) && !Broadcasting(s) && Enabled(s, e)
    ensures Apply(s, e).sequence == s.sequence && !Broadcasting(Apply(s, e))
  {
    assert Applied(s.threads[e.t]);
    StepKeepsInv(s, e);
  }

  lemma {:induction false} MissesForever(s: State, es: seq<Event>, t: nat)
    requires Over(s) && !Broadcasting(s) && t < |s.threads| && Misses(s, s.threads[t]) && Regular(es) &&
             AllEnabled(s, es)
    ensures Misses(Run(s, es), Run(s, es).threads[t])
    decreases |es|
  {
    if es != [] {
      assert RegularStep(es[0]) && Applied(s.threads[es[0].t]);
      StaysOver(s, es[0]);
      NoBumpLeft(s, es[0]);
      MissesForever(Apply(s, es[0]), es[1..], t);
    }
  }

  /** The step to take: callers on their way into the futex go first. */
  lemma {:induction false} NextStep(s: State, t: nat) returns (e: Event)
    requires Over(s) && NobodyMisses(s) && t < |s.threads| && !s.threads[t].Returned?
    ensures Enabled(s, e) && RegularStep(e) && NobodyMisses(Apply(s, e))
  {
    if u :| 0 <= u < |s.threads| && s.threads[u].PreSleep? {
      e := FutexWait(u);
      assert !Holds(s.threads[u]);
    } else {
      e := SomebodyMoves(s, t);
      assert Applied(s.threads[e.t]);
    }
  }

  lemma {:induction false} Finish(s: State) returns (es: seq<Event>)
    requires Over(s) && NobodyMisses(s)
    ensures Regular(es) && AllEnabled(s, es) && AllReturned(Run(s, es).threads)
    decreases Measure(s)
  {
    if t :| 0 <= t < |s.threads| && !s.threads[t].Returned? {
      var e := NextStep(s, t);
      StaysOver(s, e);
      OverStep(s, e);
      var rest := Finish(Apply(s, e));
      Prepend(s, e, rest);
      es := [e] + rest;
    } else {
      es := [];
    }
  }

  lemma {:induction false} Prepend(s: State, e: Event, es: seq<Event>)
    requires Enabled(s, e) && AllEnabled(Apply(s, e), es)
    ensures AllEnabled(s, [e] + es) && Run(s, [e] + es) == Run(Apply(s, e), es)
  {
    assert ([e] + es)[1..] == es;
  }

  // ----- As a latch and as a barrier -----

  function Total(calls: seq<Call>): int
  {
    if calls == [] then 0 else Total(calls[..|calls| - 1]) + Effect(calls[|calls| - 1])
  }

  /** Every call but possibly `k` takes one off the count, and together they bring it to zero. */
  predicate Balanced(start: int, calls: seq<Call>, k: nat)
  {
    && k < |calls| && calls[k].Increment? && NoInit(calls) && start + Total(calls) == 0
    && forall t :: 0 <= t < |calls| && t != k ==> Effect(calls[t]) == -1
  }

  /** Calls not yet applied keep the sum above the total. */
  lemma {:induction false} SumAboveTotal(threads: seq<Pc>, calls: seq<Call>)
    requires |threads| == |calls|
    requires forall t :: 0 <= t < |calls| && !Applied(threads[t]) ==> Effect(calls[t]) == -1
    ensures Sum(threads, calls) >= Total(calls)
    ensures Sum(threads, calls) == Total(calls) ==> AllApplied(threads)
  {
    var n := |threads| - 1;
    if threads != [] {
      SumAboveTotal(threads[..n], calls[..n]);
      if Sum(threads, calls) == Total(calls) {
        assert AllApplied(threads[..n]) && Applied(threads[n]);
        assert forall t :: 0 <= t < n ==> threads[t] == threads[..n][t];
      }
    }
  }

  predicate Gate(s: State, k: nat)
  {
    k < |s.threads| && (s.threads[k].Returned? ==> AllApplied(s.threads))
  }

  lemma {:induction false} AppliedStays(s: State, e: Event)
    requires Enabled(s, e) && AllApplied(s.threads)
    ensures AllApplied(Apply(s, e).threads)
  {
    assert Applied(s.threads[e.t]);
  }

  lemma {:induction false} ReturnsAtZero(s: State, e: Event, k: nat)
    requires Enabled(s, e) && k < |s.threads| && s.calls[k].Increment? && !s.threads[k].Returned? &&
             Apply(s, e).threads[k].Returned?
    ensures s.count == 0
  {
  }

  lemma {:induction false} GateStep(s: State, e: Event, k: nat)
    requires Inv(s) && Enabled(s, e) && Balanced(s.start, s.calls, k) && Gate(s, k)
    ensures Gate(Apply(s, e), k)
  {
    if Apply(s, e).threads[k].Returned? {
      if !s.threads[k].Returned? {
        ReturnsAtZero(s, e, k);
        ZeroMeansAll(s, e, k);
      }
      AppliedStays(s, e);
    }
  }

  /** A balanced group brings the count to zero only when all are applied; the blocking call itself is. */
  lemma {:induction false} ZeroMeansAll(s: State, e: Event, k: nat)
    requires Inv(s) && Enabled(s, e) && Balanced(s.start, s.calls, k) && s.count == 0
    requires !s.threads[k].Returned? && Apply(s, e).threads[k].Returned?
    ensures AllApplied(s.threads)
  {
    assert Applied(s.threads[k]);
    assert forall t :: 0 <= t < |s.calls| && !Applied(s.threads[t]) ==> Effect(s.calls[t]) == -1;
    SumAboveTotal(s.threads, s.calls);
  }

  lemma {:induction false} GateRun(s: State, es: seq<Event>, k: nat)
    requires Inv(s) && AllEnabled(s, es) && Balanced(s.start, s.calls, k) && Gate(s, k)
    ensures Gate(Run(s, es), k)
    decreases |es|
  {
    if es != [] {
      StepKeepsInv(s, es[0]);
      GateStep(s, es[0], k);
      GateRun(Apply(s, es[0]), es[1..], k);
    }
  }

  /** In every run, once Increment `k` has returned, every call of the balanced group has been applied. */
  lemma {:induction false} TheoremNobodyPassesEarly(start: int, calls: seq<Call>, es: seq<Event>, k: nat)
    requires AllEnabled(Fresh(start, calls), es) && Balanced(start, calls, k)
    ensures var s := Run(Fresh(start, calls), es);
            k < |s.threads| && (s.threads[k].Returned? ==> AllApplied(s.threads))
  {
    IdleCounts(calls);
    GateRun(Fresh(start, calls), es, k);
  }

  lemma {:induction false} TotalSame(calls: seq<Call>)
    requires forall t :: 0 <= t < |calls| ==> Effect(calls[t]) == -1
    ensures Total(calls) == -|calls|
  {
    if calls != [] { TotalSame(calls[..|calls| - 1]); }
  }

  /** A latch: started at zero, n Passes and one Increment(n), which returns only after all of them. */
  lemma {:induction false} TheoremLatch(n: nat, es: seq<Event>)
    requires AllEnabled(Fresh(0, seq(n, _ => Pass) + [Increment(n)]), es)
    ensures var s := Run(Fresh(0, seq(n, _ => Pass) + [Increment(n)]), es);
            n < |s.threads| && (s.threads[n].Returned? ==> AllApplied(s.threads))
  {
    var passes := seq(n, _ => Pass);
    var calls := passes + [Increment(n)];
    TotalSame(passes);
    assert calls[..n] == passes;
    TheoremNobodyPassesEarly(0, calls, es, n);
  }

  /** A barrier: started at n, n Waits, none of which returns before all have been called. */
  lemma {:induction false} TheoremWaitBarrier(n: nat, es: seq<Event>, k: nat)
    requires k < n && AllEnabled(Fresh(n, seq(n, _ => Increment(-1))), es)
    ensures var s := Run(Fresh(n, seq(n, _ => Increment(-1))), es);
            k < |s.threads| && (s.threads[k].Returned? ==> AllApplied(s.threads))
  {
    TotalSame(seq(n, _ => Increment(-1)));
    TheoremNobodyPassesEarly(n, seq(n, _ => Increment(-1)), es, k);
  }

  /** A timed or untimed Increment that reports no time-out leaves at a moment when the count is zero. */
  lemma {:induction false} LeavesAtZero(s: State, e: Event)
    requires Enabled(s, e) && s.Blocks(e.t) && Apply(s, e).threads[e.t] == Returned(false) && !s.threads[e.t].Returned?
    ensures s.count == 0
  {
  }

  lemma {:induction false} Join(s: State, es: seq<Event>, fs: seq<Event>)
    requires AllEnabled(s, es) && AllEnabled(Run(s, es), fs)
    ensures AllEnabled(s, es + fs) && Run(s, es + fs) == Run(Run(s, es), fs)
    decreases |es|
  {
    if es == [] {
      assert es + fs == fs;
    } else {
      Join(Apply(s, es[0]), es[1..], fs);
      Prepend(s, es[0], es[1..] + fs);
      assert es + fs == [es[0]] + (es[1..] + fs);
    }
  }
}
