/** Where the barrier does not do what one would hope: used again too early, and with the futex word going round. */
module BarrierReuse {
  import opened Options
  import opened Barrier

  // ----- Who waits again -----

  /** The state after the first `i` steps. */
  function After(s: State, es: seq<Event>, i: nat): State
    requires i <= |es| && AllEnabled(s, es[..i])
  {
    Run(s, es[..i])
  }

  lemma {:induction false} PrefixEnabled(s: State, es: seq<Event>, i: nat)
    requires AllEnabled(s, es) && i <= |es|
    ensures AllEnabled(s, es[..i])
    decreases i
  {
    if i > 0 {
      PrefixEnabled(Apply(s, es[0]), es[1..], i - 1);
      assert es[..i][1..] == es[1..][..i - 1];
    }
  }

  lemma {:induction false} NextAfter(s: State, es: seq<Event>, i: nat)
    requires AllEnabled(s, es) && i < |es|
    ensures AllEnabled(s, es[..i]) && AllEnabled(s, es[..i + 1]) && Enabled(After(s, es, i), es[i])
    ensures After(s, es, i + 1) == Apply(After(s, es, i), es[i])
    decreases i
  {
    PrefixEnabled(s, es, i);
    PrefixEnabled(s, es, i + 1);
    assert es[..i + 1][1..] == es[1..][..i];
    if i > 0 {
      NextAfter(Apply(s, es[0]), es[1..], i - 1);
      assert es[..i][1..] == es[1..][..i - 1];
    } else {
      var s1 := Apply(s, es[0]);
      assert es[..1][1..] == [] && es[..0] == [] && Run(s1, []) == s1;
    }
  }

  /** Step `i` is a call that leaves the count at something other than zero. */
  predicate MovesOff(s: State, es: seq<Event>, i: nat)
    requires i < |es| && AllEnabled(s, es[..i + 1])
  {
    es[i].SetCount? && After(s, es, i + 1).count != 0
  }

  /** A call moves the count off zero and no later one brings it back. */
  ghost predicate Disturbed(s: State, es: seq<Event>)
    requires AllEnabled(s, es)
  {
    exists i :: 0 <= i < |es| && AllEnabled(s, es[..i + 1]) && MovesOff(s, es, i) && NotBack(s, es, i + 1)
  }

  ghost predicate NotBack(s: State, es: seq<Event>, from: nat)
  {
    forall j :: from <= j < |es| && es[j].SetCount? && AllEnabled(s, es[..j + 1]) ==> After(s, es, j + 1).count != 0
  }

  /** The count at the end is zero exactly if no call has moved it off for good. */
  lemma {:induction false} CountDisturbed(s: State, es: seq<Event>, n: nat)
    requires AllEnabled(s, es) && n <= |es| && s.count == 0 && AllEnabled(s, es[..n])
    ensures After(s, es, n).count != 0 <==> Disturbed(s, es[..n])
  {
    if n == 0 {
      assert es[..0] == [];
    } else {
      NextAfter(s, es, n - 1);
      CountDisturbed(s, es, n - 1);
      DisturbedStep(s, es, n - 1);
    }
  }

  lemma {:induction false} PrefixOfPrefix(es: seq<Event>, n: nat, i: nat)
    requires i <= n <= |es|
    ensures es[..n][..i] == es[..i]
  {
  }

  lemma {:induction false} DisturbedStep(s: State, es: seq<Event>, n: nat)
    requires AllEnabled(s, es) && n < |es| && AllEnabled(s, es[..n]) && AllEnabled(s, es[..n + 1])
    ensures es[n].SetCount? ==> (Disturbed(s, es[..n + 1]) <==> After(s, es, n + 1).count != 0)
    ensures !es[n].SetCount? ==> (Disturbed(s, es[..n + 1]) <==> Disturbed(s, es[..n]))
  {
    var a, b := es[..n], es[..n + 1];
    forall m | 0 <= m <= n + 1 ensures b[..m] == es[..m] {
      PrefixOfPrefix(es, n + 1, m);
    }
    forall m | 0 <= m <= n ensures a[..m] == es[..m] {
      PrefixOfPrefix(es, n, m);
    }
    if es[n].SetCount? {
      if After(s, es, n + 1).count != 0 {
        assert MovesOff(s, b, n) && NotBack(s, b, n + 1);
      }
    } else {
      if i :| 0 <= i < |a| && AllEnabled(s, a[..i + 1]) && MovesOff(s, a, i) && NotBack(s, a, i + 1) {
        assert MovesOff(s, b, i) && NotBack(s, b, i + 1);
      }
      if i :| 0 <= i < |b| && AllEnabled(s, b[..i + 1]) && MovesOff(s, b, i) && NotBack(s, b, i + 1) {
        assert i < n && MovesOff(s, a, i) && NotBack(s, a, i + 1);
      }
    }
  }

  /** A caller woken at count zero waits again, once it has the lock back, exactly if in between a call moved the count
      off zero for good. */
  lemma {:induction false} TheoremWaitsAgainIff(start: int, calls: seq<Call>, es: seq<Event>, fs: seq<Event>, t: nat)
    requires AllEnabled(Fresh(start, calls), es) && t < |calls| && calls[t].Increment?
    requires var s := Run(Fresh(start, calls), es);
             && t < |s.threads| && s.count == 0 && s.threads[t].Woken? && AllEnabled(s, fs)
             && Run(s, fs).threads[t].Woken? && Run(s, fs).lock.None?
    ensures var s := Run(Fresh(start, calls), es);
            && Enabled(Run(s, fs), Reacquire(t))
            && var s' := Apply(Run(s, fs), Reacquire(t));
               (Enabled(s', StartWait(t)) <==> Disturbed(s, fs)) && (Enabled(s', Return(t)) <==> !Disturbed(s, fs))
  {
    FreshRun(start, calls, es);
    var s := Run(Fresh(start, calls), es);
    RunKeepsInv(s, fs);
    assert fs[..|fs|] == fs;
    CountDisturbed(s, fs, |fs|);
  }

  /** Without Init calls the calls themselves decide: it waits again exactly if what they add in between is not zero. */
  lemma {:induction false} TheoremWaitsAgainSum(start: int, calls: seq<Call>, es: seq<Event>, fs: seq<Event>)
    requires AllEnabled(Fresh(start, calls), es) && NoInit(calls)
    requires var s := Run(Fresh(start, calls), es); s.count == 0 && AllEnabled(s, fs)
    ensures var s := Run(Fresh(start, calls), es);
            |s.threads| == |calls| == |Run(s, fs).threads| &&
            (Disturbed(s, fs) <==> Sum(Run(s, fs).threads, calls) != Sum(s.threads, calls))
  {
    FreshRun(start, calls, es);
    var s := Run(Fresh(start, calls), es);
    RunKeepsInv(s, fs);
    assert fs[..|fs|] == fs;
    CountDisturbed(s, fs, |fs|);
  }

  // ----- A barrier used again too early -----

  /** Runs several steps in a row. */
  lemma {:induction false} Append(s: State, es: seq<Event>, e: Event)
    requires AllEnabled(s, es) && Enabled(Run(s, es), e)
    ensures AllEnabled(s, es + [e]) && Run(s, es + [e]) == Apply(Run(s, es), e)
  {
    var s1 := Apply(Run(s, es), e);
    assert AllEnabled(s1, []) && Run(s1, []) == s1;
    Prepend(Run(s, es), e, []);
    assert [e] == [e] + [];
    Join(s, es, [e]);
  }

  function Trio(d: int): seq<Call>
  {
    [Increment(1), Pass, Increment(d)]
  }

  /** Caller 0 goes to sleep. */
  lemma {:induction false} FirstSleeps(d: int) returns (es: seq<Event>)
    ensures AllEnabled(Fresh(0, Trio(d)), es)
    ensures Run(Fresh(0, Trio(d)), es) == State(1, None, 0, 0, 1, [Sleeping(0), Idle, Idle], 0, Trio(d))
  {
    var s := Fresh(0, Trio(d));
    assert s.threads == [Idle, Idle, Idle];
    es := [];
    Append(s, es, Start(0));
    es := es + [Start(0)];
    Append(s, es, Acquire(0));
    es := es + [Acquire(0)];
    Append(s, es, SetCount(0));
    es := es + [SetCount(0)];
    Append(s, es, StartWait(0));
    es := es + [StartWait(0)];
    Append(s, es, NoWaiter(0));
    es := es + [NoWaiter(0)];
    Append(s, es, FutexWait(0));
    es := es + [FutexWait(0)];
    assert Run(s, es).threads == [Sleeping(0), Idle, Idle];
  }

  /** Caller 1 brings the count to zero, and its unlock wakes caller 0. */
  lemma {:induction false} PassWakes(d: int, s: State) returns (es: seq<Event>)
    requires s == State(1, None, 0, 0, 1, [Sleeping(0), Idle, Idle], 0, Trio(d))
    ensures AllEnabled(s, es) && Run(s, es) ==
            State(0, None, 0, 1, 1, [Woken(false), Returned(false), Idle], 0, Trio(d))
  {
    es := [];
    Append(s, es, Start(1));
    es := es + [Start(1)];
    Append(s, es, Acquire(1));
    es := es + [Acquire(1)];
    Append(s, es, SetCount(1));
    es := es + [SetCount(1)];
    Append(s, es, Bump(1));
    es := es + [Bump(1)];
    assert MoveSleepers(Run(s, es).threads) == [Requeued, Requeueing, Idle];
    Append(s, es, Requeue(1));
    es := es + [Requeue(1)];
    Append(s, es, Return(1));
    es := es + [Return(1)];
    Append(s, es, Dequeue(0));
    es := es + [Dequeue(0)];
    assert Run(s, es).threads == [Woken(false), Returned(false), Idle];
  }

  /** Caller 2 takes the lock first and moves the count. */
  lemma {:induction false} ThirdSleeps(d: int, s: State) returns (es: seq<Event>)
    requires d != 0 && s == State(0, None, 0, 1, 1, [Woken(false), Returned(false), Idle], 0, Trio(d))
    ensures AllEnabled(s, es) && Run(s, es) ==
            State(d, None, 0, 1, 2, [Woken(false), Returned(false), Sleeping(1)], 0, Trio(d))
  {
    es := [];
    Append(s, es, Start(2));
    es := es + [Start(2)];
    Append(s, es, Acquire(2));
    es := es + [Acquire(2)];
    Append(s, es, SetCount(2));
    es := es + [SetCount(2)];
    Append(s, es, StartWait(2));
    es := es + [StartWait(2)];
    Append(s, es, NoWaiter(2));
    es := es + [NoWaiter(2)];
    Append(s, es, FutexWait(2));
    es := es + [FutexWait(2)];
    assert Run(s, es).threads == [Woken(false), Returned(false), Sleeping(1)];
  }

  /** Caller 0 finds that and sleeps again. */
  lemma {:induction false} SleepsAgain(d: int, s: State) returns (es: seq<Event>)
    requires d != 0 && s == State(d, None, 0, 1, 2, [Woken(false), Returned(false), Sleeping(1)], 0, Trio(d))
    ensures AllEnabled(s, es) && Run(s, es) ==
            State(d, None, 0, 1, 2, [Sleeping(1), Returned(false), Sleeping(1)], 0, Trio(d))
  {
    es := [];
    Append(s, es, Reacquire(0));
    es := es + [Reacquire(0)];
    Append(s, es, StartWait(0));
    es := es + [StartWait(0)];
    Append(s, es, NoWaiter(0));
    es := es + [NoWaiter(0)];
    Append(s, es, FutexWait(0));
    es := es + [FutexWait(0)];
    assert Run(s, es).threads == [Sleeping(1), Returned(false), Sleeping(1)];
  }

  /** Increment(1) and Pass are over, and yet the Increment sleeps because a third call came before it got the lock. */
  lemma {:induction false} ReuseHazard(d: int) returns (es: seq<Event>)
    requires d != 0
    ensures AllEnabled(Fresh(0, Trio(d)), es)
    ensures var s := Run(Fresh(0, Trio(d)), es);
            s.threads == [Sleeping(1), Returned(false), Sleeping(1)] && s.count == d && s.lock.None? && s.owed == 0
  {
    var s := Fresh(0, Trio(d));
    var as1 := FirstSleeps(d);
    var as2 := PassWakes(d, Run(s, as1));
    Join(s, as1, as2);
    var as3 := ThirdSleeps(d, Run(s, as1 + as2));
    Join(s, as1 + as2, as3);
    var as4 := SleepsAgain(d, Run(s, as1 + as2 + as3));
    Join(s, as1 + as2 + as3, as4);
    es := as1 + as2 + as3 + as4;
  }

  // ----- The futex word goes round -----

  function LapCalls(n: nat): (calls: seq<Call>)
    ensures |calls| == n + 1 && calls[0] == Increment(1) && forall t :: 1 <= t <= n ==> calls[t] == Init(0)
  {
    [Increment(1)] + seq(n, _ => Init(0))
  }

  /** Caller 0 is about to sleep and `k` callers have set the count to zero and returned. */
  function LapThreads(n: nat, k: nat): (threads: seq<Pc>)
    requires k <= n
    ensures |threads| == n + 1 && threads[0] == PreSleep(0)
    ensures forall t :: 1 <= t <= k ==> threads[t] == Returned(false)
    ensures forall t :: k < t <= n ==> threads[t] == Idle
  {
    [PreSleep(0)] + seq(k, _ => Returned(false)) + seq(n - k, _ => Idle)
  }

  function LapState(n: nat, k: nat): State
    requires k <= n
  {
    State(if k == 0 then 1 else 0, None, 0, k, 1, LapThreads(n, k), 0, LapCalls(n))
  }

  lemma {:induction false} LapBegin(n: nat) returns (es: seq<Event>)
    ensures AllEnabled(Fresh(0, LapCalls(n)), es) && Run(Fresh(0, LapCalls(n)), es) == LapState(n, 0)
  {
    var s := Fresh(0, LapCalls(n));
    es := [];
    Append(s, es, Start(0));
    es := es + [Start(0)];
    Append(s, es, Acquire(0));
    es := es + [Acquire(0)];
    Append(s, es, SetCount(0));
    es := es + [SetCount(0)];
    Append(s, es, StartWait(0));
    es := es + [StartWait(0)];
    Append(s, es, NoWaiter(0));
    es := es + [NoWaiter(0)];
    assert Run(s, es).threads == LapThreads(n, 0);
  }

  /** One more caller broadcasts to nobody: caller 0 has not reached the futex. */
  lemma {:induction false} LapStep(n: nat, k: nat) returns (es: seq<Event>)
    requires k < n
    ensures AllEnabled(LapState(n, k), es) && Run(LapState(n, k), es) == LapState(n, k + 1)
  {
    var s, t := LapState(n, k), k + 1;
    es := [];
    Append(s, es, Start(t));
    es := es + [Start(t)];
    Append(s, es, Acquire(t));
    es := es + [Acquire(t)];
    Append(s, es, SetCount(t));
    es := es + [SetCount(t)];
    Append(s, es, Bump(t));
    es := es + [Bump(t)];
    assert MoveSleepers(Run(s, es).threads) == Run(s, es).threads;
    Append(s, es, Requeue(t));
    es := es + [Requeue(t)];
    Append(s, es, Return(t));
    es := es + [Return(t)];
    Append(s, es, NoWaiter(t));
    es := es + [NoWaiter(t)];
    assert Run(s, es).threads == LapThreads(n, k + 1);
  }

  lemma {:induction false} LapRun(n: nat, k: nat) returns (es: seq<Event>)
    requires k <= n
    ensures AllEnabled(Fresh(0, LapCalls(n)), es) && Run(Fresh(0, LapCalls(n)), es) == LapState(n, k)
  {
    if k == 0 {
      es := LapBegin(n);
    } else {
      var before := LapRun(n, k - 1);
      var more := LapStep(n, k - 1);
      Join(Fresh(0, LapCalls(n)), before, more);
      es := before + more;
    }
  }

  /** After 2^32 broadcasts between looking at the futex word and the futex call, the caller falls asleep although the
      count is zero, everybody else has returned, and only a signal can wake it. */
  lemma {:induction false} LapExample() returns (es: seq<Event>)
    ensures AllEnabled(Fresh(0, LapCalls(LAP)), es)
    ensures var s := Run(Fresh(0, LapCalls(LAP)), es);
            && s.count == 0 && s.lock.None? && |s.threads| == LAP + 1 && s.threads[0] == Sleeping(0) && Stuck(s)
            && forall t :: 1 <= t <= LAP ==> s.threads[t] == Returned(false)
  {
    var n := LAP;
    var s := Fresh(0, LapCalls(n));
    es := LapRun(n, n);
    Append(s, es, FutexWait(0));
    es := es + [FutexWait(0)];
    OnlySleeper(Run(s, es));
  }

  lemma {:induction false} OnlySleeper(s: State)
    requires |s.threads| == |s.calls| > 0 && s.owed == 0 && s.threads[0] == Sleeping(0) && !s.calls[0].TimedIncrement?
    requires forall t :: 1 <= t < |s.threads| ==> s.threads[t] == Returned(false)
    ensures Stuck(s)
  {
    forall e | Enabled(s, e) ensures !RegularStep(e) {
      assert e.t == 0 || s.threads[e.t] == Returned(false);
    }
  }
}
