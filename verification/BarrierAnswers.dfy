/** What the barrier answers: which calls of a run report a time-out, and what the count is. */
module BarrierAnswers {
  import opened Options
  import opened Barrier

  // ----- Who reports a time-out -----

  /** The wait of `t` times out, or `t` finds its time used up. */
  predicate IsTimeOut(e: Event, t: nat)
  {
    e == TimeOut(t) || e == Expire(t)
  }

  predicate TimesOut(es: seq<Event>, t: nat)
  {
    exists i :: 0 <= i < |es| && IsTimeOut(es[i], t)
  }

  /** Where `t` is shows whether it has timed out. */
  predicate Shows(pc: Pc, timedOut: bool)
  {
    match pc
    case Woken(b) => b == timedOut
    case BlockedAgain(b) => b == timedOut
    case Rechecking(b) => b == timedOut
    case Returned(b) => b == timedOut
    case _ => !timedOut
  }

  lemma {:induction false} ShowsStep(s: State, e: Event, t: nat, timedOut: bool)
    requires |s.threads| == |s.calls| && t < |s.threads| && Enabled(s, e)
    requires Shows(s.threads[t], timedOut) && (timedOut ==> s.Timed(t))
    ensures Shows(Apply(s, e).threads[t], timedOut || IsTimeOut(e, t)) && (IsTimeOut(e, t) ==> s.Timed(t))
  {
  }

  lemma {:induction false} ShowsRun(s: State, es: seq<Event>, t: nat, timedOut: bool)
    requires |s.threads| == |s.calls| && t < |s.threads| && AllEnabled(s, es)
    requires Shows(s.threads[t], timedOut) && (timedOut ==> s.Timed(t))
    ensures Shows(Run(s, es).threads[t], timedOut || TimesOut(es, t)) && (TimesOut(es, t) ==> s.Timed(t))
    decreases |es|
  {
    if es != [] {
      ShowsStep(s, es[0], t, timedOut);
      ShowsRun(Apply(s, es[0]), es[1..], t, timedOut || IsTimeOut(es[0], t));
      if i :| 0 <= i < |es[1..]| && IsTimeOut(es[1..][i], t) { assert IsTimeOut(es[i + 1], t); }
      if i :| 0 <= i < |es| && IsTimeOut(es[i], t) {
        if i > 0 { assert IsTimeOut(es[1..][i - 1], t); }
      }
    }
  }

  /** In every run a call that has returned reports a time-out exactly if it had one in that run. */
  lemma {:induction false} TheoremAnswerIff(start: int, calls: seq<Call>, es: seq<Event>, t: nat)
    requires AllEnabled(Fresh(start, calls), es) && t < |calls|
    requires Run(Fresh(start, calls), es).threads[t].Returned?
    ensures Run(Fresh(start, calls), es).threads[t].timedOut <==> TimesOut(es, t)
    ensures TimesOut(es, t) ==> calls[t].TimedIncrement?
  {
    ShowsRun(Fresh(start, calls), es, t, false);
  }

  // ----- Who finds the count zero -----

  /** `t` looks at the count, after setting it or after a wait that did not time out. */
  predicate Looks(pc: Pc)
  {
    pc.Counted? || pc == Rechecking(false)
  }

  /** `t` looks at a count of zero, or has said that it found it. */
  predicate SeesZero(s: State, t: nat)
  {
    t < |s.threads| && (s.threads[t] == Returned(false) || (s.count == 0 && Looks(s.threads[t])))
  }

  lemma {:induction false} SeesZeroStep(s: State, e: Event, t: nat)
    requires Inv(s) && SeesZero(s, t) && Enabled(s, e)
    ensures SeesZero(Apply(s, e), t)
    ensures e.t == t && !e.NoWaiter? ==> e == Return(t) && Apply(s, e).threads[t] == Returned(false)
  {
    if Holds(s.threads[t]) && e.t != t { assert s.lock == Some(t) && !Holds(s.threads[e.t]); }
  }

  /** A call that finds the count zero can return, does nothing else, and reports no time-out. */
  lemma {:induction false} TheoremZeroAnswer(start: int, calls: seq<Call>, es: seq<Event>, fs: seq<Event>, t: nat)
    requires AllEnabled(Fresh(start, calls), es) && t < |calls|
    requires var s := Run(Fresh(start, calls), es); s.count == 0 && Looks(s.threads[t]) && AllEnabled(s, fs)
    ensures var s := Run(Fresh(start, calls), es);
            && Enabled(s, Return(t)) && Apply(s, Return(t)).threads[t] == Returned(false)
            && (Run(s, fs).threads[t] == s.threads[t] || Run(s, fs).threads[t] == Returned(false))
  {
    FreshRun(start, calls, es);
    StaysOrLeaves(Run(Fresh(start, calls), es), fs, t);
  }

  lemma {:induction false} StaysOrLeaves(s: State, es: seq<Event>, t: nat)
    requires Inv(s) && SeesZero(s, t) && AllEnabled(s, es)
    ensures Run(s, es).threads[t] == s.threads[t] || Run(s, es).threads[t] == Returned(false)
    decreases |es|
  {
    if es != [] {
      SeesZeroStep(s, es[0], t);
      StepKeepsInv(s, es[0]);
      StaysOrLeaves(Apply(s, es[0]), es[1..], t);
    }
  }

  // ----- What the count is -----

  predicate Applies(e: Event, calls: seq<Call>)
  {
    e.SetCount? && e.t < |calls|
  }

  predicate NoInitIn(es: seq<Event>, calls: seq<Call>)
  {
    forall i :: 0 <= i < |es| && Applies(es[i], calls) ==> !calls[es[i].t].Init?
  }

  /** What the calls applied in a run add: one less for each Pass, the delta for each Increment. */
  function Added(es: seq<Event>, calls: seq<Call>): int
  {
    if es == [] then 0
    else (if Applies(es[0], calls) then Effect(calls[es[0].t]) else 0) + Added(es[1..], calls)
  }

  lemma {:induction false} AddedRun(s: State, es: seq<Event>)
    requires |s.threads| == |s.calls| && AllEnabled(s, es) && NoInitIn(es, s.calls)
    ensures Run(s, es).count == s.count + Added(es, s.calls)
    decreases |es|
  {
    if es != [] {
      assert Applies(es[0], s.calls) ==> !s.calls[es[0].t].Init?;
      assert forall i :: 0 <= i < |es[1..]| ==> es[1..][i] == es[i + 1];
      AddedRun(Apply(s, es[0]), es[1..]);
    }
  }

  /** In every run the count is what the last Init set, and what was added since. */
  lemma {:induction false} TheoremCountIs(start: int, calls: seq<Call>, es: seq<Event>, t: nat, fs: seq<Event>)
    requires AllEnabled(Fresh(start, calls), es) && t < |calls| && calls[t].Init? && NoInitIn(fs, calls)
    requires Enabled(Run(Fresh(start, calls), es), SetCount(t))
    requires AllEnabled(Apply(Run(Fresh(start, calls), es), SetCount(t)), fs)
    ensures Run(Apply(Run(Fresh(start, calls), es), SetCount(t)), fs).count == calls[t].count + Added(fs, calls)
  {
    FreshRun(start, calls, es);
    SameCalls(Fresh(start, calls), es);
    AddedRun(Apply(Run(Fresh(start, calls), es), SetCount(t)), fs);
  }

  lemma {:induction false} SameCalls(s: State, es: seq<Event>)
    requires AllEnabled(s, es)
    ensures Run(s, es).calls == s.calls
    decreases |es|
  {
    if es != [] { SameCalls(Apply(s, es[0]), es[1..]); }
  }
}
