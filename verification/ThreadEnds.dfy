/** The end of a thread: where an exited thread can be, in every run. */
module ThreadEnds {
  import opened Threads
  import opened ThreadPlaces
  import opened ThreadInvariant
  import opened ThreadLocks
  import opened ThreadRefs
  import opened ThreadSteps
  import opened ThreadRuns

  predicate Ending(pc: Pc) {
    pc.ExitOff? || pc.ExitRun? || pc == Sched(Never) || pc == Resume(Never)
  }

  /** An exited thread is at the end of Exit, and the running one is not on its way out of
      memory. */
  ghost predicate EndsOk(s: Sys)
    requires Sized(s)
  {
    && (forall t: nat :: t < |s.pc| && !s.alive[t] ==> Ending(s.pc[t]))
    && s.at[s.cur] != Gone && s.at[s.cur] != In(ChainQ)
  }

  // What the parts of steps leave alone

  ghost predicate SamePoints(s: Sys, r: Sys) {
    r.pc == s.pc && r.alive == s.alive && |r.at| == |s.at|
  }

  lemma DetachFrame(s: Sys, t: nat)
    requires Sized(s) && t < |s.pc|
    ensures SamePoints(s, Detach(s, t)) && Detach(s, t).cur == s.cur
    ensures forall u: nat :: u < |s.at| ==>
              var at := Detach(s, t).at[u]; at == s.at[u] || at == In(RunQ) || at == In(GraveQ)
  {}

  lemma WakeOneFrame(s: Sys, q: Queue)
    requires Sized(s) && InRange(Q(s, q), |s.pc|) && q != RunQ
    ensures SamePoints(s, WakeOne(s, q)) && WakeOne(s, q).cur == s.cur
  {
    hide Best;
  }

  lemma SwitchFrame(s: Sys)
    requires Sized(s) && Q(s, RunQ) != [] && InRange(Q(s, RunQ), |s.pc|)
    ensures SamePoints(s, Switch(s)) && Switch(s).cur < |s.at| && Switch(s).at[Switch(s).cur] == Current
  {
    hide Best;
  }

  lemma ExitFrame(s: Sys)
    requires Sized(s)
    ensures var r := ExitStep(s);
            && r.pc == s.pc[s.cur := Sched(Never)] && r.alive == s.alive && r.cur == s.cur && |r.at| == |s.at|
            && r.at[s.cur] != Gone && r.at[s.cur] != In(ChainQ)
  {
    hide Detach;
    var s1 := WakeAll(s, JoinQ(s.cur));
    DetachFrame(s1.(at := s1.at[s.cur := Zombie]), s.cur);
  }

  lemma JoinFrame(s: Sys, t: nat)
    requires Sized(s) && t < |s.pc|
    ensures var r := JoinStep(s, t);
            |r.pc| == |s.pc| && r.pc == s.pc[s.cur := r.pc[s.cur]] && r.alive == s.alive && r.cur == s.cur && !r.pc[s.cur].Sched?
  {
    hide Detach;
    DetachFrame(s.(ints := true, joined := s.joined[t := true]), t);
  }

  /** Only the running thread's point changes, and nobody exits. */
  ghost predicate OwnPoint(s: Sys, r: Sys)
    requires s.cur < |s.pc|
  {
    |r.pc| == |s.pc| && r.alive == s.alive && r.pc == s.pc[s.cur := r.pc[s.cur]]
  }

  lemma ActFrame(s: Sys)
    requires Sized(s) && QueuesListThreads(s) && Enabled(s, Advance) && !LocalPoint(s.pc[s.cur])
    ensures OwnPoint(s, Act(s))
    ensures if s.pc[s.cur].Sched? then Switched(s, Act(s)) else Act(s).cur == s.cur
  {
    hide WakeOne, Switch, ExitStep, JoinStep, Best, Mu;
    match s.pc[s.cur]
    case UnlockWake(m, _) => WakeOneFrame(s, MutexQ(m));
    case Sched(back) => assert InRange(Q(s, RunQ), |s.pc|); SwitchFrame(SetPc(s, Resume(back)));
    case JoinTest(t) => if t < |s.pc| { JoinFrame(s, t); }
    case ExitOff => ExitFrame(s);
    case _ =>
  }

  lemma GoFrame(s: Sys)
    requires Sized(s) && QueuesListThreads(s) && Enabled(s, Advance)
    ensures OwnPoint(s, Go(s))
    ensures if s.pc[s.cur].Sched? then Switched(s, Go(s)) else Go(s).cur == s.cur
  {
    hide Act, NextPoint, NextInts, NextPre, QueuesListThreads;
    if !LocalPoint(s.pc[s.cur]) { ActFrame(s); }
  }

  /** A step moves only the running thread's point, only it can exit, and a new thread is alive. */
  lemma StepFrame(s: Sys, a: Action)
    requires Sized(s) && QueuesListThreads(s) && Enabled(s, a) && FlagsFit(s.pc[s.cur], s.ints, s.pre)
    ensures var r := Step(s, a);
            && |r.pc| >= |s.pc| && |r.alive| == |r.pc|
            && (forall t: nat :: t < |s.pc| && t != s.cur ==> r.pc[t] == s.pc[t] && r.alive[t] == s.alive[t])
            && (forall t: nat :: |s.pc| <= t < |r.pc| ==> r.alive[t])
            && (a.Advance? ==> OwnPoint(s, r)) && (!a.Advance? && !a.CallExit? ==> r.alive[s.cur] == s.alive[s.cur])
            && (if s.pc[s.cur].Sched? || a.Preempt? then Switched(s, r) else r.cur == s.cur)
  {
    hide Go, WakeOne, Switch, Best;
    match a
    case Advance => GoFrame(s);
    case Preempt => RunQueueRange(s); SwitchFrame(Put(s, RunQ, s.cur));
    case CallSignal(c) => assert InRange(Q(s, CondQ(c)), |s.pc|); WakeOneFrame(s, CondQ(c));
    case _ =>
  }

  lemma RunQueueRange(s: Sys)
    requires Sized(s) && QueuesListThreads(s)
    ensures var r := Put(s, RunQ, s.cur); Sized(r) && Q(r, RunQ) != [] && InRange(Q(r, RunQ), |r.pc|)
  {
    assert InRange(Q(s, RunQ), |s.pc|);
  }

  /** A thread at the end of Exit stays there. */
  lemma EndingGo(s: Sys)
    requires Sized(s) && QueuesListThreads(s) && Enabled(s, Advance) && Ending(s.pc[s.cur]) && s.pc[s.cur] != Resume(Never)
    ensures s.cur < |Go(s).pc| && Ending(Go(s).pc[s.cur])
  {
    hide Switch, ExitStep, QueuesListThreads;
    if s.pc[s.cur].ExitOff? { ExitFrame(s); }
    if s.pc[s.cur].Sched? { SchedGo(s); }
  }

  lemma SchedGo(s: Sys)
    requires Sized(s) && QueuesListThreads(s) && Enabled(s, Advance) && s.pc[s.cur] == Sched(Never)
    ensures s.cur < |Go(s).pc| && Go(s).pc[s.cur] == Resume(Never)
  {
    hide Switch;
    assert InRange(Q(s, RunQ), |s.pc|);
    SwitchFrame(SetPc(s, Resume(Never)));
  }

  /** The running thread, if it has exited before or does so now, is at the end of Exit. */
  lemma RunnerEnds(s: Sys, a: Action)
    requires Sized(s) && QueuesListThreads(s) && Enabled(s, a) && FlagsFit(s.pc[s.cur], s.ints, s.pre)
    requires (!s.alive[s.cur] ==> Ending(s.pc[s.cur])) && s.pc[s.cur] != Resume(Never)
    ensures var r := Step(s, a); s.cur < |r.pc| && s.cur < |r.alive| && (!r.alive[s.cur] ==> Ending(r.pc[s.cur]))
  {
    StepFrame(s, a);
    hide Go, WakeOne, Switch, Best, QueuesListThreads;
    match a
    case Advance => if !s.alive[s.cur] { EndingGo(s); }
    case Preempt => RunQueueRange(s); SwitchFrame(Put(s, RunQ, s.cur));
    case _ =>
  }

  predicate LeadsToSwitch(pc: Pc) {
    pc.Enq? || pc.ExitOff? || pc.ReapYield?
  }

  lemma NotToSwitch(s: Sys)
    requires Sized(s) && QueuesListThreads(s) && Enabled(s, Advance) && !LeadsToSwitch(s.pc[s.cur]) && !s.pc[s.cur].Sched?
    ensures s.cur < |Go(s).pc| && !Go(s).pc[s.cur].Sched?
  {
    hide WakeOne, JoinStep, ExitStep, Switch, NextInts, NextPre, Best, Mu;
    match s.pc[s.cur]
    case JoinTest(t) => if t < |s.pc| { JoinFrame(s, t); }
    case UnlockWake(m, _) => assert InRange(Q(s, MutexQ(m)), |s.pc|); WakeOneFrame(s, MutexQ(m));
    case _ =>
  }

  lemma SwitcherGo(s: Sys)
    requires Sized(s) && QueuesListThreads(s) && Enabled(s, Advance) && LeadsToSwitch(s.pc[s.cur]) && RoleFits(s.cur, s.pc[s.cur])
    ensures |Go(s).at| == |s.at| && Go(s).at[s.cur] != Gone && Go(s).at[s.cur] != In(ChainQ)
  {
    hide ExitStep, QueuesListThreads;
    if s.pc[s.cur].ExitOff? { ExitFrame(s); }
  }

  /** A thread about to switch is on the queue it waits on, or has left Exit. */
  lemma SwitcherPlace(s: Sys, a: Action)
    requires Sized(s) && QueuesListThreads(s) && Enabled(s, a) && RoleFits(s.cur, s.pc[s.cur]) && !s.pc[s.cur].Sched?
    requires a.Advance? || a.CallYield?
    requires s.cur < |Step(s, a).pc| && s.cur < |Step(s, a).at| && Step(s, a).pc[s.cur].Sched?
    ensures Step(s, a).at[s.cur] != Gone && Step(s, a).at[s.cur] != In(ChainQ)
  {
    hide Go, QueuesListThreads, RoleFits;
    if a.Advance? {
      if LeadsToSwitch(s.pc[s.cur]) { SwitcherGo(s); } else { NotToSwitch(s); }
    }
  }

  /** Only these steps lead to a switch. */
  lemma SwitchedBy(s: Sys, a: Action)
    requires Sized(s) && QueuesListThreads(s) && Enabled(s, a) && FlagsFit(s.pc[s.cur], s.ints, s.pre) && !s.pc[s.cur].Sched? && !a.Preempt?
    requires s.cur < |Step(s, a).pc| && Step(s, a).pc[s.cur].Sched?
    ensures a.Advance? || a.CallYield?
  {
    hide Go, Best, QueuesListThreads;
    if a.CallSignal? { WakeOneSamePc(s, a.c); }
  }

  lemma WakeOneSamePc(s: Sys, c: nat)
    requires Sized(s) && QueuesListThreads(s)
    ensures InRange(Q(s, CondQ(c)), |s.pc|) && WakeOne(s, CondQ(c)).pc == s.pc
  {
    WakeOneFrame(s, CondQ(c));
  }

  lemma CurrentPlace(s: Sys)
    requires Inv(s)
    ensures Sized(s) && QueuesListThreads(s) && !s.pc[s.cur].Sched? ==> s.at[s.cur] == Current
  {
    InvPlaces(s);
  }

  predicate Switched(s: Sys, r: Sys) {
    r.cur < |r.at| && r.at[r.cur] == Current
  }

  lemma StepEnds(s: Sys, a: Action)
    requires Inv(s) && Enabled(s, a) && EndsOk(s)
    ensures QueuesListThreads(s) && Sized(Step(s, a)) && EndsOk(Step(s, a))
  {
    hide Step, Inv;
    InvCurrent(s);
    StepKeeps(s, a);
    var r := Step(s, a);
    InvCurrent(r);
    CurrentPlace(r);
    StepFrame(s, a);
    RunnerEnds(s, a);
    forall t: nat | t < |r.pc| && !r.alive[t] ensures Ending(r.pc[t]) { assert t != s.cur ==> t < |s.pc|; }
    if r.pc[r.cur].Sched? && !s.pc[s.cur].Sched? && !a.Preempt? {
      SwitchedBy(s, a);
      SwitcherPlace(s, a);
    }
  }

  lemma InitialEnds()
    ensures Sized(InitialState()) && EndsOk(InitialState())
  {}

  lemma {:induction false} RunEnds(states: seq<Sys>, acts: seq<Action>, i: nat)
    requires IsRun(states, acts) && i < |states|
    ensures Sized(states[i]) && EndsOk(states[i])
  {
    hide Step, Inv, EndsOk;
    if i == 0 {
      InitialEnds();
    } else {
      RunEnds(states, acts, i - 1);
      RunKeeps(states, acts, i - 1);
      assert StepsTo(states[i - 1], acts[i - 1], states[i]);
      StepEnds(states[i - 1], acts[i - 1]);
    }
  }

  /** A thread is destroyed at most once, after it has exited and, if it has an owner, was
      joined, and never while it still runs, so its stack is not freed under it. */
  lemma ReapedOnce(states: seq<Sys>, acts: seq<Action>, i: nat, t: nat)
    requires IsRun(states, acts) && i < |states|
    ensures var s := states[i];
            && Unique(s.reaped) && Sized(s)
            && (t in s.reaped ==> t < |s.pc| && !s.alive[t] && s.refs[t] == 0 && (s.owner[t] == NOBODY || s.joined[t]))
            && (t in s.reaped ==> t != s.cur)
  {
    RunKeeps(states, acts, i);
    RunEnds(states, acts, i);
    var s := states[i];
    if t in s.reaped { assert RefOk(s, t); }
  }

  /** An exited thread that does not run is runnable in its destructors, awaits the join of its
      owner, is in the graveyard or with the reaper, or is destroyed. */
  lemma ExitedPlace(states: seq<Sys>, acts: seq<Action>, i: nat, t: nat)
    requires IsRun(states, acts) && i < |states| && t < |states[i].pc| && t != states[i].cur
    ensures var s := states[i];
            Sized(s) && (!s.alive[t] ==>
              || (s.at[t] == In(RunQ) && s.pc[t].ExitRun? && t in Q(s, RunQ))
              || (s.at[t] == Zombie && s.owner[t] != NOBODY && !s.joined[t])
              || (s.at[t] == In(GraveQ) && t in Q(s, GraveQ)) || (s.at[t] == In(ChainQ) && t in Q(s, ChainQ))
              || (s.at[t] == Gone && t in s.reaped))
  {
    RunKeeps(states, acts, i);
    RunEnds(states, acts, i);
    var s := states[i];
    assert Fits(s, t) && RefOk(s, t);
    assert s.at[t].In? ==> Lists(s, s.at[t].q);
  }
}
