/** What a call has achieved when it returns, in every run. */
module ThreadReturns {
  import opened Threads
  import opened ThreadInvariant
  import opened ThreadLocks
  import opened ThreadRefs
  import opened ThreadSteps
  import opened ThreadRuns
  import opened ThreadEnds
  import opened ThreadMoves

  /** What will hold when the call returns that a thread is in. */
  datatype Promise = Nothing | Holding(m: nat) | Released(m: nat) | Joined(t: nat)

  function Promised(pc: Pc): (r: Promise) {
    match pc
    case LockTest(m) => Holding(m)
    case LockSet(m) => Holding(m)
    case LockOwn(m) => Holding(m)
    case LockDone(m) => Holding(m)
    case WaitOff(m) => Holding(m)
    case WaitPre(m) => Holding(m)
    case Relock(m) => Holding(m)
    case CondOff(_, m) => Holding(m)
    case CondPre(_, m) => Holding(m)
    case Unlock(m, k) => After(m, k)
    case UnlockOwn(m, k) => After(m, k)
    case UnlockTest(m, k) => After(m, k)
    case UnlockWake(m, k) => After(m, k)
    case UnlockDone(m, k) => After(m, k)
    case JoinTest(t) => Joined(t)
    case Enq(_, back) => Later(back)
    case Sched(back) => Later(back)
    case Resume(back) => Later(back)
    case _ => Nothing
  }

  function After(m: nat, k: Then): (r: Promise) {
    if k.Return? then Promise.Released(m) else Holding(m)
  }

  function Later(back: Back): (r: Promise) {
    match back
    case BackMutex(m) => Holding(m)
    case BackJoin(t) => Joined(t)
    case _ => Nothing
  }

  ghost predicate Kept(s: Sys, t: nat, p: Promise)
    requires Sized(s) && t < |s.pc|
  {
    match p
    case Nothing => true
    case Holding(m) => m in s.held[t]
    case Released(m) => m !in s.held[t]
    case Joined(x) => x < |s.pc| && s.joined[x] && !s.alive[x]
  }

  /** What the calls promise. */
  lemma CallPromises(s: Sys, a: Action, r: Sys)
    requires StepsTo(s, a, r)
    ensures a.CallLock? ==> r.pc == s.pc[s.cur := r.pc[s.cur]] && Promised(r.pc[s.cur]) == Holding(a.m)
    ensures a.CallCondWait? ==> r.pc == s.pc[s.cur := r.pc[s.cur]] && Promised(r.pc[s.cur]) == Holding(a.m)
    ensures a.CallUnlock? ==> r.pc == s.pc[s.cur := r.pc[s.cur]] && Promised(r.pc[s.cur]) == Promise.Released(a.m)
    ensures a.CallJoin? ==> r.pc == s.pc[s.cur := r.pc[s.cur]] && Promised(r.pc[s.cur]) == Joined(a.t)
  {}

  /** The running thread goes on with its call or has kept the promise. */
  ghost predicate GoesOn(s: Sys, r: Sys)
    requires Sized(s) && Sized(r) && |r.pc| >= |s.pc|
  {
    var pc := r.pc[s.cur];
    if pc.Run? then Kept(r, s.cur, Promised(s.pc[s.cur])) else Promised(pc) == Promised(s.pc[s.cur])
  }

  lemma LocalReturns(s: Sys)
    requires CurrentFacts(s) && LocalPoint(s.pc[s.cur])
    ensures Enabled(s, Advance) && Sized(Step(s, Advance)) && |Step(s, Advance).pc| == |s.pc| && GoesOn(s, Step(s, Advance))
  {
    LocalIs(s);
    hide Step;
  }

  lemma WriteReturns(s: Sys)
    requires CurrentFacts(s) && Enabled(s, Advance)
    requires var pc := s.pc[s.cur]; pc.LockSet? || pc.LockOwn? || pc.Unlock? || pc.UnlockOwn? || pc.Enq? || pc.ReapYield?
    ensures Sized(Step(s, Advance)) && |Step(s, Advance).pc| == |s.pc| && GoesOn(s, Step(s, Advance))
  {
    hide QueuesListThreads, HeldFits, StateFits, PcRefs;
  }

  lemma WakeReturns(s: Sys)
    requires CurrentFacts(s) && Enabled(s, Advance) && Sized(Step(s, Advance)) && (s.pc[s.cur].UnlockWake? || s.pc[s.cur].Sched?)
    ensures |Step(s, Advance).pc| == |s.pc| && GoesOn(s, Step(s, Advance))
  {
    hide Step, QueuesListThreads, OneWoken, RunsNext, HeldFits, StateFits, PcRefs;
    if s.pc[s.cur].UnlockWake? { var k, u := UnlockWakes(s, Step(s, Advance)); } else { var k := ScheduleRuns(s, Step(s, Advance)); }
  }

  lemma JoinReturns(s: Sys)
    requires CurrentFacts(s) && Enabled(s, Advance) && Sized(Step(s, Advance)) && s.pc[s.cur].JoinTest?
    ensures |Step(s, Advance).pc| == |s.pc| && GoesOn(s, Step(s, Advance))
  {
    hide Step, QueuesListThreads, Buried, HeldFits, StateFits;
    var pc := s.pc[s.cur];
    assert Joins(pc, pc.t);
    JoinDetaches(s, Step(s, Advance), pc.t);
    StepFrame(s, Advance);
  }

  lemma EndReturns(s: Sys)
    requires CurrentFacts(s) && Enabled(s, Advance) && Sized(Step(s, Advance))
    requires s.pc[s.cur].ExitOff? || s.pc[s.cur].ReapTest? || s.pc[s.cur].ReapLoop?
    ensures |Step(s, Advance).pc| == |s.pc| && GoesOn(s, Step(s, Advance))
  {
    hide Step, QueuesListThreads, Buried, OthersStay, HeldFits, StateFits, PcRefs;
    if s.pc[s.cur].ExitOff? { var mid := ExitWakes(s, Step(s, Advance)); } else { ReaperMoves(s, Step(s, Advance)); }
  }

  lemma AdvanceReturns(s: Sys)
    requires CurrentFacts(s) && Enabled(s, Advance) && Sized(Step(s, Advance))
    ensures |Step(s, Advance).pc| == |s.pc| && GoesOn(s, Step(s, Advance))
  {
    var pc := s.pc[s.cur];
    if LocalPoint(pc) { LocalReturns(s); }
    else if pc.UnlockWake? || pc.Sched? { WakeReturns(s); }
    else if pc.JoinTest? { JoinReturns(s); }
    else if pc.ExitOff? || pc.ReapTest? || pc.ReapLoop? { EndReturns(s); }
    else { WriteReturns(s); }
    hide *;
  }

  lemma OtherReturns(s: Sys, a: Action)
    requires CurrentFacts(s) && Enabled(s, a) && !a.Advance? && !s.pc[s.cur].Run?
    ensures s.cur < |Step(s, a).pc| && (Promised(Step(s, a).pc[s.cur]) == Promised(s.pc[s.cur]) && !Step(s, a).pc[s.cur].Run?)
  {
    hide QueuesListThreads, HeldFits, StateFits, PcRefs, Best;
    if a.Preempt? { hide Step; var mid, k := PreemptRuns(s, Step(s, a)); }
  }

  /** A thread inside a call goes on with it, whoever runs, or returns with the promise kept. */
  lemma StepReturns(s: Sys, a: Action, t: nat)
    requires Inv(s) && CurrentFacts(s) && Enabled(s, a) && t < |s.pc| && !s.pc[t].Run?
    ensures var r := Step(s, a);
            && Sized(r) && |s.pc| <= |r.pc|
            && if r.pc[t].Run? then Kept(r, t, Promised(s.pc[t])) else Promised(r.pc[t]) == Promised(s.pc[t])
  {
    hide Step, Inv, QueuesListThreads, Kept, HeldFits, StateFits, PcRefs;
    StepKeeps(s, a);
    StepFrame(s, a);
    InvCurrent(Step(s, a));
    if t == s.cur {
      if a.Advance? { AdvanceReturns(s); } else { OtherReturns(s, a); }
    }
  }

  /** Mutex_Lock and Cond_Wait return with the mutex held, Mutex_Unlock without it, and Join
      after the thread has exited, whatever other threads did in between. */
  lemma {:induction false} ReturnsWith(states: seq<Sys>, acts: seq<Action>, i: nat, n: nat, t: nat)
    requires IsRun(states, acts) && i <= n < |states| && t < |states[i].pc|
    requires forall j :: i <= j < n ==> t < |states[j].pc| && !states[j].pc[t].Run?
    requires !states[i].pc[t].Run?
    ensures Sized(states[n]) && t < |states[n].pc|
    ensures if states[n].pc[t].Run? then Kept(states[n], t, Promised(states[i].pc[t]))
            else Promised(states[n].pc[t]) == Promised(states[i].pc[t])
    decreases n
  {
    hide Step, Inv, Kept, Promised;
    RunKeeps(states, acts, n);
    InvCurrent(states[n]);
    if i < n {
      ReturnsWith(states, acts, i, n - 1, t);
      RunKeeps(states, acts, n - 1);
      InvCurrent(states[n - 1]);
      assert StepsTo(states[n - 1], acts[n - 1], states[n]);
      StepReturns(states[n - 1], acts[n - 1], t);
    }
  }

  // Progress

  /** How many of its own statements a thread is away from its return or its next wait, at most. */
  function Ahead(s: Sys, pc: Pc): (n: nat) {
    match pc
    case Run | Sched(_) => 0
    case LockDone(_) | ExitOff | ReapYield => 1
    case LockOwn(_) | ExitRun | Enq(_, _) => 2
    case LockSet(_) | WaitPre(_) | CondPre(_, _) => 3
    case WaitOff(_) | CondOff(_, _) => 4
    case LockTest(_) | JoinTest(_) | UnlockDone(_, _) | ReapTest => 5
    case Relock(_) | UnlockWake(_, _) => 6
    case UnlockTest(_, _) => 7
    case UnlockOwn(_, _) => 8
    case Unlock(_, _) => 9
    case ReapLoop => 10 + |Q(s, ChainQ)|
    case Resume(_) => 11 + |Q(s, ChainQ)|
  }

  lemma LocalProgress(s: Sys)
    requires CurrentFacts(s) && LocalPoint(s.pc[s.cur])
    ensures Enabled(s, Advance) && s.cur < |Step(s, Advance).pc|
    ensures Ahead(Step(s, Advance), Step(s, Advance).pc[s.cur]) < Ahead(s, s.pc[s.cur])
  {
    LocalIs(s);
    hide Step;
  }

  lemma WriteProgress(s: Sys)
    requires CurrentFacts(s) && Enabled(s, Advance)
    requires var pc := s.pc[s.cur]; pc.LockSet? || pc.LockOwn? || pc.Unlock? || pc.UnlockOwn? || pc.Enq? || pc.ReapYield?
    ensures s.cur < |Step(s, Advance).pc| && Ahead(Step(s, Advance), Step(s, Advance).pc[s.cur]) < Ahead(s, s.pc[s.cur])
  {
    hide QueuesListThreads, HeldFits, StateFits, PcRefs;
  }

  lemma WakeProgress(s: Sys)
    requires CurrentFacts(s) && Enabled(s, Advance) && (s.pc[s.cur].UnlockWake? || s.pc[s.cur].JoinTest? || s.pc[s.cur].ExitOff?)
    ensures s.cur < |Step(s, Advance).pc| && Ahead(Step(s, Advance), Step(s, Advance).pc[s.cur]) < Ahead(s, s.pc[s.cur])
  {
    hide Step, QueuesListThreads, Buried, OneWoken, OthersStay, HeldFits, StateFits;
    var pc, r := s.pc[s.cur], Step(s, Advance);
    if pc.UnlockWake? { var k, u := UnlockWakes(s, r); }
    else if pc.JoinTest? { assert Joins(pc, pc.t); JoinDetaches(s, r, pc.t); }
    else { var mid := ExitWakes(s, r); }
  }

  lemma ReapProgress(s: Sys)
    requires CurrentFacts(s) && Enabled(s, Advance) && (s.pc[s.cur].ReapTest? || s.pc[s.cur].ReapLoop?)
    ensures s.cur < |Step(s, Advance).pc| && Ahead(Step(s, Advance), Step(s, Advance).pc[s.cur]) < Ahead(s, s.pc[s.cur])
  {
    hide Step, QueuesListThreads, OthersStay, HeldFits, StateFits, PcRefs;
    ReaperMoves(s, Step(s, Advance));
  }

  /** No call is stuck: every statement brings the running thread nearer to its return or to its
      next wait. */
  lemma OwnProgress(states: seq<Sys>, acts: seq<Action>, i: nat)
    requires IsRun(states, acts) && i < |acts| && acts[i] == Advance
    ensures var s, r := states[i], states[i + 1];
            s.cur < |s.pc| && s.cur < |r.pc| && (!s.pc[s.cur].Sched? ==> Ahead(r, r.pc[s.cur]) < Ahead(s, s.pc[s.cur]))
  {
    hide Step, Inv, Ahead;
    RunKeeps(states, acts, i);
    assert StepsTo(states[i], acts[i], states[i + 1]);
    var s := states[i];
    InvCurrent(s);
    StepFrame(s, Advance);
    var pc := s.pc[s.cur];
    if pc.Sched? {}
    else if LocalPoint(pc) { LocalProgress(s); }
    else if pc.UnlockWake? || pc.JoinTest? || pc.ExitOff? { WakeProgress(s); }
    else if pc.ReapTest? || pc.ReapLoop? { ReapProgress(s); }
    else { WriteProgress(s); }
  }
}
