/** Waiting: only the matching call wakes a thread, and no wake-up is lost, in every run. */
module ThreadWaits {
  import opened Threads
  import opened ThreadPlaces
  import opened ThreadInvariant
  import opened ThreadLocks
  import opened ThreadRefs
  import opened ThreadSteps
  import opened ThreadRuns
  import opened ThreadEnds
  import opened ThreadMoves

  /** The step takes threads off this queue. */
  predicate Wakes(s: Sys, a: Action, q: Queue)
    requires s.cur < |s.pc|
  {
    var pc := s.pc[s.cur];
    match q
    case CondQ(c) => a == CallSignal(c) || a == CallBroadcast(c)
    case EventQ(e) => a == Event(e)
    case MutexQ(m) => a.Advance? && pc.UnlockWake? && pc.m == m
    case JoinQ(t) => a.Advance? && pc.ExitOff? && s.cur == t
    case ReaperQ => a.Advance? && (pc.ExitOff? || pc.JoinTest?)
    case _ => false
  }

  /** Points whose statement moves no thread. */
  predicate Still(pc: Pc) {
    LocalPoint(pc) || pc.LockSet? || pc.LockOwn? || pc.Unlock? || pc.UnlockOwn?
  }

  lemma StillPlaces(s: Sys)
    requires Sized(s) && QueuesListThreads(s) && Enabled(s, Advance) && Still(s.pc[s.cur])
    ensures Step(s, Advance).at == s.at && Step(s, Advance).queues == s.queues
  {
    hide NextInts, NextPre, NextPoint;
  }

  lemma CallPlaces(s: Sys, a: Action)
    requires Sized(s) && QueuesListThreads(s) && Enabled(s, a)
    requires a.Destruct? || a.CallLock? || a.CallUnlock? || a.CallCondWait? || a.CallExit? || a.CallJoin? || a.CallEventWait?
    ensures Step(s, a).at == s.at && Step(s, a).queues == s.queues
  {}

  /** Where a thread can be after a step: a waiting thread stays or becomes runnable, and only
      the running one begins to wait. */
  ghost predicate MovesWell(s: Sys, a: Action, r: Sys, t: nat)
    requires s.cur < |s.pc| == |s.at|
  {
    && t < |s.at| <= |r.at|
    && (s.at[t].In? && Waiting(s.at[t].q) ==> r.at[t] == s.at[t] || (Wakes(s, a, s.at[t].q) && r.at[t] == In(RunQ)))
    && (r.at[t] != s.at[t] && r.at[t].In? && Waiting(r.at[t].q) ==>
          t == s.cur && a.Advance? && s.pc[t].Enq? && s.pc[t].q == r.at[t].q)
    && (s.at[t] != In(GraveQ) && r.at[t] == In(GraveQ) ==> a.Advance? && (s.pc[s.cur].ExitOff? || s.pc[s.cur].JoinTest?))
  }

  lemma UnlockMoves(s: Sys, t: nat)
    requires Places(s) && CurrentFacts(s) && Enabled(s, Advance) && t < |s.pc| && s.pc[s.cur].UnlockWake?
    ensures MovesWell(s, Advance, Step(s, Advance), t)
  {
    hide Step, QueuesListThreads;
    var m := s.pc[s.cur].m;
    assert Lists(s, MutexQ(m));
    var k, u := UnlockWakes(s, Step(s, Advance));
    if Q(s, MutexQ(m)) != [] { assert u in Q(s, MutexQ(m)); } else { UnlockQuiet(s); }
  }

  lemma UnlockQuiet(s: Sys)
    requires Sized(s) && QueuesListThreads(s) && Enabled(s, Advance) && s.pc[s.cur].UnlockWake? && Q(s, MutexQ(s.pc[s.cur].m)) == []
    ensures Step(s, Advance).at == s.at
  {}

  lemma SchedMoves(s: Sys, t: nat)
    requires Places(s) && CurrentFacts(s) && Enabled(s, Advance) && t < |s.pc| && s.pc[s.cur].Sched?
    ensures MovesWell(s, Advance, Step(s, Advance), t)
  {
    hide Step, QueuesListThreads;
    var k := ScheduleRuns(s, Step(s, Advance));
    assert Lists(s, RunQ) && Q(s, RunQ)[k] in Q(s, RunQ);
  }

  lemma ParkMoves(s: Sys, t: nat)
    requires Places(s) && CurrentFacts(s) && Enabled(s, Advance) && t < |s.pc| && (s.pc[s.cur].Enq? || s.pc[s.cur].ReapYield?)
    ensures MovesWell(s, Advance, Step(s, Advance), t)
  {
    hide Step, QueuesListThreads, QueuesOk;
    ParkQueues(s, Step(s, Advance), Advance);
  }

  lemma ExitMoves(s: Sys, t: nat)
    requires Places(s) && CurrentFacts(s) && Enabled(s, Advance) && t < |s.pc| && s.pc[s.cur].ExitOff?
    ensures MovesWell(s, Advance, Step(s, Advance), t)
  {
    hide Step, QueuesListThreads, QueuesOk, OthersStay, Buried, HeldFits, StateFits, PcRefs, RoleFits;
    var r := Step(s, Advance);
    var mid := ExitWakes(s, r);
    StaysAt(s, mid, JoinQ(s.cur), RunQ, ReaperQ);
    InQueue(s, JoinQ(s.cur), t);
    InQueue(s, ReaperQ, t);
    if s.refs[s.cur] == 1 { BuriedAt(mid, r, s.cur, t); }
  }

  lemma StaysAt(s: Sys, r: Sys, p: Queue, q: Queue, x: Queue)
    requires OthersStay(s, r, p, q) && x != p && x != q
    ensures Q(r, x) == Q(s, x)
  {}

  lemma BuriedAt(s: Sys, r: Sys, t: nat, u: nat)
    requires Buried(s, r, t) && u < |s.at|
    ensures |r.at| == |s.at| && r.at[u] == if u in Q(s, ReaperQ) then In(RunQ) else if u == t then In(GraveQ) else s.at[u]
  {}

  lemma JoinMoves(s: Sys, t: nat)
    requires Places(s) && CurrentFacts(s) && Refs(s) && Enabled(s, Advance) && t < |s.pc| && s.pc[s.cur].JoinTest?
    ensures MovesWell(s, Advance, Step(s, Advance), t)
  {
    hide Step, QueuesListThreads, QueuesOk, HeldFits, StateFits, Unique, Buried;
    var x := s.pc[s.cur].t;
    assert Joins(s.pc[s.cur], x) && RefOk(s, x);
    JoinDetaches(s, Step(s, Advance), x);
    InQueue(s, ReaperQ, t);
    if !s.alive[x] && s.refs[x] == 1 { BuriedAt(s, Step(s, Advance), x, t); }
  }

  lemma ReapMoves(s: Sys, t: nat)
    requires Places(s) && CurrentFacts(s) && Enabled(s, Advance) && t < |s.pc| && (s.pc[s.cur].ReapTest? || s.pc[s.cur].ReapLoop?)
    ensures MovesWell(s, Advance, Step(s, Advance), t)
  {
    hide Step, QueuesListThreads;
    ReaperMoves(s, Step(s, Advance));
    assert Lists(s, GraveQ) && Lists(s, ChainQ);
    if Q(s, ChainQ) != [] { assert Q(s, ChainQ)[0] in Q(s, ChainQ); }
  }

  lemma AdvanceMoves(s: Sys, t: nat)
    requires Places(s) && CurrentFacts(s) && Refs(s) && Enabled(s, Advance) && t < |s.pc|
    ensures MovesWell(s, Advance, Step(s, Advance), t)
  {
    hide Step, QueuesListThreads, Places, MovesWell, QueuesOk, Refs;
    var pc := s.pc[s.cur];
    if Still(pc) { StillPlaces(s); StillWell(s, Advance, t); }
    else if pc.UnlockWake? { UnlockMoves(s, t); }
    else if pc.Sched? { SchedMoves(s, t); }
    else if pc.Enq? || pc.ReapYield? { ParkMoves(s, t); }
    else if pc.ExitOff? { ExitMoves(s, t); }
    else if pc.JoinTest? { JoinMoves(s, t); }
    else { ReapMoves(s, t); }
  }

  lemma StillWell(s: Sys, a: Action, t: nat)
    requires Sized(s) && QueuesListThreads(s) && Enabled(s, a) && t < |s.pc| && Step(s, a).at == s.at
    ensures MovesWell(s, a, Step(s, a), t)
  {
    hide Step;
  }

  lemma PreemptMoves(s: Sys, t: nat)
    requires Places(s) && CurrentFacts(s) && Enabled(s, Preempt) && t < |s.pc|
    ensures MovesWell(s, Preempt, Step(s, Preempt), t)
  {
    hide Step, QueuesListThreads, QueuesOk, OthersStay, FirstOfBest, GoesTo, HeldFits, StateFits, PcRefs, RoleFits;
    var mid, k := PreemptRuns(s, Step(s, Preempt));
    FirstIs(mid, RunQ, k, Step(s, Preempt).cur);
    TakenFrom(s, mid, k, Step(s, Preempt).cur);
    WentTo(s, mid, RunQ, s.cur);
  }

  lemma FirstIs(s: Sys, q: Queue, k: nat, t: nat)
    requires FirstOfBest(s, q, k, t)
    ensures k < |Q(s, q)| && Q(s, q)[k] == t
  {}

  lemma WentTo(s: Sys, r: Sys, q: Queue, t: nat)
    requires GoesTo(s, r, q, t)
    ensures t < |s.at| && r.at == s.at[t := In(q)]
  {}

  lemma BroadcastMoves(s: Sys, a: Action, t: nat)
    requires Places(s) && CurrentFacts(s) && Enabled(s, a) && t < |s.pc| && (a.CallBroadcast? || a.Event?)
    ensures MovesWell(s, a, Step(s, a), t)
  {
    hide Step, QueuesListThreads, QueuesOk;
    BroadcastWakes(s, Step(s, a), a);
    InQueue(s, if a.Event? then EventQ(a.e) else CondQ(a.c), t);
  }

  lemma SignalMoves(s: Sys, c: nat, t: nat)
    requires Places(s) && CurrentFacts(s) && Enabled(s, CallSignal(c)) && t < |s.pc|
    ensures MovesWell(s, CallSignal(c), Step(s, CallSignal(c)), t)
  {
    hide Step, QueuesListThreads, QueuesOk;
    var k, u := SignalWakes(s, Step(s, CallSignal(c)), c);
    if Q(s, CondQ(c)) != [] { InQueue(s, CondQ(c), u); }
  }

  lemma StartMoves(s: Sys, prio: int, detached: bool, t: nat)
    requires Places(s) && CurrentFacts(s) && Enabled(s, CallStart(prio, detached)) && t < |s.pc|
    ensures MovesWell(s, CallStart(prio, detached), Step(s, CallStart(prio, detached)), t)
  {
    hide Step, QueuesListThreads, QueuesOk;
    var r := Step(s, CallStart(prio, detached));
    StartRuns(s, r, prio, detached);
    assert r.at[..|s.pc|][t] == s.at[t];
  }

  lemma YieldMoves(s: Sys, t: nat)
    requires Places(s) && CurrentFacts(s) && Enabled(s, CallYield) && t < |s.pc|
    ensures MovesWell(s, CallYield, Step(s, CallYield), t)
  {
    hide Step, QueuesListThreads, QueuesOk;
    ParkQueues(s, Step(s, CallYield), CallYield);
  }

  lemma StepMoves(s: Sys, a: Action, t: nat)
    requires Places(s) && CurrentFacts(s) && Refs(s) && Enabled(s, a) && t < |s.pc|
    ensures MovesWell(s, a, Step(s, a), t)
  {
    match a
    case Advance => AdvanceMoves(s, t);
    case Preempt => PreemptMoves(s, t);
    case Event(_) => BroadcastMoves(s, a, t);
    case CallSignal(c) => SignalMoves(s, c, t);
    case CallBroadcast(_) => BroadcastMoves(s, a, t);
    case CallYield => YieldMoves(s, t);
    case CallStart(prio, detached) => StartMoves(s, prio, detached, t);
    case _ => QuietMoves(s, a, t);
    hide *;
  }

  lemma QuietMoves(s: Sys, a: Action, t: nat)
    requires Places(s) && CurrentFacts(s) && Enabled(s, a) && t < |s.pc|
    requires a.Destruct? || a.CallLock? || a.CallUnlock? || a.CallCondWait? || a.CallExit? || a.CallJoin? || a.CallEventWait?
    ensures MovesWell(s, a, Step(s, a), t)
  {
    hide Step, QueuesListThreads, Places;
    CallPlaces(s, a);
    StillWell(s, a, t);
  }

  lemma InQueue(s: Sys, q: Queue, t: nat)
    requires QueuesOk(s)
    ensures t in Q(s, q) <==> t < |s.at| && s.at[t] == In(q)
  {
    assert Lists(s, q);
  }

  lemma TakenFrom(s: Sys, mid: Sys, k: nat, t: nat)
    requires QueuesOk(s) && GoesTo(s, mid, RunQ, s.cur) && k < |Q(mid, RunQ)| && Q(mid, RunQ)[k] == t
    ensures t < |mid.at| && mid.at[t] == In(RunQ)
  {
    assert Lists(s, RunQ);
    if k < |Q(s, RunQ)| { assert Q(s, RunQ)[k] in Q(s, RunQ); }
  }

  // Runs

  lemma RunStep(states: seq<Sys>, acts: seq<Action>, i: nat)
    requires IsRun(states, acts) && i < |acts|
    ensures Inv(states[i]) && StepsTo(states[i], acts[i], states[i + 1]) && Inv(states[i + 1])
    ensures Places(states[i]) && CurrentFacts(states[i]) && Refs(states[i])
    ensures Sized(states[i]) && Enabled(states[i], acts[i]) && states[i + 1] == Step(states[i], acts[i])
  {
    hide Step;
    RunKeeps(states, acts, i);
    RunKeeps(states, acts, i + 1);
    InvCurrent(states[i]);
    assert StepsTo(states[i], acts[i], states[i + 1]);
  }

  /** A waiting thread waits until the matching call: there are no spurious wake-ups. */
  lemma {:induction false} WaitsUntilWoken(states: seq<Sys>, acts: seq<Action>, i: nat, n: nat, t: nat, q: Queue)
    requires IsRun(states, acts) && i <= n < |states| && t < |states[i].at| && states[i].at[t] == In(q) && Waiting(q)
    requires forall j :: i <= j < n ==> states[j].cur < |states[j].pc| && !Wakes(states[j], acts[j], q)
    ensures t < |states[n].at| && states[n].at[t] == In(q)
    decreases n
  {
    hide StepsTo, Step, Wakes, Places, CurrentFacts, Inv, Sized, Enabled, Refs;
    if i < n {
      WaitsUntilWoken(states, acts, i, n - 1, t, q);
      RunStep(states, acts, n - 1);
      SizedAt(states[n - 1]);
      assert !Wakes(states[n - 1], acts[n - 1], q);
      StepMoves(states[n - 1], acts[n - 1], t);
    }
  }

  lemma SizedAt(s: Sys)
    requires Sized(s)
    ensures s.cur < |s.pc| == |s.at|
  {}

  /** From the release of the mutex in Cond_Wait on, the next signal on the condition makes the
      thread runnable if it is the only one that waits, and a broadcast does in any case. */
  lemma SignalReaches(states: seq<Sys>, acts: seq<Action>, i: nat, n: nat, t: nat, c: nat)
    requires IsRun(states, acts) && i <= n < |acts| && Released(states[i], t, c)
    requires forall j :: i <= j < n ==> acts[j] != CallSignal(c) && acts[j] != CallBroadcast(c)
    ensures t in Q(states[n], CondQ(c))
    ensures (acts[n] == CallSignal(c) && |Q(states[n], CondQ(c))| == 1) || acts[n] == CallBroadcast(c) ==>
              t < |states[n + 1].at| && states[n + 1].at[t] == In(RunQ) && t in Q(states[n + 1], RunQ)
  {
    hide StepsTo, Step, Inv, CurrentFacts;
    forall j | i <= j < n ensures states[j].cur < |states[j].pc| && !Wakes(states[j], acts[j], CondQ(c)) {
      RunStep(states, acts, j);
    }
    WaitsUntilWoken(states, acts, i, n, t, CondQ(c));
    RunStep(states, acts, n);
    var s, r := states[n], states[n + 1];
    InQueue(s, CondQ(c), t);
    if acts[n] == CallSignal(c) {
      var k, u := SignalWakes(s, r, c);
    } else if acts[n] == CallBroadcast(c) {
      BroadcastWakes(s, r, acts[n]);
    }
  }

  // Joins and the reaper

  /** The thread is past the point of Exit at which it wakes those that join it. */
  predicate PastWake(pc: Pc) {
    pc == Sched(Never) || pc == Resume(Never)
  }

  /** Whoever waits, or is about to, waits for something that is still to come. */
  ghost predicate WaitsOk(s: Sys)
    requires Sized(s)
  {
    && (forall t: nat, x: nat :: t < |s.at| && s.at[t] == In(JoinQ(x)) ==> x < |s.pc| && !PastWake(s.pc[x]))
    && (s.pc[s.cur].Enq? && s.pc[s.cur].q.JoinQ? ==> s.pc[s.cur].q.t < |s.pc| && !PastWake(s.pc[s.pc[s.cur].q.t]))
    && (Q(s, GraveQ) != [] ==> Q(s, ReaperQ) == [] && !(s.pc[s.cur].Enq? && s.pc[s.cur].q.ReaperQ?))
  }

  /** A thread that has not exited is not past its end. */
  lemma AliveBefore(s: Sys, x: nat)
    requires Inv(s) && x < |s.pc| && s.alive[x] && !s.pc[s.cur].Sched?
    ensures !PastWake(s.pc[x])
  {
    assert Fits(s, x) && RefOk(s, x);
    hide Places, Locks, Waiters;
  }

  /** How the running thread gets to the points that the invariant speaks of. */
  ghost predicate PointWell(s: Sys, r: Sys)
    requires s.cur < |s.pc|
  {
    var pc := s.pc[s.cur];
    && |r.pc| == |s.pc|
    && var next := r.pc[s.cur];
    && (PastWake(next) ==> pc.ExitOff?)
    && (next.Enq? && next.q.JoinQ? ==> pc == JoinTest(next.q.t) && next.q.t < |s.alive| && s.alive[next.q.t])
    && (next.Enq? && next.q.ReaperQ? ==> pc.ReapTest? && Q(s, GraveQ) == [] && r.queues == s.queues)
  }

  lemma LocalWell(s: Sys)
    requires CurrentFacts(s) && LocalPoint(s.pc[s.cur])
    ensures Enabled(s, Advance) && PointWell(s, Step(s, Advance))
  {
    LocalIs(s);
    hide Step;
  }

  /** Points that change a mutex. */
  lemma WriteWell(s: Sys)
    requires Sized(s) && QueuesListThreads(s) && Enabled(s, Advance)
    requires var pc := s.pc[s.cur]; pc.LockSet? || pc.LockOwn? || pc.Unlock? || pc.UnlockOwn?
    ensures PointWell(s, Step(s, Advance))
  {
    hide QueuesListThreads, Mu, Q;
  }

  /** Points that park the thread. */
  lemma ParkWell(s: Sys)
    requires CurrentFacts(s) && Enabled(s, Advance) && (s.pc[s.cur].Enq? || s.pc[s.cur].ReapYield?)
    ensures PointWell(s, Step(s, Advance))
  {
    hide QueuesListThreads, HeldFits, StateFits, PcRefs, Q;
  }

  lemma AdvancePoint(s: Sys)
    requires CurrentFacts(s) && Enabled(s, Advance) && !s.pc[s.cur].Sched?
    ensures PointWell(s, Step(s, Advance))
  {
    hide QueuesListThreads, Step;
    var pc, r := s.pc[s.cur], Step(s, Advance);
    if LocalPoint(pc) { LocalWell(s); }
    else if pc.UnlockWake? { var k, u := UnlockWakes(s, r); }
    else if pc.JoinTest? { assert Joins(pc, pc.t); JoinDetaches(s, r, pc.t); }
    else if pc.ExitOff? { var mid := ExitWakes(s, r); }
    else if pc.ReapTest? || pc.ReapLoop? { ReaperMoves(s, r); }
    else if pc.Enq? || pc.ReapYield? { ParkWell(s); }
    else { WriteWell(s); }
  }

  /** A step that switches brings a thread whose point is no such point. */
  lemma SwitchedPoint(s: Sys, r: Sys)
    requires Inv(s) && Sized(r) && |r.pc| == |s.pc| && r.cur != s.cur && s.at[r.cur] == In(RunQ) && r.pc[r.cur] == s.pc[r.cur]
    ensures !r.pc[r.cur].Enq?
  {
    assert Fits(s, r.cur);
    hide Places, Locks, Waiters, Refs;
  }

  lemma OldPoint(s: Sys, a: Action)
    requires Inv(s) && CurrentFacts(s) && Enabled(s, a)
    ensures var r := Step(s, a);
            && Sized(r) && |r.pc| >= |s.pc| && (forall t: nat :: t < |s.pc| && t != s.cur ==> r.pc[t] == s.pc[t])
  {
    hide Step, Inv;
    StepFrame(s, a);
    StepKeeps(s, a);
    InvSized(Step(s, a));
  }

  lemma InvSized(s: Sys)
    requires Inv(s)
    ensures Sized(s) && Places(s) && Refs(s)
  {}

  lemma PointFacts(s: Sys, r: Sys)
    requires s.cur < |s.pc| && PointWell(s, r)
    ensures |r.pc| == |s.pc| && (PastWake(r.pc[s.cur]) ==> s.pc[s.cur].ExitOff?)
  {}

  lemma CallPoint(s: Sys, a: Action)
    requires CurrentFacts(s) && Enabled(s, a) && !a.Advance? && !a.Preempt?
    ensures var r := Step(s, a);
            && s.cur < |r.pc| && (PastWake(r.pc[s.cur]) ==> PastWake(s.pc[s.cur]))
            && (r.pc[s.cur].Enq? ==> r.pc[s.cur].q.EventQ?)
  {
    hide Step, QueuesListThreads;
    if a.CallSignal? {
      var k, u := SignalWakes(s, Step(s, a), a.c);
    } else {
      CallPc(s, a);
    }
  }

  lemma CallPc(s: Sys, a: Action)
    requires CurrentFacts(s) && Enabled(s, a) && !a.Advance? && !a.Preempt? && !a.CallSignal?
    ensures var r := Step(s, a);
            && s.cur < |r.pc| && (PastWake(r.pc[s.cur]) ==> PastWake(s.pc[s.cur]))
            && (r.pc[s.cur].Enq? ==> r.pc[s.cur].q.EventQ?)
  {
    hide QueuesListThreads, HeldFits, StateFits, PcRefs, RoleFits;
  }

  /** Points of the running thread after any step. */
  lemma StepPoint(s: Sys, a: Action)
    requires Inv(s) && CurrentFacts(s) && Enabled(s, a)
    ensures var r := Step(s, a);
            && s.cur < |r.pc| && r.cur < |r.pc|
            && (PastWake(r.pc[s.cur]) ==> PastWake(s.pc[s.cur]) || (a.Advance? && s.pc[s.cur].ExitOff?))
            && (r.pc[r.cur].Enq? ==> r.cur == s.cur)
            && (r.pc[r.cur].Enq? && r.pc[r.cur].q.JoinQ? ==> PointWell(s, r))
            && (r.pc[r.cur].Enq? && r.pc[r.cur].q.ReaperQ? ==> PointWell(s, r))
  {
    hide Step, QueuesListThreads, Inv, PointWell;
    var r := Step(s, a);
    OldPoint(s, a);
    if a.Advance? && s.pc[s.cur].Sched? {
      var k := ScheduleRuns(s, r);
      InvSized(s);
      assert Q(s, RunQ)[k] in Q(s, RunQ);
      InQueue(s, RunQ, r.cur);
      if r.cur != s.cur { SwitchedPoint(s, r); }
    } else if a.Preempt? {
      var mid, k := PreemptRuns(s, r);
      InvSized(s);
      TakenFrom(s, mid, k, r.cur);
      if r.cur != s.cur { SwitchedPoint(s, r); }
    } else if a.Advance? {
      AdvancePoint(s);
      StepFrame(s, a);
      PointFacts(s, r);
    } else {
      StepFrame(s, a);
      CallPoint(s, a);
    }
  }

  lemma JoinersWait(s: Sys, a: Action, t: nat, x: nat)
    requires Inv(s) && CurrentFacts(s) && Enabled(s, a) && WaitsOk(s)
    requires t < |Step(s, a).at| && Step(s, a).at[t] == In(JoinQ(x))
    ensures x < |Step(s, a).pc| && !PastWake(Step(s, a).pc[x])
  {
    hide Step, Inv, QueuesListThreads;
    var r := Step(s, a);
    InvSized(s);
    OldPoint(s, a);
    StepPoint(s, a);
    NewThreads(s, a, t);
    StepMoves(s, a, t);
    if x == s.cur && a.Advance? && s.pc[s.cur].ExitOff? { var mid := ExitWakes(s, r); InQueue(s, JoinQ(x), t); }
  }

  lemma NewThreads(s: Sys, a: Action, t: nat)
    requires CurrentFacts(s) && Enabled(s, a) && t < |Step(s, a).at| && Sized(Step(s, a))
    ensures t < |s.pc| || Step(s, a).at[t] == In(RunQ)
  {
    if a.CallStart? { hide QueuesListThreads; }
    else {
      StepCount(s, a);
    }
  }

  lemma StepCount(s: Sys, a: Action)
    requires CurrentFacts(s) && Enabled(s, a) && !a.CallStart? && Sized(Step(s, a))
    ensures |Step(s, a).pc| == |s.pc|
  {
    hide Step, QueuesListThreads;
    var r := Step(s, a);
    match a
    case Advance => StepFrame(s, a);
    case Preempt => var mid, k := PreemptRuns(s, r);
    case CallSignal(c) => var k, u := SignalWakes(s, r, c);
    case Event(_) => BroadcastWakes(s, r, a);
    case CallBroadcast(_) => BroadcastWakes(s, r, a);
    case CallYield => ParkQueues(s, r, a);
    case _ => CallPlaces(s, a);
  }

  /** The reaper waits only for an empty graveyard. */
  lemma ReaperWaits(s: Sys, a: Action)
    requires Inv(s) && CurrentFacts(s) && Enabled(s, a) && WaitsOk(s) && Inv(Step(s, a))
    ensures var r := Step(s, a);
            Sized(r) && (Q(r, GraveQ) != [] ==> Q(r, ReaperQ) == [] && !(r.pc[r.cur].Enq? && r.pc[r.cur].q.ReaperQ?))
  {
    hide Step, Inv, QueuesListThreads;
    var r := Step(s, a);
    InvSized(s);
    InvSized(r);
    StepPoint(s, a);
    if Q(r, GraveQ) != [] {
      var g := Q(r, GraveQ)[0];
      InQueue(r, GraveQ, g);
      InQueue(s, GraveQ, g);
      NewThreads(s, a, g);
      StepMoves(s, a, g);
      if Q(r, ReaperQ) != [] {
        var u := Q(r, ReaperQ)[0];
        InQueue(r, ReaperQ, u);
        InQueue(s, ReaperQ, u);
        NewThreads(s, a, u);
        StepMoves(s, a, u);
        assert s.at[g] != In(GraveQ);
        GraveFilled(s, a, g);
      }
      if r.pc[r.cur].Enq? && r.pc[r.cur].q.ReaperQ? { SameQueue(s, r); }
    }
  }

  lemma SameQueue(s: Sys, r: Sys)
    requires r.cur == s.cur < |s.pc| && PointWell(s, r) && r.pc[s.cur].Enq? && r.pc[s.cur].q.ReaperQ?
    ensures Q(r, GraveQ) == []
  {}

  lemma GraveFilled(s: Sys, a: Action, g: nat)
    requires CurrentFacts(s) && Enabled(s, a) && a.Advance? && (s.pc[s.cur].ExitOff? || s.pc[s.cur].JoinTest?) && g < |s.at| && g < |Step(s, a).at|
    requires s.at[g] != In(GraveQ) && Step(s, a).at[g] == In(GraveQ)
    ensures Q(Step(s, a), ReaperQ) == []
  {
    hide Step, QueuesListThreads;
    var pc := s.pc[s.cur];
    if pc.ExitOff? { var mid := ExitWakes(s, Step(s, a)); }
    else { assert Joins(pc, pc.t); JoinDetaches(s, Step(s, a), pc.t); }
  }

  lemma JoinPoint(s: Sys, a: Action)
    requires Inv(s) && CurrentFacts(s) && Enabled(s, a) && WaitsOk(s) && Inv(Step(s, a))
    ensures var r := Step(s, a);
            && Sized(r) && (r.pc[r.cur].Enq? && r.pc[r.cur].q.JoinQ? ==> r.pc[r.cur].q.t < |r.pc| && !PastWake(r.pc[r.pc[r.cur].q.t]))
  {
    hide Step, Inv, QueuesListThreads;
    var r := Step(s, a);
    InvSized(s);
    InvSized(r);
    OldPoint(s, a);
    StepPoint(s, a);
    if r.pc[r.cur].Enq? && r.pc[r.cur].q.JoinQ? { AliveBefore(s, r.pc[r.cur].q.t); }
  }

  lemma WaitsStep(s: Sys, a: Action)
    requires Inv(s) && CurrentFacts(s) && Enabled(s, a) && WaitsOk(s) && Inv(Step(s, a))
    ensures Sized(Step(s, a)) && WaitsOk(Step(s, a))
  {
    hide Step, Inv, CurrentFacts, Enabled, WaitsOk, PastWake, Q, QueuesListThreads;
    FactsSized(s);
    var r := Step(s, a);
    ReaperWaits(s, a);
    JoinPoint(s, a);
    forall t: nat, x: nat | t < |r.at| && r.at[t] == In(JoinQ(x)) ensures x < |r.pc| && !PastWake(r.pc[x]) {
      JoinersWait(s, a, t, x);
    }
    AllWait(r);
  }

  lemma FactsSized(s: Sys)
    requires CurrentFacts(s)
    ensures Sized(s) && QueuesListThreads(s)
  {}

  lemma AllWait(s: Sys)
    requires Sized(s)
    requires forall t: nat, x: nat :: t < |s.at| && s.at[t] == In(JoinQ(x)) ==> x < |s.pc| && !PastWake(s.pc[x])
    requires s.pc[s.cur].Enq? && s.pc[s.cur].q.JoinQ? ==> s.pc[s.cur].q.t < |s.pc| && !PastWake(s.pc[s.pc[s.cur].q.t])
    requires Q(s, GraveQ) != [] ==> Q(s, ReaperQ) == [] && !(s.pc[s.cur].Enq? && s.pc[s.cur].q.ReaperQ?)
    ensures WaitsOk(s)
  {
    hide PastWake, Q;
  }

  lemma {:induction false} RunWaits(states: seq<Sys>, acts: seq<Action>, i: nat)
    requires IsRun(states, acts) && i < |states|
    ensures Sized(states[i]) && WaitsOk(states[i])
  {
    hide Step, Inv, WaitsOk;
    if i == 0 {
      InitialWaits();
    } else {
      RunWaits(states, acts, i - 1);
      RunStep(states, acts, i - 1);
      WaitsStep(states[i - 1], acts[i - 1]);
    }
  }

  lemma InitialWaits()
    ensures WaitsOk(InitialState())
  {}

  /** Nobody waits for a thread that has already woken those that join it: it is alive, or still
      has its wake-up ahead. */
  lemma NoLostJoin(states: seq<Sys>, acts: seq<Action>, i: nat, t: nat, x: nat)
    requires IsRun(states, acts) && i < |states| && t in Q(states[i], JoinQ(x))
    ensures var s := states[i]; Sized(s) && x < |s.pc| && (s.alive[x] || s.pc[x].ExitOff? || s.pc[x].ExitRun?)
  {
    hide IsRun, Inv, Ending;
    RunKeeps(states, acts, i);
    InvSized(states[i]);
    RunWaits(states, acts, i);
    RunEnds(states, acts, i);
    InQueue(states[i], JoinQ(x), t);
    EndingIs(states[i], x);
  }

  lemma EndingIs(s: Sys, x: nat)
    requires Sized(s) && EndsOk(s)
    ensures x < |s.pc| && !s.alive[x] && !PastWake(s.pc[x]) ==> s.pc[x].ExitOff? || s.pc[x].ExitRun?
  {}

  /** The reaper never sleeps while there is a thread in the graveyard. */
  lemma NoLostReap(states: seq<Sys>, acts: seq<Action>, i: nat)
    requires IsRun(states, acts) && i < |states| && Q(states[i], GraveQ) != []
    ensures Sized(states[i]) && Q(states[i], ReaperQ) == [] && states[i].at[REAPER] != In(ReaperQ)
  {
    hide IsRun, Inv;
    RunKeeps(states, acts, i);
    InvSized(states[i]);
    RunWaits(states, acts, i);
    InQueue(states[i], ReaperQ, REAPER);
  }
}
