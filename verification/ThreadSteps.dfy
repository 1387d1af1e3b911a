/** Every step of the thread system keeps the invariant. */
module ThreadSteps {
  import opened Threads
  import opened ThreadPlaces
  import opened ThreadInvariant
  import opened ThreadLocks
  import opened ThreadRefs

  ghost predicate Inv(s: Sys) {
    Base(s) && Locks(s) && Waiters(s) && Refs(s)
  }

  /** The mutex is taken, nobody waits for it, or a woken thread will look at it. */
  ghost predicate Served(s: Sys, m: nat)
    requires Sized(s)
  {
    Mu(s, m).locked || Q(s, MutexQ(m)) == [] || exists t :: Retester(s, m, t)
  }

  /** What a new program point of the running thread has to meet. */
  ghost predicate PointFits(s: Sys, pc: Pc, ints: bool, pre: bool)
    requires Sized(s)
  {
    && FlagsFit(pc, ints, pre) && RoleFits(s.cur, pc) && !pc.Sched? && pc != Resume(Never)
    && (s.cur == REAPER ==> Reaping(pc) || Q(s, ChainQ) == [])
    && !WritesOwner(pc) && HeldFits(pc, s.held[s.cur]) && StateFits(s, pc)
    && (forall m: nat :: RetestPc(s.pc[s.cur], m) ==> RetestPc(pc, m) || Served(s, m))
    && (forall t: nat :: Joins(pc, t) ==> t < |s.pc| && s.owner[t] == s.cur && !s.joined[t])
    && (pc.ExitOff? || pc.ExitRun? ==> !s.alive[s.cur])
  }

  lemma LocalInv(s: Sys, r: Sys, pc: Pc)
    requires Inv(s) && !s.pc[s.cur].Sched? && !WritesOwner(s.pc[s.cur])
    requires r == SetPc(s.(ints := r.ints, pre := r.pre), pc) && PointFits(s, pc, r.ints, r.pre)
    ensures Inv(r)
  {
    LocalBase(s, r, pc);
    LocalLocks(s, r, pc);
    LocalWaiters(s, r, pc);
    hide Base, Locks, Waiters;
    forall u: nat | u < |r.pc| ensures PcRefs(r, u) { assert PcRefs(s, u); }
    RefsSame(s, r);
  }

  lemma LocalLocks(s: Sys, r: Sys, pc: Pc)
    requires Sized(s) && Locks(s) && !WritesOwner(s.pc[s.cur])
    requires r == SetPc(s.(ints := r.ints, pre := r.pre), pc) && !WritesOwner(pc) && HeldFits(pc, s.held[s.cur]) && StateFits(s, pc)
    ensures Locks(r)
  {
    hide MutexOk, HeldFits;
    LocksSame(s, r);
  }

  lemma LocalWaiters(s: Sys, r: Sys, pc: Pc)
    requires Places(s) && Waiters(s) && !s.pc[s.cur].Sched?
    requires r == SetPc(s.(ints := r.ints, pre := r.pre), pc)
    requires forall m: nat :: RetestPc(s.pc[s.cur], m) ==> RetestPc(pc, m) || Served(s, m)
    ensures Waiters(r)
  {
    hide QueuesOk, RetestPc;
    forall m: nat | RetestPc(s.pc[s.cur], m) && !RetestPc(pc, m) ensures Served(r, m) {
      if t: nat :| Retester(s, m, t) { assert Retester(r, m, t); }
    }
    WaitersSame(s, r);
  }

  /** What the invariant says of the running thread. */
  ghost predicate CurrentFacts(s: Sys) {
    && Sized(s) && QueuesListThreads(s)
    && FlagsFit(s.pc[s.cur], s.ints, s.pre) && RoleFits(s.cur, s.pc[s.cur]) && s.pc[s.cur] != Resume(Never)
    && (s.cur == REAPER ==> Reaping(s.pc[s.cur]) || Q(s, ChainQ) == [])
    && HeldFits(s.pc[s.cur], s.held[s.cur]) && StateFits(s, s.pc[s.cur])
    && PcRefs(s, s.cur) && (s.pc[s.cur].Run? && s.cur != IDLE ==> s.cur != REAPER)
  }

  lemma InvCurrent(s: Sys)
    requires Inv(s)
    ensures CurrentFacts(s)
  {
    PlacesRange(s);
    assert Fits(s, s.cur) && PcRefs(s, s.cur);
    assert HeldFits(s.pc[s.cur], s.held[s.cur]);
    hide QueuesOk, CurrentOk, Waiters, MutexOk;
  }

  lemma LocalIs(s: Sys)
    requires Sized(s) && QueuesListThreads(s) && LocalPoint(s.pc[s.cur])
    ensures var pc := s.pc[s.cur];
            Step(s, Advance) == SetPc(s.(ints := NextInts(s.ints, pc), pre := NextPre(s.pre, pc)), NextPoint(s, pc))
  {
    hide NextInts, NextPre, NextPoint;
  }

  lemma NextFlags(s: Sys, t: nat, pc: Pc)
    requires LocalPoint(pc) && pc != Resume(Never) && FlagsFit(pc, s.ints, s.pre) && RoleFits(t, pc)
    ensures var next := NextPoint(s, pc);
            && FlagsFit(next, NextInts(s.ints, pc), NextPre(s.pre, pc)) && RoleFits(t, next) && (Reaping(next) <==> Reaping(pc))
            && !next.Sched? && !next.Resume? && !WritesOwner(next) && (next.ExitOff? || next.ExitRun? ==> pc.ExitRun?)
            && !WritesOwner(pc) && !pc.Sched? && forall k: nat :: Joins(next, k) ==> Joins(pc, k)
  {}

  lemma NextLocks(s: Sys, pc: Pc, held: set<nat>)
    requires LocalPoint(pc) && HeldFits(pc, held) && StateFits(s, pc)
    requires forall m: nat :: m in Avoids(NextPoint(s, pc)) ==> m in Avoids(pc)
    requires forall m: nat :: m in Owns(NextPoint(s, pc)) ==> m in Owns(pc)
    ensures HeldFits(NextPoint(s, pc), held) && StateFits(s, NextPoint(s, pc))
  {}

  lemma NextSets(s: Sys, pc: Pc)
    requires LocalPoint(pc)
    ensures forall m: nat :: m in Avoids(NextPoint(s, pc)) ==> m in Avoids(pc)
    ensures forall m: nat :: m in Owns(NextPoint(s, pc)) ==> m in Owns(pc)
  {}

  lemma NextTests(s: Sys, pc: Pc, m: nat)
    requires Sized(s) && LocalPoint(pc) && RetestPc(pc, m) && StateFits(s, pc)
    ensures RetestPc(NextPoint(s, pc), m) || Served(s, m)
  {}

  lemma LocalStep(s: Sys)
    requires Inv(s) && LocalPoint(s.pc[s.cur])
    ensures QueuesListThreads(s) && Inv(Step(s, Advance))
  {
    InvCurrent(s);
    hide Inv, Step, FlagsFit, RoleFits, Reaping, WritesOwner, HeldFits, StateFits, RetestPc, NextPoint, NextInts, NextPre, Served, Joins;
    var pc := s.pc[s.cur];
    LocalIs(s);
    NextFlags(s, s.cur, pc);
    NextSets(s, pc);
    NextLocks(s, pc, s.held[s.cur]);
    forall m: nat | RetestPc(pc, m) ensures RetestPc(NextPoint(s, pc), m) || Served(s, m) { NextTests(s, pc, m); }
    LocalInv(s, Step(s, Advance), NextPoint(s, pc));
  }

  // Writes to a mutex

  lemma WriteInv(s: Sys, r: Sys, pc: Pc)
    requires Inv(s) && Sized(r) && Locks(r) && Waiters(r)
    requires !s.pc[s.cur].Sched? && !pc.Sched? && pc != Resume(Never) && FlagsFit(pc, r.ints, r.pre) && RoleFits(s.cur, pc)
    requires r == SetPc(s.(mutexes := r.mutexes, held := r.held), pc) && s.cur != REAPER
    requires (forall t: nat :: !Joins(pc, t)) && !pc.ExitOff? && !pc.ExitRun?
    ensures Inv(r)
  {
    LocalBase(s, r, pc);
    hide Base, Locks, Waiters;
    forall u: nat | u < |r.pc| ensures PcRefs(r, u) { assert PcRefs(s, u); }
    RefsSame(s, r);
  }

  lemma WriteWaiters(s: Sys, r: Sys, m: nat, pc: Pc)
    requires Places(s) && Waiters(s) && Sized(r) && !s.pc[s.cur].Sched?
    requires r == SetPc(s.(mutexes := r.mutexes, held := r.held), pc)
    requires forall k: nat :: k != m ==> Mu(r, k).locked == Mu(s, k).locked && !RetestPc(s.pc[s.cur], k)
    requires Mu(r, m).locked || RetestPc(pc, m)
    ensures Waiters(r)
  {
    hide QueuesOk;
    forall k: nat ensures WaitersOk(r, k) {
      assert WaitersOk(s, k);
      if k != m && !Mu(r, k).locked && Q(r, MutexQ(k)) != [] {
        var t: nat :| Retester(s, k, t);
        assert Retester(r, k, t);
      }
    }
  }

  lemma InvPlaces(s: Sys)
    requires Inv(s)
    ensures Places(s)
  {}

  lemma WriteIs(s: Sys)
    requires Sized(s) && QueuesListThreads(s)
    ensures s.pc[s.cur].LockSet? ==> var m := s.pc[s.cur].m; Step(s, Advance) == SetPc(SetMutex(s, m, true, Mu(s, m).owner), LockOwn(m))
    ensures s.pc[s.cur].LockOwn? ==> var m := s.pc[s.cur].m; Step(s, Advance) == SetPc(SetMutex(s, m, Mu(s, m).locked, s.cur), LockDone(m))
    ensures s.pc[s.cur].Unlock? ==>
              var m, k := s.pc[s.cur].m, s.pc[s.cur].k; Step(s, Advance) == SetPc(SetMutex(s, m, false, Mu(s, m).owner), UnlockOwn(m, k))
    ensures s.pc[s.cur].UnlockOwn? ==>
              var m, k := s.pc[s.cur].m, s.pc[s.cur].k; Step(s, Advance) == SetPc(SetMutex(s, m, Mu(s, m).locked, NOBODY), UnlockTest(m, k))
  {
    hide SetMutex, Mu, QueuesListThreads;
  }

  lemma LockWrites(s: Sys)
    requires Inv(s) && (s.pc[s.cur].LockSet? || s.pc[s.cur].LockOwn?)
    ensures QueuesListThreads(s) && Inv(Step(s, Advance))
  {
    InvCurrent(s);
    hide Base, Locks, Waiters, Refs, QueuesListThreads, Step;
    WriteIs(s);
    var m := s.pc[s.cur].m;
    if s.pc[s.cur].LockSet? { LockSetLocks(s, m); } else { LockOwnLocks(s, m); }
    var r := Step(s, Advance);
    WriteWaiters(s, r, m, r.pc[s.cur]) by { InvPlaces(s); }
    WriteInv(s, r, r.pc[s.cur]);
  }

  lemma UnlockWrites(s: Sys)
    requires Inv(s) && (s.pc[s.cur].Unlock? || s.pc[s.cur].UnlockOwn?)
    ensures QueuesListThreads(s) && Inv(Step(s, Advance))
  {
    InvCurrent(s);
    hide Base, Locks, Waiters, Refs, QueuesListThreads, Step;
    WriteIs(s);
    var m, k := s.pc[s.cur].m, s.pc[s.cur].k;
    if s.pc[s.cur].Unlock? { UnlockLocks(s, m, k); } else { UnlockOwnLocks(s, m, k); }
    var r := Step(s, Advance);
    WriteWaiters(s, r, m, r.pc[s.cur]) by { InvPlaces(s); }
    WriteInv(s, r, r.pc[s.cur]);
  }

  // Waking

  /** Threads of waiting queues became runnable and nothing else changed. */
  lemma WokenInv(s: Sys, r: Sys)
    requires Inv(s) && !s.pc[s.cur].Sched? && r == s.(queues := r.queues, at := r.at)
    requires Sized(r) && QueuesOk(r) && Woken(s, r) && Q(r, ChainQ) == Q(s, ChainQ)
    requires forall m: nat :: Q(s, MutexQ(m)) == [] ==> Q(r, MutexQ(m)) == []
    ensures Inv(r)
  {
    WokenBase(s, r);
    assert Locks(r) by {
      forall m: nat ensures MutexOk(r, m) { assert MutexOk(s, m); }
    }
    hide Base, Locks;
    assert Waiters(r) by { WaitersSame(s, r); }
    forall u: nat | u < |r.pc| ensures PcRefs(r, u) { assert PcRefs(s, u); }
    RefsSame(s, r);
  }

  lemma WakeAllInv(s: Sys, q: Queue)
    requires Inv(s) && !s.pc[s.cur].Sched? && Waiting(q)
    ensures Inv(WakeAll(s, q))
  {
    WakeAllWoken(s, q);
    hide Base, Locks, Waiters, Refs, QueuesOk, Woken;
    WokenInv(s, WakeAll(s, q));
  }

  lemma WakeOneInv(s: Sys, q: Queue)
    requires Inv(s) && !s.pc[s.cur].Sched? && Waiting(q)
    ensures InRange(Q(s, q), |s.pc|) && Inv(WakeOne(s, q))
  {
    PlacesRange(s);
    WakeOneWoken(s, q);
    hide Base, Locks, Waiters, Refs, QueuesOk, Woken;
    WokenInv(s, WakeOne(s, q));
  }

  lemma WokenServes(s: Sys, m: nat)
    requires Base(s) && !s.pc[s.cur].Sched? && InRange(Q(s, MutexQ(m)), |s.pc|)
    ensures Sized(WakeOne(s, MutexQ(m))) && Served(WakeOne(s, MutexQ(m)), m)
  {
    var queue := Q(s, MutexQ(m));
    if queue != [] {
      var t := queue[Best(queue, s.prio)];
      assert Lists(s, MutexQ(m)) && t in queue && Fits(s, t);
      assert Retester(WakeOne(s, MutexQ(m)), m, t);
    }
  }

  lemma UnlockWakeStep(s: Sys)
    requires Inv(s) && s.pc[s.cur].UnlockWake?
    ensures QueuesListThreads(s) && Inv(Step(s, Advance))
  {
    var m, k := s.pc[s.cur].m, s.pc[s.cur].k;
    InvCurrent(s);
    hide Base, Locks, Waiters, Refs, WakeOne, Served, QueuesListThreads;
    WakeOneInv(s, MutexQ(m));
    WokenServes(s, m);
    WakeOneSame(s, MutexQ(m));
    UnlockWoken(WakeOne(s, MutexQ(m)), m, k);
  }

  lemma UnlockWoken(s: Sys, m: nat, k: Then)
    requires Inv(s) && s.pc[s.cur] == UnlockWake(m, k) && Served(s, m)
    ensures Inv(SetPc(s, UnlockDone(m, k)))
  {
    hide Inv, Served;
    InvCurrent(s);
    LocalInv(s, SetPc(s, UnlockDone(m, k)), UnlockDone(m, k));
  }

  lemma WakeOneSame(s: Sys, q: Queue)
    requires Sized(s) && InRange(Q(s, q), |s.pc|) && q != RunQ
    ensures var r := WakeOne(s, q); r == s.(queues := r.queues, at := r.at)
  {}

  // Waiting

  lemma PutInv(s: Sys, r: Sys, q: Queue, back: Back)
    requires Inv(s) && !s.pc[s.cur].Sched? && !WritesOwner(s.pc[s.cur]) && !s.pre
    requires r == SetPc(Put(s.(ints := false), q, s.cur), Sched(back))
    requires RoleFits(s.cur, Sched(back)) && PlaceFits(In(q), Resume(back)) && q != ChainQ && q != GraveQ && (s.cur == IDLE ==> q == RunQ)
    requires s.cur == REAPER ==> back.BackReap? || Q(s, ChainQ) == []
    requires HeldFits(Sched(back), s.held[s.cur]) && (q.MutexQ? ==> Mu(s, q.m).locked)
    requires forall m: nat :: !RetestPc(s.pc[s.cur], m)
    requires forall t: nat :: Joins(Sched(back), t) ==> t < |s.pc| && s.owner[t] == s.cur && !s.joined[t]
    ensures Inv(r)
  {
    PutBase(s, r, q, back);
    PutRest(s, r, q, back);
  }

  lemma PutRest(s: Sys, r: Sys, q: Queue, back: Back)
    requires Places(s) && Locks(s) && Waiters(s) && Refs(s) && !s.pc[s.cur].Sched? && !WritesOwner(s.pc[s.cur])
    requires r == SetPc(Put(s.(ints := false), q, s.cur), Sched(back)) && q != ChainQ && q != GraveQ
    requires HeldFits(Sched(back), s.held[s.cur]) && (q.MutexQ? ==> Mu(s, q.m).locked)
    requires forall m: nat :: !RetestPc(s.pc[s.cur], m)
    requires forall t: nat :: Joins(Sched(back), t) ==> t < |s.pc| && s.owner[t] == s.cur && !s.joined[t]
    ensures Locks(r) && Waiters(r) && Refs(r)
  {
    hide QueuesOk;
    assert Locks(r) by { hide MutexOk, HeldFits; LocksSame(s, r); }
    hide Locks;
    assert Waiters(r) by { hide RetestPc; WaitersSame(s, r); }
    hide Waiters;
    forall u: nat | u < |r.pc| ensures PcRefs(r, u) { assert PcRefs(s, u); }
    RefsSame(s, r);
  }

  lemma EnqStep(s: Sys)
    requires Inv(s) && s.pc[s.cur].Enq?
    ensures QueuesListThreads(s) && Inv(Step(s, Advance))
  {
    hide Inv;
    InvCurrent(s);
    var q, back := s.pc[s.cur].q, s.pc[s.cur].back;
    assert forall t: nat :: Joins(Sched(back), t) ==> Joins(s.pc[s.cur], t);
    assert s.(ints := false) == s;
    PutInv(s, Step(s, Advance), q, back);
  }

  lemma YieldSteps(s: Sys, r: Sys, back: Back)
    requires Inv(s) && ((s.pc[s.cur].Run? && back == BackCode) || (s.pc[s.cur].ReapYield? && back == BackReap))
    requires r == SetPc(Put(s.(ints := false), RunQ, s.cur), Sched(back))
    ensures Inv(r)
  {
    hide Inv;
    InvCurrent(s);
    PutInv(s, r, RunQ, back);
  }

  // Switching

  lemma RunnablePc(pc: Pc)
    requires PlaceFits(In(RunQ), pc)
    ensures !WritesOwner(pc) && !pc.LockSet? && !pc.WaitOff? && !pc.WaitPre? && !pc.Enq?
  {}

  /** The state in which the next thread is picked: the old one is parked. */
  ghost predicate ReadyToSwitch(s: Sys, s1: Sys) {
    && Sized(s) && Sized(s1) && QueuesOk(s1) && s1 == s.(queues := s1.queues, pc := s1.pc, at := s1.at)
    && Q(s1, RunQ) != [] && InRange(Q(s1, RunQ), |s1.pc|)
    && (forall q :: q != RunQ ==> Q(s1, q) == Q(s, q))
    && s1.pc == s.pc[s.cur := Parked(s.pc[s.cur])] && (s.pc[s.cur].Sched? || Preemptible(s.pc[s.cur]))
    && (forall t: nat :: t < |s.pc| && t != s.cur ==> s1.at[t] == s.at[t])
    && (s1.at[s.cur] == s.at[s.cur] || (SelfRef(s1.at[s.cur]) && SelfRef(s.at[s.cur])))
    && (s.at[s.cur] == In(RunQ) ==> s1.at[s.cur] == In(RunQ))
    && PlaceFits(s1.at[s.cur], s1.pc[s.cur])
  }

  lemma SwitchLocks(s: Sys, s1: Sys)
    requires Base(s) && Locks(s) && ReadyToSwitch(s, s1)
    ensures Sized(Switch(s1)) && Locks(Switch(s1))
  {
    SwitchMoves(s1);
    var r := Switch(s1);
    assert Fits(s, r.cur);
    assert r.cur != s.cur ==> Parked(s.pc[r.cur]) == s.pc[r.cur];
    RunnablePc(r.pc[r.cur]);
    hide QueuesOk, Switch, Base, MutexOk;
    forall t: nat | t < |r.pc| ensures HeldFits(r.pc[t], r.held[t]) { assert HeldFits(s.pc[t], s.held[t]); }
    hide HeldFits;
    LocksSame(s, r);
  }

  lemma SwitchWaiters(s: Sys, s1: Sys)
    requires Sized(s) && Waiters(s) && ReadyToSwitch(s, s1)
    ensures Sized(Switch(s1)) && Waiters(Switch(s1))
  {
    SwitchMoves(s1);
    var r := Switch(s1);
    assert forall q :: q != RunQ ==> Q(r, q) == Q(s, q);
    hide QueuesOk, Switch;
    WaitersSame(s, r);
  }

  lemma SwitchRefs(s: Sys, s1: Sys)
    requires Sized(s) && Refs(s) && ReadyToSwitch(s, s1)
    ensures Sized(Switch(s1)) && Refs(Switch(s1))
  {
    SwitchMoves(s1);
    var r := Switch(s1);
    hide QueuesOk, Switch;
    forall u: nat | u < |r.pc| ensures PcRefs(r, u) {
      assert PcRefs(s, u);
      assert forall t: nat :: Joins(r.pc[u], t) ==> Joins(s.pc[u], t);
    }
    RefsSame(s, r);
  }

  lemma SwitchRest(s: Sys, s1: Sys)
    requires Inv(s) && ReadyToSwitch(s, s1) && Base(Switch(s1))
    ensures Inv(Switch(s1))
  {
    InvPlaces(s);
    hide Base, Locks, Waiters, Refs, ReadyToSwitch, QueuesOk;
    SwitchLocks(s, s1);
    SwitchWaiters(s, s1);
    SwitchRefs(s, s1);
  }

  lemma SchedStep(s: Sys)
    requires Inv(s) && s.pc[s.cur].Sched?
    ensures QueuesListThreads(s) && Enabled(s, Advance) && Inv(Step(s, Advance))
  {
    SchedBase(s);
    var s1 := SetPc(s, Resume(s.pc[s.cur].back));
    QueuesSame(s, s1, s.cur);
    assert Fits(s, s.cur);
    hide Base, Locks, Waiters, Refs, QueuesOk;
    SwitchRest(s, s1);
  }

  lemma PreemptReady(s: Sys)
    requires Base(s) && s.ints && !s.pre
    ensures ReadyToSwitch(s, Put(s, RunQ, s.cur))
  {
    PlacesRange(s);
    PutQueues(s, RunQ, s.cur);
    assert Fits(s, s.cur);
    hide QueuesOk;
  }

  lemma PreemptStep(s: Sys)
    requires Inv(s) && s.ints && !s.pre
    ensures QueuesListThreads(s) && Inv(Step(s, Preempt))
  {
    InvPlaces(s);
    hide Base, Locks, Waiters, Refs, ReadyToSwitch, QueuesOk;
    PreemptReady(s);
    PreemptBase(s);
    SwitchRest(s, Put(s, RunQ, s.cur));
  }

  // Exit, Join, the reaper, new threads

  /** Steps that move threads but neither mutexes nor their waiters' tests. */
  lemma MovedInv(s: Sys, r: Sys, pc: Pc)
    requires Inv(s) && Base(r) && Refs(r) && !s.pc[s.cur].Sched? && |r.pc| == |s.pc|
    requires r.cur == s.cur && r.mutexes == s.mutexes && r.held == s.held && r.pc == s.pc[s.cur := pc]
    requires forall m: nat :: Q(r, MutexQ(m)) == Q(s, MutexQ(m))
    requires forall t: nat :: t < |s.at| && s.at[t] == In(RunQ) ==> r.at[t] == In(RunQ)
    requires Avoids(pc) == {} && Owns(pc) == {} && !WritesOwner(pc) && !pc.Enq? && !WritesOwner(s.pc[s.cur])
    requires forall m: nat :: !RetestPc(s.pc[s.cur], m)
    ensures Inv(r)
  {
    assert s.at[s.cur] == Current;
    hide Base, Refs;
    assert Locks(r) by {
      forall t: nat | t < |r.pc| ensures HeldFits(r.pc[t], r.held[t]) { assert HeldFits(s.pc[t], s.held[t]); }
      hide MutexOk, HeldFits;
      LocksSame(s, r);
    }
    hide Locks;
    WaitersSame(s, r);
  }

  lemma ExitStepInv(s: Sys)
    requires Inv(s) && s.pc[s.cur].ExitOff?
    ensures QueuesListThreads(s) && Inv(Step(s, Advance))
  {
    ExitBase(s);
    ExitRefs(s);
    ExitMoves(s);
    var r := Step(s, Advance);
    assert r == ExitStep(s);
    ExitQueues(s);
    hide Base, Locks, Waiters, Refs, QueuesOk, ExitStep, Step, Detach, WakeAll;
    MovedInv(s, r, Sched(Never));
  }

  lemma ExitQueues(s: Sys)
    requires Sized(s)
    ensures forall m: nat :: Q(ExitStep(s), MutexQ(m)) == Q(s, MutexQ(m))
  {}

  lemma JoinWaits(s: Sys, t: nat)
    requires Inv(s) && s.pc[s.cur] == JoinTest(t) && t < |s.pc| && s.alive[t]
    ensures Inv(SetPc(s, Enq(JoinQ(t), BackJoin(t))))
  {
    hide Inv;
    InvCurrent(s);
    assert Joins(s.pc[s.cur], t);
    LocalInv(s, SetPc(s, Enq(JoinQ(t), BackJoin(t))), Enq(JoinQ(t), BackJoin(t)));
  }

  lemma JoinEnds(s: Sys, t: nat)
    requires Inv(s) && s.pc[s.cur] == JoinTest(t) && t < |s.pc| && !s.alive[t]
    ensures Inv(JoinStep(s, t))
  {
    InvPlaces(s);
    hide Base, Locks, Waiters, Refs, QueuesOk, JoinStep, Detach;
    JoinRefs(s, t);
    JoinBase(s, t);
    JoinQueues(s, t);
    MovedInv(s, JoinStep(s, t), Run);
  }

  lemma JoinStepInv(s: Sys)
    requires Inv(s) && s.pc[s.cur].JoinTest?
    ensures QueuesListThreads(s) && Inv(Step(s, Advance))
  {
    hide Inv;
    InvCurrent(s);
    var t := s.pc[s.cur].t;
    assert Joins(s.pc[s.cur], t);
    if s.alive[t] { JoinWaits(s, t); } else { JoinEnds(s, t); }
  }

  lemma JoinQueues(s: Sys, t: nat)
    requires Sized(s) && QueuesOk(s) && t < |s.pc| && !s.alive[t] && (s.refs[t] == 1 ==> s.at[t] == Zombie)
    ensures var r := JoinStep(s, t);
            && r.cur == s.cur && r.mutexes == s.mutexes && r.held == s.held && r.pc == s.pc[s.cur := Run]
            && |r.at| == |s.at| && (forall m: nat :: Q(r, MutexQ(m)) == Q(s, MutexQ(m)))
            && forall u: nat :: u < |s.at| && s.at[u] == In(RunQ) ==> r.at[u] == In(RunQ)
  {
    var s1 := s.(ints := true, joined := s.joined[t := true]);
    QueuesSame(s, s1, t);
    DetachMoves(s1, t);
    hide QueuesOk;
  }

  lemma ReapWaits(s: Sys)
    requires Inv(s) && s.pc[s.cur].ReapTest?
    ensures Inv(SetPc(s, Enq(ReaperQ, BackReaper)))
  {
    hide Inv;
    InvCurrent(s);
    LocalInv(s, SetPc(s, Enq(ReaperQ, BackReaper)), Enq(ReaperQ, BackReaper));
  }

  lemma ReapTakes(s: Sys, r: Sys)
    requires Inv(s) && s.pc[s.cur].ReapTest? && Q(s, GraveQ) != [] && r == SetPc(TakeGrave(s.(ints := true)), ReapYield)
    ensures Inv(r)
  {
    InvPlaces(s);
    hide Base, Locks, Waiters, Refs, QueuesListThreads, QueuesOk;
    TakeGraveBase(s);
    TakeGraveRefs(s, r);
    GraveApart(s);
    MovedInv(s, r, ReapYield);
  }

  lemma ReapTestStep(s: Sys)
    requires Inv(s) && s.pc[s.cur].ReapTest?
    ensures QueuesListThreads(s) && Inv(Step(s, Advance))
  {
    hide Inv;
    InvCurrent(s);
    if Q(s, GraveQ) == [] { ReapWaits(s); } else { ReapTakes(s, Step(s, Advance)); }
  }

  lemma InvQueues(s: Sys)
    requires Inv(s)
    ensures QueuesOk(s)
  {}

  lemma GraveApart(s: Sys)
    requires Inv(s)
    ensures forall t: nat :: t < |s.at| && s.at[t] == In(RunQ) ==> t !in Q(s, GraveQ)
  {
    assert Lists(s, GraveQ);
  }

  lemma ReapLoopStep(s: Sys)
    requires Inv(s) && s.pc[s.cur].ReapLoop?
    ensures QueuesListThreads(s) && Inv(Step(s, Advance))
  {
    InvCurrent(s);
    InvQueues(s);
    var r := Step(s, Advance);
    if Q(s, ChainQ) == [] {
      hide Inv;
      LocalInv(s, r, ReapTest);
    } else {
      DestroyQueues(s);
      DestroyBase(s);
      DestroyRefs(s);
      hide Base, Locks, Waiters, Refs, QueuesListThreads, QueuesOk;
      MovedInv(s, r, ReapLoop);
    }
  }

  lemma StartInv(s: Sys, prio: int, detached: bool)
    requires Inv(s) && s.pc[s.cur].Run?
    ensures Inv(Start(s, prio, detached))
  {
    var r := Start(s, prio, detached);
    StartBase(s, prio, detached);
    StartRefs(s, prio, detached);
    hide Base, Refs;
    assert Locks(r) by {
      forall t: nat | t < |r.pc| ensures HeldFits(r.pc[t], r.held[t]) { if t < |s.pc| { assert HeldFits(s.pc[t], s.held[t]); } }
      hide MutexOk, HeldFits;
      LocksSame(s, r);
    }
    hide Locks;
    WaitersSame(s, r);
  }

  lemma ExitCallInv(s: Sys)
    requires Inv(s) && s.pc[s.cur].Run? && s.cur != IDLE
    ensures QueuesListThreads(s) && Inv(Step(s, CallExit))
  {
    InvCurrent(s);
    var r := Step(s, CallExit);
    var s1 := s.(alive := s.alive[s.cur := false]);
    hide QueuesListThreads;
    assert Base(s1) by {
      forall q ensures Lists(s1, q) { assert Lists(s, q); }
      forall t: nat | t < |s.pc| ensures Fits(s1, t) { assert Fits(s, t); }
    }
    LocalBase(s1, r, ExitOff);
    hide Base;
    assert Refs(r) by {
      forall t: nat | t < |r.pc| ensures RefOk(r, t) { assert RefOk(s, t); }
      forall u: nat | u < |r.pc| ensures PcRefs(r, u) { assert PcRefs(s, u); }
    }
    hide Refs;
    MovedInv(s, r, ExitOff);
  }

  /** Calls that only enter a function of mutexes or conditions. */
  lemma LockEntries(s: Sys, a: Action)
    requires Inv(s) && Enabled(s, a) && (a.CallLock? || a.CallUnlock? || a.CallCondWait?)
    ensures QueuesListThreads(s) && Inv(Step(s, a))
  {
    hide Inv;
    InvCurrent(s);
    var r := Step(s, a);
    LocalInv(s, r, r.pc[s.cur]);
  }

  /** And of threads. */
  lemma JoinEntry(s: Sys, t: nat)
    requires Inv(s) && Enabled(s, CallJoin(t))
    ensures QueuesListThreads(s) && Inv(Step(s, CallJoin(t)))
  {
    hide Inv;
    InvCurrent(s);
    LocalInv(s, Step(s, CallJoin(t)), JoinTest(t));
  }

  lemma EventEntry(s: Sys, e: nat)
    requires Inv(s) && Enabled(s, CallEventWait(e))
    ensures QueuesListThreads(s) && Inv(Step(s, CallEventWait(e)))
  {
    hide Inv;
    InvCurrent(s);
    LocalInv(s, Step(s, CallEventWait(e)), Enq(EventQ(e), BackCode));
  }

  lemma DestructEntry(s: Sys)
    requires Inv(s) && Enabled(s, Destruct)
    ensures QueuesListThreads(s) && Inv(Step(s, Destruct))
  {
    hide Inv;
    InvCurrent(s);
    LocalInv(s, Step(s, Destruct), ExitRun);
  }

  lemma AdvanceKeeps(s: Sys)
    requires Inv(s) && Enabled(s, Advance)
    ensures QueuesListThreads(s) && Inv(Step(s, Advance))
  {
    InvPlaces(s);
    hide Inv, QueuesListThreads, Step, QueuesOk;
    var pc := s.pc[s.cur];
    if LocalPoint(pc) { LocalStep(s); }
    else if pc.LockSet? || pc.LockOwn? { LockWrites(s); }
    else if pc.Unlock? || pc.UnlockOwn? { UnlockWrites(s); }
    else if pc.UnlockWake? { UnlockWakeStep(s); }
    else if pc.Enq? { EnqStep(s); }
    else if pc.Sched? { SchedStep(s); }
    else if pc.JoinTest? { JoinStepInv(s); }
    else if pc.ExitOff? { ExitStepInv(s); }
    else if pc.ReapTest? { ReapTestStep(s); }
    else if pc.ReapLoop? { ReapLoopStep(s); }
    else { ReapYieldStep(s); }
  }

  lemma ReapYieldStep(s: Sys)
    requires Inv(s) && s.pc[s.cur].ReapYield?
    ensures QueuesListThreads(s) && Inv(Step(s, Advance))
  {
    InvCurrent(s);
    hide Inv, QueuesListThreads;
    YieldSteps(s, Step(s, Advance), BackReap);
  }

  /** The invariant is kept by every step of every thread and by every interrupt. */
  lemma StepKeeps(s: Sys, a: Action)
    requires Inv(s) && Enabled(s, a)
    ensures QueuesListThreads(s) && Inv(Step(s, a))
  {
    InvCurrent(s);
    hide Inv, QueuesListThreads, Go, WakeAll, WakeOne, Start, Put, SetPc;
    match a
    case Advance => AdvanceKeeps(s);
    case Preempt => PreemptStep(s);
    case Event(e) => WakeAllInv(s, EventQ(e));
    case CallSignal(c) => WakeOneInv(s, CondQ(c));
    case CallBroadcast(c) => WakeAllInv(s, CondQ(c));
    case CallYield => YieldSteps(s, Step(s, a), BackCode);
    case CallExit => ExitCallInv(s);
    case CallStart(prio, detached) => StartInv(s, prio, detached);
    case CallLock(_) => LockEntries(s, a);
    case CallUnlock(_) => LockEntries(s, a);
    case CallCondWait(_, _) => LockEntries(s, a);
    case CallJoin(t) => JoinEntry(s, t);
    case CallEventWait(e) => EventEntry(s, e);
    case Destruct => DestructEntry(s);
  }
}
