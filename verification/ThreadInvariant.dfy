/** What holds in every state of the thread system. */
module ThreadInvariant {
  import opened Threads
  import opened ThreadPlaces

  // Control: program points, interrupt and preemption switches, places

  /** At each point of the code the two switches have known values. */
  predicate FlagsFit(pc: Pc, ints: bool, pre: bool) {
    match pc
    case Run | ExitRun | ReapYield | ReapLoop => ints && !pre
    case LockTest(_) | LockSet(_) | LockOwn(_) | LockDone(_) | WaitOff(_) => ints && pre
    case Unlock(_, _) | UnlockOwn(_, _) | UnlockTest(_, _) | UnlockWake(_, _) | UnlockDone(_, _) => ints && pre
    case CondOff(_, _) => ints && pre
    case WaitPre(_) | CondPre(_, _) | Relock(_) => !ints && pre
    case Enq(_, _) | Sched(_) | Resume(_) | JoinTest(_) | ExitOff | ReapTest => !ints && !pre
  }

  predicate EnqFits(q: Queue, back: Back) {
    match q
    case MutexQ(m) => back == BackMutex(m)
    case CondQ(_) => back.BackMutex?
    case JoinQ(t) => back == BackJoin(t)
    case ReaperQ => back.BackReaper?
    case EventQ(_) => back.BackCode?
    case RunQ | GraveQ | ChainQ => false
  }

  /** A thread that does not run has a place that fits where it will go on. */
  predicate PlaceFits(at: Place, pc: Pc) {
    match at
    case Current => true
    case In(RunQ) => Preemptible(pc) || (pc.Resume? && !pc.back.Never?)
    case In(GraveQ) | In(ChainQ) | Zombie | Gone => pc == Resume(Never)
    case In(q) => pc.Resume? && EnqFits(q, pc.back)
  }

  function Parked(pc: Pc): (r: Pc) {
    if pc.Sched? then Resume(pc.back) else pc
  }

  predicate OnReaperPath(back: Back) {
    back.BackReaper? || back.BackReap?
  }

  predicate ReaperPc(pc: Pc) {
    pc.ReapTest? || pc.ReapYield? || pc.ReapLoop? || ((pc.Enq? || pc.Sched? || pc.Resume?) && OnReaperPath(pc.back))
  }

  predicate IdlePc(pc: Pc) {
    pc.Run? || pc == Sched(BackCode) || pc == Resume(BackCode)
  }

  /** The reaper's code is run by the reaper alone; the idle thread only yields. */
  predicate RoleFits(t: nat, pc: Pc) {
    && (t == REAPER <==> ReaperPc(pc)) && (t == IDLE ==> IdlePc(pc))
    && (pc.Enq? ==> EnqFits(pc.q, pc.back))
  }

  /** The reaper has a chain of dead threads only while it disposes of them. */
  predicate Reaping(pc: Pc) {
    pc.ReapYield? || pc.ReapLoop? || ((pc.Sched? || pc.Resume?) && pc.back.BackReap?)
  }

  ghost predicate Fits(s: Sys, t: nat)
    requires Sized(s) && t < |s.pc|
  {
    && PlaceFits(s.at[t], Parked(s.pc[t])) && RoleFits(t, s.pc[t])
    && (t != s.cur ==> !s.pc[t].Sched?) && (s.at[t] == Current ==> s.pc[t] != Resume(Never))
  }

  ghost predicate Control(s: Sys)
    requires Sized(s)
  {
    && FlagsFit(s.pc[s.cur], s.ints, s.pre)
    && (forall t: nat {:trigger Fits(s, t)} :: t < |s.pc| ==> Fits(s, t))
    && (Q(s, ChainQ) != [] ==> Reaping(s.pc[REAPER]))
    && (s.at[IDLE] == Current || s.at[IDLE] == In(RunQ))
  }

  ghost predicate Base(s: Sys) {
    Places(s) && Control(s)
  }

  /** When the scheduler is called there is a runnable thread. */
  lemma SomebodyRunnable(s: Sys)
    requires Base(s) && s.pc[s.cur].Sched?
    ensures Q(s, RunQ) != []
  {
    assert Lists(s, RunQ);
    assert IDLE in Q(s, RunQ);
  }

  /** A step of the running thread that moves no thread. */
  lemma LocalBase(s: Sys, r: Sys, pc: Pc)
    requires Base(s) && !s.pc[s.cur].Sched? && !pc.Sched? && pc != Resume(Never)
    requires Sized(r) && r.cur == s.cur && r.queues == s.queues && r.at == s.at && r.pc == s.pc[s.cur := pc]
    requires FlagsFit(pc, r.ints, r.pre) && RoleFits(s.cur, pc)
    requires s.cur == REAPER ==> Reaping(pc) || Q(s, ChainQ) == []
    ensures Base(r)
  {
    forall q ensures Lists(r, q) { assert Lists(s, q); }
    forall t: nat | t < |r.pc| ensures Fits(r, t) { assert Fits(s, t); }
  }

  /** The running thread goes onto a queue and is about to switch. */
  lemma PutBase(s: Sys, r: Sys, q: Queue, back: Back)
    requires Base(s) && !s.pc[s.cur].Sched?
    requires r == SetPc(Put(s.(ints := false), q, s.cur), Sched(back)) && !s.pre
    requires RoleFits(s.cur, Sched(back)) && PlaceFits(In(q), Resume(back)) && q != ChainQ && (s.cur == IDLE ==> q == RunQ)
    requires s.cur == REAPER ==> back.BackReap? || Q(s, ChainQ) == []
    ensures Base(r)
  {
    PutQueues(s.(ints := false), q, s.cur) by {
      forall p ensures Lists(s.(ints := false), p) { assert Lists(s, p); }
    }
    forall p ensures Lists(r, p) { assert Lists(Put(s.(ints := false), q, s.cur), p); }
    forall t: nat | t < |r.pc| ensures Fits(r, t) { assert Fits(s, t); }
  }

  /** Some threads of the waiting queues became runnable, nothing else moved. */
  ghost predicate Woken(s: Sys, r: Sys)
    requires Sized(s) && Sized(r)
  {
    && r.cur == s.cur && |r.at| == |s.at|
    && forall t :: 0 <= t < |s.at| ==> r.at[t] == s.at[t] || (r.at[t] == In(RunQ) && s.at[t].In? && Waiting(s.at[t].q))
  }

  predicate Waiting(q: Queue) {
    q.MutexQ? || q.CondQ? || q.JoinQ? || q.ReaperQ? || q.EventQ?
  }

  lemma WakeOneWoken(s: Sys, q: Queue)
    requires Sized(s) && QueuesOk(s) && Waiting(q) && InRange(Q(s, q), |s.pc|)
    ensures Woken(s, WakeOne(s, q)) && Q(WakeOne(s, q), ChainQ) == Q(s, ChainQ) && QueuesOk(WakeOne(s, q))
  {
    WakeOneQueues(s, q);
    if Q(s, q) != [] {
      var i := Best(Q(s, q), s.prio);
      assert Lists(s, q) && Q(s, q)[i] in Q(s, q);
    }
  }

  lemma WakeAllWoken(s: Sys, q: Queue)
    requires Sized(s) && QueuesOk(s) && Waiting(q)
    ensures Woken(s, WakeAll(s, q)) && Q(WakeAll(s, q), ChainQ) == Q(s, ChainQ) && QueuesOk(WakeAll(s, q))
  {
    WakeAllQueues(s, q);
    assert Lists(s, q);
  }

  lemma WokenBase(s: Sys, r: Sys)
    requires Base(s) && Sized(r) && QueuesOk(r) && Woken(s, r) && r.pc == s.pc && r.ints == s.ints && r.pre == s.pre
    requires Q(r, ChainQ) == Q(s, ChainQ) && !s.pc[s.cur].Sched?
    ensures Base(r)
  {
    forall t: nat | t < |r.pc| ensures Fits(r, t) { assert Fits(s, t); }
  }

  // Switching

  lemma SwitchMoves(s: Sys)
    requires Sized(s) && QueuesOk(s) && Q(s, RunQ) != [] && InRange(Q(s, RunQ), |s.pc|)
    ensures var r := Switch(s);
            && Sized(r) && QueuesOk(r) && s.at[r.cur] == In(RunQ) && Q(r, ChainQ) == Q(s, ChainQ)
            && r == s.(cur := r.cur, ints := Preemptible(s.pc[r.cur]), queues := r.queues, at := s.at[r.cur := Current])
  {
    SwitchQueues(s);
    var run := Q(s, RunQ);
    var i := Best(run, s.prio);
    assert Lists(s, RunQ) && run[i] in run;
  }

  /** A thread taken from the run queue goes on with the switches as it needs them. */
  lemma RunnableFlags(pc: Pc)
    requires PlaceFits(In(RunQ), pc)
    ensures FlagsFit(pc, Preemptible(pc), false) && !pc.Sched? && pc != Resume(Never)
  {}

  lemma SwitchFits(s: Sys, s1: Sys, r: Sys, t: nat)
    requires Sized(s) && Sized(s1) && Sized(r) && |s.pc| == |s1.pc| == |r.pc| && t < |s.pc| && Fits(s, t)
    requires t != s.cur ==> s1.pc[t] == s.pc[t] && s1.at[t] == s.at[t]
    requires t == s.cur ==> s1.pc[t] == Parked(s.pc[t]) && s1.at[t] != Current && PlaceFits(s1.at[t], s1.pc[t])
    requires r.pc == s1.pc && r.at[t] == (if t == r.cur then Current else s1.at[t]) && s1.at[r.cur] == In(RunQ)
    requires s.at[t] == Current <==> t == s.cur && !s.pc[t].Sched?
    ensures Fits(r, t) && (r.at[t] == Current <==> t == r.cur && !r.pc[t].Sched?)
  {}

  lemma SwitchBase(s: Sys, s1: Sys)
    requires Base(s) && Sized(s1) && QueuesOk(s1) && s1.cur == s.cur && !s.pre && s1.pre == s.pre && |s1.pc| == |s.pc|
    requires Q(s1, ChainQ) == Q(s, ChainQ) && Q(s1, RunQ) != [] && InRange(Q(s1, RunQ), |s1.pc|)
    requires forall t :: 0 <= t < |s.pc| && t != s.cur ==> s1.pc[t] == s.pc[t] && s1.at[t] == s.at[t]
    requires s1.pc[s.cur] == Parked(s.pc[s.cur]) && s1.at[s.cur] != Current && PlaceFits(s1.at[s.cur], s1.pc[s.cur])
    requires s.cur == IDLE ==> s1.at[IDLE] == In(RunQ)
    ensures Base(Switch(s1))
  {
    hide QueuesOk, Switch, FlagsFit, PlaceFits, RoleFits, Preemptible;
    SwitchMoves(s1);
    var r := Switch(s1);
    assert Fits(s, r.cur);
    assert r.cur != s.cur ==> Parked(s.pc[r.cur]) == s.pc[r.cur];
    RunnableFlags(s1.pc[r.cur]);
    forall t: nat | t < |r.pc| ensures Fits(r, t) && (r.at[t] == Current <==> t == r.cur && !r.pc[t].Sched?) {
      assert Fits(s, t);
      SwitchFits(s, s1, r, t);
    }
  }

  lemma SchedBase(s: Sys)
    requires Base(s) && s.pc[s.cur].Sched?
    ensures QueuesListThreads(s) && Enabled(s, Advance) && Base(Step(s, Advance))
  {
    PlacesRange(s);
    SomebodyRunnable(s);
    assert Fits(s, s.cur);
    var s1 := SetPc(s, Resume(s.pc[s.cur].back));
    forall q ensures Lists(s1, q) { assert Lists(s, q); }
    SwitchBase(s, s1);
  }

  lemma PreemptBase(s: Sys)
    requires Base(s) && s.ints && !s.pre
    ensures QueuesListThreads(s) && Base(Step(s, Preempt))
  {
    PlacesRange(s);
    assert Fits(s, s.cur);
    PutQueues(s, RunQ, s.cur);
    SwitchBase(s, Put(s, RunQ, s.cur));
  }

  // The reaper

  lemma TakeGraveBase(s: Sys)
    requires Base(s) && s.pc[s.cur].ReapTest? && Q(s, GraveQ) != []
    ensures QueuesListThreads(s) && Base(Step(s, Advance))
  {
    PlacesRange(s);
    assert Fits(s, s.cur) && Lists(s, GraveQ);
    var s1 := s.(ints := true);
    forall q ensures Lists(s1, q) { assert Lists(s, q); }
    TakeGraveQueues(s1);
    var r := Step(s, Advance);
    forall q ensures Lists(r, q) { assert Lists(TakeGrave(s1), q); }
    forall t: nat | t < |r.pc| ensures Fits(r, t) { assert Fits(s, t); }
  }

  lemma DestroyBase(s: Sys)
    requires Base(s) && s.pc[s.cur].ReapLoop? && Q(s, ChainQ) != []
    ensures QueuesListThreads(s) && Base(Step(s, Advance))
  {
    PlacesRange(s);
    DestroyQueues(s);
    var r := Step(s, Advance);
    assert Fits(s, s.cur);
    forall t: nat | t < |r.pc| ensures Fits(r, t) { assert Fits(s, t); }
  }

  lemma StartBase(s: Sys, prio: int, detached: bool)
    requires Base(s) && s.pc[s.cur].Run?
    ensures Base(Start(s, prio, detached))
  {
    StartQueues(s, prio, detached);
    var r := Start(s, prio, detached);
    forall t: nat | t < |r.pc| ensures Fits(r, t) { if t < |s.pc| { assert Fits(s, t); } }
  }

  // Exit and Join

  /** Detach_Thread moves the thread to the graveyard, wakes the reaper, or moves nothing. */
  lemma DetachMoves(s: Sys, t: nat)
    requires Sized(s) && QueuesOk(s) && t < |s.pc| && (s.refs[t] == 1 ==> !s.at[t].In?)
    ensures var r := Detach(s, t);
            && Sized(r) && QueuesOk(r) && Q(r, ChainQ) == Q(s, ChainQ) && r == s.(queues := r.queues, at := r.at, refs := r.refs)
            && r.at[t] == (if s.refs[t] == 1 then In(GraveQ) else s.at[t])
            && forall u :: 0 <= u < |s.at| && u != t ==> r.at[u] == s.at[u] || (r.at[u] == In(RunQ) && s.at[u] == In(ReaperQ))
  {
    DetachQueues(s, t);
    var s1 := s.(refs := s.refs[t := s.refs[t] - 1]);
    if s1.refs[t] == 0 {
      var s2 := Put(s1, GraveQ, t);
      assert Lists(s, ReaperQ);
      assert Q(s2, ReaperQ) == Q(s, ReaperQ);
    }
  }

  predicate Moves(was: Place, now: Place) {
    || now == was || (now == In(RunQ) && was.In? && Waiting(was.q))
    || (was == Zombie && now == In(GraveQ))
  }

  /** The running thread goes on at pc while others were woken or given to the reaper. */
  lemma MovedBase(s: Sys, r: Sys, pc: Pc)
    requires Base(s) && !s.pc[s.cur].Sched? && s.cur != IDLE && !ReaperPc(s.pc[s.cur]) && !ReaperPc(pc) && !pc.Enq?
    requires Sized(r) && QueuesOk(r) && r.cur == s.cur && r.pc == s.pc[s.cur := pc] && Q(r, ChainQ) == Q(s, ChainQ)
    requires forall u: nat :: u < |s.at| && u != s.cur ==> Moves(s.at[u], r.at[u])
    requires FlagsFit(pc, r.ints, r.pre) && PlaceFits(r.at[s.cur], Parked(pc)) && pc != Resume(Never)
    requires r.at[s.cur] == Current <==> !pc.Sched?
    ensures Base(r)
  {
    hide QueuesOk;
    assert Fits(s, s.cur) && Fits(s, IDLE);
    forall u: nat | u < |r.pc| ensures Fits(r, u) && (r.at[u] == Current <==> u == r.cur && !r.pc[u].Sched?) {
      assert Fits(s, u);
    }
  }

  lemma ExitMoves(s: Sys)
    requires Sized(s) && QueuesOk(s) && s.at[s.cur] == Current
    ensures var r := ExitStep(s);
            && Sized(r) && QueuesOk(r) && Q(r, ChainQ) == Q(s, ChainQ)
            && r == s.(queues := r.queues, at := r.at, refs := r.refs, pc := s.pc[s.cur := Sched(Never)])
            && r.at[s.cur] == (if s.refs[s.cur] == 1 then In(GraveQ) else Zombie)
            && forall u: nat :: u < |s.at| && u != s.cur ==> Moves(s.at[u], r.at[u])
  {
    var t := s.cur;
    var s1 := WakeAll(s, JoinQ(t));
    var s2 := s1.(at := s1.at[t := Zombie]);
    var s3 := Detach(s2, t);
    hide QueuesOk, Detach;
    WakeAllWoken(s, JoinQ(t));
    hide WakeAll;
    QueuesSame(s1, s2, t);
    DetachMoves(s2, t);
    QueuesSame(s3, ExitStep(s), t);
  }

  lemma ExitBase(s: Sys)
    requires Base(s) && s.pc[s.cur].ExitOff?
    ensures QueuesListThreads(s) && Base(ExitStep(s))
  {
    PlacesRange(s);
    ControlFlags(s);
    assert Fits(s, s.cur);
    hide QueuesOk, Control, ExitStep, QueuesListThreads;
    ExitMoves(s);
    MovedBase(s, ExitStep(s), Sched(Never));
  }

  lemma ControlFlags(s: Sys)
    requires Base(s)
    ensures FlagsFit(s.pc[s.cur], s.ints, s.pre)
  {}

  lemma QueuesSame(s: Sys, r: Sys, t: nat)
    requires Sized(s) && QueuesOk(s) && r.queues == s.queues && |r.at| == |s.at| && t < |s.at|
    requires forall u :: 0 <= u < |s.at| && u != t ==> r.at[u] == s.at[u]
    requires r.at[t] == s.at[t] || (!r.at[t].In? && !s.at[t].In?)
    ensures QueuesOk(r)
  {
    forall q ensures Lists(r, q) { assert Lists(s, q); }
  }

  lemma JoinBase(s: Sys, t: nat)
    requires Base(s) && s.pc[s.cur] == JoinTest(t) && t < |s.pc| && !s.alive[t] && (s.refs[t] == 1 ==> s.at[t] == Zombie)
    ensures Base(JoinStep(s, t))
  {
    ControlFlags(s);
    assert Fits(s, s.cur);
    hide QueuesOk, Detach, Control, WakeAll;
    var s1 := s.(ints := true, joined := s.joined[t := true]);
    var s2 := Detach(s1, t);
    var r := JoinStep(s, t);
    QueuesSame(s, s1, t);
    DetachMoves(s1, t);
    QueuesSame(s2, r, t);
    MovedBase(s, r, Run);
  }
}
