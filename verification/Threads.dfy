/** GeekOS kernel threads, mutexes and conditions as a system of atomic steps.

    One processor runs one thread. A step is a statement between two points where
    something else could happen; a section with interrupts off that does not switch
    threads is one step. */
module Threads {

  datatype Queue =
    | RunQ | MutexQ(m: nat) | CondQ(c: nat) | JoinQ(t: nat) | ReaperQ | EventQ(e: nat)
    | GraveQ | ChainQ

  /** Where a thread is: running, on a queue, exited with its owner's reference left, destroyed. */
  datatype Place = Current | In(q: Queue) | Zombie | Gone

  /** What a thread does when it runs again after a switch. */
  datatype Back = BackCode | BackMutex(m: nat) | BackJoin(t: nat) | BackReaper | BackReap | Never

  /** What follows the release of a mutex: return, or the rest of Cond_Wait. */
  datatype Then = Return | ThenWait(c: nat)

  datatype Pc =
    | Run                                                   // any code outside the functions below
    | LockTest(m: nat) | LockSet(m: nat) | LockOwn(m: nat) | LockDone(m: nat)
    | WaitOff(m: nat) | WaitPre(m: nat) | Relock(m: nat)
    | Unlock(m: nat, k: Then) | UnlockOwn(m: nat, k: Then) | UnlockTest(m: nat, k: Then)
    | UnlockWake(m: nat, k: Then) | UnlockDone(m: nat, k: Then)
    | CondOff(c: nat, m: nat) | CondPre(c: nat, m: nat)
    | Enq(q: Queue, back: Back) | Sched(back: Back) | Resume(back: Back)
    | JoinTest(t: nat) | ExitOff | ExitRun
    | ReapTest | ReapYield | ReapLoop

  datatype Mutex = Mutex(locked: bool, owner: int)

  const NOBODY: int := -1
  const MAIN: nat := 0
  const IDLE: nat := 1
  const REAPER: nat := 2

  datatype Sys = Sys(
    cur: nat, ints: bool, pre: bool,
    queues: map<Queue, seq<nat>>, mutexes: map<nat, Mutex>,
    pc: seq<Pc>, at: seq<Place>, held: seq<set<nat>>,
    prio: seq<int>, alive: seq<bool>, refs: seq<int>, owner: seq<int>,
    joined: seq<bool>, reaped: seq<nat>)

  ghost predicate Sized(s: Sys) {
    && |s.pc| == |s.at| == |s.held| == |s.prio| == |s.alive| == |s.refs| == |s.owner| == |s.joined|
    && REAPER < |s.pc| && s.cur < |s.pc|
  }

  function Q(s: Sys, q: Queue): (r: seq<nat>) {
    if q in s.queues then s.queues[q] else []
  }

  function Mu(s: Sys, m: nat): (r: Mutex) {
    if m in s.mutexes then s.mutexes[m] else Mutex(false, NOBODY)
  }

  // Queues

  /** Position of the first thread of the highest priority. */
  predicate IsBest(queue: seq<nat>, prio: seq<int>, i: nat) {
    && i < |queue| && (forall j :: 0 <= j < |queue| ==> queue[j] < |prio|)
    && (forall j :: 0 <= j < |queue| ==> prio[queue[j]] <= prio[queue[i]])
    && (forall j :: 0 <= j < i ==> prio[queue[j]] < prio[queue[i]])
  }

  /** Find_Best; the queue's length when it is empty. */
  method FindBest(queue: seq<nat>, prio: seq<int>) returns (best: nat)
    requires forall j :: 0 <= j < |queue| ==> queue[j] < |prio|
    ensures if queue == [] then best == 0 else IsBest(queue, prio, best)
  {
    best := 0;
    for i := 0 to |queue|
      invariant i == 0 ==> best == 0
      invariant i > 0 ==> best < i
      invariant forall j :: 0 <= j < i ==> prio[queue[j]] <= prio[queue[best]]
      invariant forall j :: 0 <= j < best && best < i ==> prio[queue[j]] < prio[queue[best]]
    {
      if i == 0 || prio[queue[i]] > prio[queue[best]] { best := i; }
    }
  }

  function Best(queue: seq<nat>, prio: seq<int>): (i: nat)
    requires queue != [] && forall j :: 0 <= j < |queue| ==> queue[j] < |prio|
    ensures IsBest(queue, prio, i)
  {
    var n := |queue| - 1;
    if n == 0 then 0
    else
      var i := Best(queue[..n], prio);
      assert IsBest(queue[..n], prio, i);
      assert forall j :: 0 <= j < n ==> queue[..n][j] == queue[j];
      if prio[queue[n]] > prio[queue[i]] then n else i
  }

  function Drop(queue: seq<nat>, i: nat): (r: seq<nat>)
    requires i < |queue|
  {
    queue[..i] + queue[i + 1..]
  }

  predicate InRange(queue: seq<nat>, n: nat) {
    forall j :: 0 <= j < |queue| ==> queue[j] < n
  }

  ghost predicate QueuesListThreads(s: Sys) {
    forall q :: InRange(Q(s, q), |s.pc|)
  }

  // Parts of steps

  function SetPc(s: Sys, pc: Pc): (r: Sys)
    requires s.cur < |s.pc|
  {
    s.(pc := s.pc[s.cur := pc])
  }

  /** Enqueue_Thread. */
  function Put(s: Sys, q: Queue, t: nat): (r: Sys)
    requires t < |s.at|
  {
    s.(queues := s.queues[q := Q(s, q) + [t]], at := s.at[t := In(q)])
  }

  /** Wake_Up_One: the best waiter becomes runnable. */
  ghost function WakeOne(s: Sys, q: Queue): (r: Sys)
    requires Sized(s) && InRange(Q(s, q), |s.pc|) && q != RunQ
  {
    if Q(s, q) == [] then s
    else
      var i := Best(Q(s, q), s.prio);
      Put(s.(queues := s.queues[q := Drop(Q(s, q), i)]), RunQ, Q(s, q)[i])
  }

  /** Wake_Up: every waiter becomes runnable, in order. */
  ghost function WakeAll(s: Sys, q: Queue): (r: Sys)
    requires Sized(s) && q != RunQ
  {
    var woken := Q(s, q);
    s.(queues := s.queues[RunQ := Q(s, RunQ) + woken][q := []],
       at := seq(|s.at|, t requires 0 <= t < |s.at| => if t in woken then In(RunQ) else s.at[t]))
  }

  predicate Preemptible(pc: Pc) {
    pc.Run? || pc.ExitRun? || pc.ReapYield? || pc.ReapLoop?
  }

  /** Get_Next_Runnable and the switch to it. */
  ghost function Switch(s: Sys): (r: Sys)
    requires Sized(s) && Q(s, RunQ) != [] && InRange(Q(s, RunQ), |s.pc|)
  {
    var run := Q(s, RunQ);
    var i := Best(run, s.prio);
    var t := run[i];
    s.(cur := t, ints := Preemptible(s.pc[t]), queues := s.queues[RunQ := Drop(run, i)], at := s.at[t := Current])
  }

  /** Detach_Thread: drops a reference, and hands the thread to the reaper with the last one. */
  ghost function Detach(s: Sys, t: nat): (r: Sys)
    requires Sized(s) && t < |s.pc|
  {
    var s1 := s.(refs := s.refs[t := s.refs[t] - 1]);
    if s1.refs[t] == 0 then WakeAll(Put(s1, GraveQ, t), ReaperQ) else s1
  }

  // Steps

  datatype Action =
    | Advance | Destruct | Preempt | Event(e: nat)
    | CallLock(m: nat) | CallUnlock(m: nat) | CallCondWait(c: nat, m: nat) | CallSignal(c: nat) | CallBroadcast(c: nat)
    | CallYield | CallExit | CallJoin(t: nat) | CallStart(prio: int, detached: bool) | CallEventWait(e: nat)

  /** What callers may do: the idle thread only yields, a mutex is locked by a thread that
      does not hold it and released by one that does, and a thread is joined once, by its owner. */
  ghost predicate Enabled(s: Sys, a: Action)
    requires Sized(s)
  {
    var pc := s.pc[s.cur];
    match a
    case Advance => !pc.Run? && (pc.Sched? ==> Q(s, RunQ) != [])
    case Destruct => pc.ExitOff?
    case Preempt => s.ints && !s.pre
    case Event(_) => s.ints
    case CallYield => pc.Run?
    case CallLock(m) => pc.Run? && s.cur != IDLE && m !in s.held[s.cur]
    case CallUnlock(m) => pc.Run? && s.cur != IDLE && m in s.held[s.cur]
    case CallCondWait(_, m) => pc.Run? && s.cur != IDLE && m in s.held[s.cur]
    case CallJoin(t) => pc.Run? && s.cur != IDLE && t < |s.pc| && s.owner[t] == s.cur && !s.joined[t]
    case _ => pc.Run? && s.cur != IDLE
  }

  ghost function Step(s: Sys, a: Action): (r: Sys)
    requires Sized(s) && QueuesListThreads(s) && Enabled(s, a)
  {
    match a
    case Advance => Go(s)
    case Destruct => SetPc(s.(ints := true), ExitRun)
    case Preempt => Switch(Put(s, RunQ, s.cur))
    case Event(e) => WakeAll(s, EventQ(e))
    case CallLock(m) => SetPc(s.(pre := true), LockTest(m))
    case CallUnlock(m) => SetPc(s.(pre := true), Unlock(m, Return))
    case CallCondWait(c, m) => SetPc(s.(pre := true), Unlock(m, ThenWait(c)))
    case CallSignal(c) => WakeOne(s, CondQ(c))
    case CallBroadcast(c) => WakeAll(s, CondQ(c))
    case CallYield => SetPc(Put(s.(ints := false), RunQ, s.cur), Sched(BackCode))
    case CallExit => SetPc(s.(ints := false, alive := s.alive[s.cur := false]), ExitOff)
    case CallJoin(t) => SetPc(s.(ints := false), JoinTest(t))
    case CallEventWait(e) => SetPc(s.(ints := false), Enq(EventQ(e), BackCode))
    case CallStart(prio, detached) => Start(s, prio, detached)
  }

  /** Init_Thread and Make_Runnable for a new thread. */
  ghost function Start(s: Sys, prio: int, detached: bool): (r: Sys) {
    var n := |s.pc|;
    s.(queues := s.queues[RunQ := Q(s, RunQ) + [n]],
       pc := s.pc + [Resume(BackCode)], at := s.at + [In(RunQ)], held := s.held + [{}], prio := s.prio + [prio],
       alive := s.alive + [true], refs := s.refs + [if detached then 1 else 2],
       owner := s.owner + [if detached then NOBODY else s.cur], joined := s.joined + [false])
  }

  /** Points whose next statement changes only the flags and the point itself. */
  predicate LocalPoint(pc: Pc) {
    || pc.LockTest? || pc.WaitOff? || pc.WaitPre? || pc.Relock? || pc.LockDone? || pc.UnlockTest? || pc.UnlockDone?
    || pc.CondOff? || pc.CondPre? || pc.ExitRun? || pc.Resume?
  }

  /** Where the thread is after that statement. A thread that was switched to goes on with
      interrupts still off. */
  function NextPoint(s: Sys, pc: Pc): (r: Pc) {
    match pc
    // Mutex_Lock_Imp and Mutex_Wait
    case LockTest(m) => if Mu(s, m).locked then WaitOff(m) else LockSet(m)
    case WaitOff(m) => WaitPre(m)
    case WaitPre(m) => Enq(MutexQ(m), BackMutex(m))
    case Relock(m) => LockTest(m)
    case LockDone(_) => Run
    // Mutex_Unlock_Imp
    case UnlockTest(m, k) => if Q(s, MutexQ(m)) == [] then UnlockDone(m, k) else UnlockWake(m, k)
    case UnlockDone(m, k) => if k.Return? then Run else CondOff(k.c, m)
    // Cond_Wait
    case CondOff(c, m) => CondPre(c, m)
    case CondPre(c, m) => Enq(CondQ(c), BackMutex(m))
    case ExitRun => ExitOff
    case Resume(BackCode) => Run
    case Resume(BackMutex(m)) => Relock(m)
    case Resume(BackJoin(t)) => JoinTest(t)
    case Resume(BackReaper) => ReapTest
    case Resume(BackReap) => ReapLoop
    case _ => pc
  }

  /** Whether interrupts are on after it, and whether preemption is disabled. */
  function NextInts(ints: bool, pc: Pc): (r: bool) {
    match pc
    case WaitOff(_) | CondOff(_, _) | ExitRun => false
    case Relock(_) | Resume(BackCode) | Resume(BackReap) => true
    case _ => ints
  }

  function NextPre(pre: bool, pc: Pc): (r: bool) {
    match pc
    case WaitPre(_) | LockDone(_) | UnlockDone(_, Return) | CondPre(_, _) => false
    case Resume(BackMutex(_)) => true
    case _ => pre
  }

  /** The running thread's next statement. */
  ghost function Go(s: Sys): (r: Sys)
    requires Sized(s) && QueuesListThreads(s) && Enabled(s, Advance)
  {
    var pc := s.pc[s.cur];
    if LocalPoint(pc) then SetPc(s.(ints := NextInts(s.ints, pc), pre := NextPre(s.pre, pc)), NextPoint(s, pc)) else Act(s)
  }

  ghost function Act(s: Sys): (r: Sys)
    requires Sized(s) && QueuesListThreads(s) && Enabled(s, Advance) && !LocalPoint(s.pc[s.cur])
  {
    match s.pc[s.cur]
    case LockSet(m) => SetPc(SetMutex(s, m, true, Mu(s, m).owner), LockOwn(m))
    case LockOwn(m) => SetPc(SetMutex(s, m, Mu(s, m).locked, s.cur), LockDone(m))
    case Unlock(m, k) => SetPc(SetMutex(s, m, false, Mu(s, m).owner), UnlockOwn(m, k))
    case UnlockOwn(m, k) => SetPc(SetMutex(s, m, Mu(s, m).locked, NOBODY), UnlockTest(m, k))
    case UnlockWake(m, k) => SetPc(WakeOne(s, MutexQ(m)), UnlockDone(m, k))
    // Wait and Schedule
    case Enq(q, back) => SetPc(Put(s, q, s.cur), Sched(back))
    case Sched(back) => Switch(SetPc(s, Resume(back)))
    case JoinTest(t) => if t < |s.pc| then JoinStep(s, t) else s
    case ExitOff => ExitStep(s)
    case ReapTest =>
      if Q(s, GraveQ) == [] then SetPc(s, Enq(ReaperQ, BackReaper))
      else SetPc(TakeGrave(s.(ints := true)), ReapYield)
    case ReapYield => SetPc(Put(s.(ints := false), RunQ, s.cur), Sched(BackReap))
    case ReapLoop => if Q(s, ChainQ) == [] then SetPc(s.(ints := false), ReapTest) else Destroy(s)
    case _ => s
  }

  ghost function SetMutex(s: Sys, m: nat, locked: bool, owner: int): (r: Sys)
    requires Sized(s)
  {
    s.(mutexes := s.mutexes[m := Mutex(locked, owner)],
       held := s.held[s.cur := if locked then s.held[s.cur] + {m} else s.held[s.cur] - {m}])
  }

  /** Join: waits while the thread is alive, then drops the owner's reference. */
  ghost function JoinStep(s: Sys, t: nat): (r: Sys)
    requires Sized(s) && t < |s.pc|
  {
    if s.alive[t] then SetPc(s, Enq(JoinQ(t), BackJoin(t)))
    else SetPc(Detach(s.(ints := true, joined := s.joined[t := true]), t), Run)
  }

  /** The end of Exit: wakes the owner, drops the thread's own reference. */
  ghost function ExitStep(s: Sys): (r: Sys)
    requires Sized(s)
  {
    var s1 := WakeAll(s, JoinQ(s.cur));
    SetPc(Detach(s1.(at := s1.at[s.cur := Zombie]), s.cur), Sched(Never))
  }

  /** The reaper takes the whole graveyard. */
  ghost function TakeGrave(s: Sys): (r: Sys)
    requires Sized(s)
  {
    var dead := Q(s, GraveQ);
    s.(queues := s.queues[GraveQ := []][ChainQ := dead],
       at := seq(|s.at|, t requires 0 <= t < |s.at| => if t in dead then In(ChainQ) else s.at[t]))
  }

  /** Destroy_Thread on the head of the reaper's chain. */
  ghost function Destroy(s: Sys): (r: Sys)
    requires Q(s, ChainQ) != []
  {
    var t := Q(s, ChainQ)[0];
    s.(queues := s.queues[ChainQ := Q(s, ChainQ)[1..]],
       at := if t < |s.at| then s.at[t := Gone] else s.at, reaped := s.reaped + [t])
  }

  /** Init_Scheduler: the main thread runs, the idle thread and the reaper are runnable. */
  ghost function InitialState(): (s: Sys)
    ensures Sized(s)
  {
    Sys(MAIN, true, false, map[RunQ := [IDLE, REAPER]], map[],
        [Run, Resume(BackCode), Resume(BackReaper)], [Current, In(RunQ), In(RunQ)], [{}, {}, {}],
        [5, 0, 5], [true, true, true], [1, 1, 1], [NOBODY, NOBODY, NOBODY], [false, false, false], [])
  }
}
