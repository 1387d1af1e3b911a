/** How threads move between queues in each step of every run, told by queues and places alone. */
module ThreadMoves {
  import opened Threads
  import opened ThreadSteps
  import opened ThreadRuns

  /** All queues but these two are as before. */
  ghost predicate OthersStay(s: Sys, r: Sys, p: Queue, q: Queue) {
    forall x :: x != p && x != q ==> Q(r, x) == Q(s, x)
  }

  /** Nothing but queues, places and the program points differs. */
  ghost predicate SameRest(s: Sys, r: Sys) {
    r == s.(queues := r.queues, at := r.at, pc := r.pc)
  }

  /** t is the first of those with the highest priority, at position k. */
  ghost predicate FirstOfBest(s: Sys, q: Queue, k: nat, t: nat) {
    && k < |Q(s, q)| && Q(s, q)[k] == t
    && forall j :: 0 <= j < |Q(s, q)| ==>
         Q(s, q)[j] < |s.prio| && t < |s.prio| && if j < k then s.prio[Q(s, q)[j]] < s.prio[t] else s.prio[Q(s, q)[j]] <= s.prio[t]
  }

  /** One waiter leaves the queue: the first of the highest priority. It is now runnable, behind
      all others that are. */
  ghost predicate OneWoken(s: Sys, r: Sys, q: Queue, k: nat, t: nat) {
    && FirstOfBest(s, q, k, t) && t < |s.at|
    && Q(r, q) == Q(s, q)[..k] + Q(s, q)[k + 1..] && Q(r, RunQ) == Q(s, RunQ) + [t] && OthersStay(s, r, q, RunQ)
    && r.at == s.at[t := In(RunQ)]
  }

  /** All waiters leave the queue and are runnable, in their order. */
  ghost predicate AllWoken(s: Sys, r: Sys, q: Queue) {
    && Q(r, q) == [] && Q(r, RunQ) == Q(s, RunQ) + Q(s, q) && OthersStay(s, r, q, RunQ)
    && |r.at| == |s.at| && forall t :: 0 <= t < |s.at| ==> r.at[t] == if t in Q(s, q) then In(RunQ) else s.at[t]
  }

  lemma WakesOne(s: Sys, q: Queue) returns (k: nat, t: nat)
    requires Sized(s) && InRange(Q(s, q), |s.pc|) && q != RunQ && Q(s, q) != []
    ensures OneWoken(s, WakeOne(s, q), q, k, t) && SameRest(s, WakeOne(s, q)) && WakeOne(s, q).pc == s.pc
  {
    k := Best(Q(s, q), s.prio);
    t := Q(s, q)[k];
  }

  lemma WakesNone(s: Sys, q: Queue)
    requires Sized(s) && q != RunQ && Q(s, q) == []
    ensures WakeOne(s, q) == s
  {}

  lemma WakesAll(s: Sys, q: Queue)
    requires Sized(s) && q != RunQ
    ensures AllWoken(s, WakeAll(s, q), q) && SameRest(s, WakeAll(s, q)) && WakeAll(s, q).pc == s.pc
  {}

  /** Cond_Signal: exactly one thread leaves a queue that is not empty. */
  lemma SignalWakes(s: Sys, r: Sys, c: nat) returns (k: nat, t: nat)
    requires StepsTo(s, CallSignal(c), r)
    ensures Q(s, CondQ(c)) == [] ==> r == s
    ensures Q(s, CondQ(c)) != [] ==> OneWoken(s, r, CondQ(c), k, t) && SameRest(s, r) && r.pc == s.pc
  {
    k, t := 0, 0;
    assert InRange(Q(s, CondQ(c)), |s.pc|);
    if Q(s, CondQ(c)) != [] { k, t := WakesOne(s, CondQ(c)); }
  }

  /** Cond_Broadcast, and an event of the outside world. */
  lemma BroadcastWakes(s: Sys, r: Sys, a: Action)
    requires StepsTo(s, a, r) && (a.CallBroadcast? || a.Event?)
    ensures AllWoken(s, r, if a.Event? then EventQ(a.e) else CondQ(a.c)) && SameRest(s, r) && r.pc == s.pc
  {
    WakesAll(s, if a.Event? then EventQ(a.e) else CondQ(a.c));
  }

  /** Mutex_Unlock with waiters. */
  lemma UnlockWakes(s: Sys, r: Sys) returns (k: nat, t: nat)
    requires StepsTo(s, Advance, r) && s.pc[s.cur].UnlockWake?
    ensures var m := s.pc[s.cur].m;
            && (Q(s, MutexQ(m)) != [] ==> OneWoken(s, r, MutexQ(m), k, t)) && SameRest(s, r)
            && r.pc == s.pc[s.cur := UnlockDone(m, s.pc[s.cur].k)]
  {
    hide WakeOne, SetMutex;
    k, t := 0, 0;
    var m := s.pc[s.cur].m;
    assert InRange(Q(s, MutexQ(m)), |s.pc|);
    if Q(s, MutexQ(m)) != [] { k, t := WakesOne(s, MutexQ(m)); } else { WakesNone(s, MutexQ(m)); }
  }

  /** The thread goes to the end of the queue. */
  ghost predicate GoesTo(s: Sys, r: Sys, q: Queue, t: nat) {
    t < |s.at| && Q(r, q) == Q(s, q) + [t] && OthersStay(s, r, q, q) && r.at == s.at[t := In(q)]
  }

  /** The thread that runs next is the first of the highest priority among the runnable ones. */
  ghost predicate RunsNext(s: Sys, r: Sys, k: nat) {
    && FirstOfBest(s, RunQ, k, r.cur) && r.cur < |s.at| && r.cur < |s.pc|
    && Q(r, RunQ) == Q(s, RunQ)[..k] + Q(s, RunQ)[k + 1..] && OthersStay(s, r, RunQ, RunQ) && r.at == s.at[r.cur := Current]
  }

  lemma Switches(s: Sys) returns (k: nat)
    requires Sized(s) && Q(s, RunQ) != [] && InRange(Q(s, RunQ), |s.pc|)
    ensures var r := Switch(s); RunsNext(s, r, k) && r == s.(cur := r.cur, ints := r.ints, queues := r.queues, at := r.at)
  {
    k := Best(Q(s, RunQ), s.prio);
  }

  /** Schedule. */
  lemma ScheduleRuns(s: Sys, r: Sys) returns (k: nat)
    requires StepsTo(s, Advance, r) && s.pc[s.cur].Sched?
    ensures RunsNext(s, r, k) && r.pc == s.pc[s.cur := Resume(s.pc[s.cur].back)]
    ensures r == s.(cur := r.cur, ints := r.ints, queues := r.queues, at := r.at, pc := r.pc)
  {
    hide Switch;
    var s1 := SetPc(s, Resume(s.pc[s.cur].back));
    assert InRange(Q(s, RunQ), |s.pc|);
    k := Switches(s1);
    assert OthersStay(s, r, RunQ, RunQ);
  }

  /** Wait, Yield and the reaper's yield: the running thread joins the queue. */
  lemma ParkQueues(s: Sys, r: Sys, a: Action)
    requires StepsTo(s, a, r)
    requires a.CallYield? || (a.Advance? && (s.pc[s.cur].Enq? || s.pc[s.cur].ReapYield?))
    ensures GoesTo(s, r, if a.Advance? && s.pc[s.cur].Enq? then s.pc[s.cur].q else RunQ, s.cur)
    ensures r.cur == s.cur && r.pc[s.cur].Sched?
  {}

  /** A timer tick: the running thread goes behind all runnable ones of its priority, and the
      first of the highest priority runs next. */
  lemma PreemptRuns(s: Sys, r: Sys) returns (mid: Sys, k: nat)
    requires StepsTo(s, Preempt, r)
    ensures GoesTo(s, mid, RunQ, s.cur) && mid == s.(queues := mid.queues, at := mid.at)
    ensures RunsNext(mid, r, k) && r == mid.(cur := r.cur, ints := r.ints, queues := r.queues, at := r.at)
  {
    hide Switch, RunsNext, Best;
    mid := Put(s, RunQ, s.cur);
    assert InRange(Q(s, RunQ), |s.pc|);
    k := Switches(mid);
  }

  /** Start_Kernel_Thread: a new thread at the end of the run queue, with a reference of its own
      and one for its creator unless it is detached. */
  lemma StartRuns(s: Sys, r: Sys, prio: int, detached: bool)
    requires StepsTo(s, CallStart(prio, detached), r)
    ensures var n := |s.pc|;
            && |r.pc| == |r.at| == n + 1 && r.pc[..n] == s.pc && r.at[..n] == s.at && r.at[n] == In(RunQ) && r.prio == s.prio + [prio]
            && Q(r, RunQ) == Q(s, RunQ) + [n] && OthersStay(s, r, RunQ, RunQ) && r.alive == s.alive + [true]
            && r.refs == s.refs + [if detached then 1 else 2] && r.owner == s.owner + [if detached then NOBODY else s.cur]
            && r.cur == s.cur && r.held == s.held + [{}] && r.pc[n] == Resume(BackCode) && r.joined == s.joined + [false]
            && r.mutexes == s.mutexes && r.reaped == s.reaped
  {}

  /** The last reference to a thread is dropped: it goes to the graveyard, and the reaper is woken. */
  ghost predicate Buried(s: Sys, r: Sys, t: nat) {
    && t < |s.at| && Q(r, GraveQ) == Q(s, GraveQ) + [t] && Q(r, ReaperQ) == [] && Q(r, RunQ) == Q(s, RunQ) + Q(s, ReaperQ)
    && (forall x :: x != GraveQ && x != ReaperQ && x != RunQ ==> Q(r, x) == Q(s, x))
    && |r.at| == |s.at| && forall u :: 0 <= u < |s.at| ==>
         r.at[u] == if u in Q(s, ReaperQ) then In(RunQ) else if u == t then In(GraveQ) else s.at[u]
  }

  lemma Detaches(s: Sys, t: nat)
    requires Sized(s) && t < |s.pc|
    ensures var r := Detach(s, t);
            && r == s.(queues := r.queues, at := r.at, refs := s.refs[t := s.refs[t] - 1])
            && if s.refs[t] == 1 then Buried(s, r, t) else r.queues == s.queues && r.at == s.at
  {}

  /** The end of Exit: all joining threads are runnable, in order; the thread drops its own
      reference, and either awaits its owner or is in the graveyard, with the reaper woken. */
  lemma ExitWakes(s: Sys, r: Sys) returns (mid: Sys)
    requires StepsTo(s, Advance, r) && s.pc[s.cur].ExitOff?
    ensures Q(mid, JoinQ(s.cur)) == [] && Q(mid, RunQ) == Q(s, RunQ) + Q(s, JoinQ(s.cur)) && OthersStay(s, mid, JoinQ(s.cur), RunQ)
    ensures |mid.at| == |s.at| && forall t :: 0 <= t < |s.at| ==>
              mid.at[t] == if t == s.cur then Zombie else if t in Q(s, JoinQ(s.cur)) then In(RunQ) else s.at[t]
    ensures if s.refs[s.cur] == 1 then Buried(mid, r, s.cur) else r.queues == mid.queues && r.at == mid.at
    ensures r.refs == s.refs[s.cur := s.refs[s.cur] - 1] && r.pc == s.pc[s.cur := Sched(Never)] && r.alive == s.alive && r.cur == s.cur
  {
    hide Detach, Buried, QueuesListThreads;
    var s1 := WakeAll(s, JoinQ(s.cur));
    mid := s1.(at := s1.at[s.cur := Zombie]);
    WakesAll(s, JoinQ(s.cur));
    Detaches(mid, s.cur);
    if s.refs[s.cur] == 1 { BuriedTo(mid, Detach(mid, s.cur), r, s.cur); }
  }

  /** The end of Join, once the thread has exited. */
  lemma JoinDetaches(s: Sys, r: Sys, t: nat)
    requires StepsTo(s, Advance, r) && s.pc[s.cur] == JoinTest(t) && t < |s.pc|
    ensures if s.alive[t] then r == s.(pc := s.pc[s.cur := Enq(JoinQ(t), BackJoin(t))])
            else
              && r.joined == s.joined[t := true] && r.refs == s.refs[t := s.refs[t] - 1] && r.pc == s.pc[s.cur := Run] && r.cur == s.cur
              && r.ints && if s.refs[t] == 1 then Buried(s, r, t) else r.queues == s.queues && r.at == s.at
  {
    hide Detach, Buried;
    if !s.alive[t] {
      var s1 := s.(ints := true, joined := s.joined[t := true]);
      Detaches(s1, t);
      if s.refs[t] == 1 { BuriedFrom(s, s1, Detach(s1, t), t); BuriedTo(s, Detach(s1, t), r, t); }
    }
  }

  lemma BuriedFrom(s: Sys, s1: Sys, r: Sys, t: nat)
    requires Buried(s1, r, t) && s.queues == s1.queues && s.at == s1.at
    ensures Buried(s, r, t)
  {
    forall q ensures Q(s, q) == Q(s1, q) {}
  }

  lemma BuriedTo(s: Sys, r: Sys, r1: Sys, t: nat)
    requires Buried(s, r, t) && r.queues == r1.queues && r.at == r1.at
    ensures Buried(s, r1, t)
  {
    forall q ensures Q(r, q) == Q(r1, q) {}
  }

  /** The reaper: it takes the whole graveyard, then destroys the threads from the front. */
  lemma ReaperMoves(s: Sys, r: Sys)
    requires StepsTo(s, Advance, r) && (s.pc[s.cur].ReapTest? || s.pc[s.cur].ReapLoop?)
    ensures s.pc[s.cur].ReapTest? && Q(s, GraveQ) == [] ==> r == s.(pc := s.pc[s.cur := Enq(ReaperQ, BackReaper)])
    ensures s.pc[s.cur].ReapTest? && Q(s, GraveQ) != [] ==>
              && Q(r, GraveQ) == [] && Q(r, ChainQ) == Q(s, GraveQ) && OthersStay(s, r, GraveQ, ChainQ)
              && |r.at| == |s.at| && (forall t :: 0 <= t < |s.at| ==> r.at[t] == if t in Q(s, GraveQ) then In(ChainQ) else s.at[t])
              && r.pc == s.pc[s.cur := ReapYield] && r.reaped == s.reaped
    ensures s.pc[s.cur].ReapLoop? && Q(s, ChainQ) == [] ==> r == s.(pc := s.pc[s.cur := ReapTest], ints := false)
    ensures s.pc[s.cur].ReapLoop? && Q(s, ChainQ) != [] ==>
              && Q(r, ChainQ) == Q(s, ChainQ)[1..] && OthersStay(s, r, ChainQ, ChainQ) && r.reaped == s.reaped + [Q(s, ChainQ)[0]]
              && (Q(s, ChainQ)[0] < |s.at| ==> r.at == s.at[Q(s, ChainQ)[0] := Gone]) && r.pc == s.pc
  {}
}
