/** What is true of every run of the thread system. */
module ThreadRuns {
  import opened Threads
  import opened ThreadPlaces
  import opened ThreadInvariant
  import opened ThreadLocks
  import opened ThreadRefs
  import opened ThreadSteps

  ghost predicate StepsTo(s: Sys, a: Action, r: Sys) {
    Sized(s) && QueuesListThreads(s) && Enabled(s, a) && r == Step(s, a)
  }

  /** A run from the initial state. */
  ghost predicate IsRun(states: seq<Sys>, acts: seq<Action>) {
    && |states| == |acts| + 1 && states[0] == InitialState()
    && forall i {:trigger acts[i]} :: 0 <= i < |acts| ==> StepsTo(states[i], acts[i], states[i + 1])
  }

  lemma InitialBase()
    ensures Base(InitialState())
  {
    var s := InitialState();
    forall q ensures Lists(s, q) {}
    forall t: nat | t < |s.pc| ensures Fits(s, t) {}
  }

  lemma InitialInv()
    ensures Inv(InitialState())
  {
    var s := InitialState();
    InitialBase();
    hide Base;
    assert Locks(s) && Waiters(s) by {
      forall t: nat | t < |s.pc| ensures HeldFits(s.pc[t], s.held[t]) {}
      forall m: nat ensures MutexOk(s, m) && WaitersOk(s, m) {}
    }
    hide Locks, Waiters;
    forall t: nat | t < |s.pc| ensures RefOk(s, t) && PcRefs(s, t) {}
  }

  /** The invariant holds all along every run. */
  lemma {:induction false} RunKeeps(states: seq<Sys>, acts: seq<Action>, i: nat)
    requires IsRun(states, acts) && i < |states|
    ensures Inv(states[i])
  {
    hide Inv, Step;
    if i == 0 {
      InitialInv();
    } else {
      RunKeeps(states, acts, i - 1);
      assert StepsTo(states[i - 1], acts[i - 1], states[i]);
      StepKeeps(states[i - 1], acts[i - 1]);
    }
  }

  // Consequences

  /** At most one thread holds a mutex, and the mutex knows it. */
  lemma MutualExclusion(states: seq<Sys>, acts: seq<Action>, i: nat, m: nat, t: nat, u: nat)
    requires IsRun(states, acts) && i < |states|
    ensures var s := states[i];
            && Sized(s)
            && (t < |s.pc| && u < |s.pc| && m in s.held[t] && m in s.held[u] ==> t == u)
            && (t < |s.pc| && m in s.held[t] ==> Mu(s, m).locked)
            && (t == s.cur && s.pc[t].Run? ==> (m in s.held[t] <==> Mu(s, m).locked && Mu(s, m).owner == t))
  {
    RunKeeps(states, acts, i);
    hide Base, Waiters, Refs;
    assert Sized(states[i]) by { InvPlaces(states[i]); }
    assert MutexOk(states[i], m);
  }

  /** A free mutex with waiters is going to be tested, or a waiter is about to be woken. */
  lemma FreeMutexTested(states: seq<Sys>, acts: seq<Action>, i: nat, m: nat)
    requires IsRun(states, acts) && i < |states|
    ensures var s := states[i];
            && Sized(s)
            && (!Mu(s, m).locked && Q(s, MutexQ(m)) != [] ==>
                  RetestPc(s.pc[s.cur], m) || exists t :: Retester(s, m, t))
  {
    RunKeeps(states, acts, i);
    assert WaitersOk(states[i], m);
  }

  /** A thread is on one queue at most, once, and every live thread that does not run is on
      the queue that its place names. */
  lemma OnePlace(states: seq<Sys>, acts: seq<Action>, i: nat, t: nat, q: Queue, p: Queue)
    requires IsRun(states, acts) && i < |states|
    ensures var s := states[i];
            && Sized(s) && Unique(Q(s, q)) && (t in Q(s, q) && t in Q(s, p) ==> p == q)
            && (t in Q(s, q) ==> t < |s.pc| && t !in s.reaped && (t == s.cur ==> s.pc[t].Sched?))
            && (t < |s.pc| && t != s.cur && s.alive[t] ==> s.at[t].In? && t in Q(s, s.at[t].q))
  {
    RunKeeps(states, acts, i);
    var s := states[i];
    assert Lists(s, q) && Lists(s, p);
    if t < |s.pc| {
      assert RefOk(s, t);
      assert s.at[t].In? ==> Lists(s, s.at[t].q);
    }
  }

  /** The checks that the code makes at its points. */
  ghost predicate ChecksHold(s: Sys)
    requires Sized(s)
  {
    match s.pc[s.cur]
    case WaitOff(m) => s.ints && s.pre && Mu(s, m).locked
    case LockTest(m) => s.ints && s.pre && !(Mu(s, m).locked && Mu(s, m).owner == s.cur)
    case Unlock(m, _) => s.ints && s.pre && Mu(s, m).locked && Mu(s, m).owner == s.cur
    case UnlockWake(_, _) => s.ints
    case CondOff(_, _) => s.ints
    case Relock(_) => !s.ints
    case Enq(_, _) => !s.ints
    case Sched(_) => !s.ints && !s.pre && Q(s, RunQ) != []
    case JoinTest(t) => !s.ints && t < |s.pc| && s.owner[t] == s.cur && (!s.alive[t] ==> s.refs[t] > 0)
    case ExitOff => !s.ints && s.refs[s.cur] > 0
    case Resume(back) => !s.ints && !back.Never?
    case Run => s.ints && !s.pre
    case _ => true
  }

  /** No check fails in any run. */
  lemma ChecksNeverFail(states: seq<Sys>, acts: seq<Action>, i: nat)
    requires IsRun(states, acts) && i < |states|
    ensures Sized(states[i]) && ChecksHold(states[i])
  {
    RunKeeps(states, acts, i);
    var s := states[i];
    InvCurrent(s);
    match s.pc[s.cur]
    case LockTest(m) => assert MutexOk(s, m);
    case Unlock(m, _) => assert MutexOk(s, m);
    case Sched(_) => SomebodyRunnable(s);
    case JoinTest(t) => assert Joins(s.pc[s.cur], t) && RefOk(s, t);
    case ExitOff => assert RefOk(s, s.cur);
    case _ =>
  }

  // Conditions

  /** The thread is in Cond_Wait, from the release of the mutex to the switch. */
  ghost predicate InRelease(s: Sys, t: nat, c: nat, m: nat) {
    && Sized(s) && s.cur == t
    && var pc := s.pc[t];
    && (|| pc == Unlock(m, ThenWait(c)) || pc == UnlockOwn(m, ThenWait(c)) || pc == UnlockTest(m, ThenWait(c))
        || pc == UnlockWake(m, ThenWait(c)) || pc == UnlockDone(m, ThenWait(c)) || pc == CondOff(c, m)
        || pc == CondPre(c, m) || pc == Enq(CondQ(c), BackMutex(m))
        || (pc == Sched(BackMutex(m)) && s.at[t] == In(CondQ(c))))
  }

  /** The thread waits, and another one runs. */
  ghost predicate Released(s: Sys, t: nat, c: nat) {
    Sized(s) && s.cur != t && t < |s.pc| && s.at[t] == In(CondQ(c))
  }

  lemma ReleaseSwitch(s: Sys, t: nat, c: nat, m: nat)
    requires Inv(s) && InRelease(s, t, c, m) && s.pc[t].Sched? && Enabled(s, Advance)
    ensures QueuesListThreads(s) && Released(Step(s, Advance), t, c)
  {
    InvCurrent(s);
    InvPlaces(s);
    hide Inv;
    var s1 := SetPc(s, Resume(s.pc[t].back));
    QueuesSame(s, s1, t);
    hide QueuesOk;
    SwitchMoves(s1);
  }

  lemma ReleaseGo(s: Sys, t: nat, c: nat, m: nat)
    requires Inv(s) && InRelease(s, t, c, m) && !s.pc[t].Sched? && Enabled(s, Advance)
    ensures QueuesListThreads(s) && InRelease(Step(s, Advance), t, c, m)
  {
    InvCurrent(s);
    hide Inv, WakeOne;
    if LocalPoint(s.pc[t]) {
      hide Step;
      LocalIs(s);
    } else if s.pc[t].UnlockWake? {
      WakeOneSame(s, MutexQ(m));
    }
  }

  /** No other thread runs before the waiting thread is on the condition's queue. */
  lemma ReleaseStep(s: Sys, a: Action, t: nat, c: nat, m: nat)
    requires Inv(s) && InRelease(s, t, c, m) && Enabled(s, a)
    ensures QueuesListThreads(s) && (InRelease(Step(s, a), t, c, m) || Released(Step(s, a), t, c))
  {
    if a.Advance? {
      hide Inv;
      if s.pc[t].Sched? { ReleaseSwitch(s, t, c, m); } else { ReleaseGo(s, t, c, m); }
    } else {
      InvCurrent(s);
      hide Inv, Go;
    }
  }

  lemma ReleasedElsewhere(s: Sys, t: nat, c: nat)
    ensures Released(s, t, c) ==> s.cur != t
  {}

  /** A signal after the release of the mutex finds the waiting thread: whoever runs first
      after it sees the thread on the condition's queue. */
  lemma {:induction false} NoLostSignal(states: seq<Sys>, acts: seq<Action>, i: nat, k: nat, t: nat, c: nat, m: nat)
    requires IsRun(states, acts) && i <= k < |states| && InRelease(states[i], t, c, m)
    requires forall j :: i <= j < k ==> states[j].cur == t
    ensures InRelease(states[k], t, c, m) || Released(states[k], t, c)
    decreases k
  {
    hide Inv, Step, InRelease, Released;
    if i < k {
      ReleasedElsewhere(states[k - 1], t, c);
      NoLostSignal(states, acts, i, k - 1, t, c, m);
      RunKeeps(states, acts, k - 1);
      assert StepsTo(states[k - 1], acts[k - 1], states[k]);
      ReleaseStep(states[k - 1], acts[k - 1], t, c, m);
    }
  }
}
