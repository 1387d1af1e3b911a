/** Mutexes: who holds them, and who will look at a free one that has waiters. */
module ThreadLocks {
  import opened Threads
  import opened ThreadPlaces
  import opened ThreadInvariant

  /** Mutexes that a thread at this point does not hold, and those that it holds. */
  function Avoids(pc: Pc): (r: set<nat>) {
    match pc
    case LockTest(m) => {m}
    case LockSet(m) => {m}
    case WaitOff(m) => {m}
    case WaitPre(m) => {m}
    case Relock(m) => {m}
    case UnlockOwn(m, _) => {m}
    case UnlockTest(m, _) => {m}
    case UnlockWake(m, _) => {m}
    case UnlockDone(m, _) => {m}
    case CondOff(_, m) => {m}
    case CondPre(_, m) => {m}
    case Enq(_, back) => Wants(back)
    case Sched(back) => Wants(back)
    case Resume(back) => Wants(back)
    case _ => {}
  }

  function Wants(back: Back): (r: set<nat>) {
    if back.BackMutex? then {back.m} else {}
  }

  function Owns(pc: Pc): (r: set<nat>) {
    match pc
    case LockOwn(m) => {m}
    case LockDone(m) => {m}
    case Unlock(m, _) => {m}
    case _ => {}
  }

  ghost predicate HeldFits(pc: Pc, held: set<nat>) {
    Avoids(pc) !! held && Owns(pc) <= held
  }

  /** Between the test of a mutex and the use of the result nobody changes it. */
  ghost predicate StateFits(s: Sys, pc: Pc) {
    match pc
    case LockSet(m) => !Mu(s, m).locked
    case UnlockOwn(m, _) => !Mu(s, m).locked
    case WaitOff(m) => Mu(s, m).locked
    case WaitPre(m) => Mu(s, m).locked
    case Enq(q, _) => q.MutexQ? ==> Mu(s, q.m).locked
    case _ => true
  }

  /** The thread that locked m; its name is written right after the state. */
  ghost function Holder(s: Sys, m: nat): (r: int)
    requires Sized(s)
  {
    if s.pc[s.cur] == LockOwn(m) then s.cur else Mu(s, m).owner
  }

  ghost predicate MutexOk(s: Sys, m: nat)
    requires Sized(s)
  {
    var h := Holder(s, m);
    && (Mu(s, m).locked ==> 0 <= h < |s.pc| && m in s.held[h])
    && (forall t: nat :: t < |s.pc| && m in s.held[t] ==> Mu(s, m).locked && t == h)
    && (!Mu(s, m).locked && !s.pc[s.cur].UnlockOwn? ==> Mu(s, m).owner == NOBODY)
    && (!Mu(s, m).locked && s.pc[s.cur].UnlockOwn? && s.pc[s.cur].m != m ==> Mu(s, m).owner == NOBODY)
  }

  ghost predicate Locks(s: Sys)
    requires Sized(s)
  {
    && (forall m: nat :: MutexOk(s, m))
    && (forall t: nat {:trigger s.held[t]} :: t < |s.pc| ==> HeldFits(s.pc[t], s.held[t]))
    && StateFits(s, s.pc[s.cur])
  }

  predicate WritesOwner(pc: Pc) {
    pc.LockOwn? || pc.UnlockOwn?
  }

  /** Steps that leave mutexes alone. */
  lemma LocksSame(s: Sys, r: Sys)
    requires Sized(s) && Sized(r) && Locks(s) && r.mutexes == s.mutexes && |s.pc| <= |r.pc|
    requires !WritesOwner(s.pc[s.cur]) && !WritesOwner(r.pc[r.cur])
    requires forall t: nat :: t < |s.pc| ==> r.held[t] == s.held[t]
    requires forall t: nat :: |s.pc| <= t < |r.pc| ==> r.held[t] == {}
    requires forall t: nat {:trigger r.held[t]} :: t < |r.pc| ==> HeldFits(r.pc[t], r.held[t])
    requires StateFits(r, r.pc[r.cur])
    ensures Locks(r)
  {
    forall m: nat ensures MutexOk(r, m) { assert MutexOk(s, m); }
  }

  lemma LockSetLocks(s: Sys, m: nat)
    requires Sized(s) && Locks(s) && s.pc[s.cur] == LockSet(m)
    ensures Locks(SetPc(SetMutex(s, m, true, Mu(s, m).owner), LockOwn(m)))
  {
    var r := SetPc(SetMutex(s, m, true, Mu(s, m).owner), LockOwn(m));
    forall k: nat ensures MutexOk(r, k) { assert MutexOk(s, k); }
  }

  lemma LockOwnLocks(s: Sys, m: nat)
    requires Sized(s) && Locks(s) && s.pc[s.cur] == LockOwn(m)
    ensures Mu(s, m).locked && Locks(SetPc(SetMutex(s, m, true, s.cur), LockDone(m)))
  {
    assert m in s.held[s.cur];
    assert MutexOk(s, m);
    var r := SetPc(SetMutex(s, m, true, s.cur), LockDone(m));
    forall k: nat ensures MutexOk(r, k) { assert MutexOk(s, k); }
  }

  lemma UnlockLocks(s: Sys, m: nat, k: Then)
    requires Sized(s) && Locks(s) && s.pc[s.cur] == Unlock(m, k)
    ensures Locks(SetPc(SetMutex(s, m, false, Mu(s, m).owner), UnlockOwn(m, k)))
  {
    assert m in s.held[s.cur];
    assert MutexOk(s, m);
    var r := SetPc(SetMutex(s, m, false, Mu(s, m).owner), UnlockOwn(m, k));
    forall j: nat ensures MutexOk(r, j) { assert MutexOk(s, j); }
  }

  lemma UnlockOwnLocks(s: Sys, m: nat, k: Then)
    requires Sized(s) && Locks(s) && s.pc[s.cur] == UnlockOwn(m, k)
    ensures !Mu(s, m).locked && Locks(SetPc(SetMutex(s, m, false, NOBODY), UnlockTest(m, k)))
  {
    assert MutexOk(s, m);
    var r := SetPc(SetMutex(s, m, false, NOBODY), UnlockTest(m, k));
    forall j: nat ensures MutexOk(r, j) { assert MutexOk(s, j); }
  }

  // Waiters

  /** The running thread is going to test m, or to wake a waiter of m. */
  predicate RetestPc(pc: Pc, m: nat) {
    || pc == Resume(BackMutex(m)) || pc == Relock(m) || pc == LockTest(m) || pc == LockSet(m)
    || ((pc.UnlockOwn? || pc.UnlockTest? || pc.UnlockWake?) && pc.m == m)
  }

  /** A woken thread is on the run queue and will test m. */
  ghost predicate Retester(s: Sys, m: nat, t: nat)
    requires Sized(s)
  {
    t < |s.pc| && s.at[t] == In(RunQ) && s.pc[t] == Resume(BackMutex(m))
  }

  ghost predicate WaitersOk(s: Sys, m: nat)
    requires Sized(s)
  {
    Mu(s, m).locked || Q(s, MutexQ(m)) == [] || RetestPc(s.pc[s.cur], m) || exists t :: Retester(s, m, t)
  }

  ghost predicate Waiters(s: Sys)
    requires Sized(s)
  {
    forall m: nat :: WaitersOk(s, m)
  }

  lemma WaitersSame(s: Sys, r: Sys)
    requires Sized(s) && Sized(r) && Waiters(s)
    requires forall m: nat :: Mu(s, m).locked && Q(r, MutexQ(m)) != [] ==> Mu(r, m).locked
    requires forall m: nat :: Q(r, MutexQ(m)) == [] || Q(s, MutexQ(m)) != [] || Mu(r, m).locked
    requires forall m: nat :: RetestPc(s.pc[s.cur], m) ==>
               (r.cur == s.cur && RetestPc(r.pc[r.cur], m)) || Mu(r, m).locked || Q(r, MutexQ(m)) == [] || exists t :: Retester(r, m, t)
    requires forall m, t: nat :: Retester(s, m, t) ==> Retester(r, m, t) || (r.cur == t && RetestPc(r.pc[t], m))
    ensures Waiters(r)
  {
    forall m: nat ensures WaitersOk(r, m) {
      assert WaitersOk(s, m);
      if !Mu(r, m).locked && Q(r, MutexQ(m)) != [] && !RetestPc(s.pc[s.cur], m) {
        var t: nat :| Retester(s, m, t);
        assert Retester(r, m, t) || r.cur == t;
      }
    }
  }
}
