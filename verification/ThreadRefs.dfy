/** References to threads: a thread is handed to the reaper with its last reference. */
module ThreadRefs {
  import opened Threads
  import opened ThreadPlaces
  import opened ThreadInvariant

  /** The thread still has its reference to itself: it has not finished Exit. */
  predicate SelfRef(at: Place) {
    at == Current || (at.In? && at.q != GraveQ && at.q != ChainQ)
  }

  ghost predicate OwnerRef(s: Sys, t: nat)
    requires Sized(s) && t < |s.pc|
  {
    s.owner[t] != NOBODY && !s.joined[t]
  }

  ghost predicate RefOk(s: Sys, t: nat)
    requires Sized(s) && t < |s.pc|
  {
    && s.refs[t] == (if SelfRef(s.at[t]) then 1 else 0) + (if OwnerRef(s, t) then 1 else 0)
    && (s.joined[t] ==> !s.alive[t]) && (!SelfRef(s.at[t]) ==> !s.alive[t])
    && (!SelfRef(s.at[t]) ==> (s.at[t] == Zombie <==> OwnerRef(s, t)))
  }

  predicate Joins(pc: Pc, t: nat) {
    pc == JoinTest(t) || ((pc.Enq? || pc.Sched? || pc.Resume?) && pc.back == BackJoin(t))
  }

  /** A thread in Join is the owner of the other one and has not joined it yet. */
  ghost predicate PcRefs(s: Sys, u: nat)
    requires Sized(s) && u < |s.pc|
  {
    && (forall t: nat :: Joins(s.pc[u], t) ==> t < |s.pc| && s.owner[t] == u && !s.joined[t])
    && (s.pc[u].ExitOff? || s.pc[u].ExitRun? ==> !s.alive[u])
  }

  ghost predicate Refs(s: Sys)
    requires Sized(s)
  {
    && (forall t: nat {:trigger RefOk(s, t)} :: t < |s.pc| ==> RefOk(s, t))
    && (forall u: nat {:trigger PcRefs(s, u)} :: u < |s.pc| ==> PcRefs(s, u))
    && Unique(s.reaped) && forall t: nat :: t in s.reaped <==> t < |s.at| && s.at[t] == Gone
  }

  /** Steps that only move live threads. */
  lemma RefsSame(s: Sys, r: Sys)
    requires Sized(s) && Sized(r) && Refs(s) && |r.pc| == |s.pc|
    requires r.refs == s.refs && r.owner == s.owner && r.joined == s.joined && r.reaped == s.reaped && r.alive == s.alive
    requires forall t: nat :: t < |s.at| ==> r.at[t] == s.at[t] || (SelfRef(s.at[t]) && SelfRef(r.at[t]))
    requires forall u: nat {:trigger PcRefs(r, u)} :: u < |r.pc| ==> PcRefs(r, u)
    ensures Refs(r)
  {
    forall t: nat | t < |r.pc| ensures RefOk(r, t) { assert RefOk(s, t); }
  }

  lemma TakeGraveRefs(s: Sys, r: Sys)
    requires Sized(s) && Refs(s) && QueuesOk(s) && r == SetPc(TakeGrave(s.(ints := true)), ReapYield)
    ensures Refs(r)
  {
    assert Lists(s, GraveQ);
    forall t: nat | t < |r.pc| ensures RefOk(r, t) { assert RefOk(s, t); }
    forall u: nat | u < |r.pc| ensures PcRefs(r, u) { assert PcRefs(s, u); }
  }

  lemma DestroyRefs(s: Sys)
    requires Sized(s) && Refs(s) && QueuesOk(s) && Q(s, ChainQ) != []
    ensures Refs(Destroy(s))
  {
    var r, x := Destroy(s), Q(s, ChainQ)[0];
    DestroyQueues(s);
    assert x !in s.reaped;
    forall t: nat | t < |r.pc| ensures RefOk(r, t) { assert RefOk(s, t); }
    forall u: nat | u < |r.pc| ensures PcRefs(r, u) { assert PcRefs(s, u); }
    UniqueAppend(s.reaped, [x]);
  }

  lemma StartRefs(s: Sys, prio: int, detached: bool)
    requires Sized(s) && Refs(s)
    ensures Refs(Start(s, prio, detached))
  {
    var r := Start(s, prio, detached);
    forall t: nat | t < |r.pc| ensures RefOk(r, t) { if t < |s.pc| { assert RefOk(s, t); } }
    forall u: nat | u < |r.pc| ensures PcRefs(r, u) { if u < |s.pc| { assert PcRefs(s, u); } }
  }

  /** Exit drops the thread's own reference. */
  lemma ExitRefs(s: Sys)
    requires Places(s) && Refs(s) && s.pc[s.cur].ExitOff?
    ensures Refs(ExitStep(s))
  {
    var r := ExitStep(s);
    ExitMoves(s);
    assert RefOk(s, s.cur) && PcRefs(s, s.cur);
    assert r.refs == s.refs[s.cur := s.refs[s.cur] - 1];
    hide ExitStep, QueuesOk;
    forall t: nat | t < |r.pc| ensures RefOk(r, t) { assert RefOk(s, t); }
    forall u: nat | u < |r.pc| ensures PcRefs(r, u) { assert PcRefs(s, u); }
  }

  /** Join drops the owner's reference. */
  lemma JoinRefs(s: Sys, t: nat)
    requires Places(s) && Refs(s) && s.pc[s.cur] == JoinTest(t) && t < |s.pc| && !s.alive[t]
    ensures s.refs[t] >= 1 && (s.refs[t] == 1 ==> s.at[t] == Zombie) && Refs(JoinStep(s, t))
  {
    assert PcRefs(s, s.cur) && RefOk(s, t) && Joins(s.pc[s.cur], t);
    var s1 := s.(ints := true, joined := s.joined[t := true]);
    var s2 := Detach(s1, t);
    assert s2.refs == s.refs[t := s.refs[t] - 1];
    hide Detach, QueuesOk;
    QueuesSame(s, s1, t);
    DetachMoves(s1, t);
    DroppedRefs(s, s1, s2, t);
  }

  lemma DroppedRefs(s: Sys, s1: Sys, s2: Sys, t: nat)
    requires Sized(s) && Refs(s) && t < |s.pc| && !s.alive[t] && OwnerRef(s, t) && s.owner[t] == s.cur
    requires s1 == s.(ints := true, joined := s.joined[t := true]) && s2.refs == s.refs[t := s.refs[t] - 1]
    requires Sized(s2) && s2 == s1.(queues := s2.queues, at := s2.at, refs := s2.refs)
    requires s2.at[t] == if s.refs[t] == 1 then In(GraveQ) else s.at[t]
    requires forall u :: 0 <= u < |s.at| && u != t ==> s2.at[u] == s.at[u] || (s2.at[u] == In(RunQ) && s.at[u] == In(ReaperQ))
    requires forall u: nat :: Joins(s.pc[s.cur], u) ==> u == t
    ensures Refs(SetPc(s2, Run))
  {
    var r := SetPc(s2, Run);
    assert RefOk(s, t);
    forall u: nat | u < |r.pc| ensures RefOk(r, u) { assert RefOk(s, u); }
    forall u: nat | u < |r.pc| ensures PcRefs(r, u) { assert PcRefs(s, u); }
  }
}
