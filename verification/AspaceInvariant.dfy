/** What holds in every state of the address space system. */
module AspaceInvariant {
  import opened Aspaces

  // Locks

  /** The holder of a lock is exactly the processor whose program point says so. */
  ghost predicate TableLockOk(s: Sys) {
    && (s.hlock == NOBODY || 0 <= s.hlock < |s.pc|)
    && forall t: nat :: t < |s.pc| ==> (s.hlock == t <==> HasTable(s.pc[t]))
  }

  ghost predicate LockOk(s: Sys, o: nat)
    requires o < |s.objs|
  {
    && (s.objs[o].lock == NOBODY || 0 <= s.objs[o].lock < |s.pc|)
    && forall t: nat :: t < |s.pc| ==> (s.objs[o].lock == t <==> o in HasLocks(s.pc[t]))
  }

  ghost predicate LocksOk(s: Sys) {
    TableLockOk(s) && forall o: nat {:trigger LockOk(s, o)} :: o < |s.objs| ==> LockOk(s, o)
  }

  // The hash table and identifiers

  ghost predicate EntryOk(s: Sys, o: nat)
    requires o < |s.objs|
  {
    var a := s.objs[o];
    && (a.life.Tabled? ==> a.id in s.table && s.table[a.id] == o)
    && (!a.life.Freed? ==> a.id in s.ids)
    && (a.life.Fresh? ==> a.refcnt == 0)
  }

  ghost predicate TableOk(s: Sys) {
    && InBounds(s)
    && (forall id :: id in s.table ==> s.objs[s.table[id]].id == id && s.objs[s.table[id]].life.Tabled?)
    && (forall o: nat {:trigger EntryOk(s, o)} :: o < |s.objs| ==> EntryOk(s, o))
    && (forall o: nat, p: nat :: o < |s.objs| && p < |s.objs| && InUse(s.objs[o]) && InUse(s.objs[p]) ==>
          s.objs[o].id == s.objs[p].id ==> o == p)
  }

  predicate InUse(a: Aspace) {
    !a.life.Freed?
  }

  // Program points

  ghost predicate IsTabled(s: Sys, o: nat) {
    o < |s.objs| && s.objs[o].life.Tabled?
  }

  ghost predicate IsDying(s: Sys, t: nat, o: nat) {
    o < |s.objs| && s.objs[o].life == Dying(t)
  }

  ghost predicate HeadNames(s: Sys, o: nat, x: nat) {
    o < |s.objs| && s.objs[o].regions != [] && s.objs[o].regions[0].kind == Smart(x)
  }

  ghost predicate PcOk(s: Sys, t: nat, pc: Pc) {
    match pc
    case Idle | Want(_, _) | Find(_, _) | WantDestroy(_) | FindDestroy(_) => true
    case WantTwo(_, a, b, _) => a != b
    case FindTwo(_, a, b, _) => a != b
    case WantObj(_, o) => IsTabled(s, o)
    case Have(_, o) => IsTabled(s, o)
    case Work(_, o) => IsTabled(s, o)
    case WantSrc(_, x, y, _) => IsTabled(s, x) && IsTabled(s, y) && x != y
    case WantDst(_, x, y, _) => IsTabled(s, x) && IsTabled(s, y) && x != y
    case HaveTwo(_, x, y, _) => IsTabled(s, x) && IsTabled(s, y) && x != y
    case WorkTwo(_, x, y, _) => IsTabled(s, x) && IsTabled(s, y) && x != y
    case UnlockDst(y) => IsTabled(s, y)
    case WantRelease(o) => o < |s.objs|
    case Release(o) => o < |s.objs|
    case WantAdd(o) => o < |s.objs| && s.objs[o].life == Fresh(t)
    case AddTable(o) => o < |s.objs| && s.objs[o].life == Fresh(t)
    case WantVictim(o) => IsTabled(s, o)
    case Test(o) => IsTabled(s, o)
    case Busy(o) => o < |s.objs|
    case Removed(o) => IsDying(s, t, o)
    case Unlocking(o) => IsDying(s, t, o)
    case Loop(o) => IsDying(s, t, o)
    case UnlockTable(o) => IsDying(s, t, o)
    case WantDrop(o, x) => IsDying(s, t, o) && HeadNames(s, o, x)
    case FindDrop(o, x) => IsDying(s, t, o) && HeadNames(s, o, x)
    case WantLock(o, src) => IsDying(s, t, o) && IsTabled(s, src) && HeadNames(s, o, s.objs[src].id)
    case Drop(o, src) => IsDying(s, t, o) && IsTabled(s, src) && HeadNames(s, o, s.objs[src].id)
    case UnlockSrc(o, src) => IsDying(s, t, o) && src < |s.objs|
  }

  ghost predicate PointsOk(s: Sys) {
    forall t: nat {:trigger s.pc[t]} :: t < |s.pc| ==> PcOk(s, t, s.pc[t])
  }

  // References

  /** How many regions of a list are mappings of aspace x. */
  function CountMaps(rs: seq<Region>, x: nat): (r: nat) {
    if rs == [] then 0 else (if rs[0].kind == Smart(x) then 1 else 0) + CountMaps(rs[1..], x)
  }

  /** And in all aspaces, including half-destroyed ones. */
  function Mappings(objs: seq<Aspace>, x: nat): (r: nat) {
    if objs == [] then 0 else CountMaps(objs[0].regions, x) + Mappings(objs[1..], x)
  }

  predicate Releases(pc: Pc, o: nat) {
    pc == WantRelease(o) || pc == Release(o)
  }

  /** How many processors are giving back an acquire of o. */
  function Releasing(pcs: seq<Pc>, o: nat): (r: nat) {
    if pcs == [] then 0 else (if Releases(pcs[0], o) then 1 else 0) + Releasing(pcs[1..], o)
  }

  ghost predicate RefOk(s: Sys, o: nat)
    requires o < |s.objs| && |s.acquired| == |s.objs| == |s.leaked|
  {
    var out := s.acquired[o] + Releasing(s.pc, o) + s.leaked[o];
    if s.objs[o].life.Tabled? then s.objs[o].refcnt == out + Mappings(s.objs, s.objs[o].id) else out == 0
  }

  ghost predicate RefsOk(s: Sys)
    requires |s.acquired| == |s.objs| == |s.leaked|
  {
    && (forall o: nat {:trigger RefOk(s, o)} :: o < |s.objs| ==> RefOk(s, o))
    && (forall x: nat {:trigger Mappings(s.objs, x)} :: Mappings(s.objs, x) > 0 ==> x in s.table)
  }

  ghost predicate Inv(s: Sys) {
    LocksOk(s) && TableOk(s) && PointsOk(s) && RefsOk(s)
  }

  // Deadlock

  predicate HoldsSome(pc: Pc) {
    HasTable(pc) || HasLocks(pc) != {}
  }

  /** Whenever a processor is blocked, one that holds a lock can go on: no deadlock. */
  lemma NoDeadlock(s: Sys, t: nat) returns (u: nat)
    requires Inv(s) && t < |s.pc| && Blocked(s, t)
    ensures Ready(s, u) && HoldsSome(s.pc[u])
  {
    hide RefsOk;
    u := if WantsTable(s.pc[t]) then s.hlock else LockHolder(s, t);
    if Blocked(s, u) {
      u := LockHolder(s, u);
    }
    assert PcOk(s, u, s.pc[u]);
  }

  ghost function LockHolder(s: Sys, t: nat): (u: nat)
    requires LocksOk(s) && PointsOk(s) && t < |s.pc| && Blocked(s, t) && !WantsTable(s.pc[t])
    ensures u < |s.pc| && u != t && HasLocks(s.pc[u]) != {}
  {
    var o := WantsLock(s.pc[t]);
    assert LockOk(s, o) && PcOk(s, t, s.pc[t]);
    assert o in HasLocks(s.pc[s.objs[o].lock]);
    s.objs[o].lock
  }
}
