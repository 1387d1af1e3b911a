/** Every step of every processor keeps the address space invariant. */
module AspaceSteps {
  import opened Aspaces
  import opened AspaceInvariant

  // Locks

  /** One lock goes from free to t, from t to free, or stays, as the program points say. */
  predicate Handed(was: int, now: int, t: nat, had: bool, has: bool) {
    if had == has then now == was else if has then was == NOBODY && now == t else now == NOBODY
  }

  ghost predicate LocksHanded(s: Sys, r: Sys, t: nat, pc: Pc)
    requires t < |s.pc| && |r.objs| >= |s.objs|
  {
    && Handed(s.hlock, r.hlock, t, HasTable(s.pc[t]), HasTable(pc))
    && (forall o: nat :: o < |s.objs| ==>
          Handed(s.objs[o].lock, r.objs[o].lock, t, o in HasLocks(s.pc[t]), o in HasLocks(pc)))
    && (forall o: nat :: |s.objs| <= o < |r.objs| ==> r.objs[o].lock == NOBODY)
  }

  predicate LocksBelow(pc: Pc, n: nat) {
    forall o :: o in HasLocks(pc) ==> o < n
  }

  lemma LocksKept(s: Sys, r: Sys, t: nat, pc: Pc)
    requires LocksOk(s) && PointsOk(s) && t < |s.pc| && r.pc == s.pc[t := pc] && |r.objs| >= |s.objs| && LocksHanded(s, r, t, pc)
    requires LocksBelow(pc, |s.objs|)
    ensures LocksOk(r)
  {
    forall o: nat | o < |r.objs| ensures LockOk(r, o) {
      if o < |s.objs| {
        assert LockOk(s, o);
      } else {
        forall u: nat | u < |r.pc| ensures o !in HasLocks(r.pc[u]) { assert u != t ==> PcOk(s, u, s.pc[u]); }
      }
    }
  }

  // Steps that only take and give back locks

  ghost predicate SameButLocks(a: seq<Aspace>, b: seq<Aspace>) {
    |a| == |b| && forall o :: 0 <= o < |a| ==> b[o] == a[o].(lock := b[o].lock)
  }

  lemma {:induction false} MappingsSame(a: seq<Aspace>, b: seq<Aspace>, x: nat)
    requires |a| == |b| && forall o :: 0 <= o < |a| ==> CountMaps(b[o].regions, x) == CountMaps(a[o].regions, x)
    ensures Mappings(b, x) == Mappings(a, x)
  {
    if a != [] { MappingsSame(a[1..], b[1..], x); }
  }

  lemma {:induction false} ReleasingSet(pcs: seq<Pc>, t: nat, pc: Pc, o: nat)
    requires t < |pcs|
    ensures Releasing(pcs[t := pc], o)
            == Releasing(pcs, o) - (if Releases(pcs[t], o) then 1 else 0) + (if Releases(pc, o) then 1 else 0)
  {
    if t > 0 {
      ReleasingSet(pcs[1..], t - 1, pc, o);
      assert pcs[t := pc][1..] == pcs[1..][t - 1 := pc];
    } else {
      assert pcs[t := pc][1..] == pcs[1..];
    }
  }

  lemma PcSame(s: Sys, r: Sys, u: nat, pc: Pc)
    requires SameButLocks(s.objs, r.objs)
    ensures PcOk(r, u, pc) <==> PcOk(s, u, pc)
  {}

  lemma QuietRefs(s: Sys, r: Sys, t: nat, pc: Pc)
    requires |s.acquired| == |s.objs| == |s.leaked| && RefsOk(s) && t < |s.pc| && SameButLocks(s.objs, r.objs)
    requires r.pc == s.pc[t := pc] && r.table == s.table && r.acquired == s.acquired && r.leaked == s.leaked
    requires forall o: nat :: Releases(pc, o) <==> Releases(s.pc[t], o)
    ensures RefsOk(r)
  {
    forall x: nat ensures Mappings(r.objs, x) == Mappings(s.objs, x) { MappingsSame(s.objs, r.objs, x); }
    forall o: nat | o < |r.objs| ensures RefOk(r, o) {
      assert RefOk(s, o);
      ReleasingSet(s.pc, t, pc, o);
    }
  }

  lemma QuietInv(s: Sys, r: Sys, t: nat, pc: Pc)
    requires Inv(s) && t < |s.pc| && SameButLocks(s.objs, r.objs) && LocksHanded(s, r, t, pc) && LocksBelow(pc, |s.objs|)
    requires r.pc == s.pc[t := pc] && r.table == s.table && r.ids == s.ids && r.acquired == s.acquired && r.leaked == s.leaked
    requires PcOk(s, t, pc) && forall o: nat :: Releases(pc, o) <==> Releases(s.pc[t], o)
    ensures Inv(r)
  {
    LocksKept(s, r, t, pc);
    QuietRefs(s, r, t, pc);
    hide LocksOk, RefsOk, LocksHanded, PcOk;
    forall o: nat | o < |r.objs| ensures EntryOk(r, o) { assert EntryOk(s, o); }
    forall u: nat | u < |r.pc| ensures PcOk(r, u, r.pc[u]) {
      assert u != t ==> PcOk(s, u, s.pc[u]);
      PcSame(s, r, u, r.pc[u]);
    }
  }

  lemma InvPoint(s: Sys, t: nat)
    requires Inv(s) && t < |s.pc|
    ensures PcOk(s, t, s.pc[t])
  {}

  lemma AfterOk(s: Sys, t: nat, pc: Pc)
    requires PcOk(s, t, pc) && Locking(pc)
    ensures PcOk(s, t, After(pc)) && forall o: nat :: Releases(After(pc), o) <==> Releases(pc, o)
  {}

  /** After the statement the processor has one lock more or less. */
  lemma AfterLocks(pc: Pc)
    requires Locking(pc)
    ensures HasTable(After(pc)) <==> (HasTable(pc) || WantsTable(pc)) && !LetsTable(pc)
    ensures forall o: nat :: o in HasLocks(After(pc)) <==> (o in HasLocks(pc) || o == WantsLock(pc)) && o != LetsLock(pc)
    ensures LetsTable(pc) ==> HasTable(pc)
    ensures LetsLock(pc) >= 0 ==> LetsLock(pc) in HasLocks(pc)
  {}

  lemma Alternatives(pc: Pc)
    ensures WantsTable(pc) ==> WantsLock(pc) < 0 && !LetsTable(pc) && LetsLock(pc) < 0 && !HasTable(pc)
    ensures WantsLock(pc) >= 0 ==> !LetsTable(pc) && LetsLock(pc) < 0
    ensures LetsTable(pc) ==> LetsLock(pc) < 0
  {}

  lemma PointLocks(s: Sys, t: nat, pc: Pc)
    requires PcOk(s, t, pc)
    ensures LocksBelow(pc, |s.objs|) && WantsLock(pc) < |s.objs|
    ensures WantsLock(pc) >= 0 ==> WantsLock(pc) !in HasLocks(pc)
  {}

  lemma StepLocking(s: Sys, t: nat)
    requires Ready(s, t) && Locking(s.pc[t])
    ensures Step(s, t) == LockStep(s, t)
  {}

  /** The steps that only take or give back a lock. */
  lemma LockingStep(s: Sys, t: nat)
    requires Inv(s) && Ready(s, t) && Locking(s.pc[t])
    ensures Inv(Step(s, t))
  {
    hide Inv, HasLocks, HasTable, WantsTable, WantsLock, LetsTable, LetsLock, PcOk, After, Step, Releases;
    InvPoint(s, t);
    StepLocking(s, t);
    var r, pc := Step(s, t), s.pc[t];
    AfterOk(s, t, pc);
    AfterLocks(pc);
    Alternatives(pc);
    PointLocks(s, t, pc);
    PointLocks(s, t, After(pc));
    QuietInv(s, r, t, After(pc));
  }

  /** Looking an identifier up. */
  lemma FindOne(s: Sys, t: nat)
    requires Inv(s) && Ready(s, t) && (s.pc[t].Find? || s.pc[t].FindDestroy?)
    ensures Inv(Step(s, t))
  {
    var r := Step(s, t);
    hide LocksOk, PointsOk, RefsOk;
    QuietInv(s, r, t, r.pc[t]);
  }

  lemma FindBoth(s: Sys, t: nat)
    requires Inv(s) && Ready(s, t) && s.pc[t].FindTwo?
    ensures Inv(Step(s, t))
  {
    var r := Step(s, t);
    assert PcOk(s, t, s.pc[t]);
    hide LocksOk, PointsOk, RefsOk;
    QuietInv(s, r, t, r.pc[t]);
  }

  /** The source of a mapping in a half-destroyed aspace is still in the table. */
  lemma SourceFound(s: Sys, o: nat, x: nat)
    requires TableOk(s) && RefsOk(s) && HeadNames(s, o, x)
    ensures x in s.table
  {
    HeadCounts(s.objs, o, x);
  }

  lemma {:induction false} HeadCounts(objs: seq<Aspace>, o: nat, x: nat)
    requires o < |objs| && objs[o].regions != [] && objs[o].regions[0].kind == Smart(x)
    ensures Mappings(objs, x) > 0
  {
    if o > 0 { HeadCounts(objs[1..], o - 1, x); }
  }

  lemma FindSource(s: Sys, t: nat)
    requires Inv(s) && Ready(s, t) && s.pc[t].FindDrop?
    ensures s.pc[t].x in s.table && Inv(Step(s, t))
  {
    assert PcOk(s, t, s.pc[t]);
    SourceFound(s, s.pc[t].o, s.pc[t].x);
    var r := Step(s, t);
    hide LocksOk, PointsOk, RefsOk;
    QuietInv(s, r, t, r.pc[t]);
  }

  // Steps that change aspaces

  lemma {:induction false} MappingsSet(objs: seq<Aspace>, o: nat, a: Aspace, x: nat)
    requires o < |objs|
    ensures Mappings(objs[o := a], x) == Mappings(objs, x) - CountMaps(objs[o].regions, x) + CountMaps(a.regions, x)
  {
    if o > 0 {
      MappingsSet(objs[1..], o - 1, a, x);
      assert objs[o := a][1..] == objs[1..][o - 1 := a];
    } else {
      assert objs[o := a][1..] == objs[1..];
    }
  }

  lemma {:induction false} InsertCounts(rs: seq<Region>, r: Region, x: nat)
    ensures CountMaps(Insert(rs, r), x) == CountMaps(rs, x) + if r.kind == Smart(x) then 1 else 0
  {
    if rs == [] || rs[0].start > r.start {
      assert ([r] + rs)[1..] == rs;
    } else {
      InsertCounts(rs[1..], r, x);
      assert ([rs[0]] + Insert(rs[1..], r))[1..] == Insert(rs[1..], r);
    }
  }

  lemma {:induction false} CutCounts(rs: seq<Region>, start: nat, end: nat, x: nat)
    ensures CountMaps(Cut(rs, start, end), x) == CountMaps(rs, x) - if Leaks(rs, start, end, x) then 1 else 0
  {
    if rs != [] && !(rs[0].start <= start < rs[0].end) {
      CutCounts(rs[1..], start, end, x);
      assert ([rs[0]] + Cut(rs[1..], start, end))[1..] == Cut(rs[1..], start, end);
    }
  }

  lemma {:induction false} UnmapCounts(rs: seq<Region>, y: nat, x: nat)
    requires Maps(rs, y)
    ensures CountMaps(Unmap(rs, y), x) == CountMaps(rs, x) - if x == y then 1 else 0
  {
    if rs[0].kind != Smart(y) {
      var k :| 0 <= k < |rs| && rs[k].kind == Smart(y);
      assert rs[1..][k - 1] == rs[k];
      UnmapCounts(rs[1..], y, x);
      assert ([rs[0]] + Unmap(rs[1..], y))[1..] == Unmap(rs[1..], y);
    }
  }

  /** Other processors do not notice changes to aspaces that keep their identity, their
      life and, if they are being destroyed by someone else, their regions. */
  lemma PcStable(s: Sys, r: Sys, u: nat, pc: Pc)
    requires PcOk(s, u, pc) && |r.objs| >= |s.objs|
    requires forall o: nat :: o < |s.objs| ==> r.objs[o].id == s.objs[o].id && r.objs[o].life == s.objs[o].life
    requires forall o: nat :: o < |s.objs| && s.objs[o].life == Dying(u) ==> r.objs[o].regions == s.objs[o].regions
    ensures PcOk(r, u, pc)
  {}

  /** Only reference counts, regions and locks change, under the locks that t holds. */
  ghost predicate Touched(s: Sys, r: Sys, t: nat, pc: Pc) {
    && t < |s.pc| && |r.objs| == |s.objs| && r.pc == s.pc[t := pc] && r.table == s.table && r.ids == s.ids
    && |r.acquired| == |s.acquired| && |r.leaked| == |s.leaked| && LocksHanded(s, r, t, pc) && LocksBelow(pc, |s.objs|)
    && (forall o: nat :: o < |s.objs| ==> r.objs[o].id == s.objs[o].id && r.objs[o].life == s.objs[o].life)
    && (forall o: nat :: o < |s.objs| && s.objs[o].life.Dying? && s.objs[o].life.who != t ==> r.objs[o].regions == s.objs[o].regions)
    && (forall o: nat :: o < |s.objs| && s.objs[o].life.Fresh? ==> r.objs[o].refcnt == s.objs[o].refcnt)
  }

  lemma ChangeInv(s: Sys, r: Sys, t: nat, pc: Pc)
    requires Inv(s) && Touched(s, r, t, pc) && PcOk(r, t, pc) && RefsOk(r)
    ensures Inv(r)
  {
    LocksKept(s, r, t, pc);
    hide LocksOk, RefsOk, LocksHanded, PcOk;
    forall o: nat | o < |r.objs| ensures EntryOk(r, o) { assert EntryOk(s, o); }
    forall u: nat | u < |r.pc| ensures PcOk(r, u, r.pc[u]) {
      if u != t {
        assert PcOk(s, u, s.pc[u]);
        PcStable(s, r, u, s.pc[u]);
      }
    }
  }

  lemma OpCounts(a: Aspace, op: Op, x: nat)
    ensures CountMaps(OpResult(a, op).regions, x) == CountMaps(a.regions, x) - if OpLeaks(a, op, x) then 1 else 0
  {
    match op
    case Add(start, end) => InsertCounts(a.regions, Region(start, end, Plain), x);
    case Delete(start, end) => CutCounts(a.regions, start, end, x);
    case _ =>
  }

  ghost function Worked(s: Sys, t: nat, op: Op, o: nat): (r: Sys)
    requires t < |s.pc| && o < |s.objs| == |s.acquired| == |s.leaked|
  {
    At(s.(objs := s.objs[o := OpResult(s.objs[o], op).(lock := NOBODY)], leaked := LeakedBy(s, o, op),
          acquired := if op.Acquire? then s.acquired[o := s.acquired[o] + 1] else s.acquired), t, Idle)
  }

  lemma WorkIs(s: Sys, t: nat)
    requires Ready(s, t) && s.pc[t].Work?
    ensures Step(s, t) == Worked(s, t, s.pc[t].op, s.pc[t].o)
  {
    hide OpResult, LeakedBy;
  }

  lemma WorkRefs(s: Sys, t: nat, op: Op, o: nat)
    requires TableOk(s) && RefsOk(s) && t < |s.pc| && s.pc[t] == Work(op, o) && IsTabled(s, o)
    ensures var r := Worked(s, t, op, o); |r.acquired| == |r.objs| == |r.leaked| && RefsOk(r)
  {
    var r := Worked(s, t, op, o);
    forall x: nat ensures Mappings(r.objs, x) == Mappings(s.objs, x) - if OpLeaks(s.objs[o], op, x) then 1 else 0 {
      MappingsSet(s.objs, o, r.objs[o], x);
      OpCounts(s.objs[o], op, x);
    }
    forall p: nat ensures Releasing(r.pc, p) == Releasing(s.pc, p) { ReleasingSet(s.pc, t, Idle, p); }
    hide Mappings, Releasing, OpLeaks;
    forall p: nat | p < |r.objs| ensures RefOk(r, p) { assert RefOk(s, p); }
  }

  lemma WorkStep(s: Sys, t: nat)
    requires Inv(s) && Ready(s, t) && s.pc[t].Work?
    ensures Inv(Step(s, t))
  {
    hide LocksOk, PointsOk, RefsOk, Step;
    InvPoint(s, t);
    WorkIs(s, t);
    WorkRefs(s, t, s.pc[t].op, s.pc[t].o);
    ChangeInv(s, Step(s, t), t, Idle);
  }

  /** A release takes the processor and one reference away together. */
  lemma ReleaseRefs(s: Sys, r: Sys, t: nat, o: nat)
    requires Inv(s) && t < |s.pc| && s.pc[t] == Release(o) && o < |s.objs|
    requires r == At(s.(objs := s.objs[o := s.objs[o].(refcnt := s.objs[o].refcnt - 1, lock := NOBODY)]), t, Idle)
    ensures RefsOk(r) && IsTabled(s, o)
  {
    hide LocksOk, PointsOk;
    assert RefOk(s, o) && Releases(s.pc[t], o);
    forall x: nat ensures Mappings(r.objs, x) == Mappings(s.objs, x) { MappingsSet(s.objs, o, r.objs[o], x); }
    forall p: nat ensures Releasing(r.pc, p) == Releasing(s.pc, p) - if p == o then 1 else 0 { ReleasingSet(s.pc, t, Idle, p); }
    hide Releasing, Mappings;
    forall p: nat | p < |r.objs| ensures RefOk(r, p) { assert RefOk(s, p); }
  }

  lemma ReleaseStep(s: Sys, t: nat)
    requires Inv(s) && Ready(s, t) && s.pc[t].Release?
    ensures Inv(Step(s, t))
  {
    var r, o := Step(s, t), s.pc[t].o;
    assert PcOk(s, t, s.pc[t]);
    hide LocksOk, PointsOk, RefsOk;
    ReleaseRefs(s, r, t, o);
    ChangeInv(s, r, t, Idle);
  }

  /** (Un)mapping changes the number of mappings and the source's count together. */
  lemma TwoCounts(s: Sys, on: bool, x: nat, y: nat, g: Region, k: nat)
    requires x < |s.objs| && y < |s.objs| && x != y
    ensures var r := TwoResult(s, on, x, y, g);
            && |r.objs| == |s.objs| && r == s.(objs := r.objs)
            && (forall p: nat :: p < |s.objs| ==>
                  r.objs[p] == s.objs[p].(refcnt := r.objs[p].refcnt, regions := r.objs[p].regions)
                  && (p != x ==> r.objs[p].refcnt == s.objs[p].refcnt) && (p != y ==> r.objs[p].regions == s.objs[p].regions))
            && Mappings(r.objs, k) - Mappings(s.objs, k) == if k == s.objs[x].id then r.objs[x].refcnt - s.objs[x].refcnt else 0
  {
    var r := TwoResult(s, on, x, y, g);
    var a, b := s.objs[x], s.objs[y];
    if r != s {
      var b' := r.objs[y];
      MappingsSet(s.objs, y, b', k);
      MappingsSet(s.objs[y := b'], x, r.objs[x], k);
      if on { InsertCounts(b.regions, g.(kind := Smart(a.id)), k); } else { UnmapCounts(b.regions, a.id, k); }
    }
  }

  /** The count of one aspace in the table moves with the number of its mappings. */
  lemma RefsMoved(s: Sys, r: Sys, t: nat, pc: Pc, x: nat, d: int)
    requires TableOk(s) && RefsOk(s) && t < |s.pc| && IsTabled(s, x) && |r.objs| == |s.objs|
    requires r.acquired == s.acquired && r.leaked == s.leaked && r.table == s.table && r.pc == s.pc[t := pc]
    requires forall o: nat :: !Releases(pc, o) && !Releases(s.pc[t], o)
    requires forall p: nat :: p < |s.objs| ==> r.objs[p].id == s.objs[p].id && r.objs[p].life == s.objs[p].life
                                               && r.objs[p].refcnt == s.objs[p].refcnt + if p == x then d else 0
    requires forall k: nat :: Mappings(r.objs, k) == Mappings(s.objs, k) + if k == s.objs[x].id then d else 0
    ensures RefsOk(r)
  {
    assert EntryOk(s, x);
    forall p: nat | p < |r.objs| ensures RefOk(r, p) {
      assert RefOk(s, p) && EntryOk(s, p);
      ReleasingSet(s.pc, t, pc, p);
    }
  }

  lemma WorkTwoRefs(s: Sys, r: Sys, s1: Sys, t: nat, on: bool, x: nat, y: nat, g: Region)
    requires TableOk(s) && RefsOk(s) && t < |s.pc| && s.pc[t] == WorkTwo(on, x, y, g) && IsTabled(s, x) && IsTabled(s, y) && x != y
    requires s1 == TwoResult(s, on, x, y, g) && r == At(SetLock(s1, x, NOBODY), t, UnlockDst(y))
    ensures RefsOk(r)
  {
    hide TableOk, RefsOk, TwoResult;
    TwoCounts(s, on, x, y, g, 0);
    var d := s1.objs[x].refcnt - s.objs[x].refcnt;
    forall k: nat ensures Mappings(r.objs, k) == Mappings(s.objs, k) + if k == s.objs[x].id then d else 0 {
      TwoCounts(s, on, x, y, g, k);
      MappingsSet(s1.objs, x, r.objs[x], k);
    }
    RefsMoved(s, r, t, UnlockDst(y), x, d);
  }

  lemma WorkTwoIs(s: Sys, t: nat)
    requires Ready(s, t) && s.pc[t].WorkTwo?
    ensures var pc := s.pc[t]; Step(s, t) == At(SetLock(TwoResult(s, pc.on, pc.x, pc.y, pc.r), pc.x, NOBODY), t, UnlockDst(pc.y))
  {}

  lemma WorkTwoLocks(on: bool, x: nat, y: nat, g: Region)
    ensures HasLocks(WorkTwo(on, x, y, g)) == {x, y} && HasLocks(UnlockDst(y)) == {y}
    ensures !HasTable(WorkTwo(on, x, y, g)) && !HasTable(UnlockDst(y))
  {}

  lemma WorkTwoTouched(s: Sys, r: Sys, s1: Sys, t: nat, on: bool, x: nat, y: nat, g: Region)
    requires t < |s.pc| && s.pc[t] == WorkTwo(on, x, y, g) && IsTabled(s, x) && IsTabled(s, y) && x != y
    requires s1 == TwoResult(s, on, x, y, g) && r == At(SetLock(s1, x, NOBODY), t, UnlockDst(y))
    ensures Touched(s, r, t, UnlockDst(y)) && IsTabled(r, y)
  {
    hide TwoResult, HasLocks, HasTable, Mappings;
    WorkTwoLocks(on, x, y, g);
    TwoCounts(s, on, x, y, g, 0);
  }

  lemma WorkTwoStep(s: Sys, t: nat)
    requires Inv(s) && Ready(s, t) && s.pc[t].WorkTwo?
    ensures Inv(Step(s, t))
  {
    hide LocksOk, PointsOk, RefsOk, TwoResult, Touched, Step;
    InvPoint(s, t);
    WorkTwoIs(s, t);
    var x, y, on, g := s.pc[t].x, s.pc[t].y, s.pc[t].on, s.pc[t].r;
    var r, s1 := Step(s, t), TwoResult(s, on, x, y, g);
    WorkTwoRefs(s, r, s1, t, on, x, y, g);
    WorkTwoTouched(s, r, s1, t, on, x, y, g);
    TabledPoint(r, t, y);
    ChangeInv(s, r, t, UnlockDst(y));
  }

  lemma TabledPoint(s: Sys, t: nat, y: nat)
    requires IsTabled(s, y)
    ensures PcOk(s, t, UnlockDst(y))
  {}

  ghost function Dropped(objs: seq<Aspace>, o: nat, src: nat): (r: seq<Aspace>)
    requires o < |objs| && src < |objs| && o != src && objs[o].regions != []
  {
    objs[src := objs[src].(refcnt := objs[src].refcnt - 1)][o := objs[o].(regions := objs[o].regions[1..])]
  }

  lemma DropRefs(s: Sys, r: Sys, t: nat, o: nat, src: nat)
    requires TableOk(s) && RefsOk(s) && t < |s.pc| && s.pc[t] == Drop(o, src) && IsTabled(s, src) && o != src
    requires HeadNames(s, o, s.objs[src].id) && r == At(s.(objs := Dropped(s.objs, o, src)), t, UnlockSrc(o, src))
    ensures RefsOk(r)
  {
    hide TableOk, RefsOk;
    var objs1 := s.objs[src := s.objs[src].(refcnt := s.objs[src].refcnt - 1)];
    forall k: nat ensures Mappings(r.objs, k) == Mappings(s.objs, k) + if k == s.objs[src].id then -1 else 0 {
      MappingsSet(s.objs, src, objs1[src], k);
      MappingsSet(objs1, o, r.objs[o], k);
    }
    RefsMoved(s, r, t, UnlockSrc(o, src), src, -1);
  }

  lemma DropIs(s: Sys, t: nat)
    requires Ready(s, t) && s.pc[t].Drop? && PcOk(s, t, s.pc[t])
    ensures var o, src := s.pc[t].o, s.pc[t].src;
            && IsDying(s, t, o) && IsTabled(s, src) && HeadNames(s, o, s.objs[src].id)
            && Step(s, t) == At(s.(objs := Dropped(s.objs, o, src)), t, UnlockSrc(o, src))
  {}

  lemma DropTouched(s: Sys, r: Sys, t: nat, o: nat, src: nat)
    requires t < |s.pc| && s.pc[t] == Drop(o, src) && IsDying(s, t, o) && IsTabled(s, src) && HeadNames(s, o, s.objs[src].id)
    requires r == At(s.(objs := Dropped(s.objs, o, src)), t, UnlockSrc(o, src))
    ensures Touched(s, r, t, UnlockSrc(o, src)) && PcOk(r, t, UnlockSrc(o, src))
  {
    assert HasLocks(s.pc[t]) == {src} == HasLocks(UnlockSrc(o, src)) && HasTable(s.pc[t]) && HasTable(UnlockSrc(o, src));
    hide HasLocks, HasTable;
  }

  /** One mapping of a half-destroyed aspace is dropped, with its reference. */
  lemma DropStep(s: Sys, t: nat)
    requires Inv(s) && Ready(s, t) && s.pc[t].Drop?
    ensures Inv(Step(s, t))
  {
    hide LocksOk, PointsOk, RefsOk, Step, Touched, PcOk;
    InvPoint(s, t);
    DropIs(s, t);
    DropRefs(s, Step(s, t), t, s.pc[t].o, s.pc[t].src);
    DropTouched(s, Step(s, t), t, s.pc[t].o, s.pc[t].src);
    ChangeInv(s, Step(s, t), t, UnlockSrc(s.pc[t].o, s.pc[t].src));
  }

  lemma LoopRefs(s: Sys, r: Sys, t: nat, o: nat)
    requires TableOk(s) && RefsOk(s) && t < |s.pc| && s.pc[t] == Loop(o) && o < |s.objs| && s.objs[o].regions != []
    requires !s.objs[o].regions[0].kind.Smart?
    requires r == s.(objs := s.objs[o := s.objs[o].(regions := s.objs[o].regions[1..])])
    ensures RefsOk(r)
  {
    forall k: nat ensures Mappings(r.objs, k) == Mappings(s.objs, k) { MappingsSet(s.objs, o, r.objs[o], k); }
    hide Mappings, Releasing;
    forall p: nat | p < |r.objs| ensures RefOk(r, p) { assert RefOk(s, p); }
  }

  /** A region of a half-destroyed aspace is deleted, or its source is going to be looked up. */
  lemma LoopRegion(s: Sys, t: nat)
    requires Inv(s) && Ready(s, t) && s.pc[t].Loop? && s.objs[s.pc[t].o].regions != []
    ensures Inv(Step(s, t))
  {
    hide LocksOk, TableOk, PointsOk, RefsOk;
    InvPoint(s, t);
    var r, o := Step(s, t), s.pc[t].o;
    if s.objs[o].regions[0].kind.Smart? {
      QuietInv(s, r, t, r.pc[t]);
    } else {
      assert r == s.(objs := s.objs[o := s.objs[o].(regions := s.objs[o].regions[1..])]);
      hide Step;
      LoopRefs(s, r, t, o);
      ChangeInv(s, r, t, Loop(o));
    }
  }

  // Steps that change an aspace's life

  /** A point that does not rely on a lock for o does not need o in the table. */
  lemma PcElsewhere(s: Sys, r: Sys, u: nat, pc: Pc, o: nat, life: Life)
    requires PcOk(s, u, pc) && o < |s.objs| && r.objs == s.objs[o := s.objs[o].(life := life)]
    requires s.objs[o].life.Tabled? ==> !HasTable(pc) && o !in HasLocks(pc)
    requires s.objs[o].life != Fresh(u) && s.objs[o].life != Dying(u)
    ensures PcOk(r, u, pc)
  {}

  lemma LifePoints(s: Sys, r: Sys, t: nat, pc: Pc, o: nat, life: Life)
    requires LocksOk(s) && PointsOk(s) && t < |s.pc| && o < |s.objs| && r.objs == s.objs[o := s.objs[o].(life := life)]
    requires r.pc == s.pc[t := pc] && PcOk(r, t, pc)
    requires if s.objs[o].life.Tabled? then s.hlock == t && s.objs[o].lock == t else !s.objs[o].life.Freed? && s.objs[o].life.who == t
    ensures PointsOk(r)
  {
    hide PcOk;
    assert LockOk(s, o);
    forall u: nat | u < |r.pc| ensures PcOk(r, u, r.pc[u]) {
      if u != t {
        assert PcOk(s, u, s.pc[u]);
        PcElsewhere(s, r, u, s.pc[u], o, life);
      }
    }
  }

  lemma LifeLocks(s: Sys, r: Sys, t: nat, pc: Pc, o: nat, life: Life)
    requires LocksOk(s) && PointsOk(s) && t < |s.pc| && o < |s.objs| && r.objs == s.objs[o := s.objs[o].(life := life)]
    requires r.pc == s.pc[t := pc] && HasLocks(pc) == HasLocks(s.pc[t]) && LocksBelow(pc, |s.objs|)
    requires Handed(s.hlock, r.hlock, t, HasTable(s.pc[t]), HasTable(pc))
    ensures LocksOk(r)
  {
    hide LocksOk, PointsOk;
    LocksKept(s, r, t, pc);
  }

  lemma LifeCounts(s: Sys, r: Sys, t: nat, pc: Pc, o: nat, life: Life)
    requires t < |s.pc| && o < |s.objs| && r.objs == s.objs[o := s.objs[o].(life := life)] && r.pc == s.pc[t := pc]
    requires forall p: nat :: !Releases(pc, p) && !Releases(s.pc[t], p)
    ensures forall x: nat :: Mappings(r.objs, x) == Mappings(s.objs, x)
    ensures forall p: nat :: Releasing(r.pc, p) == Releasing(s.pc, p)
  {
    forall x: nat ensures Mappings(r.objs, x) == Mappings(s.objs, x) { MappingsSet(s.objs, o, r.objs[o], x); }
    forall p: nat ensures Releasing(r.pc, p) == Releasing(s.pc, p) { ReleasingSet(s.pc, t, pc, p); }
  }

  /** The victim leaves the table; nobody refers to it any more. */
  lemma RemoveStep(s: Sys, t: nat, o: nat, r: Sys)
    requires Inv(s) && t < |s.pc| && s.pc[t] == Test(o) && IsTabled(s, o) && s.objs[o].refcnt == 0
    requires r == At(s.(objs := s.objs[o := s.objs[o].(life := Dying(t))], table := s.table - {s.objs[o].id}), t, Removed(o))
    ensures Inv(r)
  {
    assert LockOk(s, o) && s.objs[o].lock == t && s.hlock == t;
    LifePoints(s, r, t, Removed(o), o, Dying(t));
    LifeLocks(s, r, t, Removed(o), o, Dying(t));
    LifeCounts(s, r, t, Removed(o), o, Dying(t));
    hide LocksOk, PointsOk, Releasing, Mappings;
    assert RefOk(s, o) && EntryOk(s, o);
    forall p: nat | p < |r.objs| ensures RefOk(r, p) { assert RefOk(s, p); }
    forall p: nat | p < |r.objs| ensures EntryOk(r, p) { assert EntryOk(s, p); }
  }

  lemma TestStep(s: Sys, t: nat)
    requires Inv(s) && Ready(s, t) && s.pc[t].Test?
    ensures Inv(Step(s, t))
  {
    hide Inv;
    InvPoint(s, t);
    var r, o := Step(s, t), s.pc[t].o;
    if s.objs[o].refcnt != 0 {
      QuietInv(s, r, t, Busy(o));
    } else {
      RemoveStep(s, t, o, r);
    }
  }

  /** A new aspace enters the table. */
  lemma AddStep(s: Sys, t: nat)
    requires Inv(s) && Ready(s, t) && s.pc[t].AddTable?
    ensures Inv(Step(s, t))
  {
    InvPoint(s, t);
    var r, o := Step(s, t), s.pc[t].o;
    assert r == At(s.(hlock := NOBODY, objs := s.objs[o := s.objs[o].(life := Tabled)], table := s.table[s.objs[o].id := o]), t, Idle);
    hide Step;
    LifePoints(s, r, t, Idle, o, Tabled);
    LifeLocks(s, r, t, Idle, o, Tabled);
    LifeCounts(s, r, t, Idle, o, Tabled);
    hide LocksOk, PointsOk, Releasing, Mappings;
    assert RefOk(s, o) && EntryOk(s, o) && s.objs[o].id !in s.table;
    forall p: nat | p < |r.objs| ensures RefOk(r, p) { assert RefOk(s, p); }
    forall p: nat | p < |r.objs| ensures EntryOk(r, p) { assert EntryOk(s, p); }
  }

  /** The end of a destruction: the identifier becomes free. */
  lemma FreeStep(s: Sys, t: nat)
    requires Inv(s) && Ready(s, t) && s.pc[t].Loop? && s.objs[s.pc[t].o].regions == []
    ensures Inv(Step(s, t))
  {
    InvPoint(s, t);
    var r, o := Step(s, t), s.pc[t].o;
    assert r == At(s.(objs := s.objs[o := s.objs[o].(life := Freed)], ids := s.ids - {s.objs[o].id}), t, Idle);
    hide Step;
    LifePoints(s, r, t, Idle, o, Freed);
    LifeLocks(s, r, t, Idle, o, Freed);
    LifeCounts(s, r, t, Idle, o, Freed);
    hide LocksOk, PointsOk, Releasing, Mappings;
    assert RefOk(s, o) && EntryOk(s, o);
    forall p: nat | p < |r.objs| ensures RefOk(r, p) { assert RefOk(s, p); }
    forall p: nat | p < |r.objs| ensures EntryOk(r, p) { assert EntryOk(s, p); }
  }

  // Calls

  lemma EnterQuiet(s: Sys, t: nat, c: Call)
    requires Inv(s) && t < |s.pc| && s.pc[t].Idle? && CanCall(s, c) && (c.CallOp? || c.CallTwo? || c.CallDestroy?)
    ensures Inv(Enter(s, t, c))
  {
    hide Inv;
    var r := Enter(s, t, c);
    QuietInv(s, r, t, r.pc[t]);
  }

  lemma EnterRelease(s: Sys, t: nat, o: nat)
    requires Inv(s) && t < |s.pc| && s.pc[t].Idle? && CanCall(s, CallRelease(o))
    ensures Inv(Enter(s, t, CallRelease(o)))
  {
    var r := Enter(s, t, CallRelease(o));
    assert RefsOk(r) by {
      forall p: nat | p < |r.objs| ensures RefOk(r, p) {
        assert RefOk(s, p);
        ReleasingSet(s.pc, t, WantRelease(o), p);
      }
    }
    hide LocksOk, TableOk, PointsOk, RefsOk;
    ChangeInv(s, r, t, WantRelease(o));
  }

  lemma {:induction false} NoneReleasing(pcs: seq<Pc>, n: nat)
    requires forall t: nat :: t < |pcs| ==> !Releases(pcs[t], n)
    ensures Releasing(pcs, n) == 0
  {
    if pcs != [] { NoneReleasing(pcs[1..], n); }
  }

  lemma {:induction false} MappingsAppend(objs: seq<Aspace>, a: Aspace, x: nat)
    ensures Mappings(objs + [a], x) == Mappings(objs, x) + CountMaps(a.regions, x)
  {
    if objs == [] {
      assert objs + [a] == [a] && [a][1..] == [];
    } else {
      MappingsAppend(objs[1..], a, x);
      assert (objs + [a])[1..] == objs[1..] + [a];
    }
  }

  /** Nobody releases an aspace that is not there yet. */
  lemma NoneReleasesNew(s: Sys, t: nat)
    requires PointsOk(s) && t < |s.pc|
    ensures Releasing(s.pc[t := WantAdd(|s.objs|)], |s.objs|) == 0
  {
    var pcs, n := s.pc[t := WantAdd(|s.objs|)], |s.objs|;
    forall u: nat | u < |pcs| ensures !Releases(pcs[u], n) { assert PcOk(s, u, s.pc[u]); }
    NoneReleasing(pcs, n);
  }

  lemma CreateRefs(s: Sys, t: nat, id: nat)
    requires TableOk(s) && PointsOk(s) && RefsOk(s) && t < |s.pc| && s.pc[t].Idle? && id !in s.ids
    ensures var r := Enter(s, t, CallCreate(id)); |r.acquired| == |r.objs| == |r.leaked| && RefsOk(r)
  {
    var r, n := Enter(s, t, CallCreate(id)), |s.objs|;
    NoneReleasesNew(s, t);
    forall x: nat ensures Mappings(r.objs, x) == Mappings(s.objs, x) {
      MappingsAppend(s.objs, r.objs[n], x);
      assert r.objs[n].regions[1..] == [];
    }
    hide PointsOk, Releasing, Mappings;
    forall p: nat | p < |r.objs| ensures RefOk(r, p) {
      if p < n {
        assert RefOk(s, p);
        ReleasingSet(s.pc, t, WantAdd(n), p);
      }
    }
  }

  lemma EnterCreate(s: Sys, t: nat, id: nat)
    requires Inv(s) && t < |s.pc| && s.pc[t].Idle? && CanCall(s, CallCreate(id))
    ensures Inv(Enter(s, t, CallCreate(id)))
  {
    var r, n := Enter(s, t, CallCreate(id)), |s.objs|;
    CreateRefs(s, t, id);
    LocksKept(s, r, t, WantAdd(n));
    hide LocksOk, RefsOk;
    forall p: nat | p < |r.objs| ensures EntryOk(r, p) { if p < n { assert EntryOk(s, p); } }
    forall u: nat | u < |r.pc| ensures PcOk(r, u, r.pc[u]) {
      if u != t {
        assert PcOk(s, u, s.pc[u]);
        PcStable(s, r, u, s.pc[u]);
      }
    }
    forall p: nat | p < n && InUse(s.objs[p]) ensures s.objs[p].id != id { assert EntryOk(s, p); }
  }
}
