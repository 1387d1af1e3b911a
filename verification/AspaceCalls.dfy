/** What a whole call does to the address spaces when no other processor runs. */
module AspaceCalls {
  import opened Aspaces
  import opened AspaceInvariant
  import opened AspaceRuns
  import opened AspaceRegions
  import opened AspaceEffects

  /** The processor makes n steps and then is in this state. */
  ghost predicate Goes(s: Sys, t: nat, n: nat, r: Sys)
    decreases n
  {
    if n == 0 then r == s else Ready(s, t) && Goes(Step(s, t), t, n - 1, r)
  }

  lemma GoesFrom(s: Sys, t: nat, n: nat, r: Sys)
    requires Ready(s, t) && Goes(Step(s, t), t, n, r)
    ensures Goes(s, t, n + 1, r)
  {}

  /** No lock is taken, and the processor is about to make a call. */
  ghost predicate Quiet(s: Sys, t: nat) {
    && t < |s.pc| && s.pc[t].Idle? && s.hlock == NOBODY && TableOk(s) && RegionsOk(s)
    && forall o :: 0 <= o < |s.objs| ==> s.objs[o].lock == NOBODY
  }

  /** A step that takes or gives back the table's lock, or one aspace's. */
  lemma TableStep(s: Sys, t: nat)
    requires t < |s.pc| && InBounds(s) && Named(s.pc[t], |s.objs|)
    requires (WantsTable(s.pc[t]) && s.hlock == NOBODY) || (LetsTable(s.pc[t]) && !WantsTable(s.pc[t]) && WantsLock(s.pc[t]) < 0)
    ensures Ready(s, t)
    ensures Step(s, t) == s.(hlock := if WantsTable(s.pc[t]) then t else NOBODY, pc := s.pc[t := After(s.pc[t])])
  {}

  lemma ObjStep(s: Sys, t: nat, o: nat)
    requires t < |s.pc| && InBounds(s) && Named(s.pc[t], |s.objs|) && o < |s.objs| && !WantsTable(s.pc[t])
    requires WantsLock(s.pc[t]) == o ==> s.objs[o].lock == NOBODY
    requires WantsLock(s.pc[t]) == o || (WantsLock(s.pc[t]) < 0 && !LetsTable(s.pc[t]) && LetsLock(s.pc[t]) == o)
    ensures Ready(s, t)
    ensures Step(s, t) == s.(objs := s.objs[o := s.objs[o].(lock := if WantsLock(s.pc[t]) == o then t else NOBODY)], pc := s.pc[t := After(s.pc[t])])
  {}

  lemma FindIs(s: Sys, t: nat, op: Op, id: nat)
    requires t < |s.pc| && InBounds(s) && s.pc[t] == Find(op, id)
    ensures Ready(s, t)
    ensures Step(s, t) == if id in s.table then s.(pc := s.pc[t := WantObj(op, s.table[id])]) else s.(hlock := NOBODY, pc := s.pc[t := Idle])
  {}

  lemma WorkDone(s: Sys, t: nat, op: Op, o: nat)
    requires t < |s.pc| && InBounds(s) && s.pc[t] == Work(op, o) && o < |s.objs|
    ensures Ready(s, t)
    ensures var r := Step(s, t);
            && r == s.(objs := s.objs[o := OpResult(s.objs[o], op).(lock := NOBODY)], acquired := r.acquired, leaked := r.leaked, pc := s.pc[t := Idle])
            && r.acquired == if op.Acquire? then s.acquired[o := s.acquired[o] + 1] else s.acquired
  {
    hide OpResult, LeakedBy;
  }

  lemma QuietFacts(s: Sys, t: nat)
    requires Quiet(s, t)
    ensures InBounds(s) && (forall o :: 0 <= o < |s.objs| ==> s.objs[o].lock == NOBODY && Sorted(s.objs[o].regions))
    ensures forall id :: id in s.table ==> s.table[id] < |s.objs| && s.objs[s.table[id]].id == id
  {}

  /** Acquire, look up, add a region, delete a region: nothing without an aspace of that name. */
  lemma OpAlone(s: Sys, t: nat, op: Op, id: nat) returns (r: Sys, n: nat)
    requires Quiet(s, t)
    ensures Goes(Enter(s, t, CallOp(op, id)), t, n, r)
    ensures id !in s.table ==> r == s
    ensures id in s.table ==>
              var o := s.table[id];
              && o < |s.objs| == |r.objs| && OpDoes(s.objs[o], r.objs[o], op) && |s.acquired| == |s.objs|
              && r == s.(objs := s.objs[o := r.objs[o]], acquired := r.acquired, leaked := r.leaked)
              && r.acquired == if op.Acquire? then s.acquired[o := s.acquired[o] + 1] else s.acquired
  {
    QuietFacts(s, t);
    var s0 := Enter(s, t, CallOp(op, id));
    TableStep(s0, t);
    var s1 := Step(s0, t);
    FindIs(s1, t, op, id);
    hide OpResult, OpDoes, LeakedBy, Goes, Step, Ready, TableOk, RegionsOk, Sorted;
    if id !in s.table {
      r := Step(s1, t);
      assert r == s;
      GoesNone(r, t);
      GoesFrom(s1, t, 0, r);
      GoesFrom(s0, t, 1, r);
      n := 2;
    } else {
      var o := s.table[id];
      var s2 := Step(s1, t);
      assert s2 == s.(hlock := t, pc := s.pc[t := WantObj(op, o)]);
      ObjStep(s2, t, o);
      var s3 := Step(s2, t);
      TableStep(s3, t);
      var s4 := Step(s3, t);
      assert s4 == s.(objs := s.objs[o := s.objs[o].(lock := t)], pc := s.pc[t := Work(op, o)]);
      r := Step(s4, t);
      WorkDone(s4, t, op, o);
      OpEffect(s.objs[o], op);
      OpUnderLock(s.objs[o], t, op);
      GoesNone(r, t);
      GoesFrom(s4, t, 0, r);
      GoesFrom(s3, t, 1, r);
      GoesFrom(s2, t, 2, r);
      GoesFrom(s1, t, 3, r);
      GoesFrom(s0, t, 4, r);
      n := 5;
    }
  }

  lemma GoesNone(s: Sys, t: nat)
    ensures Goes(s, t, 0, s)
  {}

  lemma OpUnderLock(a: Aspace, t: nat, op: Op)
    requires a.lock == NOBODY
    ensures OpResult(a.(lock := t), op).(lock := NOBODY) == OpResult(a, op)
  {
    hide Cut, Insert;
  }

  lemma FindTwoIs(s: Sys, t: nat)
    requires t < |s.pc| && InBounds(s) && s.pc[t].FindTwo?
    ensures Ready(s, t)
    ensures var pc := s.pc[t];
            Step(s, t) == if pc.a in s.table && pc.b in s.table then s.(pc := s.pc[t := WantSrc(pc.on, s.table[pc.a], s.table[pc.b], pc.r)])
                          else s.(hlock := NOBODY, pc := s.pc[t := Idle])
  {}

  lemma WorkTwoDone(s: Sys, t: nat, on: bool, x: nat, y: nat, g: Region)
    requires t < |s.pc| && InBounds(s) && s.pc[t] == WorkTwo(on, x, y, g) && x < |s.objs| && y < |s.objs|
    ensures Ready(s, t)
    ensures var r := TwoResult(s, on, x, y, g);
            Step(s, t) == r.(objs := r.objs[x := r.objs[x].(lock := NOBODY)], pc := s.pc[t := UnlockDst(y)])
  {
    hide TwoResult;
  }

  /** The state with two aspaces locked by a processor. */
  ghost function Locked(s: Sys, t: nat, x: nat, y: nat, pc: Pc): (r: Sys)
    requires x < |s.objs| && y < |s.objs| && t < |s.pc|
  {
    s.(objs := s.objs[x := s.objs[x].(lock := t)][y := s.objs[y].(lock := t)], pc := s.pc[t := pc])
  }

  lemma TwoUnderLock(s: Sys, t: nat, on: bool, x: nat, y: nat, g: Region)
    requires x < |s.objs| && y < |s.objs| && x != y && t < |s.pc| && s.objs[x].lock == NOBODY && s.objs[y].lock == NOBODY
    ensures var s5, r := Locked(s, t, x, y, WorkTwo(on, x, y, g)), TwoResult(s, on, x, y, g);
            && |r.objs| == |s.objs| && r.objs[x].lock == NOBODY && r.objs[y].lock == NOBODY && r == s.(objs := r.objs)
            && TwoResult(s5, on, x, y, g) == Locked(r, t, x, y, WorkTwo(on, x, y, g))
  {
    hide Insert, Unmap, Maps, Misaligned, Overlaps;
  }

  /** From the lookup to the work, with both locks taken on the way. */
  lemma TwoLocks(s: Sys, t: nat, on: bool, x: nat, y: nat, g: Region, n: nat, r: Sys)
    requires t < |s.pc| && InBounds(s) && s.hlock == NOBODY && x < |s.objs| && y < |s.objs| && x != y
    requires s.objs[x].lock == NOBODY && s.objs[y].lock == NOBODY
    requires Goes(Locked(s, t, x, y, WorkTwo(on, x, y, g)), t, n, r)
    ensures Goes(s.(hlock := t, pc := s.pc[t := WantSrc(on, x, y, g)]), t, n + 3, r)
  {
    hide Goes, Step, Ready;
    var s2 := s.(hlock := t, pc := s.pc[t := WantSrc(on, x, y, g)]);
    ObjStep(s2, t, x);
    var s3 := Step(s2, t);
    ObjStep(s3, t, y);
    var s4 := Step(s3, t);
    TableStep(s4, t);
    assert Step(s4, t) == Locked(s, t, x, y, WorkTwo(on, x, y, g));
    GoesFrom(s4, t, n, r);
    GoesFrom(s3, t, n + 1, r);
    GoesFrom(s2, t, n + 2, r);
  }

  /** The work, and giving back both locks. */
  lemma TwoWorks(s: Sys, t: nat, on: bool, x: nat, y: nat, g: Region)
    requires t < |s.pc| && s.pc[t].Idle? && InBounds(s) && x < |s.objs| && y < |s.objs| && x != y
    requires s.objs[x].lock == NOBODY && s.objs[y].lock == NOBODY
    ensures Goes(Locked(s, t, x, y, WorkTwo(on, x, y, g)), t, 2, TwoResult(s, on, x, y, g))
  {
    hide Goes, Step, Ready, TwoResult;
    var s5, r := Locked(s, t, x, y, WorkTwo(on, x, y, g)), TwoResult(s, on, x, y, g);
    WorkTwoDone(s5, t, on, x, y, g);
    TwoUnderLock(s, t, on, x, y, g);
    var s6 := Step(s5, t);
    ObjStep(s6, t, y);
    assert Step(s6, t) == r;
    GoesNone(r, t);
    GoesFrom(s6, t, 0, r);
    GoesFrom(s5, t, 1, r);
  }

  /** Mapping an aspace into another, and taking it out. */
  lemma TwoAlone(s: Sys, t: nat, on: bool, a: nat, b: nat, g: Region) returns (r: Sys, n: nat)
    requires Quiet(s, t) && a != b
    ensures Goes(Enter(s, t, CallTwo(on, a, b, g)), t, n, r)
    ensures a !in s.table || b !in s.table ==> r == s
    ensures a in s.table && b in s.table ==>
              s.table[a] < |s.objs| && s.table[b] < |s.objs| && TwoDoes(s, r, on, s.table[a], s.table[b], g)
  {
    hide TwoResult, TwoDoes, Goes, RegionsOk, Step, Ready, TableOk, Sorted;
    QuietFacts(s, t);
    var s0 := Enter(s, t, CallTwo(on, a, b, g));
    TableStep(s0, t);
    var s1 := Step(s0, t);
    FindTwoIs(s1, t);
    var s2 := Step(s1, t);
    if a !in s.table || b !in s.table {
      r, n := s2, 0;
      assert r == s;
      GoesNone(r, t);
    } else {
      var x, y := s.table[a], s.table[b];
      r, n := TwoResult(s, on, x, y, g), 5;
      assert s2 == s.(hlock := t, pc := s.pc[t := WantSrc(on, x, y, g)]);
      TwoEffect(s, on, x, y, g);
      TwoWorks(s, t, on, x, y, g);
      TwoLocks(s, t, on, x, y, g, 2, r);
    }
    GoesFrom(s1, t, n, r);
    GoesFrom(s0, t, n + 1, r);
    n := n + 2;
  }

  /** Giving back an acquire. */
  lemma ReleaseAlone(s: Sys, t: nat, o: nat) returns (r: Sys)
    requires Quiet(s, t) && o < |s.objs| && CanCall(s, CallRelease(o))
    ensures Goes(Enter(s, t, CallRelease(o)), t, 2, r)
    ensures r == s.(objs := s.objs[o := s.objs[o].(refcnt := s.objs[o].refcnt - 1)], acquired := s.acquired[o := s.acquired[o] - 1])
  {
    hide Goes, RegionsOk;
    var s0 := Enter(s, t, CallRelease(o));
    ObjStep(s0, t, o);
    var s1 := Step(s0, t);
    r := Step(s1, t);
    GoesNone(r, t);
    GoesFrom(s1, t, 0, r);
    GoesFrom(s0, t, 1, r);
  }

  /** A new aspace has the kernel's region only, and is found under its name from then on. */
  lemma CreateAlone(s: Sys, t: nat, id: nat) returns (r: Sys)
    requires Quiet(s, t) && id !in s.ids
    ensures Goes(Enter(s, t, CallCreate(id)), t, 2, r)
    ensures var n := |s.objs|;
            && r.objs == s.objs + [Aspace(id, 0, [Region(PAGE_OFFSET, ULONG_MAX, Kernel)], NOBODY, Tabled)]
            && r.table == s.table[id := n] && r.ids == s.ids + {id} && r.pc == s.pc && r.hlock == s.hlock
            && r.acquired == s.acquired + [0] && r.leaked == s.leaked + [0]
  {
    hide Goes, RegionsOk;
    var s0 := Enter(s, t, CallCreate(id));
    TableStep(s0, t);
    var s1 := Step(s0, t);
    r := Step(s1, t);
    GoesNone(r, t);
    GoesFrom(s1, t, 0, r);
    GoesFrom(s0, t, 1, r);
  }

  // Destroying

  /** How many references an aspace loses with the mappings in a list. */
  ghost function Lost(s: Sys, rs: seq<Region>, p: nat): (r: nat)
    requires p < |s.objs|
  {
    if s.objs[p].id in s.table && s.table[s.objs[p].id] == p then CountMaps(rs, s.objs[p].id) else 0
  }

  /** The aspace is gone, and every source of a mapping in it has lost that reference. */
  ghost predicate Destroyed(s: Sys, r: Sys, o: nat, rs: seq<Region>)
    requires o < |s.objs|
  {
    && |r.objs| == |s.objs| && r.objs[o] == s.objs[o].(regions := [], life := Freed)
    && (forall p :: 0 <= p < |s.objs| && p != o ==> r.objs[p] == s.objs[p].(refcnt := s.objs[p].refcnt - Lost(s, rs, p)))
    && r == s.(objs := r.objs, ids := s.ids - {s.objs[o].id}, pc := r.pc)
  }

  /** The sources of the mappings are in the table. */
  ghost predicate Sourced(s: Sys, o: nat, rs: seq<Region>) {
    forall k :: 0 <= k < |rs| && rs[k].kind.Smart? ==> rs[k].kind.src in s.table && s.table[rs[k].kind.src] != o
  }

  ghost predicate Emptying(s: Sys, t: nat, o: nat) {
    && t < |s.pc| && s.pc[t] == Loop(o) && o < |s.objs| && s.hlock == NOBODY && InBounds(s)
    && (forall p :: 0 <= p < |s.objs| ==> s.objs[p].lock == NOBODY)
    && (forall id :: id in s.table ==> s.objs[s.table[id]].id == id)
    && Sourced(s, o, s.objs[o].regions)
  }

  /** One region is dropped, with the reference it stands for. */
  ghost function Dropped(s: Sys, o: nat): (r: Sys)
    requires o < |s.objs| && InBounds(s) && s.objs[o].regions != [] && Sourced(s, o, s.objs[o].regions)
  {
    var rs := s.objs[o].regions;
    var objs := s.objs[o := s.objs[o].(regions := rs[1..])];
    if rs[0].kind.Smart? then
      var src := s.table[rs[0].kind.src];
      s.(objs := objs[src := s.objs[src].(refcnt := s.objs[src].refcnt - 1)])
    else s.(objs := objs)
  }

  lemma LoopIs(s: Sys, t: nat, o: nat)
    requires Emptying(s, t, o)
    ensures Ready(s, t)
    ensures var rs := s.objs[o].regions;
            && (rs == [] ==> Step(s, t) == s.(objs := s.objs[o := s.objs[o].(life := Freed)], ids := s.ids - {s.objs[o].id}, pc := s.pc[t := Idle]))
            && (rs != [] && !rs[0].kind.Smart? ==> Step(s, t) == Dropped(s, o))
            && (rs != [] && rs[0].kind.Smart? ==> Step(s, t) == s.(pc := s.pc[t := WantDrop(o, rs[0].kind.src)]))
  {}

  lemma FindDropIs(s: Sys, t: nat, o: nat, x: nat)
    requires t < |s.pc| && InBounds(s) && s.pc[t] == FindDrop(o, x) && o < |s.objs| && x in s.table
    ensures Ready(s, t) && Step(s, t) == s.(pc := s.pc[t := WantLock(o, s.table[x])])
  {}

  lemma DropDone(s: Sys, t: nat, o: nat, src: nat)
    requires t < |s.pc| && InBounds(s) && s.pc[t] == Drop(o, src) && o < |s.objs| && src < |s.objs| && src != o && s.objs[o].regions != []
    ensures Ready(s, t)
    ensures Step(s, t) == s.(objs := s.objs[o := s.objs[o].(regions := s.objs[o].regions[1..])][src := s.objs[src].(refcnt := s.objs[src].refcnt - 1)],
                             pc := s.pc[t := UnlockSrc(o, src)])
  {}

  /** At the drop of a mapping, with the table's lock and that of the source. */
  ghost function AtDrop(s: Sys, t: nat, o: nat, src: nat): (r: Sys)
    requires t < |s.pc| && src < |s.objs|
  {
    s.(hlock := t, objs := s.objs[src := s.objs[src].(lock := t)], pc := s.pc[t := Drop(o, src)])
  }

  lemma DropLocks(s: Sys, t: nat, o: nat, x: nat, n: nat, r: Sys)
    requires t < |s.pc| && InBounds(s) && o < |s.objs| && s.hlock == NOBODY && x in s.table && s.objs[s.table[x]].lock == NOBODY
    requires s.pc[t] == WantDrop(o, x) && Goes(AtDrop(s, t, o, s.table[x]), t, n, r)
    ensures Goes(s, t, n + 3, r)
  {
    hide Goes, Step, Ready;
    TableStep(s, t);
    var s2 := Step(s, t);
    FindDropIs(s2, t, o, x);
    var s3 := Step(s2, t);
    ObjStep(s3, t, s.table[x]);
    assert Step(s3, t) == AtDrop(s, t, o, s.table[x]);
    GoesFrom(s3, t, n, r);
    GoesFrom(s2, t, n + 1, r);
    GoesFrom(s, t, n + 2, r);
  }

  lemma DropUnlocks(s: Sys, t: nat, o: nat, src: nat, n: nat, r: Sys)
    requires t < |s.pc| && InBounds(s) && o < |s.objs| && src < |s.objs| && src != o && s.hlock == NOBODY && s.objs[src].lock == NOBODY
    requires s.objs[o].regions != []
    requires Goes(s.(objs := s.objs[o := s.objs[o].(regions := s.objs[o].regions[1..])][src := s.objs[src].(refcnt := s.objs[src].refcnt - 1)],
                     pc := s.pc[t := Loop(o)]), t, n, r)
    ensures Goes(AtDrop(s, t, o, src), t, n + 3, r)
  {
    hide Goes, Step, Ready;
    var s4 := AtDrop(s, t, o, src);
    DropDone(s4, t, o, src);
    var s5 := Step(s4, t);
    ObjStep(s5, t, src);
    var s6 := Step(s5, t);
    TableStep(s6, t);
    assert Step(s6, t) == s.(objs := s.objs[o := s.objs[o].(regions := s.objs[o].regions[1..])][src := s.objs[src].(refcnt := s.objs[src].refcnt - 1)],
                             pc := s.pc[t := Loop(o)]);
    GoesFrom(s6, t, n, r);
    GoesFrom(s5, t, n + 1, r);
    GoesFrom(s4, t, n + 2, r);
  }

  /** Dropping a mapping takes the table's lock and that of the source. */
  lemma DropMapping(s: Sys, t: nat, o: nat, n: nat, r: Sys)
    requires Emptying(s, t, o) && s.objs[o].regions != [] && s.objs[o].regions[0].kind.Smart? && Goes(Dropped(s, o), t, n, r)
    ensures Goes(s, t, n + 7, r)
  {
    hide Goes, Step, Ready;
    var x := s.objs[o].regions[0].kind.src;
    LoopIs(s, t, o);
    var s1 := Step(s, t);
    assert s.pc[t := Loop(o)] == s.pc;
    DropUnlocks(s, t, o, s.table[x], n, r);
    assert AtDrop(s, t, o, s.table[x]) == AtDrop(s1, t, o, s.table[x]);
    DropLocks(s1, t, o, x, n + 3, r);
    GoesFrom(s, t, n + 6, r);
  }

  lemma DroppedEmpties(s: Sys, t: nat, o: nat)
    requires Emptying(s, t, o) && s.objs[o].regions != []
    ensures Emptying(Dropped(s, o), t, o) && Dropped(s, o).objs[o].regions == s.objs[o].regions[1..]
  {
    var rs := s.objs[o].regions;
    assert forall k :: 0 <= k < |rs[1..]| ==> rs[1..][k] == rs[k + 1];
  }

  lemma DroppedLast(s: Sys, o: nat, r: Sys)
    requires o < |s.objs| && InBounds(s) && s.objs[o].regions != [] && Sourced(s, o, s.objs[o].regions)
    requires forall id :: id in s.table ==> s.objs[s.table[id]].id == id
    requires Destroyed(Dropped(s, o), r, o, s.objs[o].regions[1..])
    ensures Destroyed(s, r, o, s.objs[o].regions)
  {
    var d, rs := Dropped(s, o), s.objs[o].regions;
    forall p | 0 <= p < |s.objs| && p != o
      ensures r.objs[p] == s.objs[p].(refcnt := s.objs[p].refcnt - Lost(s, rs, p))
    {
      assert d.objs[p].id == s.objs[p].id && Lost(d, rs[1..], p) == Lost(s, rs[1..], p);
    }
  }

  /** The loop over the regions. */
  lemma {:induction false} EmptiesAll(s: Sys, t: nat, o: nat) returns (r: Sys, n: nat)
    requires Emptying(s, t, o)
    ensures Goes(s, t, n, r) && Destroyed(s, r, o, s.objs[o].regions) && r.pc == s.pc[t := Idle]
    decreases |s.objs[o].regions|
  {
    hide Goes, Step, Ready, Emptying, Dropped, Destroyed;
    EmptyingIs(s, t, o);
    LoopIs(s, t, o);
    if s.objs[o].regions == [] {
      r := Step(s, t);
      DestroyedNow(s, t, o);
      GoesNone(r, t);
      GoesFrom(s, t, 0, r);
      n := 1;
    } else {
      DroppedEmpties(s, t, o);
      r, n := EmptiesAll(Dropped(s, o), t, o);
      DroppedLast(s, o, r);
      DroppedPc(s, o);
      if s.objs[o].regions[0].kind.Smart? {
        DropMapping(s, t, o, n, r);
        n := n + 7;
      } else {
        GoesFrom(s, t, n, r);
        n := n + 1;
      }
    }
  }

  lemma EmptyingIs(s: Sys, t: nat, o: nat)
    requires Emptying(s, t, o)
    ensures t < |s.pc| && o < |s.objs| && InBounds(s) && Sourced(s, o, s.objs[o].regions)
    ensures forall id :: id in s.table ==> s.objs[s.table[id]].id == id
  {}

  lemma DroppedPc(s: Sys, o: nat)
    requires o < |s.objs| && InBounds(s) && s.objs[o].regions != [] && Sourced(s, o, s.objs[o].regions)
    ensures Dropped(s, o).pc == s.pc
  {}

  lemma DestroyedNow(s: Sys, t: nat, o: nat)
    requires Emptying(s, t, o) && s.objs[o].regions == []
    ensures Ready(s, t) && Destroyed(s, Step(s, t), o, [])
  {
    LoopIs(s, t, o);
    hide Step, Ready, Emptying;
  }

  lemma FindVictim(s: Sys, t: nat, id: nat)
    requires t < |s.pc| && InBounds(s) && s.pc[t] == FindDestroy(id)
    ensures Ready(s, t)
    ensures Step(s, t) == if id in s.table then s.(pc := s.pc[t := WantVictim(s.table[id])]) else s.(hlock := NOBODY, pc := s.pc[t := Idle])
  {}

  lemma TestIs(s: Sys, t: nat, o: nat)
    requires t < |s.pc| && InBounds(s) && s.pc[t] == Test(o) && o < |s.objs|
    ensures Ready(s, t)
    ensures Step(s, t) ==
            if s.objs[o].refcnt != 0 then s.(objs := s.objs[o := s.objs[o].(lock := NOBODY)], pc := s.pc[t := Busy(o)])
            else s.(objs := s.objs[o := s.objs[o].(life := Dying(t))], table := s.table - {s.objs[o].id}, pc := s.pc[t := Removed(o)])
  {}

  /** The victim is out of the table, and the locks are given back. */
  ghost function Taken(s: Sys, t: nat, o: nat): (r: Sys)
    requires t < |s.pc| && o < |s.objs|
  {
    s.(objs := s.objs[o := s.objs[o].(life := Dying(t))], table := s.table - {s.objs[o].id}, pc := s.pc[t := Loop(o)])
  }

  lemma Takes(s: Sys, t: nat, o: nat, n: nat, r: Sys)
    requires t < |s.pc| && InBounds(s) && o < |s.objs| && s.hlock == NOBODY && s.objs[o].lock == NOBODY && s.objs[o].refcnt == 0
    requires Goes(Taken(s, t, o), t, n, r)
    ensures Goes(s.(hlock := t, pc := s.pc[t := WantVictim(o)]), t, n + 4, r)
  {
    hide Goes, Step, Ready;
    var s2 := s.(hlock := t, pc := s.pc[t := WantVictim(o)]);
    ObjStep(s2, t, o);
    var s3 := Step(s2, t);
    TestIs(s3, t, o);
    var s4 := Step(s3, t);
    TableStep(s4, t);
    var s5 := Step(s4, t);
    ObjStep(s5, t, o);
    assert Step(s5, t) == Taken(s, t, o);
    GoesFrom(s5, t, n, r);
    GoesFrom(s4, t, n + 1, r);
    GoesFrom(s3, t, n + 2, r);
    GoesFrom(s2, t, n + 3, r);
  }

  lemma Refuses(s: Sys, t: nat, o: nat)
    requires t < |s.pc| && s.pc[t].Idle? && InBounds(s) && o < |s.objs| && s.hlock == NOBODY && s.objs[o].lock == NOBODY && s.objs[o].refcnt != 0
    ensures Goes(s.(hlock := t, pc := s.pc[t := WantVictim(o)]), t, 3, s)
  {
    hide Goes, Step, Ready;
    var s2 := s.(hlock := t, pc := s.pc[t := WantVictim(o)]);
    ObjStep(s2, t, o);
    var s3 := Step(s2, t);
    TestIs(s3, t, o);
    var s4 := Step(s3, t);
    TableStep(s4, t);
    assert Step(s4, t) == s;
    GoesNone(s, t);
    GoesFrom(s4, t, 0, s);
    GoesFrom(s3, t, 1, s);
    GoesFrom(s2, t, 2, s);
  }

  /** Every mapping in the victim has its source in the table, and none is the victim. */
  lemma VictimSourced(s: Sys, t: nat, o: nat)
    requires Inv(s) && t < |s.pc| && o < |s.objs| && s.objs[o].life.Tabled? && s.objs[o].refcnt == 0
    ensures Sourced(Taken(s, t, o), o, s.objs[o].regions)
  {
    var rs, id := s.objs[o].regions, s.objs[o].id;
    assert RefOk(s, o);
    forall k | 0 <= k < |rs| && rs[k].kind.Smart? ensures rs[k].kind.src in s.table && rs[k].kind.src != id && s.table[rs[k].kind.src] != o {
      var x := rs[k].kind.src;
      SomeMapping(rs, k, x);
      MappingsInclude(s.objs, o, x);
    }
  }

  /** Destroying: nothing without an aspace of that name or with references to it; otherwise
      the name is free again, and each source of a mapping loses one reference for each. */
  lemma DestroyAlone(s: Sys, t: nat, id: nat) returns (r: Sys, n: nat)
    requires Quiet(s, t) && Inv(s)
    ensures Goes(Enter(s, t, CallDestroy(id)), t, n, r)
    ensures id !in s.table ==> r == s
    ensures id in s.table ==> s.table[id] < |s.objs| && if s.objs[s.table[id]].refcnt != 0 then r == s else Destroys(s, r, s.table[id])
  {
    hide Goes, RegionsOk, Step, Ready, Inv, Sorted, Taken, Emptying, Destroys, Destroyed;
    QuietFacts(s, t);
    var s0 := Enter(s, t, CallDestroy(id));
    TableStep(s0, t);
    var s1 := Step(s0, t);
    FindVictim(s1, t, id);
    if id !in s.table {
      r, n := s, 0;
      assert Step(s1, t) == s;
      GoesNone(r, t);
    } else {
      var o := s.table[id];
      assert Step(s1, t) == s.(hlock := t, pc := s.pc[t := WantVictim(o)]);
      if s.objs[o].refcnt != 0 {
        r, n := s, 3;
        Refuses(s, t, o);
      } else {
        TakenEmpties(s, t, o);
        r, n := EmptiesAll(Taken(s, t, o), t, o);
        TakenDestroys(s, t, o, r);
        Takes(s, t, o, n, r);
        n := n + 4;
      }
    }
    GoesFrom(s1, t, n, r);
    GoesFrom(s0, t, n + 1, r);
    n := n + 2;
  }

  ghost predicate Destroys(s: Sys, r: Sys, o: nat)
    requires o < |s.objs|
  {
    && |r.objs| == |s.objs| && r.objs[o] == s.objs[o].(regions := [], life := Freed)
    && (forall p :: 0 <= p < |s.objs| && p != o ==> r.objs[p] == s.objs[p].(refcnt := s.objs[p].refcnt - Lost(s, s.objs[o].regions, p)))
    && r == s.(objs := r.objs, table := s.table - {s.objs[o].id}, ids := s.ids - {s.objs[o].id})
  }

  lemma TakenEmpties(s: Sys, t: nat, o: nat)
    requires Quiet(s, t) && Inv(s) && o < |s.objs| && s.objs[o].refcnt == 0 && s.objs[o].id in s.table && s.table[s.objs[o].id] == o
    ensures Emptying(Taken(s, t, o), t, o)
  {
    VictimSourced(s, t, o);
    hide Inv, RegionsOk, Sourced;
  }

  lemma TakenDestroys(s: Sys, t: nat, o: nat, r: Sys)
    requires Quiet(s, t) && o < |s.objs| && s.objs[o].id in s.table && s.table[s.objs[o].id] == o
    requires Destroyed(Taken(s, t, o), r, o, Taken(s, t, o).objs[o].regions) && r.pc == Taken(s, t, o).pc[t := Idle]
    ensures Destroys(s, r, o)
  {
    hide RegionsOk;
    var d, rs := Taken(s, t, o), s.objs[o].regions;
    forall p | 0 <= p < |s.objs| && p != o ensures r.objs[p] == s.objs[p].(refcnt := s.objs[p].refcnt - Lost(s, rs, p)) {
      assert Lost(d, rs, p) == Lost(s, rs, p);
    }
    assert s.pc[t := Loop(o)][t := Idle] == s.pc;
  }
}
