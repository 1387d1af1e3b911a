/** When reference counts are exact: aspace_del_region takes a SMARTMAP region out of an
    aspace and leaves the count of its source as it was. */
module AspaceLeaks {
  import opened Aspaces
  import opened AspaceInvariant
  import opened AspaceSteps
  import opened AspaceRuns

  /** A step that deletes a region which is a mapping of the aspace o. */
  ghost predicate LeakStep(s: Sys, a: Action, o: nat) {
    && a.Go? && a.t < |s.pc| && s.pc[a.t].Work? && s.pc[a.t].o < |s.objs| && o < |s.objs| && s.objs[o].life.Tabled?
    && OpLeaks(s.objs[s.pc[a.t].o], s.pc[a.t].op, s.objs[o].id)
  }

  ghost predicate Exact(s: Sys, o: nat)
    requires o < |s.objs| == |s.acquired|
  {
    s.objs[o].refcnt == s.acquired[o] + Releasing(s.pc, o) + Mappings(s.objs, s.objs[o].id)
  }

  lemma WorkLeaks(s: Sys, t: nat)
    requires Ready(s, t) && s.pc[t].Work?
    ensures Step(s, t).leaked == LeakedBy(s, s.pc[t].o, s.pc[t].op) && |Step(s, t).objs| == |s.objs|
  {
    hide LeakedBy, OpResult;
  }

  lemma OtherLeaks(s: Sys, t: nat)
    requires Ready(s, t) && !s.pc[t].Work?
    ensures Step(s, t).leaked == s.leaked && |Step(s, t).objs| == |s.objs|
  {
    hide TwoResult, OpResult, LeakedBy;
  }

  lemma EnterLeaks(s: Sys, t: nat, c: Call)
    requires t < |s.pc| && CanCall(s, c)
    ensures var r := Enter(s, t, c);
            if c.CallCreate? then r.leaked == s.leaked + [0] && |r.objs| == |s.objs| + 1 else r.leaked == s.leaked && r.objs == s.objs
  {}

  /** A step leaks one reference of o or none. */
  lemma LeakedMoves(s: Sys, a: Action, r: Sys, o: nat)
    requires InBounds(s) && StepsTo(s, a, r) && o < |s.objs|
    ensures |r.leaked| >= |s.leaked| && |r.objs| >= |s.objs|
    ensures r.leaked[o] == s.leaked[o] + if LeakStep(s, a, o) then 1 else 0
  {
    hide Step, Enter, OpLeaks;
    match a
    case Begin(t, c) => EnterLeaks(s, t, c);
    case Go(t) => if s.pc[t].Work? { WorkLeaks(s, t); } else { OtherLeaks(s, t); }
  }

  /** How many steps before i leaked a reference of o. */
  ghost function LeakSteps(states: seq<Sys>, acts: seq<Action>, i: nat, o: nat): (n: nat)
    requires i <= |acts| <= |states|
  {
    if i == 0 then 0 else LeakSteps(states, acts, i - 1, o) + if LeakStep(states[i - 1], acts[i - 1], o) then 1 else 0
  }

  lemma NewUnleaked(s: Sys, a: Action, r: Sys, o: nat)
    requires InBounds(s) && StepsTo(s, a, r) && |s.objs| <= o < |r.objs|
    ensures o < |r.leaked| && r.leaked[o] == 0 && !LeakStep(s, a, o)
  {
    hide Step, Enter;
    match a
    case Begin(t, c) => EnterLeaks(s, t, c);
    case Go(t) => if s.pc[t].Work? { WorkLeaks(s, t); } else { OtherLeaks(s, t); }
  }

  lemma {:induction false} NotThereYet(states: seq<Sys>, acts: seq<Action>, i: nat, o: nat)
    requires IsRun(states, acts) && i < |states| && |states[i].objs| <= o
    ensures LeakSteps(states, acts, i, o) == 0
  {
    hide Inv, Step, Enter;
    if i > 0 {
      RunKeeps(states, acts, i - 1);
      assert StepsTo(states[i - 1], acts[i - 1], states[i]);
      Grows(states[i - 1], acts[i - 1], states[i]);
      NotThereYet(states, acts, i - 1, o);
    }
  }

  lemma Grows(s: Sys, a: Action, r: Sys)
    requires Inv(s) && StepsTo(s, a, r)
    ensures InBounds(s) && |r.objs| >= |s.objs|
  {
    hide LocksOk, PointsOk, RefsOk, Step, Enter;
    match a
    case Begin(t, c) => EnterLeaks(s, t, c);
    case Go(t) => if s.pc[t].Work? { WorkLeaks(s, t); } else { OtherLeaks(s, t); }
  }

  /** The leak counter counts the steps that leak. */
  lemma {:induction false} LeaksCounted(states: seq<Sys>, acts: seq<Action>, i: nat, o: nat)
    requires IsRun(states, acts) && i < |states| && o < |states[i].objs|
    ensures o < |states[i].leaked| && states[i].leaked[o] == LeakSteps(states, acts, i, o)
  {
    hide Inv, Step, Enter;
    if i > 0 {
      var s, a := states[i - 1], acts[i - 1];
      RunKeeps(states, acts, i - 1);
      assert StepsTo(s, a, states[i]);
      Grows(s, a, states[i]);
      if o < |s.objs| {
        LeaksCounted(states, acts, i - 1, o);
        LeakedMoves(s, a, states[i], o);
      } else {
        NotThereYet(states, acts, i - 1, o);
        NewUnleaked(s, a, states[i], o);
      }
    }
  }

  lemma {:induction false} NoneIffNever(states: seq<Sys>, acts: seq<Action>, i: nat, o: nat)
    requires i <= |acts| <= |states|
    ensures LeakSteps(states, acts, i, o) == 0 <==> forall k :: 0 <= k < i ==> !LeakStep(states[k], acts[k], o)
  {
    if i > 0 { NoneIffNever(states, acts, i - 1, o); }
  }

  /** In every state of every run the count of an aspace in the table is the number of its
      acquires, mappings and leaks, and so it is exact if and only if no step deleted a
      region that was a mapping of it. */
  lemma ExactIff(states: seq<Sys>, acts: seq<Action>, i: nat, o: nat)
    requires IsRun(states, acts) && i < |states| && o < |states[i].objs| && states[i].objs[o].life.Tabled?
    ensures var s := states[i];
            && |s.objs| == |s.acquired|
            && s.objs[o].refcnt == s.acquired[o] + Releasing(s.pc, o) + Mappings(s.objs, s.objs[o].id) + LeakSteps(states, acts, i, o)
            && (Exact(s, o) <==> forall k :: 0 <= k < i ==> !LeakStep(states[k], acts[k], o))
  {
    RunKeeps(states, acts, i);
    LeaksCounted(states, acts, i, o);
    NoneIffNever(states, acts, i, o);
    hide LocksOk, PointsOk, LeakStep;
    assert RefOk(states[i], o);
  }

  lemma {:induction false} MoreSteps(states: seq<Sys>, acts: seq<Action>, i: nat, j: nat, o: nat)
    requires i <= j <= |acts| <= |states|
    ensures LeakSteps(states, acts, i, o) <= LeakSteps(states, acts, j, o)
    decreases j
  {
    if i < j { MoreSteps(states, acts, i, j - 1, o); }
  }

  lemma {:induction false} StaysThere(states: seq<Sys>, acts: seq<Action>, i: nat, j: nat)
    requires IsRun(states, acts) && i <= j < |states|
    ensures |states[i].objs| <= |states[j].objs|
    decreases j
  {
    hide Inv, Step, Enter;
    if i < j {
      StaysThere(states, acts, i, j - 1);
      RunKeeps(states, acts, j - 1);
      assert StepsTo(states[j - 1], acts[j - 1], states[j]);
      Grows(states[j - 1], acts[j - 1], states[j]);
    }
  }

  lemma BusyStep(s: Sys, t: nat, o: nat)
    requires Ready(s, t) && s.pc[t] == Test(o) && s.objs[o].refcnt != 0
    ensures Step(s, t) == At(SetLock(s, o, NOBODY), t, Busy(o))
  {}

  /** Once a reference is leaked the aspace is never destroyed: in every later state it is in
      the table with a positive count, and a destroy that tests it is refused. */
  lemma LeakedForever(states: seq<Sys>, acts: seq<Action>, i: nat, j: nat, o: nat)
    requires IsRun(states, acts) && i <= j < |states| && i < |acts| && o < |states[i].objs|
    requires LeakStep(states[i], acts[i], o) && i < j
    ensures o < |states[j].objs| && states[j].objs[o].life.Tabled? && states[j].objs[o].refcnt > 0
    ensures forall t: nat :: Ready(states[j], t) && states[j].pc[t] == Test(o) ==> Step(states[j], t) == At(SetLock(states[j], o, NOBODY), t, Busy(o))
  {
    hide Step, Enter, LeakStep;
    StaysThere(states, acts, i, j);
    MoreSteps(states, acts, i + 1, j, o);
    LeaksCounted(states, acts, j, o);
    RunKeeps(states, acts, j);
    hide LocksOk, PointsOk;
    assert RefOk(states[j], o);
    forall t: nat | Ready(states[j], t) && states[j].pc[t] == Test(o) ensures Step(states[j], t) == At(SetLock(states[j], o, NOBODY), t, Busy(o)) {
      BusyStep(states[j], t, o);
    }
  }

  // A run that leaks

  ghost predicate Ends(states: seq<Sys>, acts: seq<Action>, s: Sys) {
    IsRun(states, acts) && states[|states| - 1] == s
  }

  ghost predicate Reachable(s: Sys) {
    exists states, acts :: Ends(states, acts, s)
  }

  lemma ReachStep(s: Sys, a: Action, r: Sys)
    requires Reachable(s) && StepsTo(s, a, r)
    ensures Reachable(r)
  {
    hide StepsTo, Initial;
    var states, acts :| Ends(states, acts, s);
    var states', acts' := states + [r], acts + [a];
    forall i | 0 <= i < |acts'| ensures StepsTo(states'[i], acts'[i], states'[i + 1]) {
      if i < |acts| { assert StepsTo(states[i], acts[i], states[i + 1]); }
    }
    assert Ends(states', acts', r);
  }

  lemma ReachGo(s: Sys)
    requires Reachable(s) && Ready(s, 0)
    ensures Reachable(Step(s, 0))
  {
    hide Step, Reachable;
    ReachStep(s, Go(0), Step(s, 0));
  }

  lemma ReachBegin(s: Sys, c: Call)
    requires Reachable(s) && s.pc == [Idle] && CanCall(s, c)
    ensures Reachable(Enter(s, 0, c))
  {
    hide Enter, Reachable;
    ReachStep(s, Begin(0, c), Enter(s, 0, c));
  }

  function KernelPart(): (r: Region) { Region(PAGE_OFFSET, ULONG_MAX, Kernel) }
  function Slot(kind: Kind): (r: Region) { Region(SMARTMAP_ALIGN, 2 * SMARTMAP_ALIGN, kind) }

  /** Two aspaces, 7 and 8, and one processor. */
  function Pair(pc: Pc, hlock: int, refcnt: int, rs: seq<Region>, lock0: int, lock1: int, leaked: nat): (s: Sys) {
    Sys([Aspace(7, refcnt, [KernelPart()], lock0, Tabled), Aspace(8, 0, rs, lock1, Tabled)], map[7 := 0, 8 := 1], hlock, [pc],
        {7, 8}, [0, 0], [leaked, 0])
  }

  lemma ReachCreate(s: Sys, id: nat)
    requires Reachable(s) && s.pc == [Idle] && s.hlock == NOBODY && InBounds(s) && id !in s.ids
    ensures Reachable(s.(objs := s.objs + [Aspace(id, 0, [KernelPart()], NOBODY, Tabled)], table := s.table[id := |s.objs|],
                         ids := s.ids + {id}, acquired := s.acquired + [0], leaked := s.leaked + [0]))
  {
    hide Reachable;
    var n := |s.objs|;
    var s1 := Enter(s, 0, CallCreate(id));
    ReachBegin(s, CallCreate(id));
    ReachGo(s1);
    var s2 := Step(s1, 0);
    assert s2 == s1.(hlock := 0, pc := [AddTable(n)]);
    ReachGo(s2);
    assert Step(s2, 0) == s.(objs := s.objs + [Aspace(id, 0, [KernelPart()], NOBODY, Tabled)], table := s.table[id := n],
                             ids := s.ids + {id}, acquired := s.acquired + [0], leaked := s.leaked + [0]);
  }

  lemma ReachPair()
    ensures Reachable(Pair(Idle, NOBODY, 0, [KernelPart()], NOBODY, NOBODY, 0))
  {
    var s := Sys([], map[], NOBODY, [Idle], {}, [], []);
    assert Ends([s], [], s);
    hide Reachable;
    ReachCreate(s, 7);
    var s1 := Sys([Aspace(7, 0, [KernelPart()], NOBODY, Tabled)], map[7 := 0], NOBODY, [Idle], {7}, [0], [0]);
    assert s1 == s.(objs := s.objs + [Aspace(7, 0, [KernelPart()], NOBODY, Tabled)], table := s.table[7 := |s.objs|],
                    ids := s.ids + {7}, acquired := s.acquired + [0], leaked := s.leaked + [0]);
    ReachCreate(s1, 8);
    assert Pair(Idle, NOBODY, 0, [KernelPart()], NOBODY, NOBODY, 0)
           == s1.(objs := s1.objs + [Aspace(8, 0, [KernelPart()], NOBODY, Tabled)], table := s1.table[8 := |s1.objs|],
                  ids := s1.ids + {8}, acquired := s1.acquired + [0], leaked := s1.leaked + [0]);
  }

  /** Steps of the only processor between states of the pair. */
  lemma PairStep(s: Sys, r: Sys)
    requires Reachable(s) && Ready(s, 0) && Step(s, 0) == r
    ensures Reachable(r)
  {
    hide Reachable, Step;
    ReachGo(s);
  }

  lemma ReachMapping()
    ensures Reachable(Pair(WorkTwo(true, 0, 1, Slot(Plain)), NOBODY, 0, [KernelPart()], 0, 0, 0))
  {
    hide Reachable;
    var ks, g := [KernelPart()], Slot(Plain);
    ReachPair();
    var s := Pair(Idle, NOBODY, 0, ks, NOBODY, NOBODY, 0);
    ReachBegin(s, CallTwo(true, 7, 8, g));
    var s1 := Pair(WantTwo(true, 7, 8, g), NOBODY, 0, ks, NOBODY, NOBODY, 0);
    assert Enter(s, 0, CallTwo(true, 7, 8, g)) == s1;
    var s2 := Pair(FindTwo(true, 7, 8, g), 0, 0, ks, NOBODY, NOBODY, 0);
    PairStep(s1, s2);
    var s3 := Pair(WantSrc(true, 0, 1, g), 0, 0, ks, NOBODY, NOBODY, 0);
    PairStep(s2, s3);
    ReachMapLocks();
  }

  lemma ReachMapLocks()
    requires Reachable(Pair(WantSrc(true, 0, 1, Slot(Plain)), 0, 0, [KernelPart()], NOBODY, NOBODY, 0))
    ensures Reachable(Pair(WorkTwo(true, 0, 1, Slot(Plain)), NOBODY, 0, [KernelPart()], 0, 0, 0))
  {
    hide Reachable;
    var ks, g := [KernelPart()], Slot(Plain);
    var s1 := Pair(WantSrc(true, 0, 1, g), 0, 0, ks, NOBODY, NOBODY, 0);
    var s2 := Pair(WantDst(true, 0, 1, g), 0, 0, ks, 0, NOBODY, 0);
    PairStep(s1, s2);
    var s3 := Pair(HaveTwo(true, 0, 1, g), 0, 0, ks, 0, 0, 0);
    PairStep(s2, s3);
    PairStep(s3, Pair(WorkTwo(true, 0, 1, g), NOBODY, 0, ks, 0, 0, 0));
  }

  function Mapped(): (rs: seq<Region>) { [Slot(Smart(7)), KernelPart()] }

  lemma SlotFits()
    ensures var rs := [KernelPart()];
            && !Maps(rs, 7) && !Overlaps(rs, Slot(Plain).start, Slot(Plain).end) && !Misaligned(Slot(Plain))
            && Insert(rs, Slot(Smart(7))) == Mapped()
  {}

  lemma ReachMapped()
    ensures Reachable(Pair(Idle, NOBODY, 1, Mapped(), NOBODY, NOBODY, 0))
  {
    hide Reachable;
    ReachMapping();
    SlotFits();
    hide Insert, Maps, Overlaps, Misaligned, Mapped;
    var s1 := Pair(WorkTwo(true, 0, 1, Slot(Plain)), NOBODY, 0, [KernelPart()], 0, 0, 0);
    var s2 := Pair(UnlockDst(1), NOBODY, 1, Mapped(), NOBODY, 0, 0);
    PairStep(s1, s2);
    PairStep(s2, Pair(Idle, NOBODY, 1, Mapped(), NOBODY, NOBODY, 0));
  }

  lemma ReachDelete(op: Op)
    ensures Reachable(Pair(Work(op, 1), NOBODY, 1, Mapped(), NOBODY, 0, 0))
  {
    hide Reachable, Mapped;
    ReachMapped();
    var rs := Mapped();
    var s := Pair(Idle, NOBODY, 1, rs, NOBODY, NOBODY, 0);
    ReachBegin(s, CallOp(op, 8));
    var s1 := Pair(Want(op, 8), NOBODY, 1, rs, NOBODY, NOBODY, 0);
    assert Enter(s, 0, CallOp(op, 8)) == s1;
    var s2 := Pair(Find(op, 8), 0, 1, rs, NOBODY, NOBODY, 0);
    PairStep(s1, s2);
    var s3 := Pair(WantObj(op, 1), 0, 1, rs, NOBODY, NOBODY, 0);
    PairStep(s2, s3);
    var s4 := Pair(Have(op, 1), 0, 1, rs, NOBODY, 0, 0);
    PairStep(s3, s4);
    PairStep(s4, Pair(Work(op, 1), NOBODY, 1, rs, NOBODY, 0, 0));
  }

  lemma NoneMapped(s: Sys)
    requires |s.objs| == 2 && s.objs[0].regions == [KernelPart()] == s.objs[1].regions
    ensures Mappings(s.objs, 7) == 0
  {
    assert [KernelPart()][1..] == [];
    assert CountMaps([KernelPart()], 7) == 0;
    hide CountMaps;
    assert s.objs[1..] == [s.objs[1]] && s.objs[1..][1..] == [];
    assert Mappings(s.objs[1..][1..], 7) == 0;
    assert Mappings(s.objs[1..], 7) == 0;
  }

  /** A run that maps 7 into 8 and then deletes the region of the mapping: nothing refers to 7
      any more, and its count is 1. */
  lemma LeakRun() returns (s: Sys)
    ensures Reachable(s) && |s.objs| == 2 == |s.acquired| && s.objs[0].id == 7 && s.objs[0].life.Tabled? && s.objs[0].refcnt == 1
    ensures s.acquired[0] == 0 && Releasing(s.pc, 0) == 0 && Mappings(s.objs, 7) == 0 && !Exact(s, 0)
  {
    hide Reachable;
    var op := Delete(Slot(Plain).start, Slot(Plain).end);
    ReachDelete(op);
    var s1 := Pair(Work(op, 1), NOBODY, 1, Mapped(), NOBODY, 0, 0);
    assert Cut(Mapped(), op.start, op.end) == [KernelPart()];
    assert Leaks(Mapped(), op.start, op.end, 7) && !Leaks(Mapped(), op.start, op.end, 8);
    hide Cut, Leaks, Mapped;
    s := Pair(Idle, NOBODY, 1, [KernelPart()], NOBODY, NOBODY, 1);
    assert LeakedBy(s1, 1, op) == [1, 0];
    PairStep(s1, s);
    NoneMapped(s);
  }
}
