/** What is true of every run of the address space system, in every interleaving. */
module AspaceRuns {
  import opened Aspaces
  import opened AspaceInvariant
  import opened AspaceSteps

  datatype Action = Begin(t: nat, c: Call) | Go(t: nat)

  ghost predicate StepsTo(s: Sys, a: Action, r: Sys) {
    match a
    case Begin(t, c) => t < |s.pc| && s.pc[t].Idle? && CanCall(s, c) && r == Enter(s, t, c)
    case Go(t) => Ready(s, t) && r == Step(s, t)
  }

  ghost predicate Initial(s: Sys) {
    s.objs == [] && s.table == map[] && s.hlock == NOBODY && s.ids == {} && s.acquired == [] && s.leaked == []
    && forall t :: 0 <= t < |s.pc| ==> s.pc[t].Idle?
  }

  ghost predicate IsRun(states: seq<Sys>, acts: seq<Action>) {
    && |states| == |acts| + 1 && Initial(states[0])
    && forall i {:trigger acts[i]} :: 0 <= i < |acts| ==> StepsTo(states[i], acts[i], states[i + 1])
  }

  lemma DestroyKeeps(s: Sys, t: nat)
    requires Inv(s) && Ready(s, t)
    requires var pc := s.pc[t];
             pc.Test? || pc.Loop? || pc.FindDrop? || pc.Drop?
    ensures Inv(Step(s, t))
  {
    hide Inv, Step;
    var pc := s.pc[t];
    if pc.Test? { TestStep(s, t); }
    else if pc.FindDrop? { FindSource(s, t); }
    else if pc.Drop? { DropStep(s, t); }
    else if s.objs[pc.o].regions == [] { FreeStep(s, t); }
    else { LoopRegion(s, t); }
  }

  lemma StepKeeps(s: Sys, t: nat)
    requires Inv(s) && Ready(s, t)
    ensures Inv(Step(s, t))
  {
    hide Inv, Step;
    var pc := s.pc[t];
    if Locking(pc) { LockingStep(s, t); }
    else if pc.Find? || pc.FindDestroy? { FindOne(s, t); }
    else if pc.FindTwo? { FindBoth(s, t); }
    else if pc.Work? { WorkStep(s, t); }
    else if pc.WorkTwo? { WorkTwoStep(s, t); }
    else if pc.Release? { ReleaseStep(s, t); }
    else if pc.AddTable? { AddStep(s, t); }
    else { DestroyKeeps(s, t); }
  }

  lemma EnterKeeps(s: Sys, t: nat, c: Call)
    requires Inv(s) && t < |s.pc| && s.pc[t].Idle? && CanCall(s, c)
    ensures Inv(Enter(s, t, c))
  {
    hide Inv;
    match c
    case CallRelease(o) => EnterRelease(s, t, o);
    case CallCreate(id) => EnterCreate(s, t, id);
    case _ => EnterQuiet(s, t, c);
  }

  lemma InitialInv(s: Sys)
    requires Initial(s)
    ensures Inv(s)
  {}

  lemma {:induction false} RunKeeps(states: seq<Sys>, acts: seq<Action>, i: nat)
    requires IsRun(states, acts) && i < |states|
    ensures Inv(states[i])
  {
    hide Inv, Step, Enter;
    if i == 0 {
      InitialInv(states[0]);
    } else {
      RunKeeps(states, acts, i - 1);
      var a := acts[i - 1];
      assert StepsTo(states[i - 1], a, states[i]);
      match a
      case Begin(t, c) => EnterKeeps(states[i - 1], t, c);
      case Go(t) => StepKeeps(states[i - 1], t);
    }
  }

  lemma RunPoint(states: seq<Sys>, acts: seq<Action>, i: nat, t: nat)
    requires IsRun(states, acts) && i < |states| && t < |states[i].pc|
    ensures PcOk(states[i], t, states[i].pc[t])
    ensures states[i].pc[t].WorkTwo? ==> states[i].pc[t].x != states[i].pc[t].y
  {
    hide IsRun;
    RunKeeps(states, acts, i);
    InvPoint(states[i], t);
  }

  // Consequences

  lemma {:induction false} SomeMapping(rs: seq<Region>, k: nat, x: nat)
    requires k < |rs| && rs[k].kind == Smart(x)
    ensures CountMaps(rs, x) > 0
  {
    if k > 0 { SomeMapping(rs[1..], k - 1, x); }
  }

  lemma {:induction false} MappingsInclude(objs: seq<Aspace>, o: nat, x: nat)
    requires o < |objs|
    ensures CountMaps(objs[o].regions, x) <= Mappings(objs, x)
  {
    if o > 0 { MappingsInclude(objs[1..], o - 1, x); }
  }

  /** The source of every SMARTMAP region is in the table, with a reference for each mapping
      and each acquire, so its destruction is refused. */
  lemma SourceOutlives(states: seq<Sys>, acts: seq<Action>, i: nat, o: nat, k: nat, x: nat)
    requires IsRun(states, acts) && i < |states| && o < |states[i].objs|
    requires k < |states[i].objs[o].regions| && states[i].objs[o].regions[k].kind == Smart(x)
    ensures var s := states[i];
            && x in s.table && s.table[x] < |s.objs| && |s.acquired| == |s.objs| == |s.leaked|
            && s.objs[s.table[x]].refcnt == s.acquired[s.table[x]] + Releasing(s.pc, s.table[x]) + s.leaked[s.table[x]] + Mappings(s.objs, x)
            && Mappings(s.objs, x) > 0
  {
    var s := states[i];
    RunKeeps(states, acts, i);
    SomeMapping(s.objs[o].regions, k, x);
    MappingsInclude(s.objs, o, x);
    hide LocksOk, PointsOk;
    assert RefOk(s, s.table[x]);
  }

  /** An acquired aspace stays in the table until it is released. */
  lemma AcquiredStays(states: seq<Sys>, acts: seq<Action>, i: nat, o: nat)
    requires IsRun(states, acts) && i < |states| && o < |states[i].objs|
    ensures var s := states[i];
            |s.acquired| == |s.objs| &&
            (s.acquired[o] + Releasing(s.pc, o) > 0 ==> s.objs[o].life.Tabled? && s.objs[o].refcnt > 0)
  {
    RunKeeps(states, acts, i);
    assert RefOk(states[i], o);
  }

  /** The lookup of a mapping's source during a destruction finds it. */
  lemma LookupFinds(states: seq<Sys>, acts: seq<Action>, i: nat, t: nat)
    requires IsRun(states, acts) && i < |states| && t < |states[i].pc| && states[i].pc[t].FindDrop?
    ensures states[i].pc[t].x in states[i].table
  {
    RunKeeps(states, acts, i);
    InvPoint(states[i], t);
    SourceFound(states[i], states[i].pc[t].o, states[i].pc[t].x);
  }

  /** Whenever a processor waits for a lock, one that holds a lock can make a step. */
  lemma NeverDeadlocked(states: seq<Sys>, acts: seq<Action>, i: nat, t: nat)
    requires IsRun(states, acts) && i < |states| && t < |states[i].pc| && Blocked(states[i], t)
    ensures exists u: nat :: Ready(states[i], u) && HoldsSome(states[i].pc[u])
  {
    RunKeeps(states, acts, i);
    var u := NoDeadlock(states[i], t);
  }

  /** The holder of a lock is not a processor that waits for the table's lock, and one that
      waits for an aspace's lock while it holds another one holds the table's lock as well. */
  lemma LockOrder(states: seq<Sys>, acts: seq<Action>, i: nat, t: nat)
    requires IsRun(states, acts) && i < |states| && t < |states[i].pc|
    ensures var s, w := states[i], WantsLock(states[i].pc[t]);
            && (WantsTable(s.pc[t]) ==> s.hlock != t && forall o: nat :: o < |s.objs| ==> s.objs[o].lock != t)
            && (w >= 0 ==> w < |s.objs| && s.objs[w].lock != t)
            && (w >= 0 && (exists o: nat :: o < |s.objs| && s.objs[o].lock == t) ==> s.hlock == t)
  {
    RunKeeps(states, acts, i);
    var s := states[i];
    InvPoint(s, t);
    hide TableOk, PointsOk, RefsOk;
    forall o: nat | o < |s.objs| ensures s.objs[o].lock == t <==> o in HasLocks(s.pc[t]) { assert LockOk(s, o); }
  }
}
