/** In every run the regions of every aspace are sorted and do not overlap. */
module AspaceRegions {
  import opened Aspaces
  import opened AspaceInvariant
  import opened AspaceRuns

  predicate Sorted(rs: seq<Region>) {
    && (forall i :: 0 <= i < |rs| ==> rs[i].start < rs[i].end)
    && (forall i, j :: 0 <= i < j < |rs| ==> rs[i].end <= rs[j].start)
  }

  ghost predicate RegionsOk(s: Sys) {
    forall o :: 0 <= o < |s.objs| ==> Sorted(s.objs[o].regions)
  }

  lemma SortedTail(rs: seq<Region>)
    requires Sorted(rs) && rs != []
    ensures Sorted(rs[1..]) && forall x :: x in rs[1..] ==> rs[0].end <= x.start
  {}

  lemma SortedCons(r: Region, rs: seq<Region>)
    requires Sorted(rs) && r.start < r.end && forall x :: x in rs ==> r.end <= x.start
    ensures Sorted([r] + rs)
  {}

  /** Inserting a region that overlaps no other one. */
  lemma {:induction false} InsertSorted(rs: seq<Region>, r: Region)
    requires Sorted(rs) && r.start < r.end && !Overlaps(rs, r.start, r.end)
    ensures Sorted(Insert(rs, r))
    ensures forall x :: x in Insert(rs, r) ==> x in rs || x == r
  {
    if rs == [] || rs[0].start > r.start {
      forall i | 0 <= i < |rs| ensures r.end <= rs[i].start { assert !(r.start < rs[i].end && r.end > rs[i].start); }
      SortedCons(r, rs);
    } else {
      assert rs[0].end <= r.start;
      SortedTail(rs);
      InsertSorted(rs[1..], r);
      SortedCons(rs[0], Insert(rs[1..], r));
    }
  }

  lemma {:induction false} CutSorted(rs: seq<Region>, start: nat, end: nat)
    requires Sorted(rs)
    ensures Sorted(Cut(rs, start, end)) && forall x :: x in Cut(rs, start, end) ==> x in rs
  {
    if rs != [] {
      SortedTail(rs);
      if !(rs[0].start <= start < rs[0].end) {
        CutSorted(rs[1..], start, end);
        SortedCons(rs[0], Cut(rs[1..], start, end));
      }
    }
  }

  lemma {:induction false} UnmapSorted(rs: seq<Region>, x: nat)
    requires Sorted(rs)
    ensures Sorted(Unmap(rs, x)) && forall y :: y in Unmap(rs, x) ==> y in rs
  {
    if rs != [] {
      SortedTail(rs);
      if rs[0].kind != Smart(x) {
        UnmapSorted(rs[1..], x);
        SortedCons(rs[0], Unmap(rs[1..], x));
      }
    }
  }

  lemma OpSorted(a: Aspace, op: Op)
    requires Sorted(a.regions)
    ensures Sorted(OpResult(a, op).regions)
  {
    hide Sorted, Insert, Cut;
    match op
    case Add(start, end) =>
      if start < end && !Overlaps(a.regions, start, end) { InsertSorted(a.regions, Region(start, end, Plain)); }
    case Delete(start, end) => CutSorted(a.regions, start, end);
    case _ =>
  }

  lemma TwoSorted(s: Sys, on: bool, x: nat, y: nat, g: Region)
    requires RegionsOk(s) && x < |s.objs| && y < |s.objs| && x != y
    ensures RegionsOk(TwoResult(s, on, x, y, g))
  {
    hide Sorted, Insert, Unmap, Maps, Misaligned;
    var a, b := s.objs[x], s.objs[y];
    if on {
      if g.start < g.end && !Overlaps(b.regions, g.start, g.end) { InsertSorted(b.regions, g.(kind := Smart(a.id))); }
    } else {
      UnmapSorted(b.regions, a.id);
    }
  }

  /** The points at which regions change. */
  predicate Changes(pc: Pc) {
    pc.Work? || pc.WorkTwo? || pc.Loop? || pc.Drop?
  }

  lemma SameRegions(s: Sys, t: nat)
    requires Ready(s, t) && !Changes(s.pc[t])
    ensures |Step(s, t).objs| == |s.objs| && forall o :: 0 <= o < |s.objs| ==> Step(s, t).objs[o].regions == s.objs[o].regions
  {
    hide TwoResult, OpResult, LeakedBy, After, WantsTable, LetsTable;
  }

  lemma LoopRegions(s: Sys, t: nat)
    requires RegionsOk(s) && Ready(s, t) && (s.pc[t].Loop? || s.pc[t].Drop?)
    ensures RegionsOk(Step(s, t))
  {
    hide Sorted, TwoResult, OpResult, LeakedBy;
    var rs := s.objs[s.pc[t].o].regions;
    if rs != [] { SortedTail(rs); }
  }

  lemma StepRegions(s: Sys, t: nat)
    requires RegionsOk(s) && Ready(s, t) && (s.pc[t].WorkTwo? ==> s.pc[t].x != s.pc[t].y)
    ensures RegionsOk(Step(s, t))
  {
    hide Sorted, TwoResult, OpResult, LeakedBy;
    var pc := s.pc[t];
    if pc.Work? { OpSorted(s.objs[pc.o], pc.op); }
    else if pc.WorkTwo? { TwoSorted(s, pc.on, pc.x, pc.y, pc.r); }
    else if pc.Loop? || pc.Drop? { LoopRegions(s, t); }
    else { SameRegions(s, t); }
  }

  lemma EnterRegions(s: Sys, t: nat, c: Call)
    requires RegionsOk(s) && t < |s.pc| && CanCall(s, c)
    ensures RegionsOk(Enter(s, t, c))
  {}

  /** Regions stay sorted and apart in every state of every run, half-destroyed aspaces included. */
  lemma {:induction false} RegionsApart(states: seq<Sys>, acts: seq<Action>, i: nat)
    requires IsRun(states, acts) && i < |states|
    ensures RegionsOk(states[i])
  {
    hide Step, Enter, RegionsOk;
    if i == 0 {
      NoRegions(states[0]);
    } else {
      RegionsApart(states, acts, i - 1);
      assert StepsTo(states[i - 1], acts[i - 1], states[i]);
      match acts[i - 1]
      case Begin(t, c) => EnterRegions(states[i - 1], t, c);
      case Go(t) =>
        RunPoint(states, acts, i - 1, t);
        StepRegions(states[i - 1], t);
    }
  }

  lemma NoRegions(s: Sys)
    requires s.objs == []
    ensures RegionsOk(s)
  {}

  /** find_smartmap_region: the first mapping of aspace x. */
  function FindSmart(rs: seq<Region>, x: nat): (k: nat)
    requires Maps(rs, x)
    ensures k < |rs| && rs[k].kind == Smart(x) && forall i :: 0 <= i < k ==> rs[i].kind != Smart(x)
  {
    if rs[0].kind == Smart(x) then 0
    else
      assert exists i :: 0 <= i < |rs[1..]| && rs[1..][i].kind == Smart(x) by {
        var i :| 0 <= i < |rs| && rs[i].kind == Smart(x);
        assert rs[1..][i - 1] == rs[i];
      }
      FindSmart(rs[1..], x) + 1
  }

  /** Deleting the region that was found by its bounds takes out that mapping and nothing else. */
  lemma {:induction false} CutIsUnmap(rs: seq<Region>, x: nat)
    requires Sorted(rs) && Maps(rs, x)
    ensures var r := rs[FindSmart(rs, x)]; Cut(rs, r.start, r.end) == Unmap(rs, x)
    ensures |Unmap(rs, x)| == |rs| - 1
  {
    var k := FindSmart(rs, x);
    if k > 0 {
      SortedTail(rs);
      assert rs[1..][k - 1] == rs[k];
      CutIsUnmap(rs[1..], x);
      assert rs[0].end <= rs[k].start;
    }
  }

  /** Unmapping: __aspace_del_region finds the region in every run, so its BUG_ON does not fire,
      and what it leaves is the list without the mapping. */
  lemma UnmapDeletes(states: seq<Sys>, acts: seq<Action>, i: nat, t: nat)
    requires IsRun(states, acts) && i < |states| && t < |states[i].pc| && states[i].pc[t].WorkTwo? && !states[i].pc[t].on
    ensures var s, pc := states[i], states[i].pc[t];
            && pc.x < |s.objs| && pc.y < |s.objs|
            && var rs, id := s.objs[pc.y].regions, s.objs[pc.x].id;
            Maps(rs, id) ==>
              var r := rs[FindSmart(rs, id)];
              Cut(rs, r.start, r.end) == TwoResult(s, false, pc.x, pc.y, pc.r).objs[pc.y].regions && |Cut(rs, r.start, r.end)| == |rs| - 1
  {
    hide IsRun, Cut, Unmap, Insert, Overlaps, Sorted;
    RegionsApart(states, acts, i);
    RunPoint(states, acts, i, t);
    var s, pc := states[i], states[i].pc[t];
    if Maps(s.objs[pc.y].regions, s.objs[pc.x].id) { CutIsUnmap(s.objs[pc.y].regions, s.objs[pc.x].id); }
  }
}
