/** What the operations on address spaces do to the lists of regions, told by positions, and
    what a whole call does when nothing else runs. */
module AspaceEffects {
  import opened Aspaces
  import opened AspaceInvariant
  import opened AspaceSteps
  import opened AspaceRuns
  import opened AspaceRegions

  /** Region k has exactly these bounds and is not the kernel's. */
  predicate Deletable(rs: seq<Region>, k: nat, start: nat, end: nat) {
    k < |rs| && rs[k].start == start && rs[k].end == end && !rs[k].kind.Kernel?
  }

  /** aspace_del_region: the region with these bounds is taken out; without one nothing changes. */
  ghost predicate Deletes(rs: seq<Region>, rs': seq<Region>, start: nat, end: nat) {
    && (forall k: nat :: Deletable(rs, k, start, end) ==> rs' == rs[..k] + rs[k + 1..])
    && ((forall k: nat :: !Deletable(rs, k, start, end)) ==> rs' == rs)
  }

  /** The region is apart from all others. */
  predicate ApartFrom(rs: seq<Region>, start: nat, end: nat) {
    forall k :: 0 <= k < |rs| ==> end <= rs[k].start || rs[k].end <= start
  }

  /** The region is put between those below and those above it. */
  ghost predicate Inserts(rs: seq<Region>, rs': seq<Region>, r: Region, k: nat) {
    && k <= |rs| && rs' == rs[..k] + [r] + rs[k..]
    && (forall i :: 0 <= i < k ==> rs[i].end <= r.start) && (forall i :: k <= i < |rs| ==> r.end <= rs[i].start)
  }

  /** aspace_add_region: the region is entered exactly if it has a start, a size, and no overlap. */
  ghost predicate Adds(rs: seq<Region>, rs': seq<Region>, r: Region) {
    if 0 < r.start < r.end && ApartFrom(rs, r.start, r.end) then exists k: nat :: Inserts(rs, rs', r, k) else rs' == rs
  }

  /** The first mapping of aspace x is taken out. */
  ghost predicate Unmaps(rs: seq<Region>, rs': seq<Region>, x: nat) {
    exists k: nat :: k < |rs| && rs[k].kind == Smart(x) && (forall i :: 0 <= i < k ==> rs[i].kind != Smart(x)) && rs' == rs[..k] + rs[k + 1..]
  }

  lemma ConsWithout(rs: seq<Region>, k: nat)
    requires 0 < k < |rs|
    ensures [rs[0]] + (rs[1..][..k - 1] + rs[1..][k..]) == rs[..k] + rs[k + 1..]
  {
    assert rs[1..][k..] == rs[k + 1..];
    assert [rs[0]] + rs[1..][..k - 1] == rs[..k];
  }

  lemma HeadBelow(rs: seq<Region>, k: nat)
    requires Sorted(rs) && 0 < k < |rs|
    ensures Sorted(rs[1..]) && rs[0].end <= rs[k].start
  {
    SortedTail(rs);
    assert rs[1..][k - 1] == rs[k];
  }

  lemma CutHead(rs: seq<Region>, start: nat, end: nat)
    requires rs != [] && rs[0].end <= start
    ensures Cut(rs, start, end) == [rs[0]] + Cut(rs[1..], start, end)
  {}

  lemma {:induction false} CutAt(rs: seq<Region>, start: nat, end: nat, k: nat)
    requires Sorted(rs) && Deletable(rs, k, start, end)
    ensures Cut(rs, start, end) == rs[..k] + rs[k + 1..]
  {
    if k == 0 {
      CutFirst(rs, start, end);
    } else {
      hide Sorted, Cut;
      HeadBelow(rs, k);
      CutHead(rs, start, end);
      assert rs[1..][k - 1] == rs[k];
      CutAt(rs[1..], start, end, k - 1);
      ConsWithout(rs, k);
    }
  }

  lemma CutFirst(rs: seq<Region>, start: nat, end: nat)
    requires Sorted(rs) && Deletable(rs, 0, start, end)
    ensures Cut(rs, start, end) == rs[..0] + rs[1..]
  {}

  lemma {:induction false} CutNone(rs: seq<Region>, start: nat, end: nat)
    requires forall k: nat :: !Deletable(rs, k, start, end)
    ensures Cut(rs, start, end) == rs
  {
    if rs != [] {
      assert !Deletable(rs, 0, start, end);
      forall k: nat ensures !Deletable(rs[1..], k, start, end) { assert !Deletable(rs, k + 1, start, end); }
      CutNone(rs[1..], start, end);
    }
  }

  lemma CutDeletes(rs: seq<Region>, start: nat, end: nat)
    requires Sorted(rs)
    ensures Deletes(rs, Cut(rs, start, end), start, end)
  {
    hide Sorted, Cut, Deletable;
    forall k: nat | Deletable(rs, k, start, end) ensures k < |rs| && Cut(rs, start, end) == rs[..k] + rs[k + 1..] {
      DeletableAt(rs, k, start, end);
      CutAt(rs, start, end, k);
    }
    if forall k: nat :: !Deletable(rs, k, start, end) { CutNone(rs, start, end); }
  }

  lemma DeletableAt(rs: seq<Region>, k: nat, start: nat, end: nat)
    requires Deletable(rs, k, start, end)
    ensures k < |rs|
  {}

  lemma InsertFirst(rs: seq<Region>, r: Region)
    requires Sorted(rs) && r.start < r.end && ApartFrom(rs, r.start, r.end) && (rs == [] || rs[0].start > r.start)
    ensures Inserts(rs, Insert(rs, r), r, 0)
  {
    assert rs[..0] == [] && rs[0..] == rs;
    assert rs != [] ==> forall i :: 0 <= i < |rs| ==> rs[0].start <= rs[i].start;
  }

  lemma InsertLater(rs: seq<Region>, rs': seq<Region>, r: Region, j: nat)
    requires rs != [] && rs[0].end <= r.start && Inserts(rs[1..], rs', r, j)
    ensures Inserts(rs, [rs[0]] + rs', r, j + 1)
  {
    assert rs[..j + 1] == [rs[0]] + rs[1..][..j] && rs[j + 1..] == rs[1..][j..];
    forall i | 0 <= i < j + 1 ensures rs[i].end <= r.start { if i > 0 { assert rs[i] == rs[1..][i - 1]; } }
    forall i | j + 1 <= i < |rs| ensures r.end <= rs[i].start { assert rs[i] == rs[1..][i - 1]; }
  }

  lemma ApartTail(rs: seq<Region>, r: Region)
    requires rs != [] && ApartFrom(rs, r.start, r.end) && rs[0].start <= r.start < r.end
    ensures ApartFrom(rs[1..], r.start, r.end) && rs[0].end <= r.start
  {}

  lemma InsertStep(rs: seq<Region>, r: Region)
    requires rs != [] && rs[0].start <= r.start
    ensures Insert(rs, r) == [rs[0]] + Insert(rs[1..], r)
  {}

  lemma {:induction false} InsertAt(rs: seq<Region>, r: Region) returns (k: nat)
    requires Sorted(rs) && r.start < r.end && ApartFrom(rs, r.start, r.end)
    ensures Inserts(rs, Insert(rs, r), r, k)
  {
    hide Sorted, Insert, Inserts, ApartFrom;
    if rs == [] || rs[0].start > r.start {
      InsertFirst(rs, r);
      k := 0;
    } else {
      SortedTail(rs);
      ApartTail(rs, r);
      InsertStep(rs, r);
      k := InsertAt(rs[1..], r);
      InsertLater(rs, Insert(rs[1..], r), r, k);
      k := k + 1;
    }
  }

  lemma ApartIff(rs: seq<Region>, start: nat, end: nat)
    ensures ApartFrom(rs, start, end) <==> !Overlaps(rs, start, end)
  {}

  lemma {:induction false} UnmapAt(rs: seq<Region>, x: nat)
    requires Maps(rs, x)
    ensures Unmaps(rs, Unmap(rs, x), x)
  {
    var k := FindSmart(rs, x);
    UnmapFirst(rs, x, k);
  }

  lemma {:induction false} UnmapFirst(rs: seq<Region>, x: nat, k: nat)
    requires k < |rs| && rs[k].kind == Smart(x) && forall i :: 0 <= i < k ==> rs[i].kind != Smart(x)
    ensures Unmap(rs, x) == rs[..k] + rs[k + 1..]
  {
    if k > 0 {
      UnmapFirst(rs[1..], x, k - 1);
      assert rs[1..][k - 1 + 1..] == rs[k + 1..] && [rs[0]] + rs[1..][..k - 1] == rs[..k];
    }
  }

  /** The operations under one lock. */
  ghost predicate OpDoes(a: Aspace, a': Aspace, op: Op) {
    match op
    case Acquire => a' == a.(refcnt := a.refcnt + 1)
    case Look => a' == a
    case Add(start, end) => a' == a.(regions := a'.regions) && Adds(a.regions, a'.regions, Region(start, end, Plain))
    case Delete(start, end) => a' == a.(regions := a'.regions) && Deletes(a.regions, a'.regions, start, end)
  }

  lemma OpEffect(a: Aspace, op: Op)
    requires Sorted(a.regions)
    ensures OpDoes(a, OpResult(a, op), op)
  {
    hide Sorted, Insert, Cut, Deletes, Inserts, ApartFrom, Overlaps;
    match op
    case Add(start, end) =>
      ApartIff(a.regions, start, end);
      if start < end && ApartFrom(a.regions, start, end) { var k := InsertAt(a.regions, Region(start, end, Plain)); }
    case Delete(start, end) => CutDeletes(a.regions, start, end);
    case _ =>
  }

  /** (Un)mapping aspace x into y. A mapping is refused if there is one already, or if the range is
      empty, not aligned to 512 GB, at address 0, or overlaps another region. */
  ghost predicate TwoDoes(s: Sys, r: Sys, on: bool, x: nat, y: nat, g: Region)
    requires x < |s.objs| && y < |s.objs|
  {
    var a, b := s.objs[x], s.objs[y];
    var mapped := exists k :: 0 <= k < |b.regions| && b.regions[k].kind == Smart(a.id);
    && |r.objs| == |s.objs| && r == s.(objs := r.objs) && (forall p :: 0 <= p < |s.objs| && p != x && p != y ==> r.objs[p] == s.objs[p])
    && if on then
         if !mapped && 0 < g.start < g.end && g.start % 0x80_0000_0000 == 0 && g.end % 0x80_0000_0000 == 0 && ApartFrom(b.regions, g.start, g.end)
         then
           && (exists k: nat :: Inserts(b.regions, r.objs[y].regions, Region(g.start, g.end, Smart(a.id)), k))
           && r.objs[y] == b.(regions := r.objs[y].regions) && r.objs[x] == a.(refcnt := a.refcnt + 1)
         else r == s
       else
         if mapped
         then
           && Unmaps(b.regions, r.objs[y].regions, a.id)
           && r.objs[y] == b.(regions := r.objs[y].regions) && r.objs[x] == a.(refcnt := a.refcnt - 1)
         else r == s
  }

  lemma TwoEffect(s: Sys, on: bool, x: nat, y: nat, g: Region)
    requires x < |s.objs| && y < |s.objs| && x != y && Sorted(s.objs[y].regions)
    ensures TwoDoes(s, TwoResult(s, on, x, y, g), on, x, y, g)
  {
    hide Sorted, Insert, Unmap, Inserts, Unmaps, ApartFrom, Overlaps;
    var a, b := s.objs[x], s.objs[y];
    ApartIff(b.regions, g.start, g.end);
    if on {
      if g.start < g.end && ApartFrom(b.regions, g.start, g.end) { var k := InsertAt(b.regions, g.(kind := Smart(a.id))); }
    } else if Maps(b.regions, a.id) {
      UnmapAt(b.regions, a.id);
    }
  }

  /** The step under the lock, in every run: exactly this aspace changes, as the operation says. */
  lemma WorkEffect(states: seq<Sys>, acts: seq<Action>, i: nat, t: nat)
    requires IsRun(states, acts) && i < |acts| && acts[i] == Go(t) && t < |states[i].pc| && states[i].pc[t].Work?
    ensures var s, r, o := states[i], states[i + 1], states[i].pc[t].o;
            && o < |s.objs| == |r.objs| && r.table == s.table && r.objs[o].lock == NOBODY
            && OpDoes(s.objs[o], r.objs[o].(lock := s.objs[o].lock), s.pc[t].op)
            && forall p :: 0 <= p < |s.objs| && p != o ==> r.objs[p] == s.objs[p]
  {
    hide OpResult, OpDoes, LeakedBy, RegionsOk;
    RegionsApart(states, acts, i);
    RunPoint(states, acts, i, t);
    assert StepsTo(states[i], acts[i], states[i + 1]);
    var s, o, op := states[i], states[i].pc[t].o, states[i].pc[t].op;
    RegionsAt(s, o);
    OpEffect(s.objs[o], op);
    OpLocks(s.objs[o], op);
  }

  lemma RegionsAt(s: Sys, o: nat)
    requires RegionsOk(s) && o < |s.objs|
    ensures Sorted(s.objs[o].regions)
  {}

  lemma OpLocks(a: Aspace, op: Op)
    ensures OpResult(a, op) == OpResult(a, op).(lock := NOBODY).(lock := a.lock)
  {
    hide Cut, Insert;
  }

  /** The step under both locks, in every run. */
  lemma WorkTwoEffect(states: seq<Sys>, acts: seq<Action>, i: nat, t: nat) returns (r: Sys)
    requires IsRun(states, acts) && i < |acts| && acts[i] == Go(t) && t < |states[i].pc| && states[i].pc[t].WorkTwo?
    ensures var s, pc := states[i], states[i].pc[t];
            && pc.x < |s.objs| && pc.y < |s.objs| && pc.x != pc.y && TwoDoes(s, r, pc.on, pc.x, pc.y, pc.r)
            && states[i + 1] == r.(objs := r.objs[pc.x := r.objs[pc.x].(lock := NOBODY)], pc := s.pc[t := UnlockDst(pc.y)])
  {
    hide TwoResult, TwoDoes, RegionsOk;
    RegionsApart(states, acts, i);
    RunPoint(states, acts, i, t);
    assert StepsTo(states[i], acts[i], states[i + 1]);
    var s, pc := states[i], states[i].pc[t];
    RegionsAt(s, pc.y);
    TwoEffect(s, pc.on, pc.x, pc.y, pc.r);
    r := TwoResult(s, pc.on, pc.x, pc.y, pc.r);
  }
}
