/** Kitten address spaces: the lock protocol and reference counts, as steps of processors
    that run concurrently. Each processor runs one function at a time with interrupts off,
    and waits for spin locks. */
module Aspaces {

  /** A region is ordinary memory, the kernel's part, or another aspace mapped by SMARTMAP. */
  datatype Kind = Plain | Kernel | Smart(src: nat)
  datatype Region = Region(start: nat, end: nat, kind: Kind)

  /** A new aspace belongs to its creator, then it is in the hash table, then to its destroyer. */
  datatype Life = Fresh(who: nat) | Tabled | Dying(who: nat) | Freed

  const NOBODY: int := -1
  const PAGE_OFFSET: nat := 0xffff_8100_0000_0000
  const ULONG_MAX: nat := 0xffff_ffff_ffff_ffff

  datatype Aspace = Aspace(id: nat, refcnt: int, regions: seq<Region>, lock: int, life: Life)

  datatype Op = Acquire | Look | Add(start: nat, end: nat) | Delete(start: nat, end: nat)

  datatype Pc =
    | Idle
    // lookup_and_lock and the work under the lock
    | Want(op: Op, id: nat) | Find(op: Op, id: nat) | WantObj(op: Op, o: nat) | Have(op: Op, o: nat) | Work(op: Op, o: nat)
    // lookup_and_lock_two for (un)smartmap of a into b
    | WantTwo(on: bool, a: nat, b: nat, r: Region) | FindTwo(on: bool, a: nat, b: nat, r: Region)
    | WantSrc(on: bool, x: nat, y: nat, r: Region) | WantDst(on: bool, x: nat, y: nat, r: Region)
    | HaveTwo(on: bool, x: nat, y: nat, r: Region) | WorkTwo(on: bool, x: nat, y: nat, r: Region) | UnlockDst(y: nat)
    // aspace_release
    | WantRelease(o: nat) | Release(o: nat)
    // aspace_create
    | WantAdd(o: nat) | AddTable(o: nat)
    // aspace_destroy
    | WantDestroy(id: nat) | FindDestroy(id: nat) | WantVictim(o: nat) | Test(o: nat) | Busy(o: nat)
    | Removed(o: nat) | Unlocking(o: nat) | Loop(o: nat)
    | WantDrop(o: nat, x: nat) | FindDrop(o: nat, x: nat) | WantLock(o: nat, src: nat) | Drop(o: nat, src: nat)
    | UnlockSrc(o: nat, src: nat) | UnlockTable(o: nat)

  /** Aspaces by creation order, the hash table, processors, identifiers in use, and for each
      aspace how many acquires are not yet being released, and how many of its mappings were
      deleted without dropping their reference. */
  datatype Sys = Sys(objs: seq<Aspace>, table: map<nat, nat>, hlock: int, pc: seq<Pc>, ids: set<nat>,
                     acquired: seq<nat>, leaked: seq<nat>)

  /** Whether a processor at this point holds the hash table's lock, and which aspace locks. */
  predicate HasTable(pc: Pc) {
    || pc.Find? || pc.WantObj? || pc.Have? || pc.FindTwo? || pc.WantSrc? || pc.WantDst? || pc.HaveTwo? || pc.AddTable?
    || pc.FindDestroy? || pc.WantVictim? || pc.Test? || pc.Busy? || pc.Removed?
    || pc.FindDrop? || pc.WantLock? || pc.Drop? || pc.UnlockSrc? || pc.UnlockTable?
  }

  function HasLocks(pc: Pc): (r: set<nat>) {
    match pc
    case Have(_, o) => {o}
    case Work(_, o) => {o}
    case WantDst(_, x, _, _) => {x}
    case HaveTwo(_, x, y, _) => {x, y}
    case WorkTwo(_, x, y, _) => {x, y}
    case UnlockDst(y) => {y}
    case Release(o) => {o}
    case Test(o) => {o}
    case Removed(o) => {o}
    case Unlocking(o) => {o}
    case Drop(_, src) => {src}
    case UnlockSrc(_, src) => {src}
    case _ => {}
  }

  /** What a processor at this point waits for. */
  predicate WantsTable(pc: Pc) {
    pc.Want? || pc.WantTwo? || pc.WantAdd? || pc.WantDestroy? || pc.WantDrop?
  }

  function WantsLock(pc: Pc): (r: int)
    ensures r >= NOBODY
  {
    match pc
    case WantObj(_, o) => o
    case WantSrc(_, x, _, _) => x
    case WantDst(_, _, y, _) => y
    case WantRelease(o) => o
    case WantVictim(o) => o
    case WantLock(_, src) => src
    case _ => NOBODY
  }

  /** What a processor at this point is about to give back. */
  predicate LetsTable(pc: Pc) {
    pc.Have? || pc.HaveTwo? || pc.Busy? || pc.Removed? || pc.UnlockTable?
  }

  function LetsLock(pc: Pc): (r: int)
    ensures r >= NOBODY
  {
    match pc
    case UnlockDst(y) => y
    case Unlocking(o) => o
    case UnlockSrc(_, src) => src
    case _ => NOBODY
  }

  /** Points whose next statement only takes or gives back one lock. */
  predicate Locking(pc: Pc) {
    WantsTable(pc) || WantsLock(pc) >= 0 || LetsTable(pc) || LetsLock(pc) >= 0
  }

  /** Where a processor is after that statement. */
  function After(pc: Pc): (r: Pc) {
    match pc
    case Want(op, id) => Find(op, id)
    case WantTwo(on, a, b, r) => FindTwo(on, a, b, r)
    case WantAdd(o) => AddTable(o)
    case WantDestroy(id) => FindDestroy(id)
    case WantDrop(o, x) => FindDrop(o, x)
    case WantObj(op, o) => Have(op, o)
    case WantSrc(on, x, y, r) => WantDst(on, x, y, r)
    case WantDst(on, x, y, r) => HaveTwo(on, x, y, r)
    case WantRelease(o) => Release(o)
    case WantVictim(o) => Test(o)
    case WantLock(o, src) => Drop(o, src)
    case Have(op, o) => Work(op, o)
    case HaveTwo(on, x, y, r) => WorkTwo(on, x, y, r)
    case Removed(o) => Unlocking(o)
    case UnlockTable(o) => Loop(o)
    case Unlocking(o) => Loop(o)
    case UnlockSrc(o, _) => UnlockTable(o)
    case _ => Idle
  }

  /** A processor is blocked while another holds the lock it waits for. */
  ghost predicate Blocked(s: Sys, t: nat)
    requires t < |s.pc|
  {
    var pc := s.pc[t];
    (WantsTable(pc) && s.hlock != NOBODY) || (0 <= WantsLock(pc) < |s.objs| && s.objs[WantsLock(pc)].lock != NOBODY)
  }

  // Calls

  datatype Call =
    | CallOp(op: Op, id: nat) | CallTwo(on: bool, a: nat, b: nat, r: Region) | CallRelease(o: nat)
    | CallCreate(id: nat) | CallDestroy(id: nat)

  /** What callers may do: (un)smartmap refuses an aspace with itself before anything else,
      a release gives back an acquire, and a new identifier is one not in use. */
  ghost predicate CanCall(s: Sys, c: Call) {
    match c
    case CallTwo(_, a, b, _) => a != b
    case CallRelease(o) => o < |s.objs| && |s.acquired| == |s.objs| && s.acquired[o] > 0
    case CallCreate(id) => id !in s.ids
    case _ => true
  }

  ghost function Enter(s: Sys, t: nat, c: Call): (r: Sys)
    requires t < |s.pc| && CanCall(s, c)
  {
    match c
    case CallOp(op, id) => At(s, t, Want(op, id))
    case CallTwo(on, a, b, r) => At(s, t, WantTwo(on, a, b, r))
    case CallRelease(o) => At(s.(acquired := s.acquired[o := s.acquired[o] - 1]), t, WantRelease(o))
    case CallDestroy(id) => At(s, t, WantDestroy(id))
    case CallCreate(id) =>
      At(s.(objs := s.objs + [Aspace(id, 0, [Region(PAGE_OFFSET, ULONG_MAX, Kernel)], NOBODY, Fresh(t))],
            ids := s.ids + {id}, acquired := s.acquired + [0], leaked := s.leaked + [0]), t, WantAdd(|s.objs|))
  }

  // Parts of steps

  ghost function At(s: Sys, t: nat, pc: Pc): (r: Sys)
    requires t < |s.pc|
  {
    s.(pc := s.pc[t := pc])
  }

  ghost function SetLock(s: Sys, o: nat, holder: int): (r: Sys)
    requires o < |s.objs|
  {
    s.(objs := s.objs[o := s.objs[o].(lock := holder)])
  }

  ghost function SetObj(s: Sys, o: nat, refcnt: int, regions: seq<Region>, life: Life): (r: Sys)
    requires o < |s.objs|
  {
    s.(objs := s.objs[o := s.objs[o].(refcnt := refcnt, regions := regions, life := life)])
  }

  predicate Overlaps(rs: seq<Region>, start: nat, end: nat) {
    exists k :: 0 <= k < |rs| && start < rs[k].end && end > rs[k].start
  }

  predicate Maps(rs: seq<Region>, x: nat) {
    exists k :: 0 <= k < |rs| && rs[k].kind == Smart(x)
  }

  /** The first region with this property taken out of the list. */
  function Cut(rs: seq<Region>, start: nat, end: nat): (r: seq<Region>) {
    if rs == [] then []
    else if rs[0].start <= start < rs[0].end then
      if rs[0].start == start && rs[0].end == end && rs[0].kind != Kernel then rs[1..] else rs
    else [rs[0]] + Cut(rs[1..], start, end)
  }

  function Unmap(rs: seq<Region>, x: nat): (r: seq<Region>) {
    if rs == [] then [] else if rs[0].kind == Smart(x) then rs[1..] else [rs[0]] + Unmap(rs[1..], x)
  }

  /** Insertion before the first region with a greater start. */
  function Insert(rs: seq<Region>, r: Region): (res: seq<Region>) {
    if rs == [] || rs[0].start > r.start then [r] + rs else [rs[0]] + Insert(rs[1..], r)
  }

  /** The work of a function on one locked aspace. */
  ghost function OpResult(a: Aspace, op: Op): (r: Aspace) {
    match op
    case Acquire => a.(refcnt := a.refcnt + 1)
    case Look => a
    case Add(start, end) =>
      if start == 0 || start >= end || Overlaps(a.regions, start, end) then a
      else a.(regions := Insert(a.regions, Region(start, end, Plain)))
    case Delete(start, end) => a.(regions := Cut(a.regions, start, end))
  }

  /** The region that a deletion takes out is a mapping of aspace x. */
  predicate Leaks(rs: seq<Region>, start: nat, end: nat, x: nat) {
    rs != [] && if rs[0].start <= start < rs[0].end then rs[0] == Region(start, end, Smart(x)) else Leaks(rs[1..], start, end, x)
  }

  predicate OpLeaks(a: Aspace, op: Op, x: nat) {
    op.Delete? && Leaks(a.regions, op.start, op.end, x)
  }

  ghost function LeakedBy(s: Sys, o: nat, op: Op): (r: seq<nat>)
    requires o < |s.objs| == |s.leaked|
  {
    seq(|s.leaked|, p requires 0 <= p < |s.leaked| =>
      s.leaked[p] + if s.objs[p].life.Tabled? && OpLeaks(s.objs[o], op, s.objs[p].id) then 1 else 0)
  }

  const SMARTMAP_ALIGN: nat := 0x80_0000_0000

  predicate Misaligned(r: Region) {
    r.start % SMARTMAP_ALIGN != 0 || r.end % SMARTMAP_ALIGN != 0
  }

  /** __aspace_smartmap and __aspace_unsmartmap. */
  ghost function TwoResult(s: Sys, on: bool, x: nat, y: nat, r: Region): (res: Sys)
    requires x < |s.objs| && y < |s.objs|
    ensures res == s.(objs := res.objs) && |res.objs| == |s.objs|
  {
    var a, b := s.objs[x], s.objs[y];
    if on then
      if Maps(b.regions, a.id) || r.start >= r.end || Misaligned(r) || r.start == 0 || Overlaps(b.regions, r.start, r.end) then s
      else s.(objs := s.objs[y := b.(regions := Insert(b.regions, r.(kind := Smart(a.id))))][x := a.(refcnt := a.refcnt + 1)])
    else
      if !Maps(b.regions, a.id) then s
      else s.(objs := s.objs[y := b.(regions := Unmap(b.regions, a.id))][x := a.(refcnt := a.refcnt - 1)])
  }

  // Steps

  ghost predicate InBounds(s: Sys) {
    && |s.acquired| == |s.objs| == |s.leaked|
    && forall id :: id in s.table ==> s.table[id] < |s.objs|
  }

  /** The aspaces that a program point names exist. */
  predicate Named(pc: Pc, n: nat) {
    match pc
    case WantSrc(_, x, y, _) => x < n && y < n
    case WantDst(_, x, y, _) => x < n && y < n
    case HaveTwo(_, x, y, _) => x < n && y < n
    case WorkTwo(_, x, y, _) => x < n && y < n
    case UnlockDst(y) => y < n
    case WantLock(o, src) => o < n && src < n
    case Drop(o, src) => o < n && src < n
    case UnlockSrc(o, src) => o < n && src < n
    case Idle | Want(_, _) | Find(_, _) | WantTwo(_, _, _, _) | FindTwo(_, _, _, _) | WantDestroy(_) | FindDestroy(_) => true
    case WantObj(_, _) | Have(_, _) | Work(_, _) | WantRelease(_) | Release(_) | WantAdd(_) | AddTable(_) => pc.o < n
    case WantVictim(_) | Test(_) | Busy(_) | Removed(_) | Unlocking(_) | Loop(_) => pc.o < n
    case WantDrop(_, _) | FindDrop(_, _) | UnlockTable(_) => pc.o < n
  }

  ghost predicate Ready(s: Sys, t: nat) {
    t < |s.pc| && InBounds(s) && !s.pc[t].Idle? && !Blocked(s, t) && Named(s.pc[t], |s.objs|)
  }

  ghost function LockStep(s: Sys, t: nat): (r: Sys)
    requires Ready(s, t) && Locking(s.pc[t])
  {
    var pc := s.pc[t];
    At(if WantsTable(pc) then s.(hlock := t)
       else if WantsLock(pc) >= 0 then SetLock(s, WantsLock(pc), t)
       else if LetsTable(pc) then s.(hlock := NOBODY)
       else SetLock(s, LetsLock(pc), NOBODY), t, After(pc))
  }

  ghost function Step(s: Sys, t: nat): (r: Sys)
    requires Ready(s, t)
  {
    if Locking(s.pc[t]) then LockStep(s, t) else WorkingStep(s, t)
  }

  ghost function WorkingStep(s: Sys, t: nat): (r: Sys)
    requires Ready(s, t) && !Locking(s.pc[t])
  {
    var s0 := s.(hlock := NOBODY);
    match s.pc[t]
    case Find(op, id) => if id in s.table then At(s, t, WantObj(op, s.table[id])) else At(s0, t, Idle)
    case Work(op, o) =>
      var s1 := s.(objs := s.objs[o := OpResult(s.objs[o], op).(lock := NOBODY)], leaked := LeakedBy(s, o, op));
      At(if op.Acquire? then s1.(acquired := s1.acquired[o := s1.acquired[o] + 1]) else s1, t, Idle)
    case FindTwo(on, a, b, r) =>
      if a in s.table && b in s.table then At(s, t, WantSrc(on, s.table[a], s.table[b], r)) else At(s0, t, Idle)
    case WorkTwo(on, x, y, r) => At(SetLock(TwoResult(s, on, x, y, r), x, NOBODY), t, UnlockDst(y))
    case Release(o) =>
      At(s.(objs := s.objs[o := s.objs[o].(refcnt := s.objs[o].refcnt - 1, lock := NOBODY)]), t, Idle)
    case AddTable(o) =>
      At(SetObj(s0, o, s.objs[o].refcnt, s.objs[o].regions, Tabled).(table := s.table[s.objs[o].id := o]), t, Idle)
    case FindDestroy(id) => if id in s.table then At(s, t, WantVictim(s.table[id])) else At(s0, t, Idle)
    case Test(o) =>
      if s.objs[o].refcnt != 0 then At(SetLock(s, o, NOBODY), t, Busy(o))
      else At(SetObj(s, o, 0, s.objs[o].regions, Dying(t)).(table := s.table - {s.objs[o].id}), t, Removed(o))
    case Loop(o) =>
      var rs := s.objs[o].regions;
      if rs == [] then At(SetObj(s, o, s.objs[o].refcnt, [], Freed).(ids := s.ids - {s.objs[o].id}), t, Idle)
      else if rs[0].kind.Smart? then At(s, t, WantDrop(o, rs[0].kind.src))
      else At(SetObj(s, o, s.objs[o].refcnt, rs[1..], s.objs[o].life), t, Loop(o))
    case FindDrop(o, x) => if x in s.table then At(s, t, WantLock(o, s.table[x])) else s
    case Drop(o, src) =>
      var s1 := SetObj(s, src, s.objs[src].refcnt - 1, s.objs[src].regions, s.objs[src].life);
      var rs := s1.objs[o].regions;
      At(SetObj(s1, o, s1.objs[o].refcnt, if rs == [] then [] else rs[1..], s1.objs[o].life), t, UnlockSrc(o, src))
    case _ => s
  }
}
