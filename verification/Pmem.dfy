/** Adding, updating, querying and allocating physical memory. */
module Pmem {
  import opened Alignment
  import opened PmemMap

  datatype Status = Success | Invalid | Exists | NotFound | NotPermitted | NoMemory | Bug | Stuck

  /** PMEM_TYPE_UMEM. */
  const UMEM: nat := 5
  const TWO64: nat := 0x1_0000_0000_0000_0000

  predicate Sane(r: Region) {
    r.end > r.start
  }

  predicate IsUmem(r: Region) {
    r.attr.kind == Some(UMEM)
  }

  /** region_matches: the fields that the query sets have those values. */
  predicate Agrees(query: Attr, attr: Attr) {
    && (query.kind.Some? ==> attr.kind == query.kind) && (query.lgroup.Some? ==> attr.lgroup == query.lgroup)
    && (query.taken.Some? ==> attr.taken == query.taken) && (query.name.Some? ==> attr.name == query.name)
  }

  predicate Matches(query: Region, r: Region) {
    Overlaps(query, r) && Agrees(query.attr, r.attr)
  }

  /** The values that are set, each with the field it is for. */
  datatype Field = Kind(kind: nat) | Group(lgroup: nat) | Taken(taken: bool) | Named(name: string)

  ghost function Fields(a: Attr): (r: set<Field>) {
    (if a.kind.Some? then {Kind(a.kind.value)} else {}) + (if a.lgroup.Some? then {Group(a.lgroup.value)} else {})
    + (if a.taken.Some? then {Field.Taken(a.taken.value)} else {}) + (if a.name.Some? then {Named(a.name.value)} else {})
  }

  /** A region matches exactly if it has every value that the query sets. */
  lemma AgreesIff(query: Attr, attr: Attr)
    ensures Agrees(query, attr) <==> Fields(query) <= Fields(attr)
  {
    if Fields(query) <= Fields(attr) {
      assert query.kind.Some? ==> Kind(query.kind.value) in Fields(query);
      assert query.lgroup.Some? ==> Group(query.lgroup.value) in Fields(query);
      assert query.taken.Some? ==> Field.Taken(query.taken.value) in Fields(query);
      assert query.name.Some? ==> Named(query.name.value) in Fields(query);
    }
  }

  /** What the map says of an address has every value that the query sets. */
  ghost predicate Meets(list: seq<Region>, a: nat, query: Attr) {
    Lookup(list, a).Some? && Fields(query) <= Fields(Lookup(list, a).value)
  }

  /** An entry in front of the one that matches, or of a list in which none does, does not meet
      the query anywhere in its range. */
  lemma UnmatchedAt(list: seq<Region>, q: Region, n: nat, a: nat)
    requires Sorted(list) && n <= |list| && (forall j :: 0 <= j < n ==> !Matches(q, list[j])) && Covers(q, a)
    requires forall j :: n <= j < |list| ==> a < list[j].start
    ensures !Meets(list, a, q.attr)
  {
    hide Fields, Agrees;
    if Lookup(list, a).Some? {
      var i := LookupFinds(list, a);
      LookupAt(list, i, a);
      AgreesIff(q.attr, list[i].attr);
    }
  }

  /** What a query finds and where nothing is found, address by address. */
  lemma QueryMeans(list: seq<Region>, q: Region, i: nat)
    requires Sorted(list) && Sane(q) && i <= |list| && (forall j :: 0 <= j < i ==> !Matches(q, list[j])) && (i < |list| ==> Matches(q, list[i]))
    ensures i == |list| ==> forall a: nat :: Covers(q, a) ==> !Meets(list, a, q.attr)
    ensures i < |list| ==>
              var lo, hi := Max(q.start, list[i].start), Min(q.end, list[i].end);
              && Fields(q.attr) <= Fields(list[i].attr) && lo < hi
              && (forall a: nat :: lo <= a < hi ==> Lookup(list, a) == Some(list[i].attr))
              && (forall a: nat :: q.start <= a < lo ==> !Meets(list, a, q.attr))
  {
    hide Fields, Agrees;
    if i == |list| {
      forall a: nat | Covers(q, a) ensures !Meets(list, a, q.attr) { UnmatchedAt(list, q, i, a); }
    } else {
      AgreesIff(q.attr, list[i].attr);
      var lo, hi := Max(q.start, list[i].start), Min(q.end, list[i].end);
      forall a: nat | lo <= a < hi ensures Lookup(list, a) == Some(list[i].attr) { LookupAt(list, i, a); }
      forall a: nat | q.start <= a < lo ensures !Meets(list, a, q.attr) { UnmatchedAt(list, q, i, a); }
    }
  }

  /** An overlap is an address that both have. */
  lemma OverlapMeans(list: seq<Region>, r: Region)
    requires Sorted(list) && Sane(r)
    ensures (exists i :: 0 <= i < |list| && Overlaps(r, list[i])) <==> exists a: nat :: Covers(r, a) && Lookup(list, a).Some?
  {
    if i :| 0 <= i < |list| && Overlaps(r, list[i]) {
      var a := Max(r.start, list[i].start);
      LookupAt(list, i, a);
      assert Covers(r, a);
    }
    if a: nat :| Covers(r, a) && Lookup(list, a).Some? {
      var i := LookupFinds(list, a);
      assert Overlaps(r, list[i]);
    }
  }

  /** round_up on 64-bit addresses, for a power of two. */
  function RoundUp(x: nat, a: nat): (r: nat)
    requires a > 0
  {
    AlignUp(x, a) % TWO64
  }

  /** One step of the merge keeps what is left to do. */
  lemma MergeStep(done: seq<Region>, b: Region, rest: seq<Region>)
    requires done != []
    ensures var n := |done| - 1;
            var next := if Mergeable(done[n], b) then done[n := done[n].(end := b.end)] else done + [b];
            next[..|next| - 1] + MergeFrom(next[|next| - 1], rest) == done[..n] + MergeFrom(done[n], [b] + rest)
  {
    var n := |done| - 1;
    assert ([b] + rest)[0] == b && ([b] + rest)[1..] == rest;
    if Mergeable(done[n], b) {
      var next := done[n := done[n].(end := b.end)];
      assert next[..n] == done[..n];
    } else {
      var m := MergeFrom(b, rest);
      assert (done + [b])[..n + 1] == done[..n] + [done[n]];
      assert done[..n] + [done[n]] + m == done[..n] + ([done[n]] + m);
    }
  }

  lemma {:induction false} UnnamedApply(list: seq<Region>, u: Region)
    requires Unnamed(list) && u.attr.name.None?
    ensures Unnamed(Apply(list, u))
  {
    if list != [] { UnnamedApply(list[1..], u); }
  }

  lemma {:induction false} UnnamedMerge(prev: Region, list: seq<Region>)
    requires Unnamed(list) && prev.attr.name.None?
    ensures Unnamed(MergeFrom(prev, list))
    decreases |list|
  {
    if list != [] {
      if Mergeable(prev, list[0]) { UnnamedMerge(prev.(end := list[0].end), list[1..]); } else { UnnamedMerge(list[0], list[1..]); }
    }
  }

  lemma UnnamedNoClash(list: seq<Region>)
    requires Unnamed(list)
    ensures !NameClash(list) && Unnamed(Merge(list))
  {
    if list != [] { UnnamedMerge(list[0], list[1..]); }
  }

  /** An entry in the range that user space may not change. */
  lemma ForeignAt(list: seq<Region>, u: Region, k: nat)
    requires Sorted(list) && Sane(u) && k < |list| && Overlaps(u, list[k]) && !(IsUmem(u) && IsUmem(list[k]))
    ensures u.attr.kind != Some(5) || exists a: nat :: Covers(u, a) && Lookup(list, a).Some? && Lookup(list, a).value.kind != Some(5)
  {
    var a := Max(u.start, list[k].start);
    LookupAt(list, k, a);
    assert Covers(u, a);
  }

  lemma AllUmem(list: seq<Region>, u: Region)
    requires Sorted(list) && Sane(u) && Known(list, u.start, u.end)
    requires forall i :: 0 <= i < |list| && Overlaps(u, list[i]) ==> IsUmem(u) && IsUmem(list[i])
    ensures u.attr.kind == Some(5) && forall a: nat :: Covers(u, a) ==> Lookup(list, a).Some? && Lookup(list, a).value.kind == Some(5)
  {
    forall a: nat | Covers(u, a)
      ensures u.attr.kind == Some(5) && Lookup(list, a).Some? && Lookup(list, a).value.kind == Some(5)
    {
      var i := LookupFinds(list, a);
      LookupAt(list, i, a);
      assert Overlaps(u, list[i]);
    }
    assert Covers(u, u.start);
  }

  class PhysicalMemory {
    var list: seq<Region>

    ghost predicate Valid()
      reads this
    {
      Sorted(list)
    }

    constructor ()
      ensures Valid() && list == []
    {
      list := [];
    }

    /** region_is_known: the sizes of the overlaps are subtracted from the size. */
    method IsKnown(r: Region) returns (known: bool)
      requires Valid() && Sane(r)
      ensures known <==> Known(list, r.start, r.end)
    {
      var size := r.end - r.start;
      for i := 0 to |list|
        invariant size == r.end - r.start - OverlapSum(list[..i], r)
      {
        assert list[..i + 1][..i] == list[..i];
        if Overlaps(r, list[i]) { size := size - (Min(r.end, list[i].end) - Max(r.start, list[i].start)); }
      }
      assert list[..|list|] == list;
      SumIsCover(list, r);
      known := size == 0;
    }

    /** merge_pmem_list. */
    method MergeList()
      requires Valid()
      modifies this
      ensures Valid() && list == Merge(old(list)) && FullyMerged(list)
    {
      hide MergeFrom, FullyMerged, Sorted, SameMap, NameClash, Mergeable, Merge;
      ghost var was := list;
      MergeKeepsIff(list);
      MergeBegins(list);
      if list == [] { return; }
      var done, i := [list[0]], 1;
      assert done[..0] == [];
      while i < |list|
        invariant 1 <= i <= |list| && done != [] && list == was
        invariant Merge(was) == done[..|done| - 1] + MergeFrom(done[|done| - 1], was[i..])
      {
        var n := |done| - 1;
        assert was[i..] == [was[i]] + was[i + 1..];
        MergeStep(done, was[i], was[i + 1..]);
        if Mergeable(done[n], list[i]) {
          done := done[n := done[n].(end := list[i].end)];
        } else {
          done := done + [list[i]];
        }
        i := i + 1;
      }
      MergeEnds(done[|done| - 1]);
      assert was[i..] == [] && done == done[..|done| - 1] + [done[|done| - 1]];
      list := done;
    }

    /** insert_pmem_list_entry: before the first entry with a greater start. */
    method InsertEntry(r: Region) returns (ghost k: nat)
      requires Valid() && Sane(r) && forall i :: 0 <= i < |list| ==> !Overlaps(r, list[i])
      modifies this
      ensures Valid() && k <= |old(list)| && list == old(list)[..k] + [r] + old(list)[k..]
    {
      var i := 0;
      while i < |list| && list[i].start <= r.start
        invariant 0 <= i <= |list| && forall j :: 0 <= j < i ==> list[j].start <= r.start
      {
        i := i + 1;
      }
      k := i;
      InsertSorted(list, i, r);
      list := list[..i] + [r] + list[i..];
    }

    /** __pmem_add. */
    method Add(r: Region) returns (status: Status)
      requires Valid()
      modifies this
      ensures Valid() && status in {Success, Invalid, Exists}
      ensures status == Invalid <==> r.end <= r.start
      ensures status == Exists <==> r.start < r.end && exists a: nat :: Covers(r, a) && Lookup(old(list), a).Some?
      ensures status != Success ==> list == old(list)
      ensures status == Success ==> FullyMerged(list)
      ensures status == Success ==> forall a: nat ::
                Nameless(Lookup(list, a)) == Nameless(if Covers(r, a) then Some(r.attr) else Lookup(old(list), a))
      ensures status == Success && Unnamed(old(list)) && r.attr.name.None? ==>
                Unnamed(list) && forall a: nat :: Lookup(list, a) == if Covers(r, a) then Some(r.attr) else Lookup(old(list), a)
    {
      if !Sane(r) { return Invalid; }
      OverlapMeans(list, r);
      for i := 0 to |list|
        invariant forall j :: 0 <= j < i ==> !Overlaps(r, list[j])
      {
        if Overlaps(r, list[i]) { return Exists; }
      }
      ghost var k := InsertEntry(r);
      AddedLookup(old(list), k, r);
      hide Merge, Sorted, NameClash, Lookup, FullyMerged;
      ghost var mid := list;
      MergeKeepsIff(list);
      MergeList();
      forall a: nat ensures Nameless(Lookup(list, a)) == Nameless(Lookup(mid, a)) { MergeKeepsRest(mid, a); }
      if Unnamed(old(list)) && r.attr.name.None? {
        UnnamedNoClash(mid);
      }
      status := Success;
    }

    /** __pmem_update. With umemOnly the update stops at the first entry that user space may
        not change; entries in front of it have been updated by then. */
    method Update(u: Region, umemOnly: bool) returns (status: Status, ghost k: nat)
      requires Valid()
      modifies this
      ensures Valid() && status in {Success, Invalid, NotFound, NotPermitted}
      ensures status == Invalid <==> u.end <= u.start
      ensures status == NotFound <==> u.start < u.end && !Known(old(list), u.start, u.end)
      ensures status == Invalid || status == NotFound ==> list == old(list)
      ensures !umemOnly ==> status != NotPermitted
      ensures status == Success ==> list == Merge(Apply(old(list), u)) && FullyMerged(list)
      ensures status == Success && umemOnly ==>
                u.attr.kind == Some(5) && forall a: nat :: Covers(u, a) ==> Lookup(old(list), a).Some? && Lookup(old(list), a).value.kind == Some(5)
      ensures status == NotPermitted ==> k < |old(list)| && list == Apply(old(list)[..k], u) + old(list)[k..]
      ensures status == NotPermitted ==>
                u.attr.kind != Some(5) || exists a: nat :: Covers(u, a) && Lookup(old(list), a).Some? && Lookup(old(list), a).value.kind != Some(5)
      ensures status == Success ==> forall a: nat ::
                Nameless(Lookup(list, a)) == Nameless(if Covers(u, a) then Some(u.attr) else Lookup(old(list), a))
      ensures status == Success && Unnamed(old(list)) && u.attr.name.None? ==>
                Unnamed(list) && forall a: nat :: Lookup(list, a) == if Covers(u, a) then Some(u.attr) else Lookup(old(list), a)
    {
      k := 0;
      if !Sane(u) { return Invalid, k; }
      var known := IsKnown(u);
      if !known { return NotFound, k; }
      ghost var was := list;
      status, k := ApplyUpdate(u, umemOnly);
      if status != Success {
        ForeignAt(was, u, k);
        return;
      }
      if umemOnly { AllUmem(was, u); }
      assert was[..k] == was && was[k..] == [];
      assert list == Apply(was, u);
      hide Merge, Sorted, NameClash, Lookup, FullyMerged, Apply;
      ghost var mid := list;
      MergeKeepsIff(mid);
      MergeList();
      forall a: nat ensures Lookup(mid, a) == if Covers(u, a) then Some(u.attr) else Lookup(was, a) { ApplyLookup(was, u, a); }
      forall a: nat ensures Nameless(Lookup(list, a)) == Nameless(Lookup(mid, a)) { MergeKeepsRest(mid, a); }
      if Unnamed(was) && u.attr.name.None? {
        UnnamedApply(was, u);
        UnnamedNoClash(mid);
      }
    }

    /** The pass over the list; n entries are done when it stops. */
    method ApplyUpdate(u: Region, umemOnly: bool) returns (status: Status, ghost n: nat)
      requires Valid() && Sane(u)
      modifies this
      ensures Valid() && (status == Success || (status == NotPermitted && umemOnly)) && n <= |old(list)|
      ensures list == Apply(old(list)[..n], u) + old(list)[n..]
      ensures status == Success ==> n == |old(list)|
      ensures umemOnly ==> forall j :: 0 <= j < n && Overlaps(u, old(list)[j]) ==> IsUmem(u) && IsUmem(old(list)[j])
      ensures status == NotPermitted ==> n < |old(list)| && Overlaps(u, old(list)[n]) && !(IsUmem(u) && IsUmem(old(list)[n]))
    {
      hide Sorted, Apply, Progress, Pieces, Overlaps, IsUmem;
      ghost var was := list;
      ghost var tail: seq<Region> := [];
      var i: nat := 0;
      n := 0;
      ProgressStart(was, u);
      while i < |list|
        invariant Progress(list, was, i, n, tail, u)
        invariant n <= |was|
        invariant umemOnly ==> forall j :: 0 <= j < n && Overlaps(u, was[j]) ==> IsUmem(u) && IsUmem(was[j])
        decreases |was| - n, |tail|
      {
        ProgressAt(list, was, i, n, tail, u);
        if !Overlaps(u, list[i]) {
          ProgressOver(list, was, i, n, tail, u);
          if tail == [] { n := n + 1; }
          tail := [];
          i := i + 1;
        } else {
          if umemOnly && (!IsUmem(list[i]) || !IsUmem(u)) {
            PartialSorted(was, n, u);
            return NotPermitted, n;
          }
          ghost var now, at := list, i;
          i, tail := Split(i, u);
          ProgressSplit(now, list, was, at, i, n, tail, u);
          n := n + 1;
        }
      }
      ProgressEnd(list, was, i, n, tail, u);
      PartialSorted(was, n, u);
      status := Success;
    }

    /** One overlapping entry is split and updated; the tail of it comes next. */
    method Split(i: nat, u: Region) returns (next: nat, ghost tail: seq<Region>)
      requires i < |list| && Overlaps(u, list[i])
      modifies this
      ensures next <= |list| && |tail| <= 1 && (tail != [] ==> !Overlaps(u, tail[0]))
      ensures list[..next] + tail == old(list)[..i] + Pieces(old(list)[i], u) && list[next..] == tail + old(list)[i + 1..]
    {
      var b := list[i];
      ghost var before, rest := list[..i], list[i + 1..];
      var s, e := Max(u.start, b.start), Min(u.end, b.end);
      var head := if b.start < s then [b.(end := s)] else [];
      var last := if b.end > e then [b.(start := e)] else [];
      list := list[..i] + head + [Region(s, e, u.attr)] + last + list[i + 1..];
      next := i + |head| + 1;
      tail := last;
      assert list == (before + head + [Region(s, e, u.attr)]) + (last + rest);
      assert list[..next] == before + head + [Region(s, e, u.attr)];
      assert list[..next] + last == before + (head + [Region(s, e, u.attr)] + last);
    }

    /** __pmem_query: the part of the query inside the first entry that matches. */
    method Query(q: Region) returns (status: Status, result: Region, ghost i: nat)
      requires Valid()
      ensures status in {Success, Invalid, NotFound} && (status == Invalid <==> q.end <= q.start)
      ensures status == NotFound ==> forall a: nat :: Covers(q, a) ==> !Meets(list, a, q.attr)
      ensures status == Success ==> q.start <= result.start < result.end <= q.end && Fields(q.attr) <= Fields(result.attr)
      ensures status == Success ==> forall a: nat :: Covers(result, a) ==> Lookup(list, a) == Some(result.attr)
      ensures status == Success ==> forall a: nat :: q.start <= a < result.start ==> !Meets(list, a, q.attr)
      ensures status == NotFound ==> forall j :: 0 <= j < |list| ==> !Matches(q, list[j])
      ensures status == Success ==> i < |list| && Matches(q, list[i]) && forall j :: 0 <= j < i ==> !Matches(q, list[j])
      ensures status == Success ==> result == Region(Max(q.start, list[i].start), Min(q.end, list[i].end), list[i].attr)
    {
      result, i := q, 0;
      if !Sane(q) { return Invalid, result, 0; }
      for k := 0 to |list|
        invariant forall j :: 0 <= j < k ==> !Matches(q, list[j])
      {
        if Matches(q, list[k]) {
          QueryMeans(list, q, k);
          return Success, Region(Max(q.start, list[k].start), Min(q.end, list[k].end), list[k].attr), k;
        }
      }
      QueryMeans(list, q, |list|);
      status := NotFound;
    }

    /** __pmem_alloc. Bug: a BUG_ON fires. Stuck: an iteration changes nothing, so the loop
        never ends. `stop` is the entry at which the search ends, or the number of entries. */
    method Alloc(size: nat, alignment: nat, c: Region) returns (status: Status, result: Region, ghost stop: nat)
      requires Valid()
      modifies this
      ensures Valid() && (status == Invalid <==> !CanAsk(size, alignment, c))
      ensures status != Invalid ==> IsStop(old(list), size, alignment, c, stop) && status == Outcome(old(list), size, alignment, c, stop)
      ensures status != Success ==> list == old(list)
      ensures status == Success ==> result == Grant(old(list)[stop], size, alignment, c) && list == Merge(Apply(old(list), result))
      ensures status == Success ==> forall a: nat ::
                Nameless(Lookup(list, a)) == Nameless(if Covers(result, a) then Some(result.attr) else Lookup(old(list), a))
      ensures status == Success && Unnamed(old(list)) ==>
                Unnamed(list) && forall a: nat :: Lookup(list, a) == if Covers(result, a) then Some(result.attr) else Lookup(old(list), a)
      ensures status == Success && !Wraps(old(list)[stop], alignment, c) ==>
                && Granted(old(list), size, alignment, c, result)
                && (forall a: nat :: Covers(result, a) ==> Meets(old(list), a, c.attr))
                && (c.attr.taken == Some(false) ==> Allocates(old(list), list, result))
      ensures status == NoMemory || (status == Bug && stop == |list|) ==>
                forall r: Region :: r.start < TWO64 ==> !Granted(old(list), size, alignment, c, r)
    {
      hide IsPow2, Stops, Lookup, Merge, Apply, Cursor, Allocates, Wraps, Known, Agrees, Fields, Granted;
      result, stop := c, |list|;
      if size == 0 || (alignment != 0 && !IsPow2(alignment)) || !Sane(c) || c.attr.taken == Some(true) { return Invalid, c, stop; }
      var query := c;
      ghost var n := 0;
      CursorStarts(list, size, alignment, c);
      while true
        invariant Valid() && list == old(list) && n <= |list| && query == c.(start := query.start) && Cursor(list, size, alignment, c, query, n)
        decreases |list| - n
      {
        var found, candidate;
        ghost var i;
        found, candidate, i := Query(query);
        if found == Invalid || found == NotFound {
          CursorEnds(list, size, alignment, c, query, n);
          NoneGranted(list, size, alignment, c);
          return if found == Invalid then Bug else NoMemory, c, |list|;
        }
        CursorFinds(list, size, alignment, c, query, n, i);
        if alignment != 0 {
          candidate := candidate.(start := RoundUp(candidate.start, alignment));
          if candidate.start >= candidate.end { return Stuck, c, i; }
        }
        if candidate.end - candidate.start >= size {
          candidate := candidate.(end := candidate.start + size, attr := candidate.attr.(taken := Some(true)));
          var updated, _ := Update(candidate, false);
          if updated != Success { return Bug, c, i; }
          if !Wraps(old(list)[i], alignment, c) {
            StopGrants(old(list), size, alignment, c, i);
            GrantMeets(old(list), size, alignment, c, candidate);
            if c.attr.taken == Some(false) { GrantAllocates(old(list), list, size, alignment, c, i); }
          }
          UnnamedGrant(old(list), size, alignment, c, i);
          return Success, candidate, i;
        }
        CursorMoves(list, size, alignment, c, query, n, i);
        query := query.(start := candidate.end);
        n := i + 1;
      }
    }
  }

  /** What __pmem_alloc accepts. */
  predicate CanAsk(size: nat, alignment: nat, c: Region) {
    size > 0 && (alignment == 0 || IsPow2(alignment)) && c.start < c.end && c.attr.taken != Some(true)
  }

  // Where the search ends

  /** The part of an entry inside the constraint, and its first aligned address. */
  function Lo(e: Region, c: Region): (r: nat) { Max(c.start, e.start) }
  function Hi(e: Region, c: Region): (r: nat) { Min(c.end, e.end) }

  function FirstAligned(e: Region, alignment: nat, c: Region): (r: nat) {
    if alignment == 0 then Lo(e, c) else RoundUp(Lo(e, c), alignment)
  }

  /** The entry has no aligned address inside the constraint. */
  predicate NoneAligned(e: Region, alignment: nat, c: Region) {
    alignment != 0 && FirstAligned(e, alignment, c) >= Hi(e, c)
  }

  predicate HasRoom(e: Region, size: nat, alignment: nat, c: Region) {
    Hi(e, c) >= FirstAligned(e, alignment, c) + size
  }

  /** The search ends at an entry that matches and has no aligned address, or has room. */
  predicate Stops(e: Region, size: nat, alignment: nat, c: Region) {
    Matches(c, e) && (NoneAligned(e, alignment, c) || HasRoom(e, size, alignment, c))
  }

  ghost predicate IsStop(list: seq<Region>, size: nat, alignment: nat, c: Region, stop: nat) {
    && stop <= |list| && (forall j :: 0 <= j < stop ==> !Stops(list[j], size, alignment, c))
    && (stop < |list| ==> Stops(list[stop], size, alignment, c))
  }

  function Grant(e: Region, size: nat, alignment: nat, c: Region): (r: Region) {
    var start := FirstAligned(e, alignment, c);
    Region(start, start + size, e.attr.(taken := Some(true)))
  }

  /** How the search ends: without a stop by a BUG_ON exactly if admitted memory goes on to the
      end of the constraint; at an entry without an aligned address never; otherwise with
      success, unless aligning wrapped around to memory that is not known. */
  ghost function Outcome(list: seq<Region>, size: nat, alignment: nat, c: Region, stop: nat): (r: Status)
    requires stop <= |list|
  {
    if stop == |list| then (if ReachesEnd(list, c) then Bug else NoMemory)
    else if NoneAligned(list[stop], alignment, c) then Stuck
    else
      var g := Grant(list[stop], size, alignment, c);
      if Known(list, g.start, g.end) then Success else Bug
  }

  /** The search has passed n entries: none of them is a stop, and the rest of the list looks
      to the query as to the constraint. */
  ghost predicate Cursor(list: seq<Region>, size: nat, alignment: nat, c: Region, q: Region, n: nat) {
    && n <= |list| && q == c.(start := q.start) && c.start <= q.start
    && (forall j :: 0 <= j < n ==> !Stops(list[j], size, alignment, c) && (Sane(q) ==> !Matches(q, list[j])))
    && (Sane(q) ==> q.start == c.start || forall j :: n <= j < |list| ==> q.start <= list[j].start)
    && (Sane(q) ==> forall j :: 0 <= j < n && Matches(c, list[j]) ==> list[j].end <= q.start)
    && (!Sane(q) ==> ReachesEnd(list, c) && forall j :: n <= j < |list| ==> !Matches(c, list[j]))
  }

  lemma CursorStarts(list: seq<Region>, size: nat, alignment: nat, c: Region)
    requires Sane(c)
    ensures Cursor(list, size, alignment, c, c, 0)
  {}

  lemma CursorEnds(list: seq<Region>, size: nat, alignment: nat, c: Region, q: Region, n: nat)
    requires Sorted(list) && Sane(c) && Cursor(list, size, alignment, c, q, n)
    requires !Sane(q) || forall j :: 0 <= j < |list| ==> !Matches(q, list[j])
    ensures IsStop(list, size, alignment, c, |list|) && (ReachesEnd(list, c) <==> !Sane(q))
  {
    hide NoneAligned, HasRoom;
    forall j | n <= j < |list| ensures !Matches(c, list[j]) {
      if Sane(q) { assert !Matches(q, list[j]); }
    }
  }

  lemma CursorFinds(list: seq<Region>, size: nat, alignment: nat, c: Region, q: Region, n: nat, i: nat)
    requires Sorted(list) && Cursor(list, size, alignment, c, q, n) && Sane(q)
    requires i < |list| && Matches(q, list[i]) && forall j :: 0 <= j < i ==> !Matches(q, list[j])
    ensures n <= i && q.end == c.end && Matches(c, list[i]) && Max(q.start, list[i].start) == Lo(list[i], c) && Lo(list[i], c) < Hi(list[i], c)
    ensures forall j :: 0 <= j < i ==> !Stops(list[j], size, alignment, c) && (j >= n ==> !Matches(c, list[j]))
    ensures Stops(list[i], size, alignment, c) <==> NoneAligned(list[i], alignment, c) || HasRoom(list[i], size, alignment, c)
  {
    hide NoneAligned, HasRoom;
    forall j | n <= j < i ensures !Matches(c, list[j]) { assert !Matches(q, list[j]); }
  }

  lemma CursorMoves(list: seq<Region>, size: nat, alignment: nat, c: Region, q: Region, n: nat, i: nat)
    requires Sorted(list) && Cursor(list, size, alignment, c, q, n) && Sane(q)
    requires i < |list| && Matches(q, list[i]) && forall j :: 0 <= j < i ==> !Matches(q, list[j])
    requires !Stops(list[i], size, alignment, c)
    ensures Cursor(list, size, alignment, c, q.(start := Hi(list[i], c)), i + 1)
  {
    CursorFinds(list, size, alignment, c, q, n, i);
    hide Stops, Agrees;
    var q' := q.(start := Hi(list[i], c));
    forall j | 0 <= j <= i && Sane(q') ensures !Matches(q', list[j]) { assert j < i ==> !Matches(q, list[j]); }
    if !Sane(q') { assert ReachesEnd(list, c); }
    forall j | 0 <= j < i && Matches(c, list[j]) ensures list[j].end <= q'.start { assert j < n; }
  }

  // What the outcome means

  /** Rounding up passes the end of the address space. */
  predicate Wraps(e: Region, alignment: nat, c: Region) {
    alignment != 0 && AlignUp(Lo(e, c), alignment) >= TWO64
  }

  lemma FirstAlignedIs(e: Region, alignment: nat, c: Region)
    requires alignment < TWO64
    ensures !Wraps(e, alignment, c) ==> Lo(e, c) <= FirstAligned(e, alignment, c) && (alignment != 0 ==> Aligned(FirstAligned(e, alignment, c), alignment))
    ensures Wraps(e, alignment, c) && Lo(e, c) <= TWO64 ==> FirstAligned(e, alignment, c) < Lo(e, c)
  {
    hide AlignUp, Aligned;
    if alignment != 0 { AlignUpSpec(Lo(e, c), alignment); }
  }

  /** There is an alignment, and no address of the entry inside the constraint has it. */
  ghost predicate NothingAligned(e: Region, alignment: nat, c: Region) {
    alignment != 0 && forall a: nat :: Covers(e, a) && Covers(c, a) ==> !Aligned(a, alignment)
  }

  lemma NoneAlignedIff(e: Region, alignment: nat, c: Region)
    ensures !Wraps(e, alignment, c) ==> (NoneAligned(e, alignment, c) <==> NothingAligned(e, alignment, c))
  {
    hide AlignUp, Aligned;
    if alignment != 0 && !Wraps(e, alignment, c) {
      var lo := Lo(e, c);
      AlignUpSpec(lo, alignment);
      var a := AlignUp(lo, alignment);
      if a < Hi(e, c) { assert Covers(e, a) && Covers(c, a); }
      forall x: nat | Covers(e, x) && Covers(c, x) && Aligned(x, alignment) ensures a <= x { AlignUpLeast(lo, alignment, x); }
    }
  }

  lemma StopGrants(list: seq<Region>, size: nat, alignment: nat, c: Region, i: nat)
    requires Sorted(list) && size > 0 && i < |list| && Matches(c, list[i]) && !Wraps(list[i], alignment, c)
    requires HasRoom(list[i], size, alignment, c)
    ensures Granted(list, size, alignment, c, Grant(list[i], size, alignment, c))
    ensures Known(list, FirstAligned(list[i], alignment, c), FirstAligned(list[i], alignment, c) + size)
  {
    hide AlignUp, Aligned, Agrees, Fields;
    AgreesIff(c.attr, list[i].attr);
    if alignment != 0 { AlignUpSpec(Lo(list[i], c), alignment); }
    var g := Grant(list[i], size, alignment, c);
    forall a: nat | g.start <= a < g.end ensures Lookup(list, a).Some? { LookupAt(list, i, a); }
  }

  lemma GrantAllocates(was: seq<Region>, now: seq<Region>, size: nat, alignment: nat, c: Region, i: nat)
    requires Sorted(was) && size > 0 && i < |was| && Matches(c, was[i]) && !Wraps(was[i], alignment, c) && c.attr.taken == Some(false)
    requires HasRoom(was[i], size, alignment, c)
    requires var r := Grant(was[i], size, alignment, c);
             forall a: nat :: Nameless(Lookup(now, a)) == Nameless(if Covers(r, a) then Some(r.attr) else Lookup(was, a))
    ensures Allocates(was, now, Grant(was[i], size, alignment, c))
  {
    hide Wraps, HasRoom, Grant, Matches, Granted;
    StopGrants(was, size, alignment, c, i);
  }

  lemma UnnamedGrant(list: seq<Region>, size: nat, alignment: nat, c: Region, i: nat)
    requires i < |list|
    ensures Unnamed(list) ==> Grant(list[i], size, alignment, c).attr.name.None?
  {}

  /** A range that could be granted makes its entry a stop. */
  lemma GrantStops(list: seq<Region>, size: nat, alignment: nat, c: Region, r: Region) returns (i: nat)
    requires Sorted(list) && size > 0 && r.start < TWO64 && Granted(list, size, alignment, c, r)
    ensures i < |list| && Stops(list[i], size, alignment, c) && list[i].start <= r.start && r.end <= list[i].end
  {
    hide AlignUp, Aligned, Agrees, Fields;
    i :| 0 <= i < |list| && list[i].start <= r.start && r.end <= list[i].end && Fields(c.attr) <= Fields(list[i].attr)
         && r.attr == list[i].attr.(taken := Some(true));
    AgreesIff(c.attr, list[i].attr);
    if alignment != 0 {
      AlignUpSpec(Lo(list[i], c), alignment);
      AlignUpLeast(Lo(list[i], c), alignment, r.start);
    }
    assert HasRoom(list[i], size, alignment, c) && Matches(c, list[i]);
  }

  lemma NoneGranted(list: seq<Region>, size: nat, alignment: nat, c: Region)
    requires Sorted(list) && size > 0 && IsStop(list, size, alignment, c, |list|)
    ensures forall r: Region :: r.start < TWO64 ==> !Granted(list, size, alignment, c, r)
  {
    hide Granted, Stops;
    forall r: Region | r.start < TWO64 ensures !Granted(list, size, alignment, c, r) {
      if Granted(list, size, alignment, c, r) { var i := GrantStops(list, size, alignment, c, r); }
    }
  }

  /** What was granted after rounding wrapped around lies outside of the entry that was found. */
  lemma WrappedNotGranted(list: seq<Region>, size: nat, alignment: nat, c: Region, stop: nat)
    requires Sorted(list) && CanAsk(size, alignment, c) && alignment < TWO64 && IsStop(list, size, alignment, c, stop) && stop < |list|
    requires list[stop].end <= TWO64 && Wraps(list[stop], alignment, c)
    ensures !Granted(list, size, alignment, c, Grant(list[stop], size, alignment, c))
  {
    hide Wraps, Granted, IsPow2, NoneAligned, HasRoom, FirstAligned, Agrees;
    var g := Grant(list[stop], size, alignment, c);
    FirstAlignedIs(list[stop], alignment, c);
    GrantIs(list[stop], size, alignment, c);
    if Granted(list, size, alignment, c, g) {
      var i := GrantStops(list, size, alignment, c, g);
      GrantedInside(list, size, alignment, c, g);
    }
  }

  lemma GrantedInside(list: seq<Region>, size: nat, alignment: nat, c: Region, r: Region)
    requires Granted(list, size, alignment, c, r)
    ensures c.start <= r.start
  {}

  /** Success grants a range as asked exactly if rounding did not wrap around; a search that ends
      in lack of memory, or in the BUG_ON behind the last entry, means that no range could be
      granted; and there is no BUG_ON at an entry unless rounding wrapped around. */
  lemma OutcomeMeans(list: seq<Region>, size: nat, alignment: nat, c: Region, stop: nat)
    requires Sorted(list) && CanAsk(size, alignment, c) && alignment < TWO64 && IsStop(list, size, alignment, c, stop)
    requires forall i :: 0 <= i < |list| ==> list[i].end <= TWO64
    ensures var o := Outcome(list, size, alignment, c, stop);
            && (o == Success ==>
                  && stop < |list|
                  && (Granted(list, size, alignment, c, Grant(list[stop], size, alignment, c)) <==> !Wraps(list[stop], alignment, c)))
            && (o == NoMemory || (o == Bug && stop == |list|) ==> forall r: Region :: r.start < TWO64 ==> !Granted(list, size, alignment, c, r))
            && (o == NoMemory ==> stop == |list| && !ReachesEnd(list, c))
            && (o == Bug ==> if stop == |list| then ReachesEnd(list, c) else Wraps(list[stop], alignment, c))
            && (o == Stuck ==> stop < |list| && (Wraps(list[stop], alignment, c) || NothingAligned(list[stop], alignment, c)))
            && (o != Stuck ==> stop == |list| || Wraps(list[stop], alignment, c) || !NothingAligned(list[stop], alignment, c))
  {
    hide Granted, Known, Grant, FirstAligned, NoneAligned, HasRoom, ReachesEnd, IsPow2, Wraps, Matches, NothingAligned;
    if stop < |list| {
      NoneAlignedIff(list[stop], alignment, c);
      if !NoneAligned(list[stop], alignment, c) {
        GrantIs(list[stop], size, alignment, c);
        if Wraps(list[stop], alignment, c) { WrappedNotGranted(list, size, alignment, c, stop); }
        else { StopGrants(list, size, alignment, c, stop); }
      }
    } else {
      NoneGranted(list, size, alignment, c);
    }
  }

  /** The entry behind another one, if an address tells so. */
  lemma NextEntry(list: seq<Region>, i: nat, j: nat)
    requires Sorted(list) && i < |list| && j < |list| && Covers(list[j], list[i].end)
    ensures j == i + 1 && list[j].start == list[i].end
  {
    if j > i + 1 { Between(list, i, j); }
  }

  lemma Between(list: seq<Region>, i: nat, j: nat)
    requires Sorted(list) && i + 1 < j < |list|
    ensures list[i].end < list[j].start
  {
    assert list[i + 1].end <= list[j].start;
  }

  lemma NeighboursMerge(list: seq<Region>, i: nat, attr: Attr)
    requires Sorted(list) && Unnamed(list) && i < |list| && list[i].attr == attr && Lookup(list, list[i].end) == Some(attr)
    ensures i + 1 < |list| && Mergeable(list[i], list[i + 1])
  {
    var j := LookupFinds(list, list[i].end);
    LookupAt(list, j, list[i].end);
    NextEntry(list, i, j);
  }

  /** A range with the same attributes all along lies in one entry of a merged list. */
  lemma UniformInEntry(list: seq<Region>, start: nat, end: nat, attr: Attr) returns (i: nat)
    requires Sorted(list) && FullyMerged(list) && Unnamed(list) && start < end
    requires forall a: nat :: start <= a < end ==> Lookup(list, a) == Some(attr)
    ensures i < |list| && list[i].start <= start && end <= list[i].end && list[i].attr == attr
  {
    hide Mergeable;
    assert Lookup(list, start) == Some(attr);
    i := LookupFinds(list, start);
    LookupAt(list, i, start);
    if list[i].end < end { NeighboursMerge(list, i, attr); }
  }

  lemma UniformGranted(list: seq<Region>, size: nat, alignment: nat, c: Region, start: nat, attr: Attr)
    requires Sorted(list) && FullyMerged(list) && Unnamed(list) && size > 0
    requires c.start <= start && start + size <= c.end && (alignment != 0 ==> Aligned(start, alignment)) && Fields(c.attr) <= Fields(attr)
    requires forall a: nat :: start <= a < start + size ==> Lookup(list, a) == Some(attr)
    ensures Granted(list, size, alignment, c, Region(start, start + size, attr.(taken := Some(true))))
  {
    hide Fields, Aligned, Sorted, FullyMerged, Unnamed;
    var i := UniformInEntry(list, start, start + size, attr);
  }

  /** In a merged list without names: when __pmem_alloc reports that there is no memory, no aligned
      range of the size in the constraint has, all along, one set of attributes that meets it. */
  lemma NoMemoryMeans(list: seq<Region>, size: nat, alignment: nat, c: Region, start: nat, attr: Attr)
    requires Sorted(list) && FullyMerged(list) && Unnamed(list) && size > 0 && start < TWO64
    requires forall r: Region :: r.start < TWO64 ==> !Granted(list, size, alignment, c, r)
    requires c.start <= start && start + size <= c.end && (alignment != 0 ==> Aligned(start, alignment)) && Fields(c.attr) <= Fields(attr)
    ensures exists a: nat :: start <= a < start + size && Lookup(list, a) != Some(attr)
  {
    hide Fields, Aligned, Sorted, FullyMerged, Unnamed, Granted;
    if forall a: nat :: start <= a < start + size ==> Lookup(list, a) == Some(attr) {
      UniformGranted(list, size, alignment, c, start, attr);
    }
  }

  /** Asked for aligned memory in the last 2 KB of the address space, __pmem_alloc hands out the
      first page. */
  lemma WrapExample(free: Attr, c: Region)
    requires free == Attr(None, None, Some(false), None) && c == Region(TWO64 - 2048, TWO64 - 1, free)
    ensures var list := [Region(0, 4096, free), c];
            && Sorted(list) && CanAsk(1024, 4096, c) && IsStop(list, 1024, 4096, c, 1) && Outcome(list, 1024, 4096, c, 1) == Success
            && Grant(c, 1024, 4096, c) == Region(0, 1024, free.(taken := Some(true)))
  {
    var list := [Region(0, 4096, free), c];
    PageIsPow2();
    assert AlignUp(TWO64 - 2048, 4096) == TWO64;
    assert RoundUp(TWO64 - 2048, 4096) == 0;
    assert FirstAligned(c, 4096, c) == 0;
    assert !Matches(c, list[0]) && Stops(list[1], 1024, 4096, c);
    forall a: nat | 0 <= a < 1024 ensures Lookup(list, a).Some? { LookupAt(list, 0, a); }
  }

  lemma GrantIs(e: Region, size: nat, alignment: nat, c: Region)
    ensures var g := Grant(e, size, alignment, c);
            g.start == FirstAligned(e, alignment, c) && g.end == FirstAligned(e, alignment, c) + size
  {}

  function Plain(start: nat, end: nat): (r: Region) {
    Region(start, end, Attr(None, None, Some(false), None))
  }

  /** A page is free, and a request for two in its range trips the BUG_ON. */
  method BugExample() returns (status: Status)
    ensures status == Bug
  {
    var pm := new PhysicalMemory();
    var page := Plain(0, 4096);
    var added := pm.Add(page);
    AddedAlone(pm.list, page);
    ghost var stop;
    var r;
    assert pm.list[0] == page && Matches(page, page) && !Stops(page, 8192, 0, page);
    status, r, stop := pm.Alloc(8192, 0, page);
  }

  /** A free range without an address that is a multiple of 4096: the loop never ends. */
  method StuckExample() returns (status: Status)
    ensures status == Stuck
  {
    var pm := new PhysicalMemory();
    var part := Plain(4097, 8191);
    var added := pm.Add(part);
    AddedAlone(pm.list, part);
    ghost var stop;
    var r;
    PageIsPow2();
    assert RoundUp(4097, 4096) == 8192;
    assert pm.list[0] == part && Matches(part, part) && NoneAligned(part, 4096, part);
    status, r, stop := pm.Alloc(1, 4096, part);
  }

  /** A fully merged list whose map is that of one region. */
  lemma AddedAlone(list: seq<Region>, r: Region)
    requires Sorted(list) && FullyMerged(list) && Unnamed(list) && r.attr.name.None? && Sane(r)
    requires forall a: nat :: Lookup(list, a) == if Covers(r, a) then Some(r.attr) else Lookup([], a)
    ensures list == [r]
  {
    forall a: nat ensures Lookup([r], a) == Lookup(list, a) { SingleLookup(r, a); }
    Canonical(list, [r]);
  }

  /** Known memory that the constraint admits goes on to the end of the constraint's range. */
  ghost predicate ReachesEnd(list: seq<Region>, c: Region) {
    exists i :: 0 <= i < |list| && Matches(c, list[i]) && list[i].end >= c.end
  }

  /** An aligned range of exactly the size, inside the constraint, that one entry covered
      with attributes as the constraint asks; it gets these attributes and is allocated. */
  ghost predicate Granted(list: seq<Region>, size: nat, alignment: nat, c: Region, r: Region) {
    && r.end == r.start + size && c.start <= r.start && r.end <= c.end && (alignment != 0 ==> Aligned(r.start, alignment))
    && exists i :: 0 <= i < |list| && list[i].start <= r.start && r.end <= list[i].end && Fields(c.attr) <= Fields(list[i].attr)
                   && r.attr == list[i].attr.(taken := Some(true))
  }

  /** The addresses of a granted range had every value that the constraint sets. */
  lemma GrantedWas(list: seq<Region>, size: nat, alignment: nat, c: Region, r: Region, a: nat)
    requires Sorted(list) && Granted(list, size, alignment, c, r) && Covers(r, a)
    ensures Meets(list, a, c.attr)
  {
    hide Fields, Aligned;
    var i :| 0 <= i < |list| && list[i].start <= r.start && r.end <= list[i].end && Fields(c.attr) <= Fields(list[i].attr)
              && r.attr == list[i].attr.(taken := Some(true));
    LookupAt(list, i, a);
  }

  lemma GrantMeets(list: seq<Region>, size: nat, alignment: nat, c: Region, r: Region)
    requires Sorted(list) && Granted(list, size, alignment, c, r)
    ensures forall a: nat :: Covers(r, a) ==> Meets(list, a, c.attr)
  {
    hide Granted, Meets;
    forall a: nat | Covers(r, a) ensures Meets(list, a, c.attr) { GrantedWas(list, size, alignment, c, r, a); }
  }

  ghost predicate Taken(list: seq<Region>, r: Region) {
    forall a: nat :: Covers(r, a) ==> Lookup(list, a).Some? && Lookup(list, a).value.taken == Some(true)
  }

  /** The list after a successful allocation. */
  ghost predicate Allocates(was: seq<Region>, now: seq<Region>, r: Region) {
    && Sorted(was) && (exists size, alignment, c :: Granted(was, size, alignment, c, r) && c.attr.taken == Some(false))
    && forall a: nat :: Nameless(Lookup(now, a)) == Nameless(if Covers(r, a) then Some(r.attr) else Lookup(was, a))
  }

  lemma MeetsFree(list: seq<Region>, a: nat, query: Attr)
    requires Meets(list, a, query) && query.taken == Some(false)
    ensures Lookup(list, a).Some? && Lookup(list, a).value.taken == Some(false)
  {
    AgreesIff(query, Lookup(list, a).value);
    hide Fields;
  }

  /** Ranges allocated from memory that was not allocated never overlap, in any run. */
  lemma {:induction false} AllocationsDisjoint(lists: seq<seq<Region>>, ranges: seq<Region>, i: nat, j: nat, a: nat)
    requires |lists| == |ranges| + 1 && forall k :: 0 <= k < |ranges| ==> Allocates(lists[k], lists[k + 1], ranges[k])
    requires i < j < |ranges| && Covers(ranges[i], a)
    ensures !Covers(ranges[j], a)
  {
    hide Granted, Meets, Nameless, Sorted;
    StaysTaken(lists, ranges, i, j);
    assert Allocates(lists[j], lists[j + 1], ranges[j]);
    var size, alignment, c :| Granted(lists[j], size, alignment, c, ranges[j]) && c.attr.taken == Some(false);
    if Covers(ranges[j], a) {
      GrantedWas(lists[j], size, alignment, c, ranges[j], a);
      MeetsFree(lists[j], a, c.attr);
    }
  }

  lemma {:induction false} StaysTaken(lists: seq<seq<Region>>, ranges: seq<Region>, i: nat, j: nat)
    requires |lists| == |ranges| + 1 && forall k :: 0 <= k < |ranges| ==> Allocates(lists[k], lists[k + 1], ranges[k])
    requires i < j < |lists|
    ensures Taken(lists[j], ranges[i])
    decreases j
  {
    assert Allocates(lists[j - 1], lists[j - 1 + 1], ranges[j - 1]);
    var size, alignment, c :| Granted(lists[j - 1], size, alignment, c, ranges[j - 1]);
    if i < j - 1 { StaysTaken(lists, ranges, i, j - 1); }
  }

  /** n entries of the old list are done, but for the tail of the last one. */
  ghost predicate Progress(list: seq<Region>, was: seq<Region>, i: nat, n: nat, tail: seq<Region>, u: Region) {
    && i <= |list| && n <= |was| && |tail| <= 1 && list[i..] == tail + was[n..]
    && list[..i] + tail == Apply(was[..n], u) && (tail != [] ==> !Overlaps(u, tail[0]))
  }

  lemma ProgressStart(was: seq<Region>, u: Region)
    ensures Progress(was, was, 0, 0, [], u)
  {
    assert was[..0] == [] && was[0..] == was;
  }

  lemma ProgressAt(list: seq<Region>, was: seq<Region>, i: nat, n: nat, tail: seq<Region>, u: Region)
    requires Progress(list, was, i, n, tail, u) && i < |list|
    ensures tail == [] ==> n < |was| && list[i] == was[n] && list == Apply(was[..n], u) + was[n..]
    ensures Overlaps(u, list[i]) ==> tail == []
  {
    assert list[i] == list[i..][0] == (tail + was[n..])[0];
    if tail == [] {
      assert list == list[..i] + list[i..];
    }
  }

  lemma ProgressOver(list: seq<Region>, was: seq<Region>, i: nat, n: nat, tail: seq<Region>, u: Region)
    requires Progress(list, was, i, n, tail, u) && i < |list| && !Overlaps(u, list[i])
    ensures Progress(list, was, i + 1, if tail == [] then n + 1 else n, [], u)
  {
    ProgressAt(list, was, i, n, tail, u);
    var b := list[i];
    assert list[..i + 1] == list[..i] + [b] && list[i + 1..] == list[i..][1..];
    if tail == [] {
      ApplySnoc(was, n, u);
      assert list[i..][1..] == was[n + 1..];
    } else {
      assert tail == [b] by { assert list[i..][0] == tail[0]; }
      assert list[i..][1..] == was[n..];
    }
  }

  lemma ProgressSplit(now: seq<Region>, list: seq<Region>, was: seq<Region>, i: nat, next: nat, n: nat, tail: seq<Region>, u: Region)
    requires Progress(now, was, i, n, [], u) && i < |now|
    requires next <= |list| && |tail| <= 1 && (tail != [] ==> !Overlaps(u, tail[0]))
    requires list[..next] + tail == now[..i] + Pieces(now[i], u) && list[next..] == tail + now[i + 1..]
    ensures Progress(list, was, next, n + 1, tail, u)
  {
    hide Pieces;
    ProgressAt(now, was, i, n, [], u);
    ApplySnoc(was, n, u);
    assert now[i + 1..] == now[i..][1..] == was[n..][1..] == was[n + 1..];
  }

  lemma ProgressEnd(list: seq<Region>, was: seq<Region>, i: nat, n: nat, tail: seq<Region>, u: Region)
    requires Progress(list, was, i, n, tail, u) && i >= |list|
    ensures n == |was| && list == Apply(was[..n], u) + was[n..]
  {
    assert list[i..] == [] && list[..i] == list;
  }

  lemma {:induction false} ApplyAppend(l: seq<Region>, m: seq<Region>, u: Region)
    ensures Apply(l + m, u) == Apply(l, u) + Apply(m, u)
  {
    if l == [] {
      assert l + m == m;
    } else {
      assert (l + m)[1..] == l[1..] + m;
      ApplyAppend(l[1..], m, u);
      assert Pieces(l[0], u) + (Apply(l[1..], u) + Apply(m, u)) == Pieces(l[0], u) + Apply(l[1..], u) + Apply(m, u);
    }
  }

  lemma ApplySnoc(was: seq<Region>, n: nat, u: Region)
    requires n < |was|
    ensures Apply(was[..n + 1], u) == Apply(was[..n], u) + Pieces(was[n], u)
  {
    assert was[..n + 1] == was[..n] + [was[n]];
    ApplyAppend(was[..n], [was[n]], u);
    assert [was[n]][1..] == [];
    assert Apply([was[n]], u) == Pieces(was[n], u) + [];
  }

  lemma {:induction false} ApplyBelow(list: seq<Region>, u: Region, x: nat)
    requires Sorted(list) && Sane(u) && forall i :: 0 <= i < |list| ==> list[i].end <= x
    ensures forall i :: 0 <= i < |Apply(list, u)| ==> Apply(list, u)[i].end <= x
  {
    hide Pieces;
    if list != [] {
      ApplyBelow(list[1..], u, x);
      PiecesSorted(list[0], u);
      var p, rest := Pieces(list[0], u), Apply(list[1..], u);
      var all := p + rest;
      forall i | 0 <= i < |all| ensures all[i].end <= x {
        if i >= |p| { assert all[i] == rest[i - |p|]; }
      }
    }
  }

  lemma PartialSorted(was: seq<Region>, n: nat, u: Region)
    requires Sorted(was) && n <= |was| && Sane(u)
    ensures Sorted(Apply(was[..n], u) + was[n..])
  {
    hide Apply;
    var x := if n < |was| then was[n].start else if n > 0 then was[n - 1].end else 0;
    assert forall i :: 0 <= i < n ==> was[i].end <= x by { assert n > 0 && n == |was| ==> forall i :: 0 <= i < n - 1 ==> was[i].end <= was[n - 1].start; }
    ApplySorted(was[..n], u, 0);
    ApplyBelow(was[..n], u, x);
    SortedAppend(Apply(was[..n], u), was[n..], x);
  }

  lemma InsertSorted(list: seq<Region>, k: nat, r: Region)
    requires Sorted(list) && k <= |list| && Sane(r) && forall i :: 0 <= i < |list| ==> !Overlaps(r, list[i])
    requires forall i :: 0 <= i < k ==> list[i].start <= r.start
    requires k < |list| ==> list[k].start > r.start
    ensures Sorted(list[..k] + [r] + list[k..])
  {
    assert forall i :: 0 <= i < k ==> list[i].end <= r.start;
    assert forall i :: k <= i < |list| ==> r.end <= list[i].start by {
      forall i | k <= i < |list| ensures r.end <= list[i].start { assert i > k ==> list[k].end <= list[i].start; }
    }
    SortedAppend(list[..k], [r], r.start);
    SortedAppend(list[..k] + [r], list[k..], r.end);
  }

  lemma AddedLookup(list: seq<Region>, k: nat, r: Region)
    requires Sorted(list) && k <= |list| && Sane(r) && forall i :: 0 <= i < |list| ==> !Overlaps(r, list[i])
    ensures Unnamed(list) && r.attr.name.None? ==> Unnamed(list[..k] + [r] + list[k..])
    ensures forall a: nat :: Lookup(list[..k] + [r] + list[k..], a) == if Covers(r, a) then Some(r.attr) else Lookup(list, a)
  {
    forall a: nat ensures Lookup(list[..k] + [r] + list[k..], a) == if Covers(r, a) then Some(r.attr) else Lookup(list, a) {
      LookupAppend(list[..k] + [r], list[k..], a);
      LookupAppend(list[..k], [r], a);
      assert list == list[..k] + list[k..];
      LookupAppend(list[..k], list[k..], a);
      if Covers(r, a) && Lookup(list[..k], a).Some? { var i := LookupFinds(list[..k], a); }
    }
  }

  lemma MergeBegins(list: seq<Region>)
    ensures Merge(list) == if list == [] then [] else MergeFrom(list[0], list[1..])
  {}

  lemma MergeEnds(r: Region)
    ensures MergeFrom(r, []) == [r]
  {}
}
