/** The physical memory map: a sorted list of regions that denotes a map from addresses to
    attributes. */
module PmemMap {

  datatype Option<T> = None | Some(value: T)

  /** Type, locality group, allocated and name; None is a field that is not set. */
  datatype Attr = Attr(kind: Option<nat>, lgroup: Option<nat>, taken: Option<bool>, name: Option<string>)

  datatype Region = Region(start: nat, end: nat, attr: Attr)

  predicate Covers(r: Region, a: nat) {
    r.start <= a < r.end
  }

  /** calc_overlap's test and its result. */
  predicate Overlaps(a: Region, b: Region) {
    a.start < b.end && a.end > b.start
  }

  function Max(a: nat, b: nat): (r: nat) { if a > b then a else b }
  function Min(a: nat, b: nat): (r: nat) { if a < b then a else b }

  predicate Sorted(list: seq<Region>) {
    && (forall i :: 0 <= i < |list| ==> list[i].start < list[i].end)
    && (forall i, j :: 0 <= i < j < |list| ==> list[i].end <= list[j].start)
  }

  /** What the list says about an address. */
  function Lookup(list: seq<Region>, a: nat): (r: Option<Attr>) {
    if list == [] then None else if Covers(list[0], a) then Some(list[0].attr) else Lookup(list[1..], a)
  }

  lemma {:induction false} LookupAppend(l: seq<Region>, m: seq<Region>, a: nat)
    ensures Lookup(l + m, a) == if Lookup(l, a).Some? then Lookup(l, a) else Lookup(m, a)
  {
    if l == [] {
      assert l + m == m;
    } else {
      assert (l + m)[1..] == l[1..] + m;
      LookupAppend(l[1..], m, a);
    }
  }

  /** In a sorted list the entry that covers an address is found. */
  lemma {:induction false} LookupAt(list: seq<Region>, i: nat, a: nat)
    requires Sorted(list) && i < |list| && Covers(list[i], a)
    ensures Lookup(list, a) == Some(list[i].attr)
  {
    if i > 0 {
      assert list[0].end <= list[i].start;
      LookupAt(list[1..], i - 1, a);
    }
  }

  lemma {:induction false} LookupFinds(list: seq<Region>, a: nat) returns (i: nat)
    requires Lookup(list, a).Some?
    ensures i < |list| && Covers(list[i], a)
  {
    if Covers(list[0], a) { i := 0; } else {
      var k := LookupFinds(list[1..], a);
      i := k + 1;
    }
  }

  lemma {:induction false} NoneBeyond(list: seq<Region>, a: nat)
    requires forall i :: 0 <= i < |list| ==> list[i].end <= a
    ensures Lookup(list, a).None?
  {
    if list != [] { NoneBeyond(list[1..], a); }
  }

  // region_is_known

  function OverlapSize(r: Region, b: Region): (n: int) {
    if Overlaps(r, b) then Min(r.end, b.end) - Max(r.start, b.start) else 0
  }

  function OverlapSum(list: seq<Region>, r: Region): (n: int) {
    if list == [] then 0 else OverlapSum(list[..|list| - 1], r) + OverlapSize(r, list[|list| - 1])
  }

  ghost predicate Known(list: seq<Region>, start: nat, end: nat) {
    forall a: nat :: start <= a < end ==> Lookup(list, a).Some?
  }

  /** Entries that end early do not see the rest of the range. */
  lemma {:induction false} SumClipped(list: seq<Region>, r: Region, e: nat)
    requires r.start <= e <= r.end && (e == r.end || forall i :: 0 <= i < |list| ==> list[i].start < list[i].end && (list[i].end <= e || list[i].end <= r.start))
    ensures OverlapSum(list, r) == OverlapSum(list, r.(end := e))
  {
    if list != [] { SumClipped(list[..|list| - 1], r, e); }
  }

  /** The overlaps with disjoint regions add up to the size exactly if the range is covered. */
  lemma {:induction false} SumIsCover(list: seq<Region>, r: Region)
    requires Sorted(list) && r.start <= r.end
    ensures OverlapSum(list, r) <= r.end - r.start
    ensures OverlapSum(list, r) == r.end - r.start <==> Known(list, r.start, r.end)
  {
    if list == [] {
      assert r.start < r.end ==> Lookup(list, r.start).None?;
    } else {
      var n := |list| - 1;
      var init, last := list[..n], list[n];
      var e := Min(r.end, Max(r.start, last.start));
      SumClipped(init, r, e);
      SumIsCover(init, r.(end := e));
      forall a: nat ensures Lookup(list, a) == if Lookup(init, a).Some? then Lookup(init, a) else Lookup([last], a) {
        assert list == init + [last];
        LookupAppend(init, [last], a);
      }
      LastCover(init, last, list, r, e);
    }
  }

  lemma LastCover(init: seq<Region>, last: Region, list: seq<Region>, r: Region, e: nat)
    requires Sorted(list) && list == init + [last] && r.start <= r.end && e == Min(r.end, Max(r.start, last.start))
    requires forall a: nat :: Lookup(list, a) == if Lookup(init, a).Some? then Lookup(init, a) else Lookup([last], a)
    ensures Known(list, r.start, r.end) <==> Known(init, r.start, e) && (e < r.end ==> r.end <= last.end)
    ensures OverlapSize(r, last) <= r.end - e
    ensures OverlapSize(r, last) == r.end - e <==> (e < r.end ==> r.end <= last.end)
  {
    forall a: nat | a >= last.start ensures Lookup(init, a).None? {
      forall i | 0 <= i < |init| ensures init[i].end <= a { assert list[i] == init[i] && list[|init|] == last; }
      NoneBeyond(init, a);
    }
    forall a: nat ensures Lookup([last], a).Some? <==> Covers(last, a) {}
    var x := Max(e, last.end);
    assert e < r.end && r.end > last.end ==> r.start <= x < r.end && Lookup(list, x).None?;
  }

  // __pmem_update

  /** An entry after the update: what lies before the range, in it, and behind it. */
  function Pieces(b: Region, u: Region): (r: seq<Region>) {
    if !Overlaps(u, b) then [b]
    else
      var s, e := Max(u.start, b.start), Min(u.end, b.end);
      (if b.start < s then [b.(end := s)] else []) + [Region(s, e, u.attr)] + (if b.end > e then [b.(start := e)] else [])
  }

  function Apply(list: seq<Region>, u: Region): (r: seq<Region>) {
    if list == [] then [] else Pieces(list[0], u) + Apply(list[1..], u)
  }

  lemma PiecesLookup(b: Region, u: Region, a: nat)
    requires b.start < b.end && u.start < u.end
    ensures Lookup(Pieces(b, u), a) == if !Covers(b, a) then None else if Covers(u, a) then Some(u.attr) else Some(b.attr)
  {
    if Overlaps(u, b) {
      var s, e := Max(u.start, b.start), Min(u.end, b.end);
      var head := if b.start < s then [b.(end := s)] else [];
      var mid := [Region(s, e, u.attr)];
      var tail := if b.end > e then [b.(start := e)] else [];
      LookupAppend(head + mid, tail, a);
      LookupAppend(head, mid, a);
    }
  }

  /** The update overrides its range, where it is known, and nothing else. */
  lemma {:induction false} ApplyLookup(list: seq<Region>, u: Region, a: nat)
    requires Sorted(list) && u.start < u.end
    ensures Lookup(Apply(list, u), a) == if Lookup(list, a).Some? && Covers(u, a) then Some(u.attr) else Lookup(list, a)
  {
    if list != [] {
      ApplyLookup(list[1..], u, a);
      LookupAppend(Pieces(list[0], u), Apply(list[1..], u), a);
      PiecesLookup(list[0], u, a);
    }
  }

  predicate Within(list: seq<Region>, lo: nat, hi: nat) {
    forall i :: 0 <= i < |list| ==> lo <= list[i].start && list[i].end <= hi
  }

  lemma SortedAppend(l: seq<Region>, m: seq<Region>, x: nat)
    requires Sorted(l) && Sorted(m) && (forall i :: 0 <= i < |l| ==> l[i].end <= x) && (forall i :: 0 <= i < |m| ==> x <= m[i].start)
    ensures Sorted(l + m)
  {}

  lemma PiecesSorted(b: Region, u: Region)
    requires b.start < b.end && u.start < u.end
    ensures Sorted(Pieces(b, u)) && Within(Pieces(b, u), b.start, b.end)
  {}

  lemma {:induction false} ApplySorted(list: seq<Region>, u: Region, lo: nat)
    requires Sorted(list) && u.start < u.end && forall i :: 0 <= i < |list| ==> lo <= list[i].start
    ensures Sorted(Apply(list, u)) && forall i :: 0 <= i < |Apply(list, u)| ==> lo <= Apply(list, u)[i].start
  {
    hide Pieces;
    if list != [] {
      var b, p, rest := list[0], Pieces(list[0], u), Apply(list[1..], u);
      PiecesSorted(b, u);
      ApplySorted(list[1..], u, b.end);
      SortedAppend(p, rest, b.end);
      assert Apply(list, u) == p + rest;
      forall i | 0 <= i < |p + rest| ensures lo <= (p + rest)[i].start {
        if i >= |p| { assert (p + rest)[i] == rest[i - |p|]; }
      }
    }
  }

  // merge_pmem_list

  /** regions_are_mergeable: touching, with the same fields. Two names must differ. */
  predicate Mergeable(a: Region, b: Region) {
    && (a.end == b.start || b.end == a.start)
    && a.attr.kind == b.attr.kind && a.attr.lgroup == b.attr.lgroup && a.attr.taken == b.attr.taken
    && a.attr.name.Some? == b.attr.name.Some?
    && (a.attr.name.Some? ==> a.attr.name != b.attr.name)
  }

  /** One pass: `prev` takes in the entries that it can be merged with. */
  function MergeFrom(prev: Region, list: seq<Region>): (r: seq<Region>)
    ensures r != [] && r[0].start == prev.start
    decreases |list|
  {
    if list == [] then [prev]
    else if Mergeable(prev, list[0]) then MergeFrom(prev.(end := list[0].end), list[1..])
    else [prev] + MergeFrom(list[0], list[1..])
  }

  function Merge(list: seq<Region>): (r: seq<Region>) {
    if list == [] then [] else MergeFrom(list[0], list[1..])
  }

  /** Two neighbours that would be merged although their names differ. */
  ghost predicate NameClash(list: seq<Region>) {
    exists i :: 0 <= i < |list| - 1 && Mergeable(list[i], list[i + 1]) && list[i].attr.name.Some?
  }

  ghost predicate SameMap(l: seq<Region>, m: seq<Region>) {
    forall a: nat :: Lookup(l, a) == Lookup(m, a)
  }

  /** The entries of a list behind a region. */
  predicate Behind(prev: Region, list: seq<Region>) {
    prev.start < prev.end && forall i :: 0 <= i < |list| ==> prev.end <= list[i].start
  }

  lemma TailSorted(list: seq<Region>)
    requires Sorted(list) && list != []
    ensures Sorted(list[1..]) && Behind(list[0], list[1..])
  {}

  lemma {:induction false} MergeSorted(prev: Region, list: seq<Region>)
    requires Sorted(list) && Behind(prev, list)
    ensures Sorted(MergeFrom(prev, list)) && forall i :: 0 <= i < |MergeFrom(prev, list)| ==> prev.start <= MergeFrom(prev, list)[i].start
    decreases |list|
  {
    if list != [] {
      TailSorted(list);
      var b, rest := list[0], list[1..];
      if Mergeable(prev, b) {
        MergeSorted(prev.(end := b.end), rest);
      } else {
        MergeSorted(b, rest);
        SortedAppend([prev], MergeFrom(b, rest), prev.end);
      }
    }
  }

  ghost predicate FullyMerged(list: seq<Region>) {
    forall i :: 0 <= i < |list| - 1 ==> !Mergeable(list[i], list[i + 1])
  }

  lemma {:induction false} MergeMerges(prev: Region, list: seq<Region>)
    requires Sorted(list) && Behind(prev, list)
    ensures FullyMerged(MergeFrom(prev, list)) && MergeFrom(prev, list)[0].attr == prev.attr
    ensures MergeFrom(prev, list)[0].end >= prev.end
    ensures list == [] || !Mergeable(prev, list[0]) ==> MergeFrom(prev, list)[0] == prev
    decreases |list|
  {
    if list != [] {
      TailSorted(list);
      var b, rest := list[0], list[1..];
      if Mergeable(prev, b) {
        MergeMerges(prev.(end := b.end), rest);
      } else {
        MergeMerges(b, rest);
        var m := MergeFrom(b, rest);
        assert !Mergeable(prev, m[0]);
        forall i | 0 <= i < |[prev] + m| - 1 ensures !Mergeable(([prev] + m)[i], ([prev] + m)[i + 1]) {
          if i > 0 { assert !Mergeable(m[i - 1], m[i]); }
        }
      }
    }
  }

  lemma SingleLookup(r: Region, a: nat)
    ensures Lookup([r], a) == if Covers(r, a) then Some(r.attr) else None
  {}

  /** Without names that clash, merging does not change the map. */
  lemma {:induction false} MergeLookup(prev: Region, list: seq<Region>, a: nat)
    requires Sorted(list) && Behind(prev, list) && !NameClash([prev] + list)
    ensures Lookup(MergeFrom(prev, list), a) == Lookup([prev] + list, a)
    decreases |list|
  {
    if list != [] {
      TailSorted(list);
      var b, rest, all := list[0], list[1..], [prev] + list;
      assert all[0] == prev && all[1] == b && all[1..] == list && list == [b] + rest;
      NoClashTail(all);
      if Mergeable(prev, b) {
        var p := prev.(end := b.end);
        assert prev.attr == b.attr && prev.end == b.start;
        NoClashJoined(prev, b, p, rest);
        MergeLookup(p, rest, a);
        LookupAppend([prev], list, a);
        LookupAppend([b], rest, a);
        LookupAppend([p], rest, a);
        SingleLookup(prev, a);
        SingleLookup(b, a);
        SingleLookup(p, a);
      } else {
        MergeLookup(b, rest, a);
        LookupAppend([prev], list, a);
        LookupAppend([prev], MergeFrom(b, rest), a);
      }
    }
  }

  lemma NoClashTail(all: seq<Region>)
    requires !NameClash(all) && all != []
    ensures !NameClash(all[1..])
  {
    var t := all[1..];
    forall i | 0 <= i < |t| - 1 ensures !(Mergeable(t[i], t[i + 1]) && t[i].attr.name.Some?) {
      assert t[i] == all[i + 1] && t[i + 1] == all[i + 1 + 1];
    }
  }

  lemma NoClashJoined(prev: Region, b: Region, p: Region, rest: seq<Region>)
    requires !NameClash([b] + rest) && p == prev.(end := b.end) && p.attr == b.attr && prev.start < prev.end
    requires Sorted(rest) && Behind(b, rest) && Behind(prev, rest)
    ensures !NameClash([p] + rest)
  {
    var l, m := [p] + rest, [b] + rest;
    forall i | 0 <= i < |l| - 1 ensures !(Mergeable(l[i], l[i + 1]) && l[i].attr.name.Some?) {
      assert !(Mergeable(m[i], m[i + 1]) && m[i].attr.name.Some?);
    }
  }

  lemma {:induction false} NoneBefore(list: seq<Region>, a: nat)
    requires forall i :: 0 <= i < |list| ==> a < list[i].start
    ensures Lookup(list, a).None?
  {
    if list != [] { NoneBefore(list[1..], a); }
  }

  lemma ClashMoves(prev: Region, list: seq<Region>)
    requires list != [] && NameClash([prev] + list)
    ensures !Mergeable(prev, list[0]) ==> NameClash(list)
    ensures Mergeable(prev, list[0]) && prev.attr.name.None? ==> NameClash([prev.(end := list[0].end)] + list[1..])
  {
    var all, p := [prev] + list, prev.(end := list[0].end);
    var i :| 0 <= i < |all| - 1 && Mergeable(all[i], all[i + 1]) && all[i].attr.name.Some?;
    if !Mergeable(prev, list[0]) {
      assert list[i - 1] == all[i] && list[i - 1 + 1] == all[i + 1];
    } else if prev.attr.name.None? {
      var l := [p] + list[1..];
      assert all[1] == list[0] && list[0].attr.name.None?;
      assert l[i - 1] == all[i] && l[i - 1 + 1] == all[i + 1];
    }
  }

  lemma JoinLookup(prev: Region, b: Region, rest: seq<Region>, a: nat)
    requires prev.attr == b.attr && prev.end == b.start && prev.start < prev.end && b.start < b.end
    ensures Lookup([prev.(end := b.end)] + rest, a) == Lookup([prev] + ([b] + rest), a)
  {
    LookupAppend([prev], [b] + rest, a);
    LookupAppend([b], rest, a);
    LookupAppend([prev.(end := b.end)], rest, a);
  }

  lemma ClashHere(prev: Region, list: seq<Region>)
    requires Sorted(list) && Behind(prev, list) && list != [] && Mergeable(prev, list[0]) && prev.attr.name.Some?
    ensures Lookup(MergeFrom(prev, list), list[0].start) != Lookup([prev] + list, list[0].start)
  {
    TailSorted(list);
    var b := list[0];
    MergeMerges(prev.(end := b.end), list[1..]);
    LookupAppend([prev], list, b.start);
    assert Lookup(list, b.start) == Some(b.attr);
  }

  /** Merging regions with different names loses one of the names. */
  lemma {:induction false} MergeLoses(prev: Region, list: seq<Region>) returns (a: nat)
    requires Sorted(list) && Behind(prev, list) && NameClash([prev] + list)
    ensures Lookup(MergeFrom(prev, list), a) != Lookup([prev] + list, a)
    decreases |list|
  {
    hide NameClash;
    assert list != [] by { ClashNeedsTwo(prev, list); }
    TailSorted(list);
    ClashMoves(prev, list);
    var b, rest := list[0], list[1..];
    assert list == [b] + rest;
    if Mergeable(prev, b) && prev.attr.name.Some? {
      ClashHere(prev, list);
      a := b.start;
    } else if Mergeable(prev, b) {
      a := MergeLoses(prev.(end := b.end), rest);
      JoinLookup(prev, b, rest, a);
    } else {
      a := MergeLoses(b, rest);
      LookupAppend([prev], list, a);
      LookupAppend([prev], MergeFrom(b, rest), a);
      MergeSorted(b, rest);
      if Covers(prev, a) {
        NoneBefore(list, a);
        NoneBefore(MergeFrom(b, rest), a);
      }
    }
  }

  lemma ClashNeedsTwo(prev: Region, list: seq<Region>)
    requires NameClash([prev] + list)
    ensures list != []
  {}

  /** Merging keeps the map exactly if no two neighbours to be merged have different names. */
  lemma MergeKeepsIff(list: seq<Region>)
    requires Sorted(list)
    ensures SameMap(Merge(list), list) <==> !NameClash(list)
    ensures Sorted(Merge(list)) && FullyMerged(Merge(list))
  {
    if list != [] {
      TailSorted(list);
      MergeSorted(list[0], list[1..]);
      MergeMerges(list[0], list[1..]);
      assert [list[0]] + list[1..] == list;
      if NameClash(list) {
        var a := MergeLoses(list[0], list[1..]);
      } else {
        forall a: nat ensures Lookup(Merge(list), a) == Lookup(list, a) { MergeLookup(list[0], list[1..], a); }
      }
    }
  }

  /** An entry of the map without its name. */
  function Nameless(o: Option<Attr>): (r: Option<Attr>) {
    if o.None? then None else Some(o.value.(name := None))
  }

  lemma {:induction false} MergeNameless(prev: Region, list: seq<Region>, a: nat)
    requires Sorted(list) && Behind(prev, list)
    ensures Nameless(Lookup(MergeFrom(prev, list), a)) == Nameless(Lookup([prev] + list, a))
    decreases |list|
  {
    if list != [] {
      TailSorted(list);
      var b, rest := list[0], list[1..];
      assert list == [b] + rest;
      LookupAppend([prev], list, a);
      LookupAppend([b], rest, a);
      SingleLookup(prev, a);
      SingleLookup(b, a);
      if Mergeable(prev, b) {
        var p := prev.(end := b.end);
        assert prev.end == b.start;
        MergeNameless(p, rest, a);
        LookupAppend([p], rest, a);
        SingleLookup(p, a);
      } else {
        MergeNameless(b, rest, a);
        LookupAppend([prev], MergeFrom(b, rest), a);
      }
    }
  }

  /** Whatever the names are, merging keeps the type, the group and the allocation of every address. */
  lemma MergeKeepsRest(list: seq<Region>, a: nat)
    requires Sorted(list)
    ensures Nameless(Lookup(Merge(list), a)) == Nameless(Lookup(list, a))
  {
    if list != [] {
      TailSorted(list);
      assert [list[0]] + list[1..] == list;
      MergeNameless(list[0], list[1..], a);
    }
  }

  /** Touching regions with different names become one, and the second name is lost; with
      equal names they stay two. */
  lemma NamesExample()
    ensures var x, y, x' := Named(0, 10, "x"), Named(10, 20, "y"), Named(10, 20, "x");
            && Sorted([x, y]) && Merge([x, y]) == [x.(end := 20)] && Lookup([x, y], 15) == Some(y.attr)
            && Lookup(Merge([x, y]), 15) == Some(x.attr) && x.attr != y.attr
            && Sorted([x, x']) && Merge([x, x']) == [x, x'] && x.attr == x'.attr
  {
    var x, y, x' := Named(0, 10, "x"), Named(10, 20, "y"), Named(10, 20, "x");
    assert "x"[0] != "y"[0];
    assert [x, y][1..] == [y] && [y][1..] == [] && [x, x'][1..] == [x'] && [x'][1..] == [];
    assert Mergeable(x, y) && !Mergeable(x, x');
    assert MergeFrom(x', []) == [x'] && MergeFrom(x.(end := 20), []) == [x.(end := 20)];
    assert Merge([x, x']) == [x] + [x'];
    LookupAt([x, y], 1, 15);
  }

  function Named(start: nat, end: nat, name: string): (r: Region) {
    Region(start, end, Attr(None, None, None, Some(name)))
  }

  // The list is determined by the map

  predicate Unnamed(list: seq<Region>) {
    forall i :: 0 <= i < |list| ==> list[i].attr.name.None?
  }

  lemma FirstStart(l: seq<Region>, m: seq<Region>)
    requires Sorted(l) && Sorted(m) && SameMap(l, m) && l != []
    ensures m != [] && m[0].start <= l[0].start
  {
    var a := l[0].start;
    assert Lookup(l, a).Some?;
    if m == [] || m[0].start > a { NoneBefore(m, a); }
  }

  lemma FirstEnd(l: seq<Region>, m: seq<Region>)
    requires Sorted(l) && Sorted(m) && SameMap(l, m) && l != [] && m != [] && FullyMerged(l) && Unnamed(l)
    requires l[0].start == m[0].start && l[0].attr == m[0].attr
    ensures l[0].end >= m[0].end
  {
    var a := l[0].end;
    assert |l| > 1 ==> !Mergeable(l[0], l[0 + 1]);
    if a < m[0].end {
      assert Lookup(m, a) == Some(m[0].attr) == Lookup(l, a);
      var i := LookupFinds(l, a);
      assert i >= 1 && l[1].start <= a && l[1].start == a;
      LookupAt(l, 1, a);
    }
  }

  /** A sorted, disjoint and fully merged list is the only one for its map. */
  lemma {:induction false} Canonical(l: seq<Region>, m: seq<Region>)
    requires Sorted(l) && Sorted(m) && FullyMerged(l) && FullyMerged(m) && Unnamed(l) && Unnamed(m) && SameMap(l, m)
    ensures l == m
    decreases |l|
  {
    if l == [] {
      if m != [] { FirstStart(m, l); }
    } else {
      FirstStart(l, m);
      FirstStart(m, l);
      assert Lookup(l, l[0].start) == Some(l[0].attr);
      assert Lookup(m, m[0].start) == Some(m[0].attr);
      FirstEnd(l, m);
      FirstEnd(m, l);
      assert l[0] == m[0];
      TailSorted(l);
      TailSorted(m);
      TailMerged(l);
      TailMerged(m);
      forall a: nat ensures Lookup(l[1..], a) == Lookup(m[1..], a) {
        assert Lookup(l, a) == Lookup(m, a);
        if Covers(l[0], a) {
          NoneBefore(l[1..], a);
          NoneBefore(m[1..], a);
        }
      }
      Canonical(l[1..], m[1..]);
      assert l == [l[0]] + l[1..] && m == [m[0]] + m[1..];
    }
  }

  lemma TailMerged(l: seq<Region>)
    requires FullyMerged(l) && Unnamed(l) && l != []
    ensures FullyMerged(l[1..]) && Unnamed(l[1..])
  {
    var t := l[1..];
    forall i | 0 <= i < |t| - 1 ensures !Mergeable(t[i], t[i + 1]) { assert !Mergeable(l[i + 1], l[i + 1 + 1]); }
  }
}
