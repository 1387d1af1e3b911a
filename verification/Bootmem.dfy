/** The boot-time allocator: a page bitmap, and the rest of the last page that was handed out. */
module Bootmem {
  import opened Alignment

  const PAGE: nat := 4096

  datatype Range = Range(start: nat, end: nat)

  function PageStart(p: nat): (r: nat) { p * PAGE }

  predicate Touches(p: nat, r: Range) {
    PageStart(p) < r.end && r.start < PageStart(p) + PAGE
  }

  /** All pages that a range touches exist and are reserved. */
  ghost predicate PagesSet(m: seq<bool>, r: Range) {
    forall p: nat :: Touches(p, r) ==> p < |m| && m[p]
  }

  predicate Apart(a: Range, b: Range) {
    a.end <= b.start || b.end <= a.start
  }

  ghost predicate Disjoint(given: seq<Range>) {
    forall i, j :: 0 <= i < j < |given| ==> Apart(given[i], given[j])
  }

  ghost predicate GivenOk(m: seq<bool>, given: seq<Range>) {
    forall i :: 0 <= i < |given| ==> given[i].start < given[i].end && PagesSet(m, given[i])
  }

  /** The page pos is in use from its start, and nothing in it from offset on. */
  ghost predicate TailFree(m: seq<bool>, given: seq<Range>, pos: nat, offset: nat) {
    && pos < |m| && m[pos]
    && (exists i :: 0 <= i < |given| && given[i].start <= PageStart(pos) < given[i].end)
    && (forall i :: 0 <= i < |given| ==> Apart(given[i], Range(PageStart(pos) + offset, PageStart(pos) + PAGE)))
  }

  /** ALIGN, which gives 0 when the alignment is 0. */
  function Align(x: nat, a: nat): (r: nat) {
    if a == 0 then 0 else AlignUp(x, a)
  }

  ghost predicate AllClear(m: seq<bool>, from: nat, to: nat) {
    to <= |m| && forall p :: from <= p < to ==> !m[p]
  }

  /** A range in clear pages is apart from everything handed out. */
  lemma ClearIsApart(m: seq<bool>, given: seq<Range>, from: nat, to: nat, r: Range)
    requires GivenOk(m, given) && AllClear(m, from, to) && from <= to && PageStart(from) <= r.start < r.end <= PageStart(to)
    ensures forall i :: 0 <= i < |given| ==> Apart(given[i], r)
  {
    forall i | 0 <= i < |given| ensures Apart(given[i], r) {
      var g := given[i];
      if !Apart(g, r) {
        var a := if g.start < r.start then r.start else g.start;
        var p := a / PAGE;
        assert PageStart(p) <= a < PageStart(p) + PAGE;
        assert from <= p < to && Touches(p, g);
      }
    }
  }

  /** An area that starts at a multiple of incr is aligned as asked. */
  lemma StartAligned(start: nat, align: nat, incr: nat)
    requires (align == 0 || IsPow2(align)) && Aligned(start, incr) && incr == Increment(align)
    ensures align != 0 ==> Aligned(PageStart(start), align)
  {
    PageIsPow2();
    hide IsPow2;
    if align != 0 && align < PAGE {
      SmallerDivides(align, PAGE);
      assert Times(start, PAGE) == PageStart(start);
      TransAligned(PageStart(start), PAGE, align);
    } else if align != 0 {
      SmallerDivides(PAGE, align);
      var q: nat :| Times(q, PAGE) == align;
      assert incr == q;
      ScaleAligned(start, incr, PAGE);
    }
  }

  /** The rounded offset stays within the page. */
  lemma OffsetFits(offset: nat, pos: nat, align: nat)
    requires offset < PAGE && align < PAGE && (align == 0 || IsPow2(align))
    ensures Align(offset, align) <= PAGE
    ensures align != 0 ==> offset <= Align(offset, align) && Aligned(pos * PAGE + Align(offset, align), align)
  {
    PageIsPow2();
    hide IsPow2, AlignUp;
    if align != 0 {
      var x := AlignUp(offset, align);
      AlignUpSpec(offset, align);
      SmallerDivides(align, PAGE);
      if x > PAGE { MultiplesApart(x, PAGE, align); }
      assert Times(pos, PAGE) == pos * PAGE;
      TransAligned(pos * PAGE, PAGE, align);
      SumAligned(pos * PAGE, x, align);
    }
  }

  lemma AlignZero(x: nat, align: nat)
    ensures align == 0 ==> Align(x, align) == 0
  {}

  ghost predicate SetBetween(m: seq<bool>, m': seq<bool>, from: nat, to: nat) {
    |m'| == |m| && to <= |m| && forall p :: 0 <= p < |m| ==> m'[p] == (m[p] || from <= p < to)
  }

  lemma PagesStay(m: seq<bool>, m': seq<bool>, from: nat, to: nat, r: Range)
    requires SetBetween(m, m', from, to) && PagesSet(m, r)
    ensures PagesSet(m', r)
  {}

  /** A new range that is apart from the others, on pages that are now reserved. */
  lemma GivenGrows(m: seq<bool>, m': seq<bool>, given: seq<Range>, r: Range, from: nat, to: nat)
    requires GivenOk(m, given) && Disjoint(given) && SetBetween(m, m', from, to) && r.start < r.end && PagesSet(m', r)
    requires forall i :: 0 <= i < |given| ==> Apart(given[i], r)
    ensures GivenOk(m', given + [r]) && Disjoint(given + [r])
  {
    forall i | 0 <= i < |given| ensures PagesSet(m', given[i]) { PagesStay(m, m', from, to, given[i]); }
  }

  /** The last page of a range that ends inside it. */
  lemma TailLeft(m: seq<bool>, m': seq<bool>, given: seq<Range>, r: Range, from: nat, to: nat, offset: nat)
    requires GivenOk(m, given) && AllClear(m, from, to) && SetBetween(m, m', from, to) && from < to && 0 < offset < PAGE
    requires r.start <= PageStart(to - 1) && r.end == PageStart(to - 1) + offset
    ensures TailFree(m', given + [r], to - 1, offset)
  {
    var pos, all := to - 1, given + [r];
    ClearIsApart(m, given, from, to, Range(PageStart(pos) + offset, PageStart(pos) + PAGE));
    assert all[|given|] == r && r.start <= PageStart(pos) < r.end;
  }

  /** A range in the free tail of a page and in the clear pages behind it. */
  lemma JoinApart(m: seq<bool>, given: seq<Range>, pos: nat, last: nat, offset: nat, areasize: nat, r: Range, align: nat)
    requires GivenOk(m, given) && TailFree(m, given, pos, last) && AllClear(m, pos + 1, pos + 1 + areasize)
    requires r.start == PageStart(pos) + offset && r.start < r.end <= PageStart(pos + 1 + areasize) && offset <= PAGE && areasize > 0
    requires if align == 0 then offset == 0 else last <= offset
    ensures (forall i :: 0 <= i < |given| ==> Apart(given[i], r)) <==> align != 0
  {
    if align == 0 {
      var i :| 0 <= i < |given| && given[i].start <= PageStart(pos) < given[i].end;
      assert !Apart(given[i], r);
    } else {
      var area := Range(PageStart(pos + 1), PageStart(pos + 1 + areasize));
      ClearIsApart(m, given, pos + 1, pos + 1 + areasize, area);
      forall i | 0 <= i < |given| ensures Apart(given[i], r) {
        assert Apart(given[i], area) && Apart(given[i], Range(PageStart(pos) + last, PageStart(pos) + PAGE));
      }
    }
  }

  function NextClear(m: seq<bool>, n: nat, i: nat): (r: nat)
    requires i <= n <= |m|
    ensures i <= r <= n && (r < n ==> !m[r]) && forall k :: i <= k < r ==> m[k]
    decreases n - i
  {
    if i < n && m[i] then NextClear(m, n, i + 1) else i
  }

  function RunEnd(m: seq<bool>, n: nat, j: nat): (r: nat)
    requires j <= n <= |m|
    ensures j <= r <= n && (r < n ==> m[r]) && forall k :: j <= k < r ==> !m[k]
    decreases n - j
  {
    if j < n && !m[j] then RunEnd(m, n, j + 1) else j
  }

  /** Where a run that starts at a clear page i ends, looking at no more than areasize pages. */
  function AreaEnd(m: seq<bool>, eidx: nat, areasize: nat, i: nat): (r: nat)
    requires i < eidx <= |m| && areasize > 0
  {
    RunEnd(m, if i + areasize < eidx then i + areasize else eidx, i + 1)
  }

  /** The scan: the start of an area, or eidx. After a run that is too short it goes on one
      step behind the next multiple of incr. */
  function Scan(m: seq<bool>, eidx: nat, areasize: nat, incr: nat, i: nat): (r: nat)
    requires eidx <= |m| && areasize > 0 && incr > 0
    decreases eidx - i
  {
    if i >= eidx then eidx
    else
      var a := AlignUp(NextClear(m, eidx, i), incr);
      AlignUpSpec(NextClear(m, eidx, i), incr);
      if a >= eidx then eidx
      else if m[a] then Scan(m, eidx, areasize, incr, a + incr)
      else
        var j := AreaEnd(m, eidx, areasize, a);
        AlignUpSpec(j, incr);
        if j == a + areasize then a else Scan(m, eidx, areasize, incr, AlignUp(j, incr) + incr)
  }

  /** One round of the scan, from a page below eidx. */
  lemma ScanRound(m: seq<bool>, eidx: nat, areasize: nat, incr: nat, i: nat)
    requires i < eidx <= |m| && areasize > 0 && incr > 0
    ensures var a := AlignUp(NextClear(m, eidx, i), incr);
            if a >= eidx then Scan(m, eidx, areasize, incr, i) == eidx
            else if m[a] then Scan(m, eidx, areasize, incr, i) == Scan(m, eidx, areasize, incr, a + incr)
            else
              var j := AreaEnd(m, eidx, areasize, a);
              Scan(m, eidx, areasize, incr, i) ==
              if j == a + areasize then a else Scan(m, eidx, areasize, incr, AlignUp(j, incr) + incr)
  {
    hide AlignUp, Aligned, NextClear, RunEnd;
  }

  ghost predicate Fits(m: seq<bool>, eidx: nat, areasize: nat, incr: nat, s: nat) {
    s + areasize <= eidx && AllClear(m, s, s + areasize) && Aligned(s, incr)
  }

  lemma ScanEnd(m: seq<bool>, eidx: nat, areasize: nat, incr: nat, i: nat)
    requires eidx <= |m| && areasize > 0 && incr > 0 && eidx <= i
    ensures Scan(m, eidx, areasize, incr, i) == eidx
  {}

  /** What the scan finds is an area of clear pages at a multiple of incr. */
  lemma {:induction false} ScanFits(m: seq<bool>, eidx: nat, areasize: nat, incr: nat, i: nat)
    requires eidx <= |m| && areasize > 0 && incr > 0
    ensures var s := Scan(m, eidx, areasize, incr, i); s <= eidx && (s < eidx ==> i <= s && Fits(m, eidx, areasize, incr, s))
    decreases eidx - i
  {
    hide AlignUp, Aligned, Scan, NextClear, RunEnd;
    if i < eidx {
      ScanRound(m, eidx, areasize, incr, i);
      var z := NextClear(m, eidx, i);
      AlignUpSpec(z, incr);
      var a := AlignUp(z, incr);
      if a < eidx && m[a] {
        ScanFits(m, eidx, areasize, incr, a + incr);
      } else if a < eidx {
        var j := AreaEnd(m, eidx, areasize, a);
        AlignUpSpec(j, incr);
        if j != a + areasize { ScanFits(m, eidx, areasize, incr, AlignUp(j, incr) + incr); }
      }
    } else {
      ScanEnd(m, eidx, areasize, incr, i);
    }
  }

  /** Between a page and the next multiple of incr nothing can start. */
  lemma NoneBefore(m: seq<bool>, eidx: nat, areasize: nat, incr: nat, x: nat, s: nat)
    requires incr > 0 && Fits(m, eidx, areasize, incr, s) && x <= s
    ensures AlignUp(x, incr) <= s
  {
    hide AlignUp, Aligned;
    AlignUpLeast(x, incr, s);
  }

  lemma NoneWithin(m: seq<bool>, eidx: nat, areasize: nat, incr: nat, a: nat, s: nat)
    requires incr > 0 && Aligned(a, incr) && Fits(m, eidx, areasize, incr, s) && a < s
    ensures a + incr <= s
  {
    hide Aligned;
    MultiplesApart(s, a, incr);
  }

  /** For steps of one page, and for single pages, the scan misses nothing. */
  lemma {:induction false} ScanComplete(m: seq<bool>, eidx: nat, areasize: nat, incr: nat, i: nat, s: nat)
    requires eidx <= |m| && areasize > 0 && incr > 0 && (incr == 1 || areasize == 1)
    requires i <= s && Fits(m, eidx, areasize, incr, s)
    ensures Scan(m, eidx, areasize, incr, i) <= s
    decreases eidx - i
  {
    hide AlignUp, Aligned, Scan, NextClear, RunEnd;
    assert !m[s];
    ScanRound(m, eidx, areasize, incr, i);
    var z := NextClear(m, eidx, i);
    AlignUpSpec(z, incr);
    NoneBefore(m, eidx, areasize, incr, z, s);
    var a := AlignUp(z, incr);
    if m[a] {
      NoneWithin(m, eidx, areasize, incr, a, s);
      ScanComplete(m, eidx, areasize, incr, a + incr, s);
    } else {
      var j := AreaEnd(m, eidx, areasize, a);
      if j != a + areasize {
        AlignUpSpec(j, incr);
        assert j < s;
        ScanComplete(m, eidx, areasize, incr, AlignUp(j, incr) + incr, s);
      }
    }
  }

  /** One clear page, set pages up to the next multiple of incr, then an area that is large enough. */
  function SkippedMap(areasize: nat, incr: nat): (m: seq<bool>) {
    seq(incr + areasize, k => 0 < k < incr)
  }

  lemma SmallMultiples(a: nat)
    requires a >= 2
    ensures AlignUp(0, a) == 0 && AlignUp(1, a) == a && AlignUp(2 * a, a) == 2 * a && Aligned(a, a)
  {
    assert Times(0, a) == 0 && Times(1, a) == a && Times(2, a) == 2 * a;
    AlignUpLeast(0, a, 0);
    AlignUpLeast(1, a, a);
    AlignUpLeast(2 * a, a, 2 * a);
    hide AlignUp;
    AlignUpSpec(0, a);
    AlignUpSpec(1, a);
    AlignUpSpec(2 * a, a);
  }

  /** For larger steps and areas there is memory in which the scan misses the only area. */
  lemma ScanSkips(areasize: nat, incr: nat)
    requires areasize >= 2 && incr >= 2
    ensures var m := SkippedMap(areasize, incr);
            Fits(m, |m|, areasize, incr, incr) && Scan(m, |m|, areasize, incr, 0) == |m|
  {
    var m := SkippedMap(areasize, incr);
    SmallMultiples(incr);
    hide AlignUp, Aligned;
    assert NextClear(m, |m|, 0) == 0;
    assert AreaEnd(m, |m|, areasize, 0) == 1;
    assert Scan(m, |m|, areasize, incr, 0) == Scan(m, |m|, areasize, incr, 2 * incr);
    if 2 * incr < |m| {
      assert NextClear(m, |m|, 2 * incr) == 2 * incr;
      assert AreaEnd(m, |m|, areasize, 2 * incr) == |m|;
      AlignUpSpec(|m|, incr);
    }
  }

  function LastPage(n: nat, limit: nat): (r: nat)
    ensures r <= n
  {
    if limit / PAGE != 0 && n > limit / PAGE then limit / PAGE else n
  }

  /** Pages of an area, and the step between candidates. */
  function Pages(size: nat): (r: nat) { (size + PAGE - 1) / PAGE }

  function Increment(align: nat): (r: nat)
    ensures r > 0
  {
    if align / PAGE == 0 then 1 else align / PAGE
  }

  /** Where the scan starts, in pages: at the goal, or at the last success behind it. */
  function Preferred(n: nat, align: nat, goal: nat, limit: nat, lastSuccess: nat): (page: nat) {
    var preferred := if goal == 0 || goal / PAGE >= LastPage(n, limit) then 0
                     else if lastSuccess >= goal && (limit / PAGE == 0 || limit / PAGE > lastSuccess) then lastSuccess
                     else goal;
    Align(preferred, align) / PAGE
  }

  /** The page at which a request is placed, or the last page if there is none: the scan from
      the preferred page, and then from the first one. */
  function Found(m: seq<bool>, size: nat, align: nat, limit: nat, preferred: nat): (s: nat)
    requires size > 0
  {
    var eidx := LastPage(|m|, limit);
    var s := Scan(m, eidx, Pages(size), Increment(align), preferred);
    if s < eidx || preferred == 0 then s else Scan(m, eidx, Pages(size), Increment(align), 0)
  }

  /** There is room for a request at page s. */
  ghost predicate Room(m: seq<bool>, size: nat, align: nat, limit: nat, s: nat) {
    Fits(m, LastPage(|m|, limit), Pages(size), Increment(align), s)
  }

  lemma RoomClear(m: seq<bool>, size: nat, align: nat, limit: nat, s: nat)
    requires Room(m, size, align, limit, s)
    ensures AllClear(m, s, s + Pages(size)) && Aligned(s, Increment(align))
  {}

  /** Whole pages below a limit. */
  lemma LastPageIs(n: nat, limit: nat)
    ensures limit < PAGE ==> LastPage(n, limit) == n
    ensures limit >= PAGE ==> PageStart(LastPage(n, limit)) <= limit && (LastPage(n, limit) < n ==> limit < PageStart(LastPage(n, limit) + 1))
  {}

  lemma PagesIs(size: nat)
    requires size > 0
    ensures Pages(size) > 0 && PageStart(Pages(size) - 1) < size <= PageStart(Pages(size))
  {}

  lemma IncrementIs(align: nat, s: nat)
    requires align == 0 || IsPow2(align)
    ensures align < PAGE ==> Increment(align) == 1
    ensures align >= PAGE ==> (Aligned(s, Increment(align)) <==> Aligned(PageStart(s), align))
  {
    hide IsPow2, Aligned;
    if align >= PAGE {
      PageIsPow2();
      SmallerDivides(PAGE, align);
      var q := WholePages(align);
      PagesAligned(s, q);
    }
  }

  lemma WholePages(align: nat) returns (q: nat)
    requires Aligned(align, PAGE) && align >= PAGE
    ensures q * PAGE == align && Increment(align) == q
  {
    q :| Times(q, PAGE) == align;
  }

  lemma PagesAligned(s: nat, q: nat)
    requires q > 0
    ensures Aligned(s, q) <==> Aligned(PageStart(s), q * PAGE)
  {
    if Aligned(s, q) { ScaleAligned(s, q, PAGE); }
    if Aligned(PageStart(s), q * PAGE) {
      var k: nat :| Times(k, q * PAGE) == PageStart(s);
      SamePages(k * q, s, k, q);
      assert Times(k, q) == s;
    }
  }

  lemma SamePages(x: nat, s: nat, k: nat, q: nat)
    requires x == k * q && k * (q * PAGE) == s * PAGE
    ensures x == s
  {
    assert k * (q * PAGE) == (k * q) * PAGE;
  }

  /** There is room at a page exactly if every page that the request touches from there on exists,
      is clear and ends below the limit, and the page has the alignment. */
  lemma RoomMeans(m: seq<bool>, size: nat, align: nat, limit: nat, s: nat)
    requires size > 0 && (align == 0 || IsPow2(align))
    ensures Room(m, size, align, limit, s) <==>
            && (align >= PAGE ==> Aligned(PageStart(s), align))
            && forall p: nat :: s <= p && PageStart(p) < PageStart(s) + size ==> p < |m| && !m[p] && (limit >= PAGE ==> PageStart(p + 1) <= limit)
  {
    hide IsPow2, Aligned, Pages, Increment, LastPage;
    var eidx, n := LastPage(|m|, limit), Pages(size);
    LastPageIs(|m|, limit);
    PagesIs(size);
    IncrementIs(align, s);
    if align < PAGE { AlignedOne(s); }
    forall p: nat | s <= p ensures PageStart(p) < PageStart(s) + size <==> p < s + n {}
    if forall p: nat :: s <= p && PageStart(p) < PageStart(s) + size ==> p < |m| && !m[p] && (limit >= PAGE ==> PageStart(p + 1) <= limit) {
      var last: nat := s + n - 1;
      assert PageStart(last) < PageStart(s) + size;
      assert last < |m| && (limit >= PAGE ==> PageStart(last + 1) <= limit);
      assert s + n <= eidx;
    }
  }

  lemma AlignedOne(s: nat)
    ensures Aligned(s, 1)
  {
    assert Times(s, 1) == s;
  }

  /** Where the scan starts: without a goal below the last page, or without an alignment, at page 0;
      otherwise at the page of the first aligned address from the goal on, or from the last success
      on if that is behind the goal and, taken as a page number, below the limit. */
  lemma PreferredIs(n: nat, align: nat, goal: nat, limit: nat, lastSuccess: nat)
    ensures var page := Preferred(n, align, goal, limit, lastSuccess);
            && (align == 0 || goal == 0 || goal >= PageStart(LastPage(n, limit)) ==> page == 0)
            && (align != 0 && 0 < goal < PageStart(LastPage(n, limit)) ==>
                  var late := lastSuccess >= goal && (limit < PAGE || PageStart(lastSuccess + 1) <= limit);
                  var a := AlignUp(if late then lastSuccess else goal, align);
                  PageStart(page) <= a < PageStart(page + 1))
  {
    hide LastPage, AlignUp, Aligned;
    if align != 0 {
      ZeroAligned(align);
      AlignUpLeast(0, align, 0);
    }
  }

  lemma ZeroAligned(a: nat)
    ensures Aligned(0, a)
  {
    assert Times(0, a) == 0;
  }

  /** A scan of all pages in vain means that there is no room, for small sizes or alignments. */
  lemma NoRoom(m: seq<bool>, size: nat, align: nat, limit: nat)
    requires size > 0 && (size <= PAGE || align < 2 * PAGE)
    requires Scan(m, LastPage(|m|, limit), Pages(size), Increment(align), 0) >= LastPage(|m|, limit)
    ensures forall s: nat :: !Room(m, size, align, limit, s)
  {
    hide Scan;
    var eidx, areasize, incr := LastPage(|m|, limit), Pages(size), Increment(align);
    forall s: nat ensures !Room(m, size, align, limit, s) {
      if Room(m, size, align, limit, s) { ScanComplete(m, eidx, areasize, incr, 0, s); }
    }
  }

  /** First fit from the preferred page on, and only then from page 0 on. */
  ghost predicate FirstFit(m: seq<bool>, size: nat, align: nat, limit: nat, preferred: nat, page: nat) {
    forall s: nat :: Room(m, size, align, limit, s) && s != page ==> if page >= preferred then s < preferred || page < s else page < s < preferred
  }

  lemma FoundFirst(m: seq<bool>, size: nat, align: nat, limit: nat, preferred: nat)
    requires size > 0 && (size <= PAGE || align < 2 * PAGE)
    requires Found(m, size, align, limit, preferred) < LastPage(|m|, limit)
    ensures FirstFit(m, size, align, limit, preferred, Found(m, size, align, limit, preferred))
  {
    hide Scan, LastPage;
    var eidx, areasize, incr := LastPage(|m|, limit), Pages(size), Increment(align);
    ScanFits(m, eidx, areasize, incr, preferred);
    ScanFits(m, eidx, areasize, incr, 0);
    forall s: nat | Room(m, size, align, limit, s)
      ensures s >= preferred ==> Scan(m, eidx, areasize, incr, preferred) <= s
      ensures Scan(m, eidx, areasize, incr, 0) <= s
    {
      if s >= preferred { ScanComplete(m, eidx, areasize, incr, preferred, s); }
      ScanComplete(m, eidx, areasize, incr, 0, s);
    }
  }

  /** Room ends below the limit. */
  lemma RoomBelow(m: seq<bool>, size: nat, align: nat, limit: nat, s: nat)
    requires size > 0 && Room(m, size, align, limit, s)
    ensures limit >= PAGE ==> PageStart(s) + size <= limit
  {
    hide Increment, LastPage, Aligned, AllClear;
    LastPageIs(|m|, limit);
    PagesIs(size);
  }

  /** A request of some size from an offset in page pos on: it fits the page, or goes on in
      the pages behind it, which are reserved. */
  ghost predicate Joined(m: seq<bool>, m': seq<bool>, pos: nat, offset: nat, size: nat, pos': nat, offset': nat) {
    if offset + size < PAGE then m' == m && pos' == pos && offset' == offset + size
    else
      offset + size >= PAGE &&
      var rest := offset + size - PAGE;
      SetBetween(m, m', pos + 1, pos + 1 + Pages(rest)) && pos' == pos + Pages(rest) && offset' == rest % PAGE
  }

  class BootAllocator {
    /** node_bootmem_map: a reserved page has its bit set. */
    const bits: array<bool>
    var lastOffset: nat
    var lastPos: nat
    var lastSuccess: nat
    ghost var given: seq<Range>

    ghost predicate Valid()
      reads this, bits
    {
      && lastOffset < PAGE && GivenOk(bits[..], given) && Disjoint(given)
      && (lastOffset > 0 ==> TailFree(bits[..], given, lastPos, lastOffset))
    }

    constructor (bits: array<bool>)
      ensures Valid() && this.bits == bits && given == [] && lastOffset == 0
    {
      this.bits := bits;
      lastOffset, lastPos, lastSuccess, given := 0, 0, 0, [];
    }

    /** find_next_zero_bit below n. */
    method FindNextZero(n: nat, from: nat) returns (i: nat)
      requires from <= n <= bits.Length
      ensures i == NextClear(bits[..], n, from)
    {
      i := from;
      while i < n && bits[i]
        invariant from <= i <= n && NextClear(bits[..], n, from) == NextClear(bits[..], n, i)
      {
        i := i + 1;
      }
    }

    /** The clear pages from i on, no more than areasize of them. */
    method FindAreaEnd(i: nat, eidx: nat, areasize: nat) returns (j: nat)
      requires i < eidx <= bits.Length && areasize > 0
      ensures j == AreaEnd(bits[..], eidx, areasize, i)
    {
      j := i + 1;
      while j < i + areasize && j < eidx && !bits[j]
        invariant i < j <= i + areasize && j <= eidx
        invariant AreaEnd(bits[..], eidx, areasize, i) == RunEnd(bits[..], if i + areasize < eidx then i + areasize else eidx, j)
      {
        j := j + 1;
      }
    }

    /** The scan for a run of clear pages that starts at a multiple of incr. */
    method FindArea(preferred: nat, eidx: nat, areasize: nat, incr: nat) returns (found: bool, start: nat)
      requires eidx <= bits.Length && areasize > 0 && incr > 0
      ensures found <==> Scan(bits[..], eidx, areasize, incr, preferred) < eidx
      ensures found ==> start == Scan(bits[..], eidx, areasize, incr, preferred)
    {
      hide AlignUp, Aligned, Scan, NextClear;
      ghost var m := bits[..];
      var i := preferred;
      while i < eidx
        invariant Scan(m, eidx, areasize, incr, preferred) == Scan(m, eidx, areasize, incr, i)
        decreases eidx - i
      {
        ScanRound(m, eidx, areasize, incr, i);
        i := FindNextZero(eidx, i);
        AlignUpSpec(i, incr);
        i := AlignUp(i, incr);
        if i >= eidx { break; }
        if bits[i] {
          i := i + incr;
          continue;
        }
        var j := FindAreaEnd(i, eidx, areasize);
        if j == i + areasize { return true, i; }
        AlignUpSpec(j, incr);
        i := AlignUp(j, incr) + incr;
      }
      if i >= eidx { ScanEnd(m, eidx, areasize, incr, i); }
      return false, 0;
    }

    /** Reserving an area; every page of it is clear, so the BUG is not reached. */
    method Reserve(start: nat, areasize: nat)
      requires start + areasize <= bits.Length && AllClear(bits[..], start, start + areasize)
      modifies bits
      ensures SetBetween(old(bits[..]), bits[..], start, start + areasize)
    {
      for i := start to start + areasize
        invariant forall p :: 0 <= p < bits.Length ==> bits[p] == (old(bits[p]) || start <= p < i)
      {
        assert !bits[i];
        bits[i] := true;
      }
    }

    /** The scan from the preferred page, and then from the first one. */
    method Search(preferred: nat, size: nat, align: nat, limit: nat) returns (found: bool, start: nat)
      requires size > 0
      ensures found <==> Found(bits[..], size, align, limit, preferred) < LastPage(bits.Length, limit)
      ensures found ==> start == Found(bits[..], size, align, limit, preferred) && Room(bits[..], size, align, limit, start)
      ensures !found && (size <= PAGE || align < 2 * PAGE) ==> forall s: nat :: !Room(bits[..], size, align, limit, s)
    {
      hide Scan, Fits;
      var eidx, areasize, incr := LastPage(bits.Length, limit), Pages(size), Increment(align);
      ScanFits(bits[..], eidx, areasize, incr, preferred);
      ScanFits(bits[..], eidx, areasize, incr, 0);
      found, start := FindArea(preferred, eidx, areasize, incr);
      if !found && preferred > 0 { found, start := FindArea(0, eidx, areasize, incr); }
      if !found && (size <= PAGE || align < 2 * PAGE) { NoRoom(bits[..], size, align, limit); }
    }

    /** The page that __alloc_bootmem_core finds in this state. */
    ghost function Target(size: nat, align: nat, goal: nat, limit: nat): (s: nat)
      requires size > 0
      reads this, bits
    {
      Found(bits[..], size, align, limit, Preferred(bits.Length, align, goal, limit, lastSuccess))
    }

    /** The request begins in the rest of the page handed out last. */
    ghost predicate Joins(size: nat, align: nat, goal: nat, limit: nat)
      requires size > 0
      reads this, bits
    {
      align < PAGE && lastOffset > 0 && lastPos + 1 == Target(size, align, goal, limit)
    }

    /** __alloc_bootmem_core, for memory that starts at address 0. */
    method Alloc(size: nat, align: nat, goal: nat, limit: nat) returns (ok: bool, ret: nat)
      requires Valid() && size > 0 && (align == 0 || IsPow2(align))
      modifies this, bits
      ensures ok <==> old(Target(size, align, goal, limit)) < LastPage(bits.Length, limit)
      ensures ok ==> exists s: nat :: Room(old(bits[..]), size, align, limit, s)
      ensures !ok && (size <= PAGE || align < 2 * PAGE) ==> forall s: nat :: !Room(bits[..], size, align, limit, s)
      ensures !ok ==> Valid() && given == old(given) && bits[..] == old(bits[..])
      ensures ok && limit >= PAGE ==> ret + size <= limit
      ensures ok && (size <= PAGE || align < 2 * PAGE) ==>
                FirstFit(old(bits[..]), size, align, limit, Preferred(bits.Length, align, goal, limit, old(lastSuccess)),
                         old(Target(size, align, goal, limit)))
      ensures ok ==> given == old(given) + [Range(ret, ret + size)]
      ensures ok && align != 0 ==> Valid() && Aligned(ret, align)
      ensures ok ==> ((forall i :: 0 <= i < |old(given)| ==> Apart(old(given)[i], Range(ret, ret + size)))
                      <==> align != 0 || !old(Joins(size, align, goal, limit)))
      ensures ok && !old(Joins(size, align, goal, limit)) ==>
                var s := old(Target(size, align, goal, limit));
                && Valid() && ret == PageStart(s) && SetBetween(old(bits[..]), bits[..], s, s + Pages(size))
                && lastPos == s + Pages(size) - 1 && lastOffset == size % PAGE
      ensures ok && old(Joins(size, align, goal, limit)) ==>
                && ret == PageStart(old(lastPos)) + Align(old(lastOffset), align)
                && Joined(old(bits[..]), bits[..], old(lastPos), Align(old(lastOffset), align), size, lastPos, lastOffset)
      ensures ok ==> lastSuccess == PageStart(old(Target(size, align, goal, limit)))
    {
      hide Found, Preferred, Align, GivenOk, TailFree, Disjoint, Joined, SetBetween, Aligned, Apart, IsPow2, AllClear, Pages, Increment, PageStart;
      var preferred := Preferred(bits.Length, align, goal, limit, lastSuccess);
      var areasize, incr := Pages(size), Increment(align);
      var found, start := Search(preferred, size, align, limit);
      if !found { return false, 0; }
      RoomClear(bits[..], size, align, limit, start);
      RoomBelow(bits[..], size, align, limit, start);
      if size <= PAGE || align < 2 * PAGE { FoundFirst(bits[..], size, align, limit, preferred); }
      hide Room, FirstFit;
      lastSuccess := PageStart(start);
      if align < PAGE && lastOffset != 0 && lastPos + 1 == start {
        ret := Join(size, align, start, areasize);
      } else {
        StartAligned(start, align, incr);
        ret := Place(size, start, areasize);
      }
      ok := true;
    }

    /** The range begins on a page of its own. */
    method Place(size: nat, start: nat, areasize: nat) returns (ret: nat)
      requires Valid() && size > 0 && areasize == Pages(size) && AllClear(bits[..], start, start + areasize)
      modifies this, bits
      ensures Valid() && ret == PageStart(start) && given == old(given) + [Range(ret, ret + size)]
      ensures SetBetween(old(bits[..]), bits[..], start, start + areasize)
      ensures lastPos == start + areasize - 1 && lastOffset == size % PAGE && lastSuccess == old(lastSuccess)
      ensures forall i :: 0 <= i < |old(given)| ==> Apart(old(given)[i], Range(ret, ret + size))
    {
      ghost var m, r := bits[..], Range(PageStart(start), PageStart(start) + size);
      ClearIsApart(m, given, start, start + areasize, r);
      lastPos := start + areasize - 1;
      lastOffset := size % PAGE;
      ret := start * PAGE;
      Reserve(start, areasize);
      GivenGrows(m, bits[..], given, r, start, start + areasize);
      if lastOffset > 0 { TailLeft(m, bits[..], given, r, start, start + areasize, lastOffset); }
      given := given + [r];
    }

    /** The range begins in the rest of the last page and goes on in the area behind it. */
    method Join(size: nat, align: nat, start: nat, areasize: nat) returns (ret: nat)
      requires Valid() && size > 0 && (align == 0 || IsPow2(align)) && align < PAGE && lastOffset > 0 && lastPos + 1 == start
      requires areasize == Pages(size) && AllClear(bits[..], start, start + areasize)
      modifies this, bits
      ensures ret == PageStart(old(lastPos)) + Align(old(lastOffset), align) <= PageStart(start)
      ensures Joined(old(bits[..]), bits[..], old(lastPos), Align(old(lastOffset), align), size, lastPos, lastOffset)
      ensures lastSuccess == old(lastSuccess)
      ensures given == old(given) + [Range(ret, ret + size)] && (align != 0 ==> Valid() && Aligned(ret, align))
      ensures (forall i :: 0 <= i < |old(given)| ==> Apart(old(given)[i], Range(ret, ret + size))) <==> align != 0
    {
      hide TailFree, GivenOk, Disjoint, AllClear, SetBetween, PagesSet, Align, Aligned, IsPow2, Apart, Joined;
      ghost var m, was := bits[..], given;
      var offset := Align(lastOffset, align);
      OffsetFits(lastOffset, lastPos, align);
      assert offset <= PAGE;
      AlignZero(lastOffset, align);
      var remaining, area := PAGE - offset, 0;
      ret := lastPos * PAGE + offset;
      ghost var r := Range(ret, ret + size);
      JoinApart(m, given, lastPos, lastOffset, offset, areasize, r, align);
      if size < remaining {
        lastOffset := offset + size;
      } else {
        remaining := size - remaining;
        area := (remaining + PAGE - 1) / PAGE;
        lastPos := start + area - 1;
        lastOffset := remaining;
      }
      lastOffset := lastOffset % PAGE;
      ClearPart(m, start, areasize, area);
      Reserve(start, area);
      JoinedIs(m, bits[..], old(lastPos), offset, size, area, lastPos, lastOffset);
      given := given + [r];
      if align != 0 { JoinKeeps(m, bits[..], was, r, old(lastPos), old(lastOffset), offset, size, area, lastPos, lastOffset); }
    }
  }

  lemma FirstFound(m: seq<bool>, page: nat)
    requires |m| == 2 && page < 2 && !m[page] && (page == 1 ==> m[0])
    ensures Scan(m, 2, 1, 1, 0) == page
  {
    assert NextClear(m, 2, 1) == 1 ==> !m[1];
    assert AlignUp(page, 1) == page;
    assert AreaEnd(m, 2, 1, page) == page + 1;
  }

  /** On a fresh allocator with two pages, the second of two small requests with alignment 0
      gets the bytes of the first one. */
  method ZeroAlignmentOverlaps() returns (first: nat, second: nat)
    ensures first == 0 == second
  {
    hide Scan;
    var bits := new bool[2](i => false);
    var boot := new BootAllocator(bits);
    FirstFound(bits[..], 0);
    var ok;
    ok, first := boot.Alloc(10, 0, 0, 0);
    assert bits[..][0] && !bits[..][1];
    FirstFound(bits[..], 1);
    ok, second := boot.Alloc(5, 0, 0, 0);
  }

  /** A limit of less than a page is no limit: 200 bytes are handed out below address 100. */
  method SmallLimitIgnored() returns (ok: bool, ret: nat)
    ensures ok && ret + 200 > 100
  {
    hide Scan;
    var bits := new bool[2](i => false);
    var boot := new BootAllocator(bits);
    FirstFound(bits[..], 0);
    assert IsPow2(1);
    ok, ret := boot.Alloc(200, 1, 0, 100);
  }

  lemma JoinedIs(m: seq<bool>, m': seq<bool>, pos: nat, offset: nat, size: nat, area: nat, pos': nat, offset': nat)
    requires SetBetween(m, m', pos + 1, pos + 1 + area) && offset <= PAGE
    requires if size < PAGE - offset then area == 0 && pos' == pos && offset' == (offset + size) % PAGE
             else area == Pages(size - (PAGE - offset)) && pos' == pos + area && offset' == (size - (PAGE - offset)) % PAGE
    ensures Joined(m, m', pos, offset, size, pos', offset')
  {}

  /** A joined range keeps the allocator in order. */
  lemma JoinKeeps(m: seq<bool>, m': seq<bool>, given: seq<Range>, r: Range, pos: nat, last: nat, offset: nat, size: nat, area: nat,
                  pos': nat, offset': nat)
    requires GivenOk(m, given) && Disjoint(given) && TailFree(m, given, pos, last) && last <= offset <= PAGE && size > 0
    requires r == Range(PageStart(pos) + offset, PageStart(pos) + offset + size) && forall i :: 0 <= i < |given| ==> Apart(given[i], r)
    requires SetBetween(m, m', pos + 1, pos + 1 + area) && AllClear(m, pos + 1, pos + 1 + area)
    requires if size < PAGE - offset then area == 0 && pos' == pos && offset' == (offset + size) % PAGE
             else area == Pages(size - (PAGE - offset)) && pos' == pos + area && offset' == (size - (PAGE - offset)) % PAGE
    ensures GivenOk(m', given + [r]) && Disjoint(given + [r]) && offset' < PAGE
    ensures offset' > 0 ==> TailFree(m', given + [r], pos', offset')
  {
    hide TailFree, GivenOk, Disjoint, AllClear, SetBetween, Apart;
    JoinedGiven(m, m', given, r, pos, last, offset, area);
    if size < PAGE - offset {
      TailShrinks(m, m', given, r, pos, last, offset', pos + 1);
    } else if offset' > 0 {
      TailLeft(m, m', given, r, pos + 1, pos + 1 + area, offset');
    }
  }

  lemma ClearPart(m: seq<bool>, start: nat, areasize: nat, area: nat)
    requires AllClear(m, start, start + areasize) && area <= areasize
    ensures AllClear(m, start, start + area) && start + areasize <= |m|
  {}

  lemma JoinedGiven(m: seq<bool>, m': seq<bool>, given: seq<Range>, r: Range, pos: nat, last: nat, offset: nat, area: nat)
    requires GivenOk(m, given) && Disjoint(given) && TailFree(m, given, pos, last) && SetBetween(m, m', pos + 1, pos + 1 + area)
    requires r.start == PageStart(pos) + offset && offset <= PAGE && r.start < r.end <= PageStart(pos + 1 + area)
    requires forall i :: 0 <= i < |given| ==> Apart(given[i], r)
    ensures GivenOk(m', given + [r]) && Disjoint(given + [r])
  {
    forall p: nat | Touches(p, r) ensures p < |m'| && m'[p] {
      assert pos <= p < pos + 1 + area;
    }
    GivenGrows(m, m', given, r, pos + 1, pos + 1 + area);
  }

  lemma TailShrinks(m: seq<bool>, m': seq<bool>, given: seq<Range>, r: Range, pos: nat, last: nat, now: nat, start: nat)
    requires TailFree(m, given, pos, last) && SetBetween(m, m', start, start) && last <= now < PAGE
    requires r.end == PageStart(pos) + now
    ensures TailFree(m', given + [r], pos, now)
  {
    var all := given + [r];
    var i :| 0 <= i < |given| && given[i].start <= PageStart(pos) < given[i].end;
    assert all[i] == given[i];
    forall k | 0 <= k < |all| ensures Apart(all[k], Range(PageStart(pos) + now, PageStart(pos) + PAGE)) {
      if k < |given| { assert Apart(given[k], Range(PageStart(pos) + last, PageStart(pos) + PAGE)); }
    }
  }
}
