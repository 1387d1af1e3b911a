/** Requesting, releasing, inserting and adjusting resources. */
module Resources {
  import opened ResourceTree

  /** A resource fits below r without touching a child of r. */
  ghost predicate Fits(g: Store, t: Tree, r: Id, n: Id)
    requires r in t.kids
  {
    Start(g, n) <= End(g, n) && Inside(g, n, r) && forall c :: c in t.kids[r] ==> !Overlap(g, c, n)
  }

  /** c is the first child of r that touches n. */
  ghost predicate FirstConflict(g: Store, t: Tree, r: Id, n: Id, i: nat)
    requires r in t.kids
  {
    i < |t.kids[r]| && Overlap(g, t.kids[r][i], n) && forall k :: 0 <= k < i ==> End(g, t.kids[r][k]) < Start(g, n)
  }

  /** A node that is not yet in the tree. */
  ghost predicate Loose(g: Store, t: Tree, n: Id) {
    n !in t.kids && n != NULL && Get(g.child, n) == NULL
  }

  lemma PlaceFits(g: Store, t: Tree, r: Id, n: Id, i: nat)
    requires TreeOk(g, t) && r in t.kids && i <= |t.kids[r]| && Start(g, n) <= End(g, n) && Inside(g, n, r)
    requires forall k :: 0 <= k < i ==> End(g, t.kids[r][k]) < Start(g, n)
    requires i < |t.kids[r]| ==> Start(g, t.kids[r][i]) > End(g, n)
    ensures SpliceFits(g, t.kids[r], r, i, i, n) && Fits(g, t, r, n)
  {
    assert NodeOk(g, t, r);
    var ks := t.kids[r];
    forall k | i <= k < |ks| ensures End(g, n) < Start(g, ks[k]) {
      if k > i { assert End(g, ks[i]) < Start(g, ks[k]) && Start(g, ks[i]) <= End(g, ks[i]); }
    }
  }

  lemma KidLinks(g: Store, t: Tree, r: Id, i: nat)
    requires TreeOk(g, t) && r in t.kids
    ensures Get(g.child, r) == At(t.kids[r], 0) && r != NULL
    ensures i < |t.kids[r]| ==> t.kids[r][i] != NULL && Get(g.sibling, t.kids[r][i]) == At(t.kids[r], i + 1) && Get(g.parent, t.kids[r][i]) == r
    ensures i < |t.kids[r]| ==> t.kids[r][i] in t.kids && Start(g, t.kids[r][i]) <= End(g, t.kids[r][i]) && Inside(g, t.kids[r][i], r)
  {
    assert NodeOk(g, t, r);
    if i < |t.kids[r]| {
      assert ChainedAt(g, r, t.kids[r], i);
      assert t.kids[r][i] in t.kids[r];
      assert NodeOk(g, t, t.kids[r][i]);
    }
  }

  class ResourceMap {
    var g: Store
    ghost var t: Tree

    ghost predicate Valid()
      reads this
    {
      TreeOk(g, t)
    }

    /** __request_resource: 0 when n was entered below r, r when n is not inside r,
        otherwise the first child that conflicts. */
    method Request(r: Id, n: Id) returns (conflict: Id, ghost i: nat)
      requires Valid() && r in t.kids && Loose(g, t, n)
      modifies this
      ensures Valid() && g.start == old(g.start) && g.end == old(g.end)
      ensures conflict == NULL <==> Fits(old(g), old(t), r, n)
      ensures conflict == NULL ==> i <= |old(t).kids[r]| && r in old(t).rank && t == Splice(old(t), r, i, i, n, old(t).rank[r] + 1.0)
      ensures conflict == NULL ==> SpliceFits(old(g), old(t).kids[r], r, i, i, n)
      ensures conflict != NULL ==> g == old(g) && t == old(t)
      ensures conflict == r <==> !(Start(g, n) <= End(g, n) && Inside(g, n, r))
      ensures conflict != NULL && conflict != r ==> FirstConflict(g, t, r, n, i) && conflict == t.kids[r][i]
    {
      hide TreeOk;
      ghost var ks := t.kids[r];
      i := 0;
      KidLinks(g, t, r, 0);
      NotOwnChild(g, t, r);
      var start, end := Start(g, n), End(g, n);
      if end < start || start < Start(g, r) || end > End(g, r) { return r, 0; }
      var prev, tmp := NULL, Get(g.child, r);
      while true
        invariant i <= |ks| && tmp == At(ks, i) && prev == (if i == 0 then NULL else ks[i - 1])
        invariant forall k :: 0 <= k < i ==> End(g, ks[k]) < start
        invariant Valid() && g == old(g) && t == old(t)
        decreases |ks| - i
      {
        KidLinks(g, t, r, i);
        if tmp == NULL || Start(g, tmp) > end {
          PlaceFits(g, t, r, n, i);
          LinkIn(r, prev, tmp, n, i);
          return NULL, i;
        }
        if End(g, tmp) >= start {
          assert ks[i] in ks;
          return tmp, i;
        }
        prev, tmp := tmp, Get(g.sibling, tmp);
        i := i + 1;
      }
    }

    method LinkIn(r: Id, prev: Id, tmp: Id, n: Id, ghost i: nat)
      requires Valid() && r in t.kids && Loose(g, t, n) && i <= |t.kids[r]|
      requires tmp == At(t.kids[r], i) && prev == (if i == 0 then NULL else t.kids[r][i - 1])
      requires SpliceFits(g, t.kids[r], r, i, i, n)
      modifies this
      ensures Valid() && g.start == old(g.start) && g.end == old(g.end)
      ensures r in old(t).rank && t == Splice(old(t), r, i, i, n, old(t).rank[r] + 1.0)
    {
      hide TreeOk, SpliceFits, Splice, SpliceLinks;
      g := g.(sibling := g.sibling[n := tmp]);
      if prev == NULL { g := g.(child := g.child[r := n]); } else { g := g.(sibling := g.sibling[prev := n]); }
      g := g.(parent := g.parent[n := r]);
      LinkedIn(old(g), g, t, r, prev, tmp, n, i);
      SpliceOk(old(g), g, t, r, i, i, n, t.rank[r] + 1.0);
      t := Splice(t, r, i, i, n, t.rank[r] + 1.0);
    }

    /** __release_resource of a resource without children. */
    method Release(n: Id) returns (ok: bool, ghost i: nat)
      requires Valid() && n in t.kids && n != t.root && t.kids[n] == []
      modifies this
      ensures Valid() && ok && g.start == old(g.start) && g.end == old(g.end)
      ensures var p := Get(old(g).parent, n);
              p in old(t).kids && i < |old(t).kids[p]| && old(t).kids[p][i] == n && t == Without(old(t), p, i)
    {
      hide TreeOk, WithoutLinks;
      ParentLink(g, t, n);
      var p := Get(g.parent, n);
      ghost var ks := t.kids[p];
      KidLinks(g, t, p, 0);
      var prev, tmp := NULL, Get(g.child, p);
      i := 0;
      while tmp != n
        invariant i < |ks| && tmp == ks[i] && n in ks[i..] && prev == (if i == 0 then NULL else ks[i - 1])
        invariant Valid() && g == old(g) && t == old(t)
        decreases |ks| - i
      {
        KidLinks(g, t, p, i);
        KidLinks(g, t, p, i + 1);
        assert ks[i..] == [ks[i]] + ks[i + 1..];
        prev, tmp := tmp, Get(g.sibling, tmp);
        i := i + 1;
      }
      KidLinks(g, t, p, i);
      if prev == NULL { g := g.(child := g.child[p := Get(g.sibling, n)]); } else { g := g.(sibling := g.sibling[prev := Get(g.sibling, n)]); }
      g := g.(parent := g.parent[n := NULL]);
      LinkedOut(old(g), g, t, p, prev, i);
      WithoutOk(old(g), g, t, p, i);
      t := Without(t, p, i);
      ok := true;
    }

    /** The descent of insert_resource: to the deepest resource that holds n, where n is
        entered, or refused because it is not inside `top`, or meets a child that it touches. */
    method Descend(top: Id, n: Id) returns (parent: Id, first: Id, ghost i: nat)
      requires Valid() && top in t.kids && Loose(g, t, n)
      modifies this
      ensures Valid() && g.start == old(g.start) && g.end == old(g.end) && parent in old(t).kids
      ensures first == parent <==> !(Start(g, n) <= End(g, n) && Inside(g, n, top))
      ensures first != parent ==> Deepest(old(g), old(t), parent, n) && Inside(old(g), parent, top) && (parent == top || Holds(old(g), parent, n))
      ensures first == NULL ==> SpliceFits(old(g), old(t).kids[parent], parent, i, i, n) && exists rank :: t == Splice(old(t), parent, i, i, n, rank)
      ensures first != NULL ==> g == old(g) && t == old(t)
      ensures first != NULL && first != parent ==> FirstConflict(g, t, parent, n, i) && first == t.kids[parent][i] && !Holds(g, first, n)
    {
      hide TreeOk, SpliceFits, Splice, FirstConflict, Fits, Deepest;
      parent := top;
      while true
        invariant Valid() && g == old(g) && t == old(t) && parent in t.kids && Loose(g, t, n)
        invariant parent != top ==> Start(g, n) <= End(g, n) && Inside(g, n, parent) && Inside(g, n, top) && Holds(g, parent, n)
        invariant Inside(g, parent, top)
        decreases Below(t, parent)
      {
        KidLinks(g, t, parent, 0);
        first, i := Request(parent, n);
        if first == NULL {
          FitsDeepest(old(g), old(t), parent, n);
          return;
        }
        if first == parent { return; }
        ConflictChild(g, t, parent, n, i);
        if Start(g, first) > Start(g, n) || End(g, first) < End(g, n) || (Start(g, first) == Start(g, n) && End(g, first) == End(g, n)) {
          return;
        }
        BelowSmaller(g, t, parent, first);
        parent := first;
      }
    }

    /** The scan over the children that n touches: all inside n, or a partial overlap. */
    method Adoptable(parent: Id, first: Id, n: Id, ghost i: nat) returns (ok: bool, last: Id, ghost j: nat)
      requires Valid() && FirstTouched(g, t, parent, first, n, i) && !Holds(g, first, n)
      ensures !ok ==> PartialBelow(g, t, parent, n)
      ensures ok ==> i < j && SpliceFits(g, t.kids[parent], parent, i, j, n) && last == t.kids[parent][j - 1]
    {
      hide TreeOk;
      ghost var ks := t.kids[parent];
      last := first;
      j := i + 1;
      while true
        invariant i < j <= |ks| && last == ks[j - 1] && Overlap(g, last, n) && !Holds(g, last, n)
        invariant forall k :: i <= k < j - 1 ==> Inside(g, ks[k], n)
        decreases |ks| - j
      {
        KidLinks(g, t, parent, j - 1);
        KidLinks(g, t, parent, j);
        if Start(g, last) < Start(g, n) || End(g, last) > End(g, n) {
          assert last in ks;
          return false, last, j;
        }
        if Get(g.sibling, last) == NULL || Start(g, Get(g.sibling, last)) > End(g, n) {
          AdoptFits(g, t, parent, n, i, j);
          return true, last, j;
        }
        NextTouched(g, t, parent, n, j);
        last := Get(g.sibling, last);
        j := j + 1;
      }
    }

    /** The new parent of the adopted children. */
    method Adopt(first: Id, n: Id, ghost ks: seq<Id>)
      requires ks != [] && first == ks[0] && (forall k: nat {:trigger RowAt(g, ks, k)} :: k < |ks| ==> RowAt(g, ks, k))
      modifies this`g
      ensures g == old(g).(parent := g.parent)
      ensures forall x: Id :: Get(g.parent, x) == if x in ks then n else Get(old(g).parent, x)
    {
      var next := first;
      ghost var k: nat := 0;
      assert RowAt(g, ks, 0);
      while next != NULL
        invariant k <= |ks| && next == At(ks, k) && g == old(g).(parent := g.parent) && (k < |ks| ==> next != NULL)
        invariant forall x: Id :: Get(g.parent, x) == if x in ks[..k] then n else Get(old(g).parent, x)
        decreases |ks| - k
      {
        assert RowAt(old(g), ks, k) && (k + 1 < |ks| ==> RowAt(old(g), ks, k + 1));
        assert ks[..k + 1] == ks[..k] + [ks[k]];
        g := g.(parent := g.parent[next := n]);
        next := Get(g.sibling, next);
        k := k + 1;
      }
      assert ks[..k] == ks;
    }

    /** The place of n among p's children: in front of them, or behind the child before `first`. */
    method Rehang(p: Id, first: Id, n: Id, ghost ks: seq<Id>, ghost i: nat)
      requires i < |ks| && ks[i] == first && Get(g.child, p) == At(ks, 0)
      requires forall k: nat {:trigger RowAt(g, ks, k)} :: k < i ==> ks[k] != first && RowAt(g, ks, k)
      modifies this`g
      ensures g == if i == 0 then old(g).(child := old(g).child[p := n]) else old(g).(sibling := old(g).sibling[ks[i - 1] := n])
    {
      assert (i > 0 ==> RowAt(g, ks, 0)) && (i > 1 ==> RowAt(g, ks, 1));
      if Get(g.child, p) == first {
        g := g.(child := g.child[p := n]);
        return;
      }
      var next := Get(g.child, p);
      ghost var k: nat := 0;
      while Get(g.sibling, next) != first
        invariant k < i && next == ks[k] && g == old(g) && RowAt(g, ks, k) && (k + 1 < i ==> ks[k + 1] != first)
        decreases i - k
      {
        assert k + 1 < i ==> RowAt(g, ks, k + 1);
        assert k + 2 < i ==> RowAt(g, ks, k + 2);
        next := Get(g.sibling, next);
        k := k + 1;
      }
      g := g.(sibling := g.sibling[next := n]);
    }

    /** The link changes that put n between the parent and the children from first to last. */
    method PutBetween(parent: Id, first: Id, last: Id, n: Id, ghost i: nat, ghost j: nat)
      requires Valid() && parent in t.kids && Loose(g, t, n) && i < j && SpliceFits(g, t.kids[parent], parent, i, j, n)
      requires first == t.kids[parent][i] && last == t.kids[parent][j - 1]
      modifies this
      ensures Valid() && g.start == old(g.start) && g.end == old(g.end)
      ensures exists rank :: t == Splice(old(t), parent, i, j, n, rank)
    {
      hide TreeOk, SpliceFits, SpliceLinks, Splice, Row;
      ghost var g0, ks := g, t.kids[parent];
      SpliceBound(g, ks, parent, i, j, n);
      RowOf(g, t, parent, n);
      g := g.(parent := g.parent[n := parent]);
      g := g.(sibling := g.sibling[n := Get(g.sibling, last)]);
      g := g.(child := g.child[n := first]);
      g := g.(sibling := g.sibling[last := NULL]);
      ghost var g1 := g;
      FourWrites(g0, g1, ks, parent, n, i, j);
      Adopt(first, n, ks[i..j]);
      ghost var g2 := g;
      forall k: nat | k < i ensures ks[k] != first && RowAt(g2, ks, k) { assert RowAt(g1, ks, k); }
      Rehang(parent, first, n, ks, i);
      RehungLinks(g0, g1, g2, g, ks, parent, n, i, j);
      ghost var rank := PickRank(g0, t, parent, i, j);
      SpliceOk(g0, g, t, parent, i, j, n, rank);
      t := Splice(t, parent, i, j, n, rank);
    }

    /** insert_resource: entered below p, the deepest resource that can hold it, with p's
        children i to j adopted; or busy, with nothing changed. */
    method Insert(top: Id, n: Id) returns (busy: bool, ghost p: Id, ghost i: nat, ghost j: nat)
      requires Valid() && top in t.kids && Loose(g, t, n)
      modifies this
      ensures Valid() && g.start == old(g.start) && g.end == old(g.end) && p in old(t).kids
      ensures busy ==> g == old(g) && t == old(t)
      ensures Start(g, n) <= End(g, n) && Inside(g, n, top) ==>
                Deepest(old(g), old(t), p, n) && Inside(old(g), p, top) && (p == top || Holds(old(g), p, n))
      ensures busy <==> !(Start(g, n) <= End(g, n) && Inside(g, n, top)) || PartialBelow(old(g), old(t), p, n)
      ensures !busy ==> SpliceFits(old(g), old(t).kids[p], p, i, j, n) && exists rank :: t == Splice(old(t), p, i, j, n, rank)
    {
      hide TreeOk, SpliceFits, Splice, FirstConflict, Deepest, PartialBelow;
      var first;
      var parent;
      parent, first, i := Descend(top, n);
      p, j := parent, i;
      if first == NULL {
        NotPartial(old(g), old(t), p, n, i, i);
        KidLinks(old(g), old(t), p, 0);
        return false, p, i, j;
      }
      if first == parent { return true, p, i, j; }
      DeepestHolds(g, t, parent, n);
      var ok, last;
      ok, last, j := Adoptable(parent, first, n, i);
      if !ok { return true, p, i, j; }
      NotPartial(g, t, p, n, i, j);
      FirstIsKid(g, t, p, n, i);
      PutBetween(parent, first, last, n, i, j);
      busy := false;
    }

    /** adjust_resource, with the end computed in 64 bits. Whenever it reports success, the
        tree is still in order exactly if the end did not fall below the start. */
    method Adjust(r: Id, start: nat, size: nat) returns (ok: bool, end: nat, ghost m: nat)
      requires Valid() && r in t.kids && r != t.root
      modifies this
      ensures end == (start + size - 1) % 0x1_0000_0000_0000_0000 && t == old(t)
      ensures !ok ==> g == old(g)
      ensures ok ==> g == old(g).(start := old(g).start[r := start], end := old(g).end[r := end])
      ensures ok <==> AdjustChecks(old(g), t, r, m, start, end)
      ensures start <= end ==> (ok <==> AdjustFits(old(g), t, r, start, end))
      ensures Valid() <==> !ok || start <= end
    {
      hide TreeOk, AdjustFits;
      ParentLink(g, t, r);
      var parent := Get(g.parent, r);
      end := (start + size - 1) % 0x1_0000_0000_0000_0000;
      ok, m := CanAdjust(r, parent, start, end);
      if ok {
        g := g.(start := g.start[r := start], end := g.end[r := end]);
        if start <= end { AdjustOk(old(g), t, r, start, end); } else { BadBounds(g, t, r); }
      }
    }

    method CanAdjust(r: Id, parent: Id, start: nat, end: nat) returns (ok: bool, ghost m: nat)
      requires Valid() && r in t.kids && r != t.root && parent == Get(g.parent, r) && parent in t.kids && r in t.kids[parent]
      ensures ok <==> AdjustChecks(g, t, r, m, start, end)
      ensures start <= end ==> (ok <==> AdjustFits(g, t, r, start, end))
    {
      hide TreeOk, ClearOfNeighbours;
      m :| m < |t.kids[parent]| && t.kids[parent][m] == r;
      SiblingsSorted(g, t, parent, m, start, end);
      if start < Start(g, parent) || end > End(g, parent) { return false, m; }
      ok := ChildrenInside(r, start, end);
      if ok { ok := ClearOfSiblings(r, parent, start, end, m); }
    }

    method ChildrenInside(r: Id, start: nat, end: nat) returns (ok: bool)
      requires Valid() && r in t.kids
      ensures ok <==> forall c :: c in t.kids[r] ==> start <= Start(g, c) && End(g, c) <= end
    {
      hide TreeOk;
      var tmp := Get(g.child, r);
      ghost var k: nat := 0;
      KidLinks(g, t, r, 0);
      while tmp != NULL
        invariant k <= |t.kids[r]| && tmp == At(t.kids[r], k) && (k < |t.kids[r]| ==> tmp != NULL)
        invariant forall c :: c in t.kids[r][..k] ==> start <= Start(g, c) && End(g, c) <= end
        decreases |t.kids[r]| - k
      {
        KidLinks(g, t, r, k);
        KidLinks(g, t, r, k + 1);
        assert tmp in t.kids[r] && t.kids[r][..k + 1] == t.kids[r][..k] + [tmp];
        if Start(g, tmp) < start || End(g, tmp) > end { return false; }
        tmp := Get(g.sibling, tmp);
        k := k + 1;
      }
      assert t.kids[r][..k] == t.kids[r];
      ok := true;
    }

    method ClearOfSiblings(r: Id, parent: Id, start: nat, end: nat, ghost m: nat) returns (ok: bool)
      requires Valid() && parent in t.kids && m < |t.kids[parent]| && t.kids[parent][m] == r
      ensures ok <==> ClearOfNeighbours(g, t.kids[parent], m, start, end)
    {
      hide TreeOk;
      ghost var ks := t.kids[parent];
      KidLinks(g, t, parent, m);
      KidLinks(g, t, parent, m + 1);
      SiblingsSorted(g, t, parent, m, start, end);
      if Get(g.sibling, r) != NULL && Start(g, Get(g.sibling, r)) <= end { return false; }
      KidLinks(g, t, parent, 0);
      var tmp := Get(g.child, parent);
      if tmp != r {
        ghost var k: nat := 0;
        while Get(g.sibling, tmp) != r
          invariant k < m && tmp == ks[k] && (k + 1 < m ==> ks[k + 1] != r) && Get(g.sibling, tmp) == ks[k + 1]
          decreases m - k
        {
          NotTheOther(g, t, parent, m, k + 1, k + 2);
          KidLinks(g, t, parent, k + 1);
          tmp := Get(g.sibling, tmp);
          k := k + 1;
        }
        if start <= End(g, tmp) { return false; }
      }
      ok := true;
    }
  }

  ghost predicate ClearOfNeighbours(g: Store, ks: seq<Id>, m: nat, start: nat, end: nat) {
    (m + 1 < |ks| ==> end < Start(g, ks[m + 1])) && (0 < m <= |ks| ==> End(g, ks[m - 1]) < start)
  }

  /** What adjust_resource looks at; m is the resource's position among its siblings. */
  ghost predicate AdjustChecks(g: Store, t: Tree, r: Id, m: nat, start: nat, end: nat)
    requires r in t.kids
  {
    var p := Get(g.parent, r);
    && p in t.kids && m < |t.kids[p]| && t.kids[p][m] == r && Start(g, p) <= start && end <= End(g, p)
    && (forall c :: c in t.kids[r] ==> start <= Start(g, c) && End(g, c) <= end)
    && ClearOfNeighbours(g, t.kids[p], m, start, end)
  }

  /** A size of 0 passes all checks: the resource ends before it starts. */
  lemma AdjustToNothing() returns (g: Store, t: Tree)
    ensures TreeOk(g, t) && 2 in t.kids && t.root == 1 && AdjustChecks(g, t, 2, 0, 15, 15 + 0 - 1)
  {
    g := Store(map[1 := 0, 2 := 10], map[1 := 100, 2 := 20], map[1 := 2], map[], map[2 := 1]);
    t := Tree(1, map[1 := [2], 2 := []], map[1 := 0.0, 2 := 1.0]);
    assert ChainedAt(g, 1, [2], 0);
    assert NodeOk(g, t, 1) && NodeOk(g, t, 2);
  }

  lemma BadBounds(g: Store, t: Tree, r: Id)
    requires r in t.kids && End(g, r) < Start(g, r)
    ensures !TreeOk(g, t)
  {
    assert !NodeOk(g, t, r);
  }

  /** Among siblings in order it is enough to look at the two neighbours. */
  lemma SiblingsSorted(g: Store, t: Tree, p: Id, m: nat, start: nat, end: nat)
    requires TreeOk(g, t) && p in t.kids && m < |t.kids[p]|
    ensures var ks := t.kids[p]; var r := ks[m];
            start <= end ==>
            ((forall c :: c in ks && c != r ==> if Start(g, c) > Start(g, r) then end < Start(g, c) else End(g, c) < start)
             <==> ClearOfNeighbours(g, ks, m, start, end))
    ensures m > 0 ==> t.kids[p][0] != t.kids[p][m] && (m > 1 ==> t.kids[p][1] != t.kids[p][m])
  {
    var ks := t.kids[p];
    var r := ks[m];
    assert NodeOk(g, t, p);
    AllUnique(g, p, ks);
    hide Get;
    assert m > 0 ==> ks[m - 1] in ks && Start(g, ks[m - 1]) <= End(g, ks[m - 1]) < Start(g, r);
    assert m + 1 < |ks| ==> ks[m + 1] in ks && End(g, r) < Start(g, ks[m + 1]);
    forall c | c in ks && c != r && start <= end && (m + 1 < |ks| ==> end < Start(g, ks[m + 1])) && (m > 0 ==> End(g, ks[m - 1]) < start)
      ensures if Start(g, c) > Start(g, r) then end < Start(g, c) else End(g, c) < start
    {
      var k :| 0 <= k < |ks| && ks[k] == c;
      if k < m {
        assert k < m - 1 ==> End(g, ks[k]) < Start(g, ks[m - 1]);
      } else {
        assert k > m + 1 ==> End(g, ks[m + 1]) < Start(g, ks[k]) && Start(g, ks[m + 1]) <= End(g, ks[m + 1]);
      }
    }
  }

  lemma NotTheOther(g: Store, t: Tree, p: Id, m: nat, a: nat, b: nat)
    requires TreeOk(g, t) && p in t.kids && m < |t.kids[p]|
    ensures a < m ==> t.kids[p][a] != t.kids[p][m]
    ensures b < m ==> t.kids[p][b] != t.kids[p][m]
  {
    assert NodeOk(g, t, p);
    AllUnique(g, p, t.kids[p]);
  }

  lemma FirstIsKid(g: Store, t: Tree, p: Id, n: Id, i: nat)
    requires p in t.kids && FirstConflict(g, t, p, n, i)
    ensures i < |t.kids[p]|
  {}

  lemma DeepestHolds(g: Store, t: Tree, p: Id, n: Id)
    requires Deepest(g, t, p, n)
    ensures p in t.kids && Start(g, n) <= End(g, n) && Inside(g, n, p)
  {}

  lemma SpliceBound(g: Store, ks: seq<Id>, p: Id, i: nat, j: nat, n: Id)
    requires SpliceFits(g, ks, p, i, j, n)
    ensures i <= j <= |ks|
  {}

  /** A place that fits leaves no partial overlap. */
  lemma NotPartial(g: Store, t: Tree, p: Id, n: Id, i: nat, j: nat)
    requires p in t.kids && SpliceFits(g, t.kids[p], p, i, j, n)
    ensures !PartialBelow(g, t, p, n)
  {
    hide Get;
    forall c | c in t.kids[p] ensures !Overlap(g, c, n) || Inside(g, c, n) {
      var k :| 0 <= k < |t.kids[p]| && t.kids[p][k] == c;
    }
  }

  ghost function Opened(g: Store, p: Id, first: Id, last: Id, n: Id): (g': Store) {
    g.(parent := g.parent[n := p], sibling := g.sibling[n := Get(g.sibling, last)][last := NULL], child := g.child[n := first])
  }

  ghost predicate RowAt(g: Store, ks: seq<Id>, k: nat)
    requires k < |ks|
  {
    ks[k] != NULL && Get(g.sibling, ks[k]) == At(ks, k + 1)
  }

  /** The children of p, as a row of linked and different resources. */
  ghost predicate Row(g: Store, p: Id, ks: seq<Id>, n: Id) {
    && Get(g.child, p) == At(ks, 0) && n != p && n !in ks && n != NULL && Get(g.child, n) == NULL
    && (forall k: nat {:trigger RowAt(g, ks, k)} :: k < |ks| ==> RowAt(g, ks, k))
    && (forall a, b :: 0 <= a < |ks| && 0 <= b < |ks| && a != b ==> ks[a] != ks[b])
  }

  lemma RowOf(g: Store, t: Tree, p: Id, n: Id)
    requires TreeOk(g, t) && p in t.kids && Loose(g, t, n)
    ensures Row(g, p, t.kids[p], n)
  {
    var ks := t.kids[p];
    assert NodeOk(g, t, p);
    KidLinks(g, t, p, 0);
    AllUnique(g, p, ks);
    forall k: nat | k < |ks| ensures RowAt(g, ks, k) { KidLinks(g, t, p, k); }
    assert n !in ks;
  }

  lemma FourWrites(g: Store, g': Store, ks: seq<Id>, p: Id, n: Id, i: nat, j: nat)
    requires Row(g, p, ks, n) && i < j <= |ks| && g' == Opened(g, p, ks[i], ks[j - 1], n)
    ensures forall k: nat {:trigger RowAt(g', ks[i..j], k)} :: k < j - i ==> RowAt(g', ks[i..j], k)
    ensures Get(g'.child, p) == At(ks, 0)
    ensures forall k: nat {:trigger RowAt(g', ks, k)} :: k < i ==> ks[k] != ks[i] && RowAt(g', ks, k)
  {
    forall k: nat | k < i ensures ks[k] != ks[i] && RowAt(g', ks, k) { assert RowAt(g, ks, k) && ks[k] in ks; }
    forall k: nat | k < j - i ensures RowAt(g', ks[i..j], k) {
      assert RowAt(g, ks, i + k) && ks[i + k] in ks && ks[i..j][k] == ks[i + k];
    }
  }

  lemma RehungLinks(g: Store, g1: Store, g2: Store, g3: Store, ks: seq<Id>, p: Id, n: Id, i: nat, j: nat)
    requires Row(g, p, ks, n) && i < j <= |ks| && g1 == Opened(g, p, ks[i], ks[j - 1], n) && g2 == g1.(parent := g2.parent)
    requires forall x: Id :: Get(g2.parent, x) == if x in ks[i..j] then n else Get(g1.parent, x)
    requires g3 == if i == 0 then g2.(child := g2.child[p := n]) else g2.(sibling := g2.sibling[ks[i - 1] := n])
    ensures SpliceLinks(g, g3, ks, p, i, j, n)
  {
    assert ks[j - 1] in ks && RowAt(g, ks, j - 1) && (i > 0 ==> ks[i - 1] in ks && ks[i - 1] != ks[j - 1]);
    assert n !in ks[i..j] && ks[i..j][0] == ks[i];
    assert g3.parent == g2.parent && g1.parent == g.parent[n := p];
    RehungSiblings(g, g1, g3, ks, p, n, i, j);
    hide Row, RowAt;
  }

  lemma RehungSiblings(g: Store, g1: Store, g3: Store, ks: seq<Id>, p: Id, n: Id, i: nat, j: nat)
    requires i < j <= |ks| && g1.sibling == g.sibling[n := Get(g.sibling, ks[j - 1])][ks[j - 1] := NULL] && n !in ks
    requires g3.sibling == if i == 0 then g1.sibling else g1.sibling[ks[i - 1] := n]
    requires ks[j - 1] in ks && Get(g.sibling, ks[j - 1]) == At(ks, j) && (i > 0 ==> ks[i - 1] in ks && ks[i - 1] != ks[j - 1])
    ensures forall x: Id :: Get(g3.sibling, x) ==
              if x == n then At(ks, j) else if i > 0 && x == ks[i - 1] then n else if j > i && x == ks[j - 1] then NULL else Get(g.sibling, x)
  {}

  /** A rank between the parent's and those of the adopted children. */
  lemma PickRank(g: Store, t: Tree, p: Id, i: nat, j: nat) returns (rank: real)
    requires TreeOk(g, t) && p in t.kids && i <= j <= |t.kids[p]|
    ensures RankFits(t, p, i, j, rank)
    decreases j - i
  {
    assert NodeOk(g, t, p);
    var ks := t.kids[p];
    if i == j {
      rank := t.rank[p] + 1.0;
    } else {
      var r := PickRank(g, t, p, i, j - 1);
      assert ks[j - 1] in ks;
      var m := (t.rank[p] + t.rank[ks[j - 1]]) / 2.0;
      rank := if r < m then r else m;
      assert ks[i..j] == ks[i..j - 1] + [ks[j - 1]];
    }
  }

  /** The first child that n touches, in a parent that holds n. */
  ghost predicate FirstTouched(g: Store, t: Tree, p: Id, first: Id, n: Id, i: nat) {
    && p in t.kids && Start(g, n) <= End(g, n) && Inside(g, n, p)
    && FirstConflict(g, t, p, n, i) && first == t.kids[p][i]
  }

  lemma AdoptFits(g: Store, t: Tree, p: Id, n: Id, i: nat, j: nat)
    requires TreeOk(g, t) && p in t.kids && i < j <= |t.kids[p]| && Start(g, n) <= End(g, n) && Inside(g, n, p)
    requires forall k :: 0 <= k < i ==> End(g, t.kids[p][k]) < Start(g, n)
    requires forall k :: i <= k < j ==> Inside(g, t.kids[p][k], n)
    requires j < |t.kids[p]| ==> Start(g, t.kids[p][j]) > End(g, n)
    ensures SpliceFits(g, t.kids[p], p, i, j, n)
  {
    assert NodeOk(g, t, p);
    var ks := t.kids[p];
    hide Get;
    forall k | j <= k < |ks| ensures End(g, n) < Start(g, ks[k]) {
      if k > j { assert End(g, ks[j]) < Start(g, ks[k]) && Start(g, ks[j]) <= End(g, ks[j]); }
    }
  }

  lemma NextTouched(g: Store, t: Tree, p: Id, n: Id, j: nat)
    requires TreeOk(g, t) && p in t.kids && 0 < j <= |t.kids[p]| && Overlap(g, t.kids[p][j - 1], n)
    requires Get(g.sibling, t.kids[p][j - 1]) != NULL && Start(g, Get(g.sibling, t.kids[p][j - 1])) <= End(g, n)
    ensures j < |t.kids[p]| && Get(g.sibling, t.kids[p][j - 1]) == t.kids[p][j]
    ensures Overlap(g, t.kids[p][j], n) && !Inside(g, n, t.kids[p][j])
  {
    KidLinks(g, t, p, j - 1);
    KidLinks(g, t, p, j);
    assert NodeOk(g, t, p);
    var ks := t.kids[p];
    assert End(g, ks[j - 1]) < Start(g, ks[j]);
  }

  /** c contains n and is larger. */
  ghost predicate Holds(g: Store, c: Id, n: Id) {
    Inside(g, n, c) && !(Start(g, c) == Start(g, n) && End(g, c) == End(g, n))
  }

  /** p can hold n, and no child of p can. */
  ghost predicate Deepest(g: Store, t: Tree, p: Id, n: Id) {
    p in t.kids && Start(g, n) <= End(g, n) && Inside(g, n, p) && forall c :: c in t.kids[p] ==> !Holds(g, c, n)
  }

  /** Some child of p overlaps n in part. */
  ghost predicate PartialBelow(g: Store, t: Tree, p: Id, n: Id) {
    p in t.kids && exists c :: c in t.kids[p] && Overlap(g, c, n) && !Inside(g, c, n) && !Inside(g, n, c)
  }

  ghost function Below(t: Tree, p: Id): (r: set<Id>) {
    set x | x in t.kids && x in t.rank && p in t.rank && t.rank[x] > t.rank[p]
  }

  lemma BelowSmaller(g: Store, t: Tree, p: Id, c: Id)
    requires TreeOk(g, t) && p in t.kids && c in t.kids[p]
    ensures Below(t, c) < Below(t, p)
  {
    assert NodeOk(g, t, p);
    assert c in Below(t, p) && c !in Below(t, c);
  }

  lemma FitsDeepest(g: Store, t: Tree, p: Id, n: Id)
    requires p in t.kids && Fits(g, t, p, n)
    ensures Deepest(g, t, p, n)
  {
    hide Get;
  }

  lemma ConflictChild(g: Store, t: Tree, p: Id, n: Id, i: nat)
    requires TreeOk(g, t) && p in t.kids && FirstConflict(g, t, p, n, i) && Start(g, n) <= End(g, n) && Inside(g, n, p)
    ensures t.kids[p][i] in t.kids[p] && t.kids[p][i] in t.kids && t.kids[p][i] != NULL && Inside(g, t.kids[p][i], p)
    ensures !Holds(g, t.kids[p][i], n) ==> Deepest(g, t, p, n)
  {
    KidLinks(g, t, p, i);
    assert NodeOk(g, t, p);
    var ks := t.kids[p];
    forall c | c in ks && c != ks[i] ensures !Inside(g, n, c) {
      var k :| 0 <= k < |ks| && ks[k] == c;
      assert k < i || End(g, ks[i]) < Start(g, ks[k]);
    }
  }

  lemma LinkedIn(g: Store, g': Store, t: Tree, r: Id, prev: Id, tmp: Id, n: Id, i: nat)
    requires TreeOk(g, t) && r in t.kids && Loose(g, t, n) && i <= |t.kids[r]|
    requires tmp == At(t.kids[r], i) && prev == (if i == 0 then NULL else t.kids[r][i - 1])
    requires g' == Entered(g, r, prev, tmp, n)
    ensures SpliceLinks(g, g', t.kids[r], r, i, i, n) && r in t.rank && RankFits(t, r, i, i, t.rank[r] + 1.0)
  {
    var ks := t.kids[r];
    assert NodeOk(g, t, r);
    KidLinks(g, t, r, if i == 0 then 0 else i - 1);
    assert i > 0 ==> prev != NULL && prev in t.kids;
    hide NodeOk, TreeOk, SpliceLinks;
    EnteredLinks(g, ks, r, prev, tmp, n, i);
    assert ks[i..i] == [];
  }

  function Entered(g: Store, r: Id, prev: Id, tmp: Id, n: Id): (g': Store) {
    var g1 := g.(sibling := g.sibling[n := tmp]);
    var g2 := if prev == NULL then g1.(child := g1.child[r := n]) else g1.(sibling := g1.sibling[prev := n]);
    g2.(parent := g2.parent[n := r])
  }

  lemma EnteredLinks(g: Store, ks: seq<Id>, r: Id, prev: Id, tmp: Id, n: Id, i: nat)
    requires i <= |ks| && tmp == At(ks, i) && prev == (if i == 0 then NULL else ks[i - 1])
    requires (i > 0 ==> prev != NULL && prev != n) && Get(g.child, n) == NULL && n != r
    ensures SpliceLinks(g, Entered(g, r, prev, tmp, n), ks, r, i, i, n)
  {
    assert ks[i..i] == [];
  }

  lemma LinkedOut(g: Store, g': Store, t: Tree, p: Id, prev: Id, i: nat)
    requires TreeOk(g, t) && p in t.kids && i < |t.kids[p]| && prev == (if i == 0 then NULL else t.kids[p][i - 1])
    requires var n := t.kids[p][i];
             var g1 := if prev == NULL then g.(child := g.child[p := Get(g.sibling, n)]) else g.(sibling := g.sibling[prev := Get(g.sibling, n)]);
             g' == g1.(parent := g1.parent[n := NULL])
    ensures WithoutLinks(g, g', t.kids[p], p, i)
  {
    KidLinks(g, t, p, i);
    KidLinks(g, t, p, if i == 0 then 0 else i - 1);
    hide TreeOk;
  }

  lemma ParentLink(g: Store, t: Tree, n: Id)
    requires TreeOk(g, t) && n in t.kids && n != t.root
    ensures Get(g.parent, n) in t.kids && n in t.kids[Get(g.parent, n)]
  {
    assert NodeOk(g, t, n);
  }

  lemma NotOwnChild(g: Store, t: Tree, r: Id)
    requires TreeOk(g, t) && r in t.kids
    ensures r !in t.kids[r]
  {
    assert NodeOk(g, t, r);
  }
}
