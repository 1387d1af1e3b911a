/** The tree of resources: intervals linked by parent, first child and next sibling. */
module ResourceTree {

  type Id = nat
  const NULL: Id := 0

  type Links = map<Id, Id>

  function Get(m: Links, k: Id): (r: Id) {
    if k in m then m[k] else NULL
  }

  function At(ks: seq<Id>, i: nat): (r: Id) {
    if i < |ks| then ks[i] else NULL
  }

  /** The fields of all resources. */
  datatype Store = Store(start: Links, end: Links, child: Links, sibling: Links, parent: Links)

  /** Each resource's children in order, and ranks that grow from parent to child. */
  datatype Tree = Tree(root: Id, kids: map<Id, seq<Id>>, rank: map<Id, real>)

  function Start(g: Store, n: Id): (r: nat) { Get(g.start, n) }
  function End(g: Store, n: Id): (r: nat) { Get(g.end, n) }

  ghost predicate Inside(g: Store, n: Id, p: Id) {
    Start(g, p) <= Start(g, n) && End(g, n) <= End(g, p)
  }

  /** A list of resources in order, disjoint, inside p. */
  ghost predicate Ordered(g: Store, p: Id, ks: seq<Id>) {
    && (forall i :: 0 <= i < |ks| ==> Inside(g, ks[i], p) && Start(g, ks[i]) <= End(g, ks[i]))
    && (forall i, j :: 0 <= i < j < |ks| ==> End(g, ks[i]) < Start(g, ks[j]))
  }

  /** The links of a list of siblings. */
  ghost predicate Chained(g: Store, p: Id, ks: seq<Id>) {
    && Get(g.child, p) == At(ks, 0)
    && (forall i: nat {:trigger ChainedAt(g, p, ks, i)} :: i < |ks| ==> ChainedAt(g, p, ks, i))
  }

  ghost predicate ChainedAt(g: Store, p: Id, ks: seq<Id>, i: nat)
    requires i < |ks|
  {
    ks[i] != NULL && Get(g.sibling, ks[i]) == At(ks, i + 1) && Get(g.parent, ks[i]) == p
  }

  ghost predicate Ranked(t: Tree, p: Id)
    requires p in t.kids
  {
    forall c :: c in t.kids[p] ==> c in t.kids && c in t.rank && p in t.rank && t.rank[p] < t.rank[c] && c != t.root
  }

  ghost predicate NodeOk(g: Store, t: Tree, p: Id)
    requires p in t.kids
  {
    && Ordered(g, p, t.kids[p]) && Chained(g, p, t.kids[p]) && Ranked(t, p)
    && p != NULL && p in t.rank && Start(g, p) <= End(g, p)
    && (p != t.root ==> Get(g.parent, p) in t.kids && p in t.kids[Get(g.parent, p)])
  }

  /** The tree is sorted, sibling-disjoint, nested and linked. */
  ghost predicate TreeOk(g: Store, t: Tree) {
    && t.root in t.kids
    && forall p {:trigger NodeOk(g, t, p)} :: p in t.kids ==> NodeOk(g, t, p)
  }

  /** A node has one parent only. */
  lemma OneParent(g: Store, t: Tree, p: Id, q: Id, c: Id)
    requires TreeOk(g, t) && p in t.kids && q in t.kids && c in t.kids[p] && c in t.kids[q]
    ensures p == q
  {
    assert NodeOk(g, t, p) && NodeOk(g, t, q);
    var i :| 0 <= i < |t.kids[p]| && t.kids[p][i] == c;
    var j :| 0 <= j < |t.kids[q]| && t.kids[q][j] == c;
    assert ChainedAt(g, p, t.kids[p], i) && ChainedAt(g, q, t.kids[q], j);
  }

  ghost predicate Overlap(g: Store, a: Id, b: Id) {
    Start(g, a) <= End(g, b) && Start(g, b) <= End(g, a)
  }

  // Putting a new resource between a parent and some of its children

  /** n takes the place of children i to j of p, which become its own. */
  ghost function Splice(t: Tree, p: Id, i: nat, j: nat, n: Id, rank: real): (t': Tree)
    requires p in t.kids && i <= j <= |t.kids[p]|
  {
    var ks := t.kids[p];
    t.(kids := t.kids[p := Outer(ks, i, j, n)][n := ks[i..j]], rank := t.rank[n := rank])
  }

  ghost predicate SpliceFits(g: Store, ks: seq<Id>, p: Id, i: nat, j: nat, n: Id) {
    && i <= j <= |ks| && Start(g, n) <= End(g, n) && Inside(g, n, p)
    && (forall k :: 0 <= k < i ==> End(g, ks[k]) < Start(g, n))
    && (forall k :: j <= k < |ks| ==> End(g, n) < Start(g, ks[k]))
    && (forall k :: i <= k < j ==> Inside(g, ks[k], n))
  }

  ghost predicate SpliceLinks(g: Store, g': Store, ks: seq<Id>, p: Id, i: nat, j: nat, n: Id)
    requires i <= j <= |ks|
  {
    && g'.start == g.start && g'.end == g.end
    && (forall x: Id :: Get(g'.child, x) == if x == n then At(ks[i..j], 0) else if x == p && i == 0 then n else Get(g.child, x))
    && (forall x: Id :: Get(g'.parent, x) == if x == n then p else if x in ks[i..j] then n else Get(g.parent, x))
    && (forall x: Id :: Get(g'.sibling, x) ==
          if x == n then At(ks, j) else if i > 0 && x == ks[i - 1] then n else if j > i && x == ks[j - 1] then NULL else Get(g.sibling, x))
  }

  lemma OrderedUnique(g: Store, p: Id, ks: seq<Id>, i: nat, j: nat)
    requires Ordered(g, p, ks) && i < |ks| && j < |ks| && ks[i] == ks[j]
    ensures i == j
  {}

  lemma AllUnique(g: Store, p: Id, ks: seq<Id>)
    requires Ordered(g, p, ks)
    ensures forall i, j :: 0 <= i < |ks| && 0 <= j < |ks| && i != j ==> ks[i] != ks[j]
  {
    hide Get;
    forall i, j | 0 <= i < j < |ks| ensures Start(g, ks[i]) < Start(g, ks[j]) {}
  }

  /** The list with n in place of ks[i..j], and where its elements come from. */
  ghost function Outer(ks: seq<Id>, i: nat, j: nat, n: Id): (r: seq<Id>)
    requires i <= j <= |ks|
    ensures |r| == |ks| + 1 - (j - i) && r[i] == n
    ensures forall k :: 0 <= k < i ==> r[k] == ks[k]
    ensures forall k :: i < k < |r| ==> r[k] == ks[k - 1 + j - i]
  {
    ks[..i] + [n] + ks[j..]
  }

  lemma OuterAt(g: Store, g': Store, p: Id, ks: seq<Id>, i: nat, j: nat, n: Id, k: nat)
    requires Ordered(g, p, ks) && Chained(g, p, ks) && i <= j <= |ks| && SpliceLinks(g, g', ks, p, i, j, n) && n !in ks && n != NULL
    requires k < |Outer(ks, i, j, n)|
    ensures ChainedAt(g', p, Outer(ks, i, j, n), k)
  {
    hide Ordered, Outer;
    if k != i {
      var k0 := if k < i then k else k - 1 + j - i;
      assert ChainedAt(g, p, ks, k0);
      if ks[k0] in ks[i..j] { SliceIndex(g, p, ks, i, j, k0); }
      if i > 0 && ks[k0] == ks[i - 1] { OrderedUnique(g, p, ks, k0, i - 1); }
      assert j > i ==> ks[j - 1] == ks[i..j][j - 1 - i];
    }
  }

  lemma InnerAt(g: Store, g': Store, p: Id, ks: seq<Id>, i: nat, j: nat, n: Id, k: nat)
    requires Ordered(g, p, ks) && Chained(g, p, ks) && i <= j <= |ks| && SpliceLinks(g, g', ks, p, i, j, n) && n !in ks && n != NULL
    requires k < j - i
    ensures ChainedAt(g', n, ks[i..j], k)
  {
    hide Ordered;
    var m := ks[i..j];
    assert m[k] == ks[i + k] && ChainedAt(g, p, ks, i + k) && m[k] in m;
    if i > 0 && ks[i + k] == ks[i - 1] { OrderedUnique(g, p, ks, i + k, i - 1); }
    if ks[i + k] == ks[j - 1] { OrderedUnique(g, p, ks, i + k, j - 1); }
  }

  lemma SpliceChained(g: Store, g': Store, p: Id, ks: seq<Id>, i: nat, j: nat, n: Id)
    requires Ordered(g, p, ks) && Chained(g, p, ks) && i <= j <= |ks| && SpliceLinks(g, g', ks, p, i, j, n) && n !in ks && n != NULL && n != p
    ensures Chained(g', p, Outer(ks, i, j, n)) && Chained(g', n, ks[i..j])
  {
    hide Ordered, Outer, ChainedAt;
    forall k: nat | k < |Outer(ks, i, j, n)| ensures ChainedAt(g', p, Outer(ks, i, j, n), k) { OuterAt(g, g', p, ks, i, j, n, k); }
    forall k: nat | k < j - i ensures ChainedAt(g', n, ks[i..j], k) { InnerAt(g, g', p, ks, i, j, n, k); }
  }

  lemma SliceIndex(g: Store, p: Id, ks: seq<Id>, i: nat, j: nat, k: nat)
    requires Ordered(g, p, ks) && i <= j <= |ks| && k < |ks| && ks[k] in ks[i..j]
    ensures i <= k < j
  {
    var q :| 0 <= q < j - i && ks[i..j][q] == ks[k];
    OrderedUnique(g, p, ks, i + q, k);
  }

  lemma SpliceOrdered(g: Store, p: Id, ks: seq<Id>, i: nat, j: nat, n: Id)
    requires Ordered(g, p, ks) && SpliceFits(g, ks, p, i, j, n)
    ensures Ordered(g, p, Outer(ks, i, j, n)) && Ordered(g, n, ks[i..j])
  {
    hide Outer, Get;
    var l, d := Outer(ks, i, j, n), j - i;
    forall k | 0 <= k < |l| ensures Inside(g, l[k], p) && Start(g, l[k]) <= End(g, l[k]) {
      assert k > i ==> l[k] == ks[k - 1 + d];
    }
    forall x, y | 0 <= x < y < |l| ensures End(g, l[x]) < Start(g, l[y]) {
      if x > i { assert l[x] == ks[x - 1 + d] && l[y] == ks[y - 1 + d]; }
      else if y > i { assert l[y] == ks[y - 1 + d]; }
    }
  }

  /** Children of other nodes keep their links. */
  lemma SpliceOther(g: Store, g': Store, t: Tree, p: Id, q: Id, i: nat, j: nat, n: Id)
    requires TreeOk(g, t) && p in t.kids && q in t.kids && p != q && n !in t.kids && i <= j <= |t.kids[p]|
    requires SpliceLinks(g, g', t.kids[p], p, i, j, n)
    ensures Chained(g', q, t.kids[q])
  {
    var ks, l := t.kids[p], t.kids[q];
    assert NodeOk(g, t, q) && NodeOk(g, t, p);
    forall k: nat | k < |l| ensures ChainedAt(g', q, l, k) {
      assert ChainedAt(g, q, l, k) && l[k] in l && l[k] != n;
      if l[k] in ks { OneParent(g, t, p, q, l[k]); }
      assert i > 0 ==> ks[i - 1] in ks;
      assert j > i ==> ks[j - 1] in ks;
      assert l[k] !in ks[i..j];
    }
  }

  ghost predicate RankFits(t: Tree, p: Id, i: nat, j: nat, rank: real)
    requires p in t.kids && i <= j <= |t.kids[p]|
  {
    p in t.rank && t.rank[p] < rank && forall c :: c in t.kids[p][i..j] ==> c in t.rank && rank < t.rank[c]
  }

  lemma SpliceRanked(t: Tree, p: Id, q: Id, i: nat, j: nat, n: Id, rank: real)
    requires p in t.kids && i <= j <= |t.kids[p]| && n !in t.kids && n != t.root && RankFits(t, p, i, j, rank)
    requires forall x {:trigger Ranked(t, x)} :: x in t.kids ==> Ranked(t, x)
    requires q in t.kids || q == n
    ensures Ranked(Splice(t, p, i, j, n, rank), q)
  {
    var t', ks := Splice(t, p, i, j, n, rank), t.kids[p];
    assert Ranked(t, p);
    assert q != n ==> Ranked(t, q);
    forall c | c in t'.kids[q] ensures c in t'.kids && c in t'.rank && q in t'.rank && t'.rank[q] < t'.rank[c] && c != t.root {
      if q == p && c != n {
        assert c in ks;
      } else if q == n {
        assert c in ks[i..j] && c in ks;
      }
    }
  }

  lemma SpliceParents(g: Store, g': Store, t: Tree, p: Id, i: nat, j: nat, n: Id, rank: real, c: Id)
    requires TreeOk(g, t) && p in t.kids && n !in t.kids && i <= j <= |t.kids[p]|
    requires SpliceLinks(g, g', t.kids[p], p, i, j, n) && c in Splice(t, p, i, j, n, rank).kids && c != t.root
    ensures var t' := Splice(t, p, i, j, n, rank); Get(g'.parent, c) in t'.kids && c in t'.kids[Get(g'.parent, c)]
  {
    var t', ks := Splice(t, p, i, j, n, rank), t.kids[p];
    var l := Outer(ks, i, j, n);
    assert l[i] == n;
    if c != n && c !in ks[i..j] {
      assert NodeOk(g, t, c);
      if Get(g.parent, c) == p {
        var k :| 0 <= k < |ks| && ks[k] == c;
        assert forall x :: i <= x < j ==> ks[i..j][x - i] == ks[x];
        assert l[if k < i then k else k + 1 - (j - i)] == c;
      }
    }
  }

  /** Splicing a resource in keeps the tree sorted, disjoint, nested and linked. */
  lemma SpliceOk(g: Store, g': Store, t: Tree, p: Id, i: nat, j: nat, n: Id, rank: real)
    requires TreeOk(g, t) && p in t.kids && n !in t.kids && n != NULL && i <= j <= |t.kids[p]|
    requires SpliceFits(g, t.kids[p], p, i, j, n) && SpliceLinks(g, g', t.kids[p], p, i, j, n) && RankFits(t, p, i, j, rank)
    ensures TreeOk(g', Splice(t, p, i, j, n, rank))
  {
    var t', ks := Splice(t, p, i, j, n, rank), t.kids[p];
    assert NodeOk(g, t, p);
    assert n !in ks;
    SpliceOrdered(g, p, ks, i, j, n);
    SpliceChained(g, g', p, ks, i, j, n);
    forall q | q in t'.kids ensures NodeOk(g', t', q) {
      forall x | x in t.kids ensures Ranked(t, x) { assert NodeOk(g, t, x); }
      SpliceRanked(t, p, q, i, j, n, rank);
      if q != t.root { SpliceParents(g, g', t, p, i, j, n, rank, q); }
      OrderedSame(g, g', q, t'.kids[q]);
      if q != n && q != p {
        assert NodeOk(g, t, q);
        SpliceOther(g, g', t, p, q, i, j, n);
        OrderedSame(g, g', q, t.kids[q]);
      }
    }
  }

  lemma OrderedSame(g: Store, g': Store, p: Id, ks: seq<Id>)
    requires g'.start == g.start && g'.end == g.end
    ensures Ordered(g, p, ks) <==> Ordered(g', p, ks)
  {}

  // Taking a resource out

  ghost function Without(t: Tree, p: Id, i: nat): (t': Tree)
    requires p in t.kids && i < |t.kids[p]|
  {
    var ks := t.kids[p];
    t.(kids := (t.kids - {ks[i]})[p := ks[..i] + ks[i + 1..]])
  }

  ghost predicate WithoutLinks(g: Store, g': Store, ks: seq<Id>, p: Id, i: nat)
    requires i < |ks|
  {
    && g'.start == g.start && g'.end == g.end
    && (forall x: Id :: Get(g'.child, x) == if x == p && i == 0 then At(ks, 1) else Get(g.child, x))
    && (forall x: Id :: Get(g'.parent, x) == if x == ks[i] then NULL else Get(g.parent, x))
    && (forall x: Id :: Get(g'.sibling, x) == if i > 0 && x == ks[i - 1] then At(ks, i + 1) else Get(g.sibling, x))
  }

  lemma WithoutChained(g: Store, g': Store, p: Id, ks: seq<Id>, i: nat)
    requires Ordered(g, p, ks) && Chained(g, p, ks) && i < |ks| && WithoutLinks(g, g', ks, p, i)
    ensures Chained(g', p, ks[..i] + ks[i + 1..])
  {
    hide Ordered;
    var l := ks[..i] + ks[i + 1..];
    forall k: nat | k < |l| ensures ChainedAt(g', p, l, k) {
      var k0 := if k < i then k else k + 1;
      assert l[k] == ks[k0] && ChainedAt(g, p, ks, k0);
      if ks[k0] == ks[i] { OrderedUnique(g, p, ks, k0, i); }
      if i > 0 && ks[k0] == ks[i - 1] { OrderedUnique(g, p, ks, k0, i - 1); }
    }
  }

  lemma WithoutOther(g: Store, g': Store, t: Tree, p: Id, i: nat, q: Id)
    requires TreeOk(g, t) && p in t.kids && i < |t.kids[p]| && WithoutLinks(g, g', t.kids[p], p, i) && q in t.kids && q != p
    ensures Chained(g', q, t.kids[q]) && t.kids[p][i] !in t.kids[q]
  {
    var ks, l := t.kids[p], t.kids[q];
    assert NodeOk(g, t, q) && ks[i] in ks;
    if ks[i] in l { OneParent(g, t, p, q, ks[i]); }
    forall k: nat | k < |l| ensures ChainedAt(g', q, l, k) {
      assert ChainedAt(g, q, l, k) && l[k] in l;
      assert i > 0 ==> ks[i - 1] in ks;
      if l[k] in ks { OneParent(g, t, p, q, l[k]); }
    }
  }

  lemma WithoutSpec(g: Store, p: Id, ks: seq<Id>, i: nat, x: Id)
    requires Ordered(g, p, ks) && i < |ks|
    ensures Ordered(g, p, ks[..i] + ks[i + 1..])
    ensures x in ks[..i] + ks[i + 1..] <==> x in ks && x != ks[i]
  {
    AllUnique(g, p, ks);
    var l := ks[..i] + ks[i + 1..];
    forall k | 0 <= k < |l| ensures l[k] == ks[if k < i then k else k + 1] {}
    if x in ks && x != ks[i] {
      var k :| 0 <= k < |ks| && ks[k] == x;
      assert l[if k < i then k else k - 1] == x;
    }
    if x in l {
      var k :| 0 <= k < |l| && l[k] == x;
      assert ks[if k < i then k else k + 1] != ks[i];
    }
  }

  lemma WithoutRanked(g: Store, t: Tree, p: Id, i: nat, q: Id)
    requires TreeOk(g, t) && p in t.kids && i < |t.kids[p]| && q in Without(t, p, i).kids && q in t.kids
    requires q != p ==> t.kids[p][i] !in t.kids[q]
    ensures Ranked(Without(t, p, i), q)
  {
    assert NodeOk(g, t, p) && NodeOk(g, t, q);
    forall x ensures q == p && x in Without(t, p, i).kids[q] ==> x in t.kids[p] && x != t.kids[p][i] {
      WithoutSpec(g, p, t.kids[p], i, x);
    }
  }

  lemma WithoutParent(g: Store, g': Store, t: Tree, p: Id, i: nat, q: Id)
    requires TreeOk(g, t) && p in t.kids && i < |t.kids[p]| && WithoutLinks(g, g', t.kids[p], p, i)
    requires q in t.kids && q != t.kids[p][i] && q != t.root && t.kids[p][i] in t.kids && t.kids[t.kids[p][i]] == []
    ensures var t', r := Without(t, p, i), Get(g'.parent, q); r in t'.kids && q in t'.kids[r]
  {
    hide Ordered, Chained, Ranked;
    assert NodeOk(g, t, q);
    var r, ks := Get(g.parent, q), t.kids[p];
    if r == p {
      var k :| 0 <= k < |ks| && ks[k] == q;
      assert (ks[..i] + ks[i + 1..])[if k < i then k else k - 1] == q;
    }
  }

  lemma WithoutNode(g: Store, g': Store, t: Tree, p: Id, i: nat, q: Id)
    requires TreeOk(g, t) && p in t.kids && i < |t.kids[p]| && WithoutLinks(g, g', t.kids[p], p, i)
    requires q in Without(t, p, i).kids && q in t.kids && q != t.kids[p][i] && t.kids[p][i] in t.kids && t.kids[t.kids[p][i]] == []
    ensures NodeOk(g', Without(t, p, i), q)
  {
    hide Ordered, Chained, Ranked;
    var t', ks := Without(t, p, i), t.kids[p];
    assert NodeOk(g, t, p) && NodeOk(g, t, q);
    if q != p { WithoutOther(g, g', t, p, i, q); } else { WithoutChained(g, g', p, ks, i); }
    WithoutRanked(g, t, p, i, q);
    WithoutSpec(g, p, ks, i, q);
    OrderedSame(g, g', q, t'.kids[q]);
    if q != t.root { WithoutParent(g, g', t, p, i, q); }
  }

  lemma WithoutOk(g: Store, g': Store, t: Tree, p: Id, i: nat)
    requires TreeOk(g, t) && p in t.kids && i < |t.kids[p]| && t.kids[p][i] in t.kids && t.kids[t.kids[p][i]] == []
    requires WithoutLinks(g, g', t.kids[p], p, i)
    ensures TreeOk(g', Without(t, p, i))
  {
    var t', gone := Without(t, p, i), t.kids[p][i];
    assert NodeOk(g, t, p) && gone in t.kids[p];
    assert p != gone && gone != t.root;
    forall q | q in t'.kids ensures NodeOk(g', t', q) { WithoutNode(g, g', t, p, i, q); }
  }

  // Moving a resource's bounds

  ghost predicate AdjustFits(g: Store, t: Tree, r: Id, start: nat, end: nat)
    requires r in t.kids
  {
    var p := Get(g.parent, r);
    && start <= end && Start(g, p) <= start && end <= End(g, p)
    && (forall c :: c in t.kids[r] ==> start <= Start(g, c) && End(g, c) <= end)
    && (p in t.kids ==> forall c :: c in t.kids[p] && c != r ==> if Start(g, c) > Start(g, r) then end < Start(g, c) else End(g, c) < start)
  }

  lemma AdjustOk(g: Store, t: Tree, r: Id, start: nat, end: nat)
    requires TreeOk(g, t) && r in t.kids && r != t.root && AdjustFits(g, t, r, start, end)
    ensures TreeOk(g.(start := g.start[r := start], end := g.end[r := end]), t)
  {
    var g' := g.(start := g.start[r := start], end := g.end[r := end]);
    var p := Get(g.parent, r);
    assert NodeOk(g, t, r) && NodeOk(g, t, p);
    forall q | q in t.kids ensures NodeOk(g', t, q) {
      assert NodeOk(g, t, q);
      AdjustOrdered(g, g', t, r, p, q, start, end);
      forall k: nat | k < |t.kids[q]| ensures ChainedAt(g', q, t.kids[q], k) { assert ChainedAt(g, q, t.kids[q], k); }
    }
  }

  lemma AdjustOwn(g: Store, g': Store, r: Id, ks: seq<Id>, start: nat, end: nat)
    requires Ordered(g, r, ks) && r !in ks && g' == g.(start := g.start[r := start], end := g.end[r := end])
    requires forall c :: c in ks ==> start <= Start(g, c) && End(g, c) <= end
    ensures Ordered(g', r, ks)
  {
    forall i | 0 <= i < |ks| ensures Start(g', ks[i]) == Start(g, ks[i]) && End(g', ks[i]) == End(g, ks[i]) { assert ks[i] in ks; }
    hide Get;
    forall i | 0 <= i < |ks| ensures Inside(g', ks[i], r) { assert ks[i] in ks; }
  }

  lemma AdjustAmong(g: Store, g': Store, r: Id, p: Id, ks: seq<Id>, start: nat, end: nat)
    requires Ordered(g, p, ks) && r in ks && p != r && g' == g.(start := g.start[r := start], end := g.end[r := end])
    requires start <= end && Start(g, p) <= start && end <= End(g, p)
    requires forall c :: c in ks && c != r ==> if Start(g, c) > Start(g, r) then end < Start(g, c) else End(g, c) < start
    ensures Ordered(g', p, ks)
  {
    AllUnique(g, p, ks);
    var m :| 0 <= m < |ks| && ks[m] == r;
    forall i | 0 <= i < |ks| && i != m ensures ks[i] != r && Start(g', ks[i]) == Start(g, ks[i]) && End(g', ks[i]) == End(g, ks[i]) {
      assert ks[i] != ks[m];
    }
    hide Get;
    forall i, j | 0 <= i < j < |ks| ensures End(g', ks[i]) < Start(g', ks[j]) {
      assert ks[i] in ks && ks[j] in ks;
    }
  }

  lemma AdjustElsewhere(g: Store, g': Store, r: Id, q: Id, ks: seq<Id>, start: nat, end: nat)
    requires Ordered(g, q, ks) && r !in ks && q != r && g' == g.(start := g.start[r := start], end := g.end[r := end])
    ensures Ordered(g', q, ks)
  {
    forall i | 0 <= i < |ks| ensures Start(g', ks[i]) == Start(g, ks[i]) && End(g', ks[i]) == End(g, ks[i]) { assert ks[i] in ks; }
  }

  lemma AdjustOrdered(g: Store, g': Store, t: Tree, r: Id, p: Id, q: Id, start: nat, end: nat)
    requires TreeOk(g, t) && r in t.kids && q in t.kids && AdjustFits(g, t, r, start, end) && p == Get(g.parent, r)
    requires p in t.kids && r in t.kids[p] && g' == g.(start := g.start[r := start], end := g.end[r := end])
    ensures Ordered(g', q, t.kids[q])
  {
    assert NodeOk(g, t, q) && NodeOk(g, t, p) && NodeOk(g, t, r);
    assert r !in t.kids[r] && p != r;
    if q == r {
      AdjustOwn(g, g', r, t.kids[r], start, end);
    } else if q == p {
      AdjustAmong(g, g', r, p, t.kids[p], start, end);
    } else {
      if r in t.kids[q] { OneParent(g, t, p, q, r); }
      AdjustElsewhere(g, g', r, q, t.kids[q], start, end);
    }
  }
}
