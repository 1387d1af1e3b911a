/** The blocks of a boundary-tag heap, apart from their representation in memory.

    A heap maps the address of each block to the size in its header, positive for a free
    block and negative for an allocated one. Every pool ends in a sentinel header. */
module BgetHeap {

  /** sizeof(struct bhead), and the least size of a block: a header and the queue links. */
  const HEAD: int := 8
  const LEAST: int := 16

  type Blocks = map<int, int>

  function Abs(n: int): (r: nat)
    ensures r == n || r == -n
  {
    if n < 0 then -n else n
  }

  function Next(blk: Blocks, b: int): (r: int)
    requires b in blk
  {
    b + Abs(blk[b])
  }

  predicate BlockOk(blk: Blocks, ends: set<int>, b: int)
    requires b in blk
  {
    b > 0 && b % 4 == 0 && Abs(blk[b]) >= LEAST && Abs(blk[b]) % 4 == 0 && (Next(blk, b) in blk || Next(blk, b) in ends)
  }

  ghost predicate BlocksOk(blk: Blocks, ends: set<int>) {
    forall b {:trigger BlockOk(blk, ends, b)} :: b in blk ==> BlockOk(blk, ends, b)
  }

  ghost predicate Disjoint(blk: Blocks) {
    forall b, c :: b in blk && c in blk && b < c ==> Next(blk, b) <= c
  }

  ghost predicate Fenced(blk: Blocks, ends: set<int>) {
    && (forall b, e :: b in blk && e in ends && b < e ==> Next(blk, b) <= e)
    && (forall b, e :: b in blk && e in ends && e <= b ==> e + HEAD <= b)
    && (forall e, f :: e in ends && f in ends && e < f ==> e + HEAD <= f)
  }

  /** Blocks follow one another without gap or overlap up to a sentinel. */
  ghost predicate Tiles(blk: Blocks, ends: set<int>) {
    BlocksOk(blk, ends) && Disjoint(blk) && Fenced(blk, ends)
  }

  ghost predicate Free(blk: Blocks, b: int) {
    b in blk && blk[b] > 0
  }

  ghost predicate Allocated(blk: Blocks, b: int) {
    b in blk && blk[b] < 0
  }

  ghost predicate Coalesced(blk: Blocks) {
    forall b, c :: Free(blk, b) && Free(blk, c) ==> Next(blk, b) != c
  }

  datatype Pool = Pool(start: int, end: int)

  ghost predicate InPool(pools: set<Pool>, b: int) {
    exists p :: p in pools && p.start <= b < p.end
  }

  /** Each pool runs from a block to the first sentinel behind it, and pools are apart. */
  ghost predicate PoolsOk(blk: Blocks, ends: set<int>, pools: set<Pool>) {
    && (forall p :: p in pools ==> p.start in blk && p.end in ends && p.start < p.end)
    && (forall b {:trigger InPool(pools, b)} :: b in blk ==> InPool(pools, b))
    && (forall p, e :: p in pools && e in ends && p.start <= e ==> p.end <= e)
    && (forall p, q :: p in pools && q in pools && p.start < q.start ==> p.end < q.start)
  }

  ghost predicate Sound(blk: Blocks, ends: set<int>, pools: set<Pool>) {
    Tiles(blk, ends) && PoolsOk(blk, ends, pools)
  }

  /** A pool's bytes are exactly covered by its blocks. */
  lemma {:induction false} Covered(blk: Blocks, ends: set<int>, pools: set<Pool>, p: Pool, from: int, a: int) returns (b: int)
    requires Sound(blk, ends, pools) && p in pools && from in blk && p.start <= from <= a < p.end
    ensures b in blk && b <= a < Next(blk, b) <= p.end
    decreases a - from
  {
    assert BlockOk(blk, ends, from);
    if a < Next(blk, from) {
      b := from;
    } else {
      b := Covered(blk, ends, pools, p, Next(blk, from), a);
    }
  }

  /** Covered at most once. */
  lemma OneBlock(blk: Blocks, ends: set<int>, b: int, c: int, a: int)
    requires Tiles(blk, ends) && b in blk && c in blk && b <= a < Next(blk, b) && c <= a < Next(blk, c)
    ensures b == c
  {}

  // Steps

  lemma FlipApart(blk: Blocks, ends: set<int>, b: int)
    requires Disjoint(blk) && Fenced(blk, ends) && b in blk
    ensures var r := blk[b := -blk[b]]; Disjoint(r) && Fenced(r, ends)
  {
    var r := blk[b := -blk[b]];
    forall c | c in blk ensures Next(r, c) == Next(blk, c) {}
    hide Abs, Next;
  }

  lemma FlipSound(blk: Blocks, ends: set<int>, pools: set<Pool>, b: int)
    requires Sound(blk, ends, pools) && b in blk
    ensures Sound(blk[b := -blk[b]], ends, pools)
  {
    var r := blk[b := -blk[b]];
    FlipApart(blk, ends, b);
    hide Disjoint, Fenced;
    assert BlocksOk(r, ends) by {
      forall c | c in r ensures BlockOk(r, ends, c) { assert BlockOk(blk, ends, c); }
    }
    assert PoolsOk(r, ends, pools) by {
      hide BlocksOk;
      forall c | c in r ensures InPool(pools, c) { assert InPool(pools, c); }
    }
  }

  /** Cutting a block in two. */
  function Cut(blk: Blocks, b: int, first: int, second: int): (r: Blocks) {
    blk[b := first][b + Abs(first) := second]
  }

  ghost predicate CutOk(blk: Blocks, b: int, first: int, second: int) {
    && b in blk && Abs(first) >= LEAST && Abs(second) >= LEAST && Abs(first) % 4 == 0
    && Abs(first) + Abs(second) == Abs(blk[b])
  }

  lemma CutBlocks(blk: Blocks, ends: set<int>, b: int, first: int, second: int)
    requires Tiles(blk, ends) && CutOk(blk, b, first, second)
    ensures BlocksOk(Cut(blk, b, first, second), ends) && b + Abs(first) !in blk
  {
    var r := Cut(blk, b, first, second);
    assert BlockOk(blk, ends, b);
    forall c | c in r ensures BlockOk(r, ends, c) {
      if c in blk { assert BlockOk(blk, ends, c); }
    }
  }

  lemma CutApart(blk: Blocks, ends: set<int>, b: int, first: int, second: int)
    requires Tiles(blk, ends) && CutOk(blk, b, first, second)
    ensures var r := Cut(blk, b, first, second); Disjoint(r) && Fenced(r, ends)
  {
    hide BlocksOk;
    var r, a := Cut(blk, b, first, second), b + Abs(first);
    forall c | c in blk && c != b && c != a ensures Next(r, c) == Next(blk, c) {}
    assert a !in blk;
    assert Next(r, b) == a && Next(r, a) == Next(blk, b);
    hide Next, Abs, Cut;
    assert forall c :: c in r ==> c == a || c in blk;
    forall c, d | c in r && d in r && c < d ensures Next(r, c) <= d {
      if c == b || c == a { assert d != a ==> d in blk; }
    }
  }

  lemma CutSound(blk: Blocks, ends: set<int>, pools: set<Pool>, b: int, first: int, second: int)
    requires Sound(blk, ends, pools) && CutOk(blk, b, first, second)
    ensures b + Abs(first) !in blk && Sound(Cut(blk, b, first, second), ends, pools)
  {
    CutBlocks(blk, ends, b, first, second);
    CutApart(blk, ends, b, first, second);
    var r, a := Cut(blk, b, first, second), b + Abs(first);
    assert BlockOk(blk, ends, b);
    forall c | c in r ensures InPool(pools, c) {
      if c == a {
        assert InPool(pools, b);
        var p :| p in pools && p.start <= b < p.end;
        assert p.start <= a < p.end;
      } else {
        assert InPool(pools, c);
      }
    }
  }

  /** Joining a block with the one behind it. */
  function Join(blk: Blocks, b: int, c: int, size: int): (r: Blocks) {
    (blk - {c})[b := size]
  }

  ghost predicate JoinOk(blk: Blocks, b: int, c: int, size: int) {
    b in blk && c in blk && b != c && Next(blk, b) == c && Abs(size) == Abs(blk[b]) + Abs(blk[c])
  }

  lemma JoinNext(blk: Blocks, b: int, c: int, size: int)
    requires JoinOk(blk, b, c, size)
    ensures var r := Join(blk, b, c, size);
            && r.Keys == blk.Keys - {c} && Next(r, b) == Next(blk, c)
            && forall d :: d in r && d != b ==> Next(r, d) == Next(blk, d)
  {}

  lemma JoinBlocks(blk: Blocks, ends: set<int>, b: int, c: int, size: int)
    requires Tiles(blk, ends) && JoinOk(blk, b, c, size)
    ensures BlocksOk(Join(blk, b, c, size), ends)
  {
    var r := Join(blk, b, c, size);
    assert BlockOk(blk, ends, b) && BlockOk(blk, ends, c);
    forall d | d in r ensures BlockOk(r, ends, d) {
      assert BlockOk(blk, ends, d);
      if d != b { assert Next(blk, d) != c; }
    }
  }

  lemma JoinApart(blk: Blocks, ends: set<int>, b: int, c: int, size: int)
    requires Tiles(blk, ends) && JoinOk(blk, b, c, size)
    ensures var r := Join(blk, b, c, size); Disjoint(r) && Fenced(r, ends)
  {
    assert BlockOk(blk, ends, b) && BlockOk(blk, ends, c);
    JoinNext(blk, b, c, size);
    hide Join, Next, Abs, BlocksOk, BlockOk;
  }

  lemma JoinSound(blk: Blocks, ends: set<int>, pools: set<Pool>, b: int, c: int, size: int)
    requires Sound(blk, ends, pools) && JoinOk(blk, b, c, size)
    ensures Sound(Join(blk, b, c, size), ends, pools)
  {
    JoinBlocks(blk, ends, b, c, size);
    JoinApart(blk, ends, b, c, size);
    assert BlockOk(blk, ends, b) && BlockOk(blk, ends, c) && InPool(pools, b);
    var p :| p in pools && p.start <= b < p.end;
    assert p.end in ends && c <= p.end && c < p.end;
    hide BlocksOk, Disjoint, Fenced;
    forall q | q in pools ensures q.start != c {}
    forall d | d in Join(blk, b, c, size) ensures InPool(pools, d) { assert InPool(pools, d); }
  }

  lemma PoolSound(blk: Blocks, ends: set<int>, pools: set<Pool>, start: int, size: int)
    requires Sound(blk, ends, pools) && start > 0 && start % 4 == 0 && size >= LEAST && size % 4 == 0
    requires forall b :: b in blk ==> b >= start + size + HEAD || Next(blk, b) <= start
    requires forall e :: e in ends ==> e >= start + size + HEAD || e + HEAD <= start
    ensures Sound(blk[start := size], ends + {start + size}, pools + {Pool(start, start + size)})
    ensures start !in blk && start + size !in ends
  {
    var r, ends', pools' := blk[start := size], ends + {start + size}, pools + {Pool(start, start + size)};
    assert start in blk ==> BlockOk(blk, ends, start);
    assert forall c :: c in blk ==> Next(r, c) == Next(blk, c);
    forall c | c in r ensures BlockOk(r, ends', c) { if c in blk { assert BlockOk(blk, ends, c); } }
    assert Tiles(r, ends') by {
      forall c | c in blk ensures c < Next(blk, c) { assert BlockOk(blk, ends, c); }
    }
    PoolAdded(blk, ends, pools, start, size);
  }

  lemma PoolAdded(blk: Blocks, ends: set<int>, pools: set<Pool>, start: int, size: int)
    requires Sound(blk, ends, pools) && start > 0 && size >= LEAST
    requires forall b :: b in blk ==> b >= start + size + HEAD || Next(blk, b) <= start
    requires forall e :: e in ends ==> e >= start + size + HEAD || e + HEAD <= start
    ensures PoolsOk(blk[start := size], ends + {start + size}, pools + {Pool(start, start + size)})
  {
    var r, ends', fresh' := blk[start := size], ends + {start + size}, Pool(start, start + size);
    var pools' := pools + {fresh'};
    forall c | c in r ensures InPool(pools', c) {
      if c == start { assert fresh' in pools'; } else {
        assert InPool(pools, c);
        var p :| p in pools && p.start <= c < p.end;
        assert p in pools';
      }
    }
    forall p | p in pools ensures p.end < start || start + size < p.start {
      assert p.start in blk && BlockOk(blk, ends, p.start);
      if p.start < start && start <= p.end {
        var b := Covered(blk, ends, pools, p, p.start, if start < p.end then start else p.end - 1);
      }
    }
  }

  // The allocated blocks determine the heap

  ghost predicate SameAllocated(a: Blocks, b: Blocks) {
    forall c :: (Allocated(a, c) <==> Allocated(b, c)) && (Allocated(a, c) ==> a[c] == b[c])
  }

  /** The block of the other heap that covers a free block's start cannot begin before it. */
  lemma FreeStart(a: Blocks, b: Blocks, ends: set<int>, pools: set<Pool>, x: int)
    requires Sound(a, ends, pools) && Sound(b, ends, pools) && Coalesced(a) && SameAllocated(a, b) && Free(a, x)
    ensures Free(b, x)
  {
    assert BlockOk(a, ends, x) && InPool(pools, x);
    var p :| p in pools && p.start <= x < p.end;
    var y := Covered(b, ends, pools, p, p.start, x);
    assert BlockOk(b, ends, y);
    assert Free(b, y);
    assert y >= p.start;
    if y < x {
      var z := Covered(a, ends, pools, p, p.start, x - 1);
      assert Next(a, z) == x;
      assert Allocated(a, z) by { assert BlockOk(a, ends, z); }
      OneBlock(b, ends, y, z, x - 1);
    }
  }

  lemma FreeSize(a: Blocks, b: Blocks, ends: set<int>, x: int)
    requires Tiles(a, ends) && Tiles(b, ends) && Coalesced(a) && SameAllocated(a, b) && Free(a, x) && Free(b, x)
    ensures a[x] >= b[x]
  {
    assert BlockOk(a, ends, x) && BlockOk(b, ends, x);
    var e := Next(a, x);
    assert !Free(a, e);
    assert e in a ==> BlockOk(a, ends, e) && Allocated(a, e);
  }

  /** Two coalesced heaps with the same pools and allocated blocks are the same, whatever
      calls led to them. */
  lemma Determined(a: Blocks, b: Blocks, ends: set<int>, pools: set<Pool>)
    requires Sound(a, ends, pools) && Sound(b, ends, pools) && Coalesced(a) && Coalesced(b) && SameAllocated(a, b)
    ensures a == b
  {
    hide Sound, Coalesced, SameAllocated;
    assert Tiles(a, ends) && Tiles(b, ends) && SameAllocated(b, a) by { SoundTiles(a, b, ends, pools); }
    forall x | x in a || x in b ensures x in a && x in b && a[x] == b[x] {
      SizeNotZero(a, ends, x);
      SizeNotZero(b, ends, x);
      if Allocated(a, x) || Allocated(b, x) {
        AllocatedBoth(a, b, x);
      } else {
        if Free(a, x) { FreeStart(a, b, ends, pools, x); } else { FreeStart(b, a, ends, pools, x); }
        FreeSize(a, b, ends, x);
        FreeSize(b, a, ends, x);
      }
    }
  }

  lemma SoundTiles(a: Blocks, b: Blocks, ends: set<int>, pools: set<Pool>)
    requires Sound(a, ends, pools) && Sound(b, ends, pools) && SameAllocated(a, b)
    ensures Tiles(a, ends) && Tiles(b, ends) && SameAllocated(b, a)
  {}

  lemma SizeNotZero(blk: Blocks, ends: set<int>, x: int)
    requires Tiles(blk, ends)
    ensures x in blk ==> Free(blk, x) || Allocated(blk, x)
  {
    assert x in blk ==> BlockOk(blk, ends, x);
  }

  lemma AllocatedBoth(a: Blocks, b: Blocks, x: int)
    requires SameAllocated(a, b) && (Allocated(a, x) || Allocated(b, x))
    ensures x in a && x in b && a[x] == b[x]
  {}
}
