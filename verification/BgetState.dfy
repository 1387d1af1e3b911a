/** The invariant of the BGET heap, and what each group of memory writes does to it. */
module BgetState {
  import opened BgetHeap
  import opened BgetMemory

  datatype Heap = Heap(blk: Blocks, ends: set<int>, pools: set<Pool>, head: int, list: seq<int>)

  /** The list head lies outside all pools. */
  ghost predicate Clear(blk: Blocks, ends: set<int>, head: int) {
    && (forall b :: b in blk ==> Next(blk, b) <= head || head + LEAST <= b)
    && (forall e :: e in ends ==> e + HEAD <= head || head + LEAST <= e)
  }

  /** The list holds exactly the free blocks. */
  ghost predicate ListsFree(blk: Blocks, list: seq<int>) {
    forall b :: b in list <==> Free(blk, b)
  }

  ghost function Nodes(h: Heap): (r: set<int>) {
    h.blk.Keys + {h.head}
  }

  ghost predicate Framed(h: Heap) {
    Sound(h.blk, h.ends, h.pools) && Clear(h.blk, h.ends, h.head)
  }

  /** The blocks without their memory. */
  ghost predicate ShapeOk(h: Heap) {
    Framed(h) && Coalesced(h.blk) && ListsFree(h.blk, h.list)
  }

  ghost predicate MemoryOk(m: Mem, h: Heap, stale: set<int>) {
    HeadersOk(m, h.blk, h.ends, stale) && RingOk(m, h.head, h.list, Nodes(h))
  }

  ghost predicate HeapOk(m: Mem, h: Heap) {
    ShapeOk(h) && MemoryOk(m, h, {})
  }

  lemma NodesSpaced(h: Heap)
    requires Framed(h)
    ensures Spaced(Nodes(h))
  {
    forall x, y | x in Nodes(h) && y in Nodes(h) && x < y ensures x + LEAST <= y {
      if x in h.blk { assert BlockOk(h.blk, h.ends, x); }
    }
  }

  lemma FlipFramed(h: Heap, b: int)
    requires Framed(h) && b in h.blk
    ensures Framed(h.(blk := h.blk[b := -h.blk[b]]))
  {
    FlipSound(h.blk, h.ends, h.pools, b);
  }

  lemma CutFramed(h: Heap, b: int, first: int, second: int)
    requires Framed(h) && CutOk(h.blk, b, first, second)
    ensures Framed(h.(blk := Cut(h.blk, b, first, second)))
  {
    hide Sound;
    CutSound(h.blk, h.ends, h.pools, b, first, second);
  }

  lemma JoinFramed(h: Heap, b: int, c: int, size: int)
    requires Framed(h) && JoinOk(h.blk, b, c, size)
    ensures Framed(h.(blk := Join(h.blk, b, c, size)))
  {
    JoinSound(h.blk, h.ends, h.pools, b, c, size);
    JoinNext(h.blk, b, c, size);
    assert BlockOk(h.blk, h.ends, b);
    hide Sound;
  }

  // Which cells a write can touch

  /** A header's cells are no link cells of a node and lie in no block's body. */
  lemma HeaderCell(h: Heap, x: int)
    requires Framed(h) && IsHeader(h.blk, h.ends, x)
    ensures forall f :: f in h.blk || f == h.head ==> f + 8 != x && f + 8 != x + 4 && f + 12 != x && f + 12 != x + 4
    ensures forall c :: c in h.blk ==> x + 4 < c + HEAD || Next(h.blk, c) <= x
  {
    if x in h.blk { assert BlockOk(h.blk, h.ends, x); }
    forall c | c in h.blk ensures (x + 4 < c + HEAD || Next(h.blk, c) <= x) && c + LEAST <= Next(h.blk, c) {
      assert BlockOk(h.blk, h.ends, c);
    }
  }

  /** A node's link cells are no header cells and lie in no other block's body. */
  lemma LinkCell(h: Heap, f: int)
    requires Framed(h) && f in Nodes(h)
    ensures forall x :: IsHeader(h.blk, h.ends, x) ==> f + 8 != x && f + 8 != x + 4 && f + 12 != x && f + 12 != x + 4
    ensures forall c :: c in h.blk && c != f ==> f + 12 < c + HEAD || Next(h.blk, c) <= f
  {
    forall x | IsHeader(h.blk, h.ends, x) ensures f + 8 != x && f + 8 != x + 4 && f + 12 != x && f + 12 != x + 4 {
      HeaderCell(h, x);
    }
    if f in h.blk { assert BlockOk(h.blk, h.ends, f); }
    forall c | c in h.blk ensures c < Next(h.blk, c) { assert BlockOk(h.blk, h.ends, c); }
  }

  /** The bytes of the allocated blocks, but for one of them, are the same. */
  ghost predicate BodiesKept(m: Mem, m': Mem, blk: Blocks, but: int) {
    forall c, x {:trigger Allocated(blk, c), Rd(m', x)} ::
      Allocated(blk, c) && c != but && c + HEAD <= x < Next(blk, c) ==> Rd(m', x) == Rd(m, x)
  }

  lemma HeadersSame(m: Mem, m': Mem, blk: Blocks, ends: set<int>, stale: set<int>)
    requires HeadersOk(m, blk, ends, stale)
    requires forall x :: IsHeader(blk, ends, x) ==> Rd(m', x) == Rd(m, x) && Rd(m', x + 4) == Rd(m, x + 4)
    ensures HeadersOk(m', blk, ends, stale)
  {
    forall x | IsHeader(blk, ends, x) && x !in stale ensures PrevOk(m', blk, x) {
      assert PrevOk(m, blk, x);
      PrevSame(m, m', blk, blk, x);
    }
    forall b | b in blk ensures Rd(m', b + 4) == blk[b] { assert IsHeader(blk, ends, b); }
    forall e | e in ends ensures Rd(m', e + 4) == SENTINEL { assert IsHeader(blk, ends, e); }
  }

  /** Writing a header field keeps the ring and the bodies. */
  lemma HeaderWrite(m: Mem, h: Heap, x: int, d: int, v: int, but: int)
    requires Framed(h) && IsHeader(h.blk, h.ends, x) && (d == 0 || d == 4)
    ensures RingOk(m, h.head, h.list, Nodes(h)) ==> RingOk(m[x + d := v], h.head, h.list, Nodes(h))
    ensures BodiesKept(m, m[x + d := v], h.blk, but)
  {
    HeaderCell(h, x);
    hide Framed, Linked;
    if RingOk(m, h.head, h.list, Nodes(h)) {
      assert forall f :: f in h.list ==> f in Nodes(h);
      RingSame(m, m[x + d := v], h.head, h.list, Nodes(h));
    }
  }

  /** Writing a link keeps all headers and all bodies but the node's own. */
  lemma LinkWrite(m: Mem, h: Heap, f: int, d: int, v: int, stale: set<int>)
    requires Framed(h) && f in Nodes(h) && (d == 8 || d == 12)
    ensures HeadersOk(m, h.blk, h.ends, stale) ==> HeadersOk(m[f + d := v], h.blk, h.ends, stale)
    ensures BodiesKept(m, m[f + d := v], h.blk, f)
  {
    LinkCell(h, f);
    hide Framed;
    if HeadersOk(m, h.blk, h.ends, stale) { HeadersSame(m, m[f + d := v], h.blk, h.ends, stale); }
  }

  lemma RingMoves(m: Mem, h: Heap, h': Heap)
    requires RingOk(m, h.head, h.list, Nodes(h)) && Framed(h') && h'.head == h.head && h'.list == h.list
    requires forall f :: f in h.list ==> f in h'.blk
    ensures RingOk(m, h'.head, h'.list, Nodes(h'))
  {
    NodesSpaced(h');
  }

  lemma BodiesChain(m: Mem, m1: Mem, m2: Mem, blk: Blocks, but: int)
    requires BodiesKept(m, m1, blk, but) && BodiesKept(m1, m2, blk, but)
    ensures BodiesKept(m, m2, blk, but)
  {
    forall c, x | Allocated(blk, c) && c != but && c + HEAD <= x < Next(blk, c) ensures Rd(m2, x) == Rd(m, x) {
      assert Rd(m1, x) == Rd(m, x);
    }
  }

  lemma BodiesNarrow(m: Mem, m': Mem, big: Blocks, small: Blocks, but: int)
    requires BodiesKept(m, m', big, but)
    requires KeepsAllocated(small, big, but)
    ensures BodiesKept(m, m', small, but)
  {}

  // bget

  /** The allocated blocks of one heap, but for one of them, are allocated in the other. */
  ghost predicate KeepsAllocated(was: Blocks, now: Blocks, but: int) {
    forall c :: Allocated(was, c) && c != but ==> Allocated(now, c) && now[c] == was[c]
  }

  lemma SplitShape(h: Heap, h': Heap, b: int, k: int, n: int)
    requires ShapeOk(h) && Free(h.blk, b) && n >= LEAST && k >= LEAST && n % 4 == 0 && k + n == h.blk[b]
    requires h' == h.(blk := Cut(h.blk, b, k, -n))
    ensures CutOk(h.blk, b, k, -n) && ShapeOk(h') && KeepsAllocated(h.blk, h'.blk, 0)
  {
    assert BlockOk(h.blk, h.ends, b);
    assert CutOk(h.blk, b, k, -n);
    CutBlocks(h.blk, h.ends, b, k, -n);
    CutFramed(h, b, k, -n);
    hide Framed;
    forall c ensures Free(h'.blk, c) <==> Free(h.blk, c) {}
    forall c, d | Free(h'.blk, c) && Free(h'.blk, d) ensures Next(h'.blk, c) != d {
      assert Free(h.blk, c) && Free(h.blk, d);
    }
  }

  lemma SplitMemory(m: Mem, m3: Mem, h: Heap, h': Heap, b: int, k: int, n: int)
    requires Framed(h) && Framed(h') && MemoryOk(m, h, {}) && Free(h.blk, b) && CutOk(h.blk, b, k, -n) && k > 0 && n > 0
    requires h' == h.(blk := Cut(h.blk, b, k, -n)) && m3 == m[b + 4 := k][b + k := k][b + k + 4 := -n]
    requires forall f :: f in h.list ==> f in h.blk
    ensures b + k in h'.blk && MemoryOk(m3, h', {Next(h'.blk, b + k)}) && BodiesKept(m, m3, h'.blk, 0)
  {
    hide RingOk, BodiesKept, Disjoint, Fenced, BlocksOk;
    var a := b + k;
    CutHeaders(m, h.blk, h.ends, b, k, n);
    hide HeadersOk;
    RingMoves(m, h, h');
    var m1 := m[b + 4 := k];
    var m2 := m1[a := k];
    HeaderWrite(m, h', b, 4, k, 0);
    HeaderWrite(m1, h', a, 0, k, 0);
    HeaderWrite(m2, h', a, 4, -n, 0);
    BodiesChain(m, m1, m2, h'.blk, 0);
    BodiesChain(m, m2, m3, h'.blk, 0);
  }

  /** The back link behind b is written last. */
  lemma FinishMemory(m: Mem, m': Mem, h: Heap, b: int, but: int)
    requires ShapeOk(h) && b in h.blk && MemoryOk(m, h, {Next(h.blk, b)})
    requires m' == m[Next(h.blk, b) := if h.blk[b] > 0 then h.blk[b] else 0]
    ensures HeapOk(m', h) && BodiesKept(m, m', h.blk, but)
  {
    assert BlockOk(h.blk, h.ends, b);
    hide RingOk, BodiesKept, Disjoint, Fenced, BlocksOk, Coalesced, ListsFree;
    SetPrev(m, h.blk, h.ends, b);
    hide HeadersOk;
    HeaderWrite(m, h, Next(h.blk, b), 0, if h.blk[b] > 0 then h.blk[b] else 0, but);
  }

  lemma ListedExist(h: Heap)
    requires ShapeOk(h)
    ensures forall f :: f in h.list ==> f in h.blk
  {}

  lemma ListedFree(h: Heap, b: int)
    requires ShapeOk(h)
    ensures (forall f :: f in h.list ==> Free(h.blk, f)) && (b !in h.blk ==> b !in h.list)
  {}

  /** The split: b keeps its first part, the rest at its end is allocated. */
  lemma SplitStep(m: Mem, m': Mem, h: Heap, h': Heap, b: int, k: int, n: int)
    requires HeapOk(m, h) && Free(h.blk, b) && n >= LEAST && k >= LEAST && n % 4 == 0 && k + n == h.blk[b]
    requires h' == h.(blk := Cut(h.blk, b, k, -n))
    requires m' == m[b + 4 := k][b + k := k][b + k + 4 := -n][b + h.blk[b] := 0]
    ensures HeapOk(m', h') && BodiesKept(m, m', h.blk, 0) && KeepsAllocated(h.blk, h'.blk, 0)
  {
    hide ShapeOk, MemoryOk, BodiesKept, KeepsAllocated;
    var m3 := m[b + 4 := k][b + k := k][b + k + 4 := -n];
    SplitShape(h, h', b, k, n);
    assert Framed(h) && Framed(h') by { ShapeFramed(h); ShapeFramed(h'); }
    ListedExist(h);
    SplitMemory(m, m3, h, h', b, k, n);
    hide CutOk;
    FinishMemory(m3, m', h', b + k, 0);
    BodiesChain(m, m3, m', h'.blk, 0);
    BodiesNarrow(m, m', h'.blk, h.blk, 0);
  }

  lemma ShapeFramed(h: Heap)
    requires ShapeOk(h)
    ensures Framed(h)
  {}

  // Dechaining and chaining

  lemma BodiesAll(m: Mem, m': Mem, blk: Blocks, f: int, but: int)
    requires BodiesKept(m, m', blk, f) && (Allocated(blk, f) ==> f == but)
    ensures BodiesKept(m, m', blk, but)
  {}

  /** Two writes take a block off the list. */
  lemma UnlinkStep(m: Mem, m': Mem, h: Heap, i: nat, a: int, c: int, stale: set<int>, but: int)
    requires Framed(h) && MemoryOk(m, h, stale) && i < |h.list| && (forall f :: f in h.list ==> Free(h.blk, f))
    requires a == Rd(m, h.list[i] + 12) && c == Rd(m, h.list[i] + 8) && m' == m[a + 8 := c][c + 12 := a]
    ensures MemoryOk(m', h.(list := Without(h.list, i)), stale) && BodiesKept(m, m', h.blk, but)
    ensures a != h.list[i] && c != h.list[i] && Rd(m, a + 8) == h.list[i] && Rd(m, c + 12) == h.list[i]
    ensures a in Nodes(h) && c in Nodes(h)
  {
    UnlinkRing(m, h.head, h.list, Nodes(h), i);
    HeadIsNoBlock(h);
    hide Framed, RingOk, HeadersOk, BodiesKept, Rd;
    var m1 := m[a + 8 := c];
    LinkWrite(m, h, a, 8, c, stale);
    LinkWrite(m1, h, c, 12, a, stale);
    BodiesAll(m, m1, h.blk, a, but);
    BodiesAll(m1, m', h.blk, c, but);
    BodiesChain(m, m1, m', h.blk, but);
  }

  lemma HeadIsNoBlock(h: Heap)
    requires Framed(h)
    ensures h.head !in h.blk
  {
    assert h.head in h.blk ==> BlockOk(h.blk, h.ends, h.head);
  }

  /** Four writes put a block at the end of the list. */
  lemma AppendStep(m: Mem, m': Mem, h: Heap, b: int, last: int, stale: set<int>)
    requires Framed(h) && MemoryOk(m, h, stale) && b in h.blk && b !in h.list && (forall f :: f in h.list ==> Free(h.blk, f))
    requires last == Rd(m, h.head + 12) && m' == m[b + 8 := h.head][b + 12 := last][h.head + 12 := b][last + 8 := b]
    ensures MemoryOk(m', h.(list := h.list + [b]), stale) && BodiesKept(m, m', h.blk, b)
    ensures last != b && last in Nodes(h) && Rd(m, last + 8) == h.head
  {
    hide Framed, RingOk, HeadersOk, BodiesKept, Rd;
    HeadIsNoBlock(h);
    AppendRing(m, h.head, h.list, Nodes(h), b);
    var m1 := m[b + 8 := h.head];
    var m2 := m1[b + 12 := last];
    var m3 := m2[h.head + 12 := b];
    LinkWrite(m, h, b, 8, h.head, stale);
    LinkWrite(m1, h, b, 12, last, stale);
    LinkWrite(m2, h, h.head, 12, b, stale);
    LinkWrite(m3, h, last, 8, b, stale);
    BodiesAll(m2, m3, h.blk, h.head, b);
    BodiesAll(m3, m', h.blk, last, b);
    BodiesChain(m, m1, m2, h.blk, b);
    BodiesChain(m, m2, m3, h.blk, b);
    BodiesChain(m, m3, m', h.blk, b);
  }

  /** Changing b from free to allocated or back. */
  lemma FlipMemory(m: Mem, m': Mem, h: Heap, h': Heap, b: int, but: int)
    requires Framed(h) && b in h.blk && MemoryOk(m, h, {}) && m' == m[b + 4 := -h.blk[b]] && h' == h.(blk := h.blk[b := -h.blk[b]])
    ensures Framed(h') && MemoryOk(m', h', {Next(h'.blk, b)}) && BodiesKept(m, m', h.blk, but)
  {
    FlipFramed(h, b);
    FlipHeaders(m, h.blk, h.ends, b);
    hide Framed, RingOk, HeadersOk, BodiesKept;
    HeaderWrite(m, h, b, 4, -h.blk[b], but);
    assert Nodes(h') == Nodes(h);
  }

  lemma InWithout(list: seq<int>, i: nat, x: int)
    requires i < |list| && Unique(list)
    ensures x in Without(list, i) <==> x in list && x != list[i]
  {
    if x in list && x != list[i] {
      var k :| 0 <= k < |list| && list[k] == x;
      assert k < i ==> Without(list, i)[k] == x;
      assert k > i ==> Without(list, i)[k - 1] == x;
    }
    if x in Without(list, i) {
      var k :| 0 <= k < |list| - 1 && Without(list, i)[k] == x;
      assert x == list[if k < i then k else k + 1];
    }
  }

  lemma TakeShape(h: Heap, h': Heap, b: int, i: nat)
    requires ShapeOk(h) && i < |h.list| && h.list[i] == b && Unique(h.list)
    requires b in h.blk && h' == h.(blk := h.blk[b := -h.blk[b]], list := Without(h.list, i)) && Framed(h')
    ensures Free(h.blk, b) && ShapeOk(h') && KeepsAllocated(h.blk, h'.blk, 0)
  {
    hide Framed;
    forall c ensures c in h'.list <==> Free(h'.blk, c) { InWithout(h.list, i, c); }
    forall c, d | Free(h'.blk, c) && Free(h'.blk, d) ensures Next(h'.blk, c) != d {
      assert Free(h.blk, c) && Free(h.blk, d);
    }
  }

  /** The whole block b is taken off the list and allocated. */
  lemma TakeStep(m: Mem, m': Mem, h: Heap, h': Heap, b: int, i: nat, a: int, c: int)
    requires HeapOk(m, h) && i < |h.list| && h.list[i] == b && b in h.blk && h.blk[b] > 0
    requires a == Rd(m, b + 12) && c == Rd(m, b + 8)
    requires h' == h.(blk := h.blk[b := -h.blk[b]], list := Without(h.list, i))
    requires m' == m[a + 8 := c][c + 12 := a][b + 4 := -h.blk[b]][b + h.blk[b] := 0]
    ensures HeapOk(m', h') && BodiesKept(m, m', h.blk, 0) && KeepsAllocated(h.blk, h'.blk, 0)
  {
    ShapeFramed(h);
    assert Unique(h.list) && forall f :: f in h.list ==> Free(h.blk, f);
    hide ShapeOk, MemoryOk, BodiesKept, KeepsAllocated, Framed, Unique, Rd;
    var h1 := h.(list := Without(h.list, i));
    var m1 := m[a + 8 := c][c + 12 := a];
    var m2 := m1[b + 4 := -h.blk[b]];
    UnlinkStep(m, m1, h, i, a, c, {}, 0);
    FramedList(h, h1);
    FlipMemory(m1, m2, h1, h', b, 0);
    TakeShape(h, h', b, i);
    FinishMemory(m2, m', h', b, 0);
    BodiesNarrow(m2, m', h'.blk, h.blk, 0);
    BodiesChain(m, m1, m2, h.blk, 0);
    BodiesChain(m, m2, m', h.blk, 0);
  }

  /** The list is no part of the frame. */
  lemma FramedList(h: Heap, h': Heap)
    requires Framed(h) && h' == h.(list := h'.list)
    ensures Framed(h')
  {}

  // brel

  /** Exactly block b is no longer allocated. */
  ghost predicate Frees(was: Blocks, now: Blocks, b: int) {
    forall c :: (Allocated(now, c) <==> Allocated(was, c) && c != b) && (Allocated(now, c) ==> now[c] == was[c])
  }

  lemma FreesNone(blk: Blocks, p: int)
    requires Free(blk, p)
    ensures Frees(blk, blk, p) && !Allocated(blk, p)
  {}

  lemma BodiesLater(m: Mem, m1: Mem, m2: Mem, was: Blocks, now: Blocks, but: int, q: int)
    requires BodiesKept(m, m1, was, but) && BodiesKept(m1, m2, now, but) && Frees(was, now, q) && (q == but || !Allocated(was, q))
    ensures BodiesKept(m, m2, was, but)
  {
    BodiesNarrow(m1, m2, now, was, but);
    BodiesChain(m, m1, m2, was, but);
  }

  lemma FreesChain(was: Blocks, mid: Blocks, now: Blocks, b: int, q: int)
    requires Frees(was, mid, b) && Frees(mid, now, q) && !Allocated(mid, q)
    ensures Frees(was, now, b)
  {}

  /** No two free blocks are adjacent, except perhaps p and the one behind it. */
  ghost predicate HalfShape(h: Heap, p: int) {
    && Framed(h) && ListsFree(h.blk, h.list) && Free(h.blk, p)
    && (forall c, d :: Free(h.blk, c) && Free(h.blk, d) && Next(h.blk, c) == d ==> c == p)
  }

  lemma JoinMemory(m: Mem, m': Mem, h: Heap, h': Heap, b: int, c: int, size: int, but: int)
    requires Framed(h) && JoinOk(h.blk, b, c, size) && MemoryOk(m, h, {c}) && c !in h.list
    requires forall f :: f in h.list ==> f in h.blk
    requires m' == m[b + 4 := size] && h' == h.(blk := Join(h.blk, b, c, size))
    ensures Framed(h') && b in h'.blk && MemoryOk(m', h', {Next(h'.blk, b)}) && BodiesKept(m, m', h.blk, but)
  {
    JoinFramed(h, b, c, size);
    JoinHeaders(m, h.blk, h.ends, b, c, size);
    hide Framed, RingOk, HeadersOk, BodiesKept;
    HeaderWrite(m, h, b, 4, size, but);
    RingMoves(m', h, h');
  }

  lemma Freshen(m: Mem, h: Heap, stale: set<int>)
    requires MemoryOk(m, h, {})
    ensures MemoryOk(m, h, stale)
  {
    hide RingOk;
  }

  /** The released block b is added to the free block p in front of it. */
  lemma MergeBack(m: Mem, m': Mem, h: Heap, h': Heap, p: int, b: int)
    requires HeapOk(m, h) && Allocated(h.blk, b) && IsPrev(h.blk, p, b)
    requires m' == m[p + 4 := h.blk[p] - h.blk[b]] && h' == h.(blk := Join(h.blk, p, b, h.blk[p] - h.blk[b]))
    ensures HalfShape(h', p) && MemoryOk(m', h', {Next(h'.blk, p)}) && BodiesKept(m, m', h.blk, b)
    ensures Frees(h.blk, h'.blk, b)
  {
    var size := h.blk[p] - h.blk[b];
    ShapeFramed(h);
    ListedExist(h);
    hide MemoryOk, Framed, BodiesKept, Frees, Coalesced;
    Freshen(m, h, {b});
    JoinMemory(m, m', h, h', p, b, size, b);
    BackShape(h, h', p, b);
  }

  lemma BackShape(h: Heap, h': Heap, p: int, b: int)
    requires ShapeOk(h) && Allocated(h.blk, b) && IsPrev(h.blk, p, b)
    requires h' == h.(blk := Join(h.blk, p, b, h.blk[p] - h.blk[b])) && Framed(h')
    ensures HalfShape(h', p) && Frees(h.blk, h'.blk, b)
  {
    hide Framed;
    JoinNext(h.blk, p, b, h.blk[p] - h.blk[b]);
    forall c ensures Free(h'.blk, c) <==> Free(h.blk, c) {}
  }

  /** The released block b is a free block of its own. */
  lemma FreeAlone(m: Mem, m1: Mem, m': Mem, h: Heap, h': Heap, b: int, last: int)
    requires HeapOk(m, h) && Allocated(h.blk, b) && (forall p :: !IsPrev(h.blk, p, b)) && last == Rd(m, h.head + 12)
    requires m1 == m[b + 8 := h.head][b + 12 := last][h.head + 12 := b][last + 8 := b] && m' == m1[b + 4 := -h.blk[b]]
    requires h' == h.(blk := h.blk[b := -h.blk[b]], list := h.list + [b])
    ensures HalfShape(h', b) && MemoryOk(m', h', {Next(h'.blk, b)}) && BodiesKept(m, m', h.blk, b)
    ensures Frees(h.blk, h'.blk, b)
  {
    ShapeFramed(h);
    assert b !in h.list && forall f :: f in h.list ==> Free(h.blk, f);
    hide MemoryOk, Framed, BodiesKept, Rd, ShapeOk, HalfShape, Frees, IsPrev;
    var h1 := h.(list := h.list + [b]);
    AppendStep(m, m1, h, b, last, {});
    FramedList(h, h1);
    FlipMemory(m1, m', h1, h', b, b);
    BodiesChain(m, m1, m', h.blk, b);
    AloneShape(h, h', b);
  }

  lemma AloneShape(h: Heap, h': Heap, b: int)
    requires ShapeOk(h) && Allocated(h.blk, b) && (forall p :: !IsPrev(h.blk, p, b))
    requires h' == h.(blk := h.blk[b := -h.blk[b]], list := h.list + [b]) && Framed(h')
    ensures HalfShape(h', b) && Frees(h.blk, h'.blk, b)
  {
    hide Framed;
    forall c ensures Free(h'.blk, c) <==> Free(h.blk, c) || c == b {}
    forall c ensures c in h'.list <==> Free(h'.blk, c) {}
    forall c, d | Free(h'.blk, c) && Free(h'.blk, d) && Next(h'.blk, c) == d ensures c == b {
      assert c != b ==> !IsPrev(h.blk, c, b);
    }
  }

  lemma ForwardShape(h: Heap, h': Heap, p: int, q: int, i: nat)
    requires HalfShape(h, p) && Free(h.blk, q) && Next(h.blk, p) == q && i < |h.list| && h.list[i] == q && Unique(h.list)
    requires h' == h.(blk := Join(h.blk, p, q, h.blk[p] + h.blk[q]), list := Without(h.list, i)) && Framed(h') && p != q
    ensures ShapeOk(h') && Frees(h.blk, h'.blk, q)
  {
    JoinNext(h.blk, p, q, h.blk[p] + h.blk[q]);
    hide Framed;
    forall c ensures Free(h'.blk, c) <==> Free(h.blk, c) && c != q {}
    forall c ensures c in h'.list <==> Free(h'.blk, c) { InWithout(h.list, i, c); }
    forall c, d | Free(h'.blk, c) && Free(h'.blk, d) ensures Next(h'.blk, c) != d {
      assert Free(h.blk, c) && Free(h.blk, d) && Free(h.blk, q);
      assert c == p ==> Next(h'.blk, c) == Next(h.blk, q);
    }
  }

  /** The free block q behind p leaves the list and is added to p. */
  lemma MergeForward(m: Mem, m1: Mem, m': Mem, h: Heap, h': Heap, p: int, q: int, i: nat, a: int, c: int, but: int)
    requires HalfShape(h, p) && Free(h.blk, q) && Next(h.blk, p) == q && MemoryOk(m, h, {q}) && p != q
    requires i < |h.list| && h.list[i] == q && a == Rd(m, q + 12) && c == Rd(m, q + 8)
    requires m1 == m[a + 8 := c][c + 12 := a] && m' == m1[p + 4 := h.blk[p] + h.blk[q]]
    requires h' == h.(blk := Join(h.blk, p, q, h.blk[p] + h.blk[q]), list := Without(h.list, i))
    ensures ShapeOk(h') && MemoryOk(m', h', {Next(h'.blk, p)}) && BodiesKept(m, m', h.blk, but)
    ensures Frees(h.blk, h'.blk, q)
  {
    assert Unique(h.list);
    var h1 := h.(list := Without(h.list, i));
    assert q !in h1.list by { InWithout(h.list, i, q); }
    assert forall f :: f in h1.list ==> f in h.blk by { forall f | f in h1.list ensures f in h.blk { InWithout(h.list, i, f); } }
    assert forall f :: f in h.list ==> Free(h.blk, f);
    hide MemoryOk, Framed, BodiesKept, Rd, Unique, Frees, ShapeOk;
    UnlinkStep(m, m1, h, i, a, c, {q}, but);
    FramedList(h, h1);
    JoinMemory(m1, m', h1, h', p, q, h.blk[p] + h.blk[q], but);
    ForwardShape(h, h', p, q, i);
    BodiesChain(m, m1, m', h.blk, but);
  }

  // bpool

  ghost predicate Outside(h: Heap, start: int, end: int) {
    && (forall b :: b in h.blk ==> b >= end || Next(h.blk, b) <= start)
    && (forall e :: e in h.ends ==> e >= end || e + HEAD <= start)
    && (h.head >= end || h.head + LEAST <= start)
  }

  ghost function WithPool(h: Heap, start: int, size: int): (r: Heap) {
    Heap(h.blk[start := size], h.ends + {start + size}, h.pools + {Pool(start, start + size)}, h.head, h.list + [start])
  }

  lemma PoolShape(h: Heap, h': Heap, start: int, size: int)
    requires ShapeOk(h) && start > 0 && start % 4 == 0 && size >= LEAST && size % 4 == 0 && Outside(h, start, start + size + HEAD)
    requires h' == WithPool(h, start, size)
    ensures ShapeOk(h') && start !in h.blk && start + size !in h.ends && KeepsAllocated(h.blk, h'.blk, 0)
  {
    PoolSound(h.blk, h.ends, h.pools, start, size);
    assert Clear(h'.blk, h'.ends, h'.head);
    forall c | c in h.blk ensures Next(h'.blk, c) == Next(h.blk, c) != start { assert BlockOk(h.blk, h.ends, c); }
    hide Sound, Clear, Outside;
    forall c ensures Free(h'.blk, c) <==> Free(h.blk, c) || c == start {}
    forall c ensures c in h'.list <==> Free(h'.blk, c) {}
    forall c, d | Free(h'.blk, c) && Free(h'.blk, d) ensures Next(h'.blk, c) != d {
      if c == start { assert d == start + size ==> d in h'.blk; }
    }
  }

  /** Writes inside the new pool's region leave headers and bodies alone. */
  lemma OutsideWrite(m: Mem, h: Heap, start: int, end: int, x: int, v: int)
    requires Framed(h) && HeadersOk(m, h.blk, h.ends, {}) && Outside(h, start, end) && start <= x < end
    ensures HeadersOk(m[x := v], h.blk, h.ends, {}) && BodiesKept(m, m[x := v], h.blk, 0)
  {
    forall c | c in h.blk ensures c + LEAST <= Next(h.blk, c) { assert BlockOk(h.blk, h.ends, c); }
    hide Framed, HeadersOk;
    HeadersSame(m, m[x := v], h.blk, h.ends, {});
  }

  /** The old headers and bodies after the first five writes of bpool. */
  lemma PoolFrameLinks(m: Mem, m1: Mem, m3: Mem, m5: Mem, h: Heap, start: int, end: int, last: int)
    requires Framed(h) && HeadersOk(m, h.blk, h.ends, {}) && Outside(h, start, end) && start + LEAST <= end
    requires last == h.head || Free(h.blk, last)
    requires m1 == m[start := 0] && m3 == m1[start + 8 := h.head][start + 12 := last]
    requires m5 == m3[h.head + 12 := start][last + 8 := start]
    ensures HeadersOk(m5, h.blk, h.ends, {}) && BodiesKept(m, m5, h.blk, 0)
  {
    hide Framed, HeadersOk, BodiesKept, Outside;
    HeadIsNoBlock(h);
    var m2 := m1[start + 8 := h.head];
    OutsideWrite(m, h, start, end, start, 0);
    OutsideWrite(m1, h, start, end, start + 8, h.head);
    OutsideWrite(m2, h, start, end, start + 12, last);
    BodiesChain(m, m1, m2, h.blk, 0);
    BodiesChain(m, m2, m3, h.blk, 0);
    TwoLinks(m3, m5, h, start, last);
    BodiesChain(m, m3, m5, h.blk, 0);
  }

  lemma TwoLinks(m: Mem, m': Mem, h: Heap, start: int, last: int)
    requires Framed(h) && HeadersOk(m, h.blk, h.ends, {}) && (last == h.head || Free(h.blk, last)) && h.head !in h.blk
    requires m' == m[h.head + 12 := start][last + 8 := start]
    ensures HeadersOk(m', h.blk, h.ends, {}) && BodiesKept(m, m', h.blk, 0)
  {
    hide Framed, HeadersOk, BodiesKept;
    var m4 := m[h.head + 12 := start];
    LinkWrite(m, h, h.head, 12, start, {});
    LinkWrite(m4, h, last, 8, start, {});
    BodiesAll(m, m4, h.blk, h.head, 0);
    BodiesAll(m4, m', h.blk, last, 0);
    BodiesChain(m, m4, m', h.blk, 0);
  }

  /** And after the last three. */
  lemma PoolFrameTail(m: Mem, m': Mem, h: Heap, start: int, size: int)
    requires Framed(h) && HeadersOk(m, h.blk, h.ends, {}) && Outside(h, start, start + size + HEAD) && size >= LEAST
    requires m' == m[start + 4 := size][start + size := size][start + size + 4 := SENTINEL]
    ensures HeadersOk(m', h.blk, h.ends, {}) && BodiesKept(m, m', h.blk, 0)
  {
    hide Framed, HeadersOk, BodiesKept, Outside;
    var end := start + size + HEAD;
    var m6 := m[start + 4 := size];
    var m7 := m6[start + size := size];
    OutsideWrite(m, h, start, end, start + 4, size);
    OutsideWrite(m6, h, start, end, start + size, size);
    OutsideWrite(m7, h, start, end, start + size + 4, SENTINEL);
    BodiesChain(m, m6, m7, h.blk, 0);
    BodiesChain(m, m7, m', h.blk, 0);
  }

  lemma PoolRing(m: Mem, m1: Mem, m5: Mem, h: Heap, h': Heap, start: int, size: int, last: int)
    requires Framed(h') && RingOk(m, h.head, h.list, Nodes(h)) && (forall f :: f in h.list ==> Free(h.blk, f)) && start !in h.list
    requires h' == WithPool(h, start, size) && last == Rd(m1, h.head + 12)
    requires m1 == m[start := 0] && m5 == m1[start + 8 := h.head][start + 12 := last][h.head + 12 := start][last + 8 := start]
    ensures RingOk(m5, h'.head, h'.list, Nodes(h')) && Rd(m1, last + 8) == h.head && last != start
    ensures last == h.head || (Free(h.blk, last) && Free(h'.blk, last))
  {
    hide Framed, RingOk, Rd;
    var h1 := h'.(list := h.list);
    FramedList(h', h1);
    HeadIsNoBlock(h');
    assert IsHeader(h'.blk, h'.ends, start);
    assert Nodes(h1) == Nodes(h');
    RingMoves(m, h, h1);
    HeaderWrite(m, h1, start, 0, 0, 0);
    AppendRing(m1, h.head, h.list, Nodes(h'), start);
  }

  lemma PoolRingTail(m: Mem, m': Mem, h: Heap, start: int, size: int)
    requires Framed(h) && RingOk(m, h.head, h.list, Nodes(h)) && start in h.blk && start + size in h.ends
    requires m' == m[start + 4 := size][start + size := size][start + size + 4 := SENTINEL]
    ensures RingOk(m', h.head, h.list, Nodes(h))
  {
    hide Framed, RingOk;
    var m6 := m[start + 4 := size];
    var m7 := m6[start + size := size];
    HeaderWrite(m, h, start, 4, size, 0);
    HeaderWrite(m6, h, start + size, 0, size, 0);
    HeaderWrite(m7, h, start + size, 4, SENTINEL, 0);
  }

  lemma PoolCells(m1: Mem, m5: Mem, m': Mem, h': Heap, start: int, size: int, last: int)
    requires Framed(h') && start in h'.blk && start + size in h'.ends && (last == h'.head || Free(h'.blk, last)) && last != start && size >= LEAST
    requires Rd(m1, start) == 0 && m5 == m1[start + 8 := h'.head][start + 12 := last][h'.head + 12 := start][last + 8 := start]
    requires m' == m5[start + 4 := size][start + size := size][start + size + 4 := SENTINEL]
    ensures Rd(m', start) == 0 && Rd(m', start + 4) == size && Rd(m', start + size) == size && Rd(m', start + size + 4) == SENTINEL
  {
    HeaderCell(h', start);
    assert last + 8 != start && h'.head + 12 != start;
  }

  lemma PoolStep(m: Mem, m1: Mem, m5: Mem, m': Mem, h: Heap, h': Heap, start: int, size: int, last: int)
    requires HeapOk(m, h) && start > 0 && start % 4 == 0 && size >= LEAST && size % 4 == 0 && Outside(h, start, start + size + HEAD)
    requires h' == WithPool(h, start, size) && last == Rd(m1, h.head + 12)
    requires m1 == m[start := 0] && m5 == m1[start + 8 := h.head][start + 12 := last][h.head + 12 := start][last + 8 := start]
    requires m' == m5[start + 4 := size][start + size := size][start + size + 4 := SENTINEL]
    ensures HeapOk(m', h') && BodiesKept(m, m', h.blk, 0) && KeepsAllocated(h.blk, h'.blk, 0) && Rd(m1, last + 8) == h.head
  {
    hide Framed, ShapeOk, HeadersOk, RingOk, BodiesKept, KeepsAllocated, Outside, Nodes, Free;
    assert Rd(m1, start) == 0;
    hide Rd;
    PoolShape(h, h', start, size);
    ShapeFramed(h);
    ShapeFramed(h');
    ListedFree(h, start);
    var m3 := m1[start + 8 := h.head][start + 12 := last];
    PoolRing(m, m1, m5, h, h', start, size, last);
    PoolRingTail(m5, m', h', start, size);
    PoolFrameLinks(m, m1, m3, m5, h, start, start + size + HEAD, last);
    PoolFrameTail(m5, m', h, start, size);
    BodiesChain(m, m5, m', h.blk, 0);
    PoolCells(m1, m5, m', h', start, size, last);
    PoolHeadersOk(m', h, h', start, size);
  }

  lemma PoolHeadersOk(m: Mem, h: Heap, h': Heap, start: int, size: int)
    requires Framed(h) && HeadersOk(m, h.blk, h.ends, {}) && start > 0 && size >= LEAST && Outside(h, start, start + size + HEAD)
    requires Rd(m, start) == 0 && Rd(m, start + 4) == size && Rd(m, start + size) == size && Rd(m, start + size + 4) == SENTINEL
    requires h' == WithPool(h, start, size)
    ensures HeadersOk(m, h'.blk, h'.ends, {})
  {
    hide HeadersOk;
    PoolHeaders(m, h.blk, h.ends, start, size);
  }
}
