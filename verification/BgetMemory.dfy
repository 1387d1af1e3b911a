/** How a boundary-tag heap lies in memory: headers, back links and the ring of free blocks. */
module BgetMemory {
  import opened BgetHeap

  /** Memory cells by byte address; a header field is one cell. A block at x has prevfree at
      x and bsize at x + 4. A free one has flink at x + 8 and blink at x + 12. */
  type Mem = map<int, int>

  const SENTINEL: int := -0x8000_0000

  function Rd(m: Mem, a: int): (r: int) {
    if a in m then m[a] else 0
  }

  // Headers

  ghost predicate IsPrev(blk: Blocks, p: int, x: int) {
    Free(blk, p) && p + blk[p] == x
  }

  /** The back link is the size of the free block in front, or 0 if that is not free. */
  ghost predicate PrevOk(m: Mem, blk: Blocks, x: int) {
    && (forall p :: IsPrev(blk, p, x) ==> Rd(m, x) == blk[p])
    && (Rd(m, x) != 0 ==> IsPrev(blk, x - Rd(m, x), x))
  }

  ghost predicate SizesOk(m: Mem, blk: Blocks, ends: set<int>) {
    && (forall b :: b in blk ==> Rd(m, b + 4) == blk[b])
    && (forall e :: e in ends ==> Rd(m, e + 4) == SENTINEL)
  }

  ghost predicate IsHeader(blk: Blocks, ends: set<int>, x: int) {
    x in blk || x in ends
  }

  /** All back links are right except those of the headers in `stale`. */
  ghost predicate LinksBackOk(m: Mem, blk: Blocks, ends: set<int>, stale: set<int>) {
    forall x {:trigger PrevOk(m, blk, x)} :: IsHeader(blk, ends, x) && x !in stale ==> PrevOk(m, blk, x)
  }

  ghost predicate HeadersOk(m: Mem, blk: Blocks, ends: set<int>, stale: set<int>) {
    SizesOk(m, blk, ends) && LinksBackOk(m, blk, ends, stale)
  }

  /** Headers are at least their own length apart. */
  lemma HeadersApart(blk: Blocks, ends: set<int>, x: int, y: int)
    requires Tiles(blk, ends) && IsHeader(blk, ends, x) && IsHeader(blk, ends, y) && x < y
    ensures x + HEAD <= y
  {
    if x in blk { assert BlockOk(blk, ends, x); }
  }

  /** Writing one size field. */
  lemma WriteSize(m: Mem, blk: Blocks, ends: set<int>, b: int, v: int, r: Blocks)
    requires SizesOk(m, blk, ends) && Tiles(blk, ends) && b in blk
    requires r.Keys <= blk.Keys && b in r && r[b] == v && forall c :: c in r && c != b ==> r[c] == blk[c]
    ensures SizesOk(m[b + 4 := v], r, ends)
    ensures forall x :: IsHeader(blk, ends, x) ==> Rd(m[b + 4 := v], x) == Rd(m, x)
  {
    forall x | IsHeader(blk, ends, x) && x != b ensures x + 4 != b + 4 && x != b + 4 {
      if x < b { HeadersApart(blk, ends, x, b); } else { HeadersApart(blk, ends, b, x); }
    }
  }

  /** Writing one back link. */
  lemma WritePrev(m: Mem, blk: Blocks, ends: set<int>, y: int, v: int)
    requires SizesOk(m, blk, ends) && Tiles(blk, ends) && IsHeader(blk, ends, y)
    ensures SizesOk(m[y := v], blk, ends)
    ensures forall x :: IsHeader(blk, ends, x) && x != y ==> Rd(m[y := v], x) == Rd(m, x)
  {
    forall x | x in blk || x in ends ensures x + 4 != y {
      assert IsHeader(blk, ends, x);
      if x < y { HeadersApart(blk, ends, x, y); }
    }
  }

  /** A back link stays right while the free block in front stays the same. */
  lemma PrevSame(m: Mem, m': Mem, blk: Blocks, r: Blocks, x: int)
    requires PrevOk(m, blk, x) && Rd(m', x) == Rd(m, x) && forall p :: IsPrev(r, p, x) <==> IsPrev(blk, p, x)
    ensures PrevOk(m', r, x)
  {}

  lemma JoinPrev(blk: Blocks, b: int, c: int, size: int, x: int, p: int)
    requires JoinOk(blk, b, c, size) && x != c && x != Next(blk, c)
    ensures IsPrev(Join(blk, b, c, size), p, x) <==> IsPrev(blk, p, x)
  {}

  lemma CutPrev(blk: Blocks, b: int, first: int, n: int, x: int, p: int)
    requires Free(blk, b) && CutOk(blk, b, first, -n) && first > 0 && n > 0 && x != b + first && x != Next(blk, b)
    requires b + first !in blk
    ensures IsPrev(Cut(blk, b, first, -n), p, x) <==> IsPrev(blk, p, x)
  {}

  /** The back link behind a block is brought up to date. */
  lemma SetPrev(m: Mem, blk: Blocks, ends: set<int>, b: int)
    requires Tiles(blk, ends) && b in blk && HeadersOk(m, blk, ends, {Next(blk, b)})
    ensures HeadersOk(m[Next(blk, b) := if blk[b] > 0 then blk[b] else 0], blk, ends, {})
  {
    var y, v := Next(blk, b), if blk[b] > 0 then blk[b] else 0;
    assert BlockOk(blk, ends, b);
    WritePrev(m, blk, ends, y, v);
    var m' := m[y := v];
    forall x | IsHeader(blk, ends, x) ensures PrevOk(m', blk, x) {
      if x == y {
        forall p | IsPrev(blk, p, x) ensures p == b && blk[b] > 0 { assert BlockOk(blk, ends, p); }
      } else {
        assert PrevOk(m, blk, x);
      }
    }
  }

  /** Turning a block from free to allocated or back leaves only the next back link stale. */
  lemma FlipHeaders(m: Mem, blk: Blocks, ends: set<int>, b: int)
    requires Tiles(blk, ends) && b in blk && HeadersOk(m, blk, ends, {})
    ensures var r := blk[b := -blk[b]];
            Next(r, b) == Next(blk, b) && HeadersOk(m[b + 4 := -blk[b]], r, ends, {Next(r, b)})
  {
    var r := blk[b := -blk[b]];
    WriteSize(m, blk, ends, b, -blk[b], r);
    var m' := m[b + 4 := -blk[b]];
    hide Tiles, SizesOk;
    forall x | IsHeader(r, ends, x) && x != Next(r, b) ensures PrevOk(m', r, x) {
      assert PrevOk(m, blk, x);
      forall p | IsPrev(r, p, x) ensures IsPrev(blk, p, x) && r[p] == blk[p] {}
    }
  }

  /** Joining two blocks leaves only the back link behind them stale. */
  lemma JoinHeaders(m: Mem, blk: Blocks, ends: set<int>, b: int, c: int, size: int)
    requires Tiles(blk, ends) && JoinOk(blk, b, c, size) && HeadersOk(m, blk, ends, {c})
    ensures var r := Join(blk, b, c, size);
            HeadersOk(m[b + 4 := size], r, ends, {Next(r, b)})
  {
    var r := Join(blk, b, c, size);
    JoinNext(blk, b, c, size);
    WriteSize(m, blk, ends, b, size, r);
    var m' := m[b + 4 := size];
    assert c !in ends && Next(r, b) == Next(blk, c);
    hide Tiles, SizesOk;
    forall x | IsHeader(r, ends, x) && x != Next(r, b) ensures PrevOk(m', r, x) {
      hide PrevOk, IsPrev, JoinOk, Join, Next, Rd;
      assert IsHeader(blk, ends, x) && PrevOk(m, blk, x) && x != c;
      forall p ensures IsPrev(r, p, x) <==> IsPrev(blk, p, x) { JoinPrev(blk, b, c, size, x, p); }
      PrevSame(m, m', blk, r, x);
    }
  }

  /** The three writes that split an allocated block off the end of a free one. */
  lemma CutSizes(m: Mem, blk: Blocks, ends: set<int>, b: int, first: int, n: int)
    requires Tiles(blk, ends) && Free(blk, b) && CutOk(blk, b, first, -n) && first > 0 && n > 0 && HeadersOk(m, blk, ends, {})
    ensures var a := b + first; var m' := m[b + 4 := first][a := first][a + 4 := -n];
            && SizesOk(m', Cut(blk, b, first, -n), ends)
            && forall x :: IsHeader(blk, ends, x) ==> Rd(m', x) == Rd(m, x)
  {
    var a := b + first;
    assert BlockOk(blk, ends, b);
    forall x | x in blk || x in ends ensures x == b || x <= b - 8 || x >= a + 16 {
      assert IsHeader(blk, ends, x);
      if x < b { HeadersApart(blk, ends, x, b); }
    }
  }

  lemma CutHeaders(m: Mem, blk: Blocks, ends: set<int>, b: int, first: int, n: int)
    requires Tiles(blk, ends) && Free(blk, b) && CutOk(blk, b, first, -n) && first > 0 && n > 0 && HeadersOk(m, blk, ends, {})
    ensures var a := b + first; var r := Cut(blk, b, first, -n);
            Next(r, a) == Next(blk, b) && HeadersOk(m[b + 4 := first][a := first][a + 4 := -n], r, ends, {Next(r, a)})
  {
    var a, r := b + first, Cut(blk, b, first, -n);
    var m' := m[b + 4 := first][a := first][a + 4 := -n];
    CutSizes(m, blk, ends, b, first, n);
    CutBlocks(blk, ends, b, first, -n);
    CutAlone(blk, ends, b, first, n, a, r);
    assert Rd(m', a) == first && Next(r, a) == Next(blk, b);
    hide Tiles, SizesOk;
    forall x | IsHeader(r, ends, x) && x != Next(r, a) ensures PrevOk(m', r, x) {
      if x != a {
        assert IsHeader(blk, ends, x) && PrevOk(m, blk, x);
        hide PrevOk, IsPrev, CutOk, Cut, Next, Rd;
        forall p ensures IsPrev(r, p, x) <==> IsPrev(blk, p, x) { CutPrev(blk, b, first, n, x, p); }
        PrevSame(m, m', blk, r, x);
      }
    }
  }

  /** Only the remaining free block ends where it was cut. */
  lemma CutAlone(blk: Blocks, ends: set<int>, b: int, first: int, n: int, a: int, r: Blocks)
    requires Tiles(blk, ends) && Free(blk, b) && CutOk(blk, b, first, -n) && first > 0 && n > 0
    requires a == b + first && r == Cut(blk, b, first, -n)
    ensures a !in ends && forall p :: IsPrev(r, p, a) <==> p == b
  {
    assert BlockOk(blk, ends, b);
  }

  /** The headers of a new pool: one free block and the sentinel. */
  lemma PoolHeaders(m: Mem, blk: Blocks, ends: set<int>, start: int, size: int)
    requires Tiles(blk, ends) && HeadersOk(m, blk, ends, {}) && start > 0 && size >= LEAST
    requires forall b :: b in blk ==> b >= start + size + HEAD || Next(blk, b) <= start
    requires forall e :: e in ends ==> e >= start + size + HEAD || e + HEAD <= start
    requires Rd(m, start) == 0 && Rd(m, start + 4) == size && Rd(m, start + size) == size && Rd(m, start + size + 4) == SENTINEL
    ensures HeadersOk(m, blk[start := size], ends + {start + size}, {})
  {
    var r, ends' := blk[start := size], ends + {start + size};
    forall c | c in blk ensures c != start && c < Next(blk, c) && c != start + size { assert BlockOk(blk, ends, c); }
    assert SizesOk(m, r, ends');
    hide SizesOk;
    forall x | IsHeader(r, ends', x) ensures PrevOk(m, r, x) {
      if IsHeader(blk, ends, x) {
        assert PrevOk(m, blk, x);
        forall p ensures IsPrev(r, p, x) <==> IsPrev(blk, p, x) {}
        hide PrevOk, IsPrev, Rd;
        PrevSame(m, m, blk, r, x);
      } else if x == start {
        forall p ensures !IsPrev(r, p, x) { assert p in blk ==> BlockOk(blk, ends, p); }
      } else {
        forall p | IsPrev(r, p, x) ensures p == start {}
      }
    }
  }

  // The ring of free blocks

  /** The list head, the free blocks in order, and the head again. */
  ghost function Ring(head: int, list: seq<int>): (r: seq<int>) {
    [head] + list + [head]
  }

  ghost predicate LinkAt(m: Mem, a: int, b: int) {
    Rd(m, a + 8) == b && Rd(m, b + 12) == a
  }

  ghost predicate LinkStep(m: Mem, ring: seq<int>, i: int)
    requires 0 <= i < |ring| - 1
  {
    LinkAt(m, ring[i], ring[i + 1])
  }

  ghost predicate Linked(m: Mem, ring: seq<int>) {
    forall i {:trigger LinkStep(m, ring, i)} :: 0 <= i < |ring| - 1 ==> LinkStep(m, ring, i)
  }

  /** Nodes are far enough apart to hold a header and links. */
  ghost predicate Spaced(nodes: set<int>) {
    forall x, y :: x in nodes && y in nodes && x < y ==> x + LEAST <= y
  }

  ghost predicate Unique(list: seq<int>) {
    forall i, j :: 0 <= i < j < |list| ==> list[i] != list[j]
  }

  ghost predicate RingOk(m: Mem, head: int, list: seq<int>, nodes: set<int>) {
    && Linked(m, Ring(head, list)) && Unique(list) && Spaced(nodes)
    && head in nodes && head !in list && forall i :: 0 <= i < |list| ==> list[i] in nodes
  }

  function Without(list: seq<int>, i: nat): (r: seq<int>)
    requires i < |list|
    ensures |r| == |list| - 1
  {
    list[..i] + list[i + 1..]
  }

  lemma RingNodes(m: Mem, head: int, list: seq<int>, nodes: set<int>)
    requires RingOk(m, head, list, nodes)
    ensures var ring := Ring(head, list);
            && (forall k :: 0 <= k < |ring| ==> ring[k] in nodes && (ring[k] == head || ring[k] in list))
            && (forall j, k :: 0 <= j < k < |ring| && !(j == 0 && k == |list| + 1) ==> ring[j] != ring[k])
  {}

  /** Links of distinct nodes are distinct cells. */
  lemma LinkKept(m: Mem, nodes: set<int>, a: int, c: int, x: int, y: int)
    requires Spaced(nodes) && a in nodes && c in nodes && x in nodes && y in nodes
    requires LinkAt(m, x, y) && x != a && y != c
    ensures LinkAt(m[a + 8 := c][c + 12 := a], x, y)
  {}

  /** Dechaining a node. */
  lemma UnlinkRing(m: Mem, head: int, list: seq<int>, nodes: set<int>, i: nat)
    requires RingOk(m, head, list, nodes) && i < |list|
    ensures var a, c := Rd(m, list[i] + 12), Rd(m, list[i] + 8);
            && a in nodes && c in nodes && Rd(m, a + 8) == list[i] && Rd(m, c + 12) == list[i]
            && (a == head || a in list) && (c == head || c in list) && a != list[i] && c != list[i]
            && RingOk(m[a + 8 := c][c + 12 := a], head, Without(list, i), nodes)
  {
    var ring := Ring(head, list);
    RingNodes(m, head, list, nodes);
    var a, c := ring[i], ring[i + 2];
    assert ring[i + 1] == list[i] && LinkStep(m, ring, i) && LinkStep(m, ring, i + 1);
    UnlinkedRing(m, ring, nodes, i, a, c);
    assert Ring(head, Without(list, i)) == ring[..i + 1] + ring[i + 2..];
  }

  lemma UnlinkedRing(m: Mem, ring: seq<int>, nodes: set<int>, i: nat, a: int, c: int)
    requires i + 2 < |ring| && Linked(m, ring) && Spaced(nodes) && a == ring[i] && c == ring[i + 2]
    requires forall k :: 0 <= k < |ring| ==> ring[k] in nodes
    requires forall j, k :: 0 <= j < k < |ring| && !(j == 0 && k == |ring| - 1) ==> ring[j] != ring[k]
    ensures Linked(m[a + 8 := c][c + 12 := a], ring[..i + 1] + ring[i + 2..])
  {
    var m', ring' := m[a + 8 := c][c + 12 := a], ring[..i + 1] + ring[i + 2..];
    forall k | 0 <= k < |ring'| - 1 ensures LinkStep(m', ring', k) {
      if k < i {
        assert LinkStep(m, ring, k);
        LinkKept(m, nodes, a, c, ring[k], ring[k + 1]);
      } else if k > i {
        assert LinkStep(m, ring, k + 1);
        LinkKept(m, nodes, a, c, ring[k + 1], ring[k + 2]);
      } else {
        assert a in nodes && c in nodes;
      }
    }
  }

  /** Chaining a node at the end of the list. */
  lemma AppendRing(m: Mem, head: int, list: seq<int>, nodes: set<int>, b: int)
    requires RingOk(m, head, list, nodes) && b in nodes && b != head && b !in list
    ensures var last := Rd(m, head + 12);
            && last in nodes && (last == head || last in list) && last != b && Rd(m, last + 8) == head
            && RingOk(m[b + 8 := head][b + 12 := last][head + 12 := b][last + 8 := b], head, list + [b], nodes)
  {
    var ring, n := Ring(head, list), |list|;
    RingNodes(m, head, list, nodes);
    var last := ring[n];
    assert LinkStep(m, ring, n) && ring[n + 1] == head;
    AppendedRing(m, ring, nodes, b, head, last);
    hide Linked, LinkAt, Spaced, Rd;
    assert Ring(head, list + [b]) == ring[..n + 1] + [b, head];
    assert Unique(list + [b]) && head !in list + [b];
  }

  lemma AppendedRing(m: Mem, ring: seq<int>, nodes: set<int>, b: int, head: int, last: int)
    requires |ring| >= 2 && Linked(m, ring) && Spaced(nodes) && ring[0] == head == ring[|ring| - 1] && last == ring[|ring| - 2]
    requires b in nodes && forall k :: 0 <= k < |ring| ==> ring[k] in nodes && ring[k] != b
    requires forall j, k :: 0 <= j < k < |ring| && !(j == 0 && k == |ring| - 1) ==> ring[j] != ring[k]
    ensures Linked(m[b + 8 := head][b + 12 := last][head + 12 := b][last + 8 := b], ring[..|ring| - 1] + [b, head])
  {
    var m' := m[b + 8 := head][b + 12 := last][head + 12 := b][last + 8 := b];
    var n := |ring| - 2;
    var ring' := ring[..n + 1] + [b, head];
    forall k | 0 <= k < |ring'| - 1 ensures LinkStep(m', ring', k) {
      if k < n {
        assert LinkStep(m, ring, k) && ring[k] != last && ring[k + 1] != head;
        AppendKept(m, nodes, head, last, b, ring[k], ring[k + 1]);
      }
    }
  }

  lemma AppendKept(m: Mem, nodes: set<int>, head: int, last: int, b: int, x: int, y: int)
    requires Spaced(nodes) && head in nodes && last in nodes && b in nodes && x in nodes && y in nodes
    requires LinkAt(m, x, y) && x != last && x != b && y != head && y != b
    ensures LinkAt(m[b + 8 := head][b + 12 := last][head + 12 := b][last + 8 := b], x, y)
  {}

  /** A write outside the link cells of the listed nodes leaves the ring alone. */
  lemma RingSame(m: Mem, m': Mem, head: int, list: seq<int>, nodes: set<int>)
    requires RingOk(m, head, list, nodes)
    requires forall x :: x == head || x in list ==> Rd(m', x + 8) == Rd(m, x + 8) && Rd(m', x + 12) == Rd(m, x + 12)
    ensures RingOk(m', head, list, nodes)
  {
    var ring := Ring(head, list);
    RingNodes(m, head, list, nodes);
    forall k | 0 <= k < |ring| - 1 ensures LinkStep(m', ring, k) {
      assert LinkStep(m, ring, k);
      assert (ring[k] == head || ring[k] in list) && (ring[k + 1] == head || ring[k + 1] in list);
    }
  }
}
