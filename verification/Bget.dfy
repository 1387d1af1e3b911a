/** The BGET heap: best-fit allocation, release with consolidation, and pools. */
module Bget {
  import opened BgetHeap
  import opened BgetMemory
  import opened BgetState

  /** The block size for a request: room for the queue links, rounded up to the quantum
      of 4, and the header. */
  function Need(requested: int): (r: int)
    requires requested > 0
    ensures r % 4 == 0 && r >= LEAST && r - HEAD >= requested
    ensures r == LEAST || r - HEAD < requested + 4
  {
    var size := if requested < 8 then 8 else requested;
    (size + 3) / 4 * 4 + HEAD
  }

  const LONG_MAX: int := 0x7fff_ffff

  /** The greatest request for which the block size can be computed: 2^31 - 12. */
  const LARGEST: int := 0x7fff_fff4

  /** A 32-bit signed word. */
  function Wrap(x: int): (r: int) {
    (x + 0x8000_0000) % 0x1_0000_0000 - 0x8000_0000
  }

  /** The block size as the machine computes it. */
  function MachineNeed(requested: int): (r: int)
    requires 0 < requested <= LONG_MAX
  {
    var size := if requested < 8 then 8 else requested;
    Wrap(Wrap(size + 3) / 4 * 4 + HEAD)
  }

  /** The machine's block size is right exactly up to the greatest request. Beyond it the size
      is negative, and every free block passes for large enough. */
  lemma MachineNeedIs(requested: int, blk: Blocks)
    requires 0 < requested <= LONG_MAX
    ensures MachineNeed(requested) == Need(requested) <==> requested <= LARGEST
    ensures requested > LARGEST ==> MachineNeed(requested) < 0 && forall b :: Free(blk, b) ==> blk[b] >= MachineNeed(requested)
  {
    var size := if requested < 8 then 8 else requested;
    if size + 3 <= LONG_MAX {
      assert Wrap(size + 3) == size + 3;
    } else {
      assert Wrap(size + 3) == size + 3 - 0x1_0000_0000;
    }
  }

  /** A free block of 24 bytes is given out for a request of almost 2^31 bytes. */
  lemma MachineNeedExample()
    ensures MachineNeed(LARGEST + 1) < 24 < LARGEST + 1
  {}

  ghost predicate IsBestFit(blk: Blocks, b: int, need: int) {
    Free(blk, b) && blk[b] >= need && forall c :: Free(blk, c) && blk[c] >= need ==> blk[b] <= blk[c]
  }

  /** Block a was cut from the end of a best-fitting block, or is that whole block. */
  ghost predicate Got(was: Blocks, now: Blocks, need: int, a: int) {
    exists b :: IsBestFit(was, b, need) &&
      if was[b] - need > LEAST then a == b + was[b] - need && now == Cut(was, b, was[b] - need, -need)
      else a == b && now == was[b := -was[b]]
  }

  lemma RingStep(m: Mem, h: Heap, i: nat)
    requires HeapOk(m, h) && i <= |h.list|
    ensures Rd(m, Ring(h.head, h.list)[i] + 8) == Ring(h.head, h.list)[i + 1]
    ensures i < |h.list| ==> Free(h.blk, h.list[i]) && Rd(m, h.list[i] + 4) == h.blk[h.list[i]] && h.list[i] != h.head
  {
    assert LinkStep(m, Ring(h.head, h.list), i);
  }

  /** What the headers around a block say. */
  lemma BlockCells(m: Mem, h: Heap, b: int)
    requires HeapOk(m, h) && b in h.blk
    ensures Rd(m, b + 4) == h.blk[b] && b > 0 && Abs(h.blk[b]) >= LEAST && h.blk[b] != 0
    ensures Free(h.blk, b) ==> Rd(m, b + h.blk[b]) == h.blk[b] && b in h.list
    ensures Allocated(h.blk, b) ==> Rd(m, b - h.blk[b]) == 0
    ensures Rd(m, b) != 0 ==> IsPrev(h.blk, b - Rd(m, b), b) && Rd(m, b - Rd(m, b) + 4) == Rd(m, b)
    ensures Rd(m, b) == 0 ==> forall p :: !IsPrev(h.blk, p, b)
  {
    hide RingOk;
    assert BlockOk(h.blk, h.ends, b);
    var x := Next(h.blk, b);
    assert IsHeader(h.blk, h.ends, x) && PrevOk(m, h.blk, x) && PrevOk(m, h.blk, b);
    assert IsPrev(h.blk, b, x) <==> Free(h.blk, b);
    hide Coalesced, ListsFree;
    assert forall p :: IsPrev(h.blk, p, x) ==> BlockOk(h.blk, h.ends, p);
    assert forall p :: IsPrev(h.blk, p, b) ==> BlockOk(h.blk, h.ends, p);
  }

  class Allocator {
    /** The address of the list head. */
    const head: int
    var mem: Mem
    /** The blocks, sentinels and pools that memory represents. */
    ghost var h: Heap

    ghost predicate Valid()
      reads this
    {
      HeapOk(mem, h) && h.head == head
    }

    constructor (head: int)
      ensures Valid() && this.head == head && h == Heap(map[], {}, {}, head, [])
    {
      this.head := head;
      mem := map[head + 8 := head, head + 12 := head];
      h := Heap(map[], {}, {}, head, []);
      new;
      var ring := Ring(head, []);
      assert LinkStep(mem, ring, 0);
    }

    /** The scan for a smallest block that is large enough, the first of them in the ring; the
        list head if there is none. */
    method FindBest(size: int) returns (best: int, ghost at: nat)
      requires Valid()
      ensures best == head ==> forall b :: Free(h.blk, b) ==> h.blk[b] < size
      ensures best != head ==> IsBestFit(h.blk, best, size)
      ensures best != head ==> at < |h.list| && h.list[at] == best && forall k :: 0 <= k < at ==>
                h.list[k] in h.blk && !(size <= h.blk[h.list[k]] <= h.blk[best])
    {
      hide HeapOk;
      ghost var ring, list := Ring(head, h.list), h.list;
      RingStep(mem, h, 0);
      var b := Rd(mem, head + 8);
      best, at := head, 0;
      ghost var i: nat := 0;
      while b != head
        invariant i <= |list| && b == ring[i + 1]
        invariant best == head ==> forall k :: 0 <= k < i ==> Free(h.blk, list[k]) && h.blk[list[k]] < size
        invariant best != head ==> Free(h.blk, best) && h.blk[best] >= size
        invariant best != head ==> Rd(mem, best + 4) == h.blk[best]
        invariant best != head ==> forall k :: 0 <= k < i ==> Free(h.blk, list[k]) && (h.blk[list[k]] >= size ==> h.blk[best] <= h.blk[list[k]])
        invariant best != head ==> at < i && list[at] == best && forall k :: 0 <= k < at ==>
                    list[k] in h.blk && !(size <= h.blk[list[k]] <= h.blk[best])
        decreases |list| - i
      {
        RingStep(mem, h, i);
        RingStep(mem, h, i + 1);
        if Rd(mem, b + 4) >= size {
          if best == head || Rd(mem, b + 4) < Rd(mem, best + 4) { best, at := b, i; }
        }
        b := Rd(mem, b + 8);
        i := i + 1;
      }
      if i < |list| { RingStep(mem, h, i); }
      AllListed(mem, h);
    }

    /** bget; 0 is the null pointer. Beyond the greatest request the size overflows; the model
        stops there. */
    method Get(requested: int) returns (buf: int, overflow: bool)
      requires Valid() && 0 < requested <= LONG_MAX
      modifies this
      ensures Valid() && h.ends == old(h.ends) && h.pools == old(h.pools)
      ensures overflow <==> requested > LARGEST
      ensures overflow ==> buf == 0
      ensures !overflow ==> (buf == 0 <==> forall b :: Free(old(h.blk), b) ==> old(h.blk)[b] < Need(requested))
      ensures buf == 0 ==> mem == old(mem) && h == old(h)
      ensures buf != 0 ==> Allocated(h.blk, buf - HEAD) && -h.blk[buf - HEAD] >= Need(requested)
      ensures buf != 0 ==> Got(old(h.blk), h.blk, Need(requested), buf - HEAD)
      ensures buf != 0 ==> buf - HEAD !in old(h.blk) || Free(old(h.blk), buf - HEAD)
      ensures BodiesKept(old(mem), mem, old(h.blk), 0) && KeepsAllocated(old(h.blk), h.blk, 0)
    {
      MachineNeedIs(requested, h.blk);
      var size := MachineNeed(requested);
      overflow := size < 0;
      if !overflow { NeedPositive(requested); }
      hide *;
      if overflow {
        Unchanged(mem, h.blk);
        return 0, true;
      }
      var b, _ := FindBest(size);
      if b == head {
        Unchanged(mem, h.blk);
        return 0, false;
      }
      buf := Allocate(b, size);
    }

    /** The allocation of the best-fitting block b. */
    method Allocate(b: int, size: int) returns (buf: int)
      requires Valid() && IsBestFit(h.blk, b, size) && size >= LEAST && size % 4 == 0
      modifies this
      ensures Valid() && h.ends == old(h.ends) && h.pools == old(h.pools)
      ensures buf > 0 && Allocated(h.blk, buf - HEAD) && -h.blk[buf - HEAD] >= size && Got(old(h.blk), h.blk, size, buf - HEAD)
      ensures buf - HEAD !in old(h.blk) || Free(old(h.blk), buf - HEAD)
      ensures BodiesKept(old(mem), mem, old(h.blk), 0) && KeepsAllocated(old(h.blk), h.blk, 0)
    {
      hide HeapOk, BodiesKept, KeepsAllocated, Rd, IsPrev;
      BlockCells(mem, h, b);
      if Rd(mem, b + 4) - size > LEAST {
        buf := AllocateEnd(b, size);
      } else {
        buf := AllocateWhole(b);
      }
    }

    method AllocateEnd(b: int, size: int) returns (buf: int)
      requires Valid() && Free(h.blk, b) && size >= LEAST && size % 4 == 0 && h.blk[b] - size > LEAST
      modifies this
      ensures Valid() && h.ends == old(h.ends) && h.pools == old(h.pools)
      ensures buf == b + (old(h.blk)[b] - size) + HEAD > 0 && buf - HEAD !in old(h.blk)
      ensures h.blk == Cut(old(h.blk), b, old(h.blk)[b] - size, -size) && Allocated(h.blk, buf - HEAD)
      ensures BodiesKept(old(mem), mem, old(h.blk), 0) && KeepsAllocated(old(h.blk), h.blk, 0)
    {
      hide HeapOk, BodiesKept, KeepsAllocated, Rd, IsPrev;
      BlockCells(mem, h, b);
      ghost var m, g := mem, h;
      var bsize := Rd(mem, b + 4);
      var ba := b + (bsize - size);
      var bn := ba + size;
      assert Rd(mem, bn) == bsize;
      mem := mem[b + 4 := bsize - size];
      mem := mem[ba := bsize - size];
      mem := mem[ba + 4 := -size];
      mem := mem[bn := 0];
      h := h.(blk := Cut(h.blk, b, bsize - size, -size));
      SplitStep(m, mem, g, h, b, bsize - size, size);
      CutFresh(m, g, b, bsize - size, size);
      buf := ba + HEAD;
    }

    method AllocateWhole(b: int) returns (buf: int)
      requires Valid() && Free(h.blk, b)
      modifies this
      ensures Valid() && h.ends == old(h.ends) && h.pools == old(h.pools)
      ensures buf == b + HEAD > 0 && h.blk == old(h.blk)[b := -old(h.blk)[b]]
      ensures BodiesKept(old(mem), mem, old(h.blk), 0) && KeepsAllocated(old(h.blk), h.blk, 0)
    {
      hide HeapOk, BodiesKept, KeepsAllocated, IsPrev;
      BlockCells(mem, h, b);
      ghost var m, g := mem, h;
      ghost var i: nat :| i < |h.list| && h.list[i] == b;
      ghost var a, c := Rd(mem, b + 12), Rd(mem, b + 8);
      WholeMemory(mem, h);
      Dechained(mem, h, i, a, c, {});
      var bsize := Rd(mem, b + 4);
      var ba := b + bsize;
      assert Rd(mem, ba) == bsize;
      Dechain(b, i);
      mem := mem[b + 4 := -bsize];
      mem := mem[ba := 0];
      h := h.(blk := h.blk[b := -h.blk[b]], list := Without(h.list, i));
      TakeStep(m, mem, g, h, b, i, a, c);
      buf := b + HEAD;
    }

    /** The removal of a block from the list, with the checks of both neighbours' links. */
    method Dechain(b: int, ghost i: nat)
      requires i < |h.list| && h.list[i] == b && Linking(mem, b)
      modifies this`mem
      ensures mem == old(mem)[old(Rd(mem, b + 12)) + 8 := old(Rd(mem, b + 8))][old(Rd(mem, b + 8)) + 12 := old(Rd(mem, b + 12))]
    {
      assert Rd(mem, Rd(mem, b + 12) + 8) == b;
      assert Rd(mem, Rd(mem, b + 8) + 12) == b;
      mem := mem[Rd(mem, b + 12) + 8 := Rd(mem, b + 8)];
      mem := mem[Rd(mem, b + 8) + 12 := Rd(mem, b + 12)];
    }

    /** brel. */
    method Release(buf: int)
      requires Valid() && Allocated(h.blk, buf - HEAD)
      modifies this
      ensures Valid() && h.ends == old(h.ends) && h.pools == old(h.pools)
      ensures Frees(old(h.blk), h.blk, buf - HEAD)
      ensures BodiesKept(old(mem), mem, old(h.blk), buf - HEAD)
    {
      hide HeapOk, HalfShape, MemoryOk, BodiesKept, Frees, Rd, Next;
      var b := MakeFree(buf - HEAD);
      ghost var m, blk := mem, h.blk;
      ghost var q := Consolidate(b, buf - HEAD);
      FreesChain(old(h.blk), blk, h.blk, buf - HEAD, q);
      BodiesLater(old(mem), m, mem, old(h.blk), blk, buf - HEAD, buf - HEAD);
    }

    /** The released block joins the free block in front of it, or the list. */
    method MakeFree(b: int) returns (p: int)
      requires Valid() && Allocated(h.blk, b)
      modifies this
      ensures HalfShape(h, p) && p in h.blk && MemoryOk(mem, h, {Next(h.blk, p)}) && h.head == head
      ensures h.ends == old(h.ends) && h.pools == old(h.pools) && Frees(old(h.blk), h.blk, b)
      ensures BodiesKept(old(mem), mem, old(h.blk), b)
    {
      hide HeapOk, HalfShape, MemoryOk, BodiesKept, Frees, Rd, IsPrev, Next;
      BlockCells(mem, h, b);
      ghost var m, g := mem, h;
      var size := Rd(mem, b + 4);
      assert size < 0 && Rd(mem, b - size) == 0;
      if Rd(mem, b) != 0 {
        p := b - Rd(mem, b);
        assert Rd(mem, p + 4) == Rd(mem, b);
        PrevIsBlock(h.blk, p, b);
        mem := mem[p + 4 := Rd(mem, p + 4) - size];
        h := h.(blk := Join(h.blk, p, b, h.blk[p] - size));
        MergeBack(m, mem, g, h, p, b);
      } else {
        Chain(b);
        ghost var m1 := mem;
        mem := mem[b + 4 := -size];
        h := h.(blk := h.blk[b := -size], list := h.list + [b]);
        FreeAlone(m, m1, mem, g, h, b, Rd(m, head + 12));
        p := b;
      }
    }

    /** A block is put at the end of the list. */
    method Chain(b: int)
      requires Valid() && Allocated(h.blk, b)
      modifies this`mem
      ensures var m, last := old(mem), old(Rd(mem, head + 12));
              mem == m[b + 8 := head][b + 12 := last][head + 12 := b][last + 8 := b]
    {
      hide HeapOk;
      HeadLinks(mem, h, b);
      assert Rd(mem, Rd(mem, head + 12) + 8) == head;
      assert Rd(mem, Rd(mem, head + 8) + 12) == head;
      ChainAt(b);
    }

    /** The free block p takes in the block behind it, if that is free, and the header
        behind them gets its back link. */
    method Consolidate(p: int, ghost but: int) returns (ghost q: int)
      requires HalfShape(h, p) && p in h.blk && MemoryOk(mem, h, {Next(h.blk, p)}) && h.head == head
      modifies this
      ensures Valid() && h.ends == old(h.ends) && h.pools == old(h.pools)
      ensures Frees(old(h.blk), h.blk, q) && !Allocated(old(h.blk), q) && BodiesKept(old(mem), mem, old(h.blk), but)
    {
      hide HeapOk, HalfShape, MemoryOk, BodiesKept, Frees, Rd, Next;
      HalfCells(mem, h, p);
      ghost var m, g := mem, h;
      var bn := p + Rd(mem, p + 4);
      if Rd(mem, bn + 4) > 0 {
        q := bn;
        assert Rd(mem, bn + Rd(mem, bn + 4)) == Rd(mem, bn + 4);
        ghost var i: nat :| i < |h.list| && h.list[i] == bn;
        ghost var a, c := Rd(mem, bn + 12), Rd(mem, bn + 8);
        Dechained(mem, h, i, a, c, {bn});
        var size := Rd(mem, bn + 4);
        Dechain(bn, i);
        ghost var m1 := mem;
        StillSized(m, m1, h, p, i, a, c);
        mem := mem[p + 4 := Rd(mem, p + 4) + size];
        h := h.(blk := Join(h.blk, p, bn, h.blk[p] + h.blk[bn]), list := Without(h.list, i));
        MergeForward(m, m1, mem, g, h, p, bn, i, a, c, but);
        JoinedFree(g.blk, p, bn);
        WholeCells(mem, h, p);
        bn := p + Rd(mem, p + 4);
      } else {
        q := p;
        FreesNone(h.blk, p);
        HalfIsWhole(h, p);
        WholeCells(mem, h, p);
        NothingWritten(mem, h.blk, but);
      }
      assert Rd(mem, bn + 4) < 0;
      ghost var m2 := mem;
      mem := mem[bn := Rd(mem, p + 4)];
      FinishMemory(m2, mem, h, p, but);
      BodiesLater(m, m2, mem, g.blk, h.blk, but, q);
    }

    /** bpool: a new pool, all of it one free block up to the sentinel. */
    method AddPool(start: int, len: int)
      requires Valid() && start > 0 && start % 4 == 0 && len / 4 * 4 - HEAD >= LEAST && len <= 0x7fff_ffff
      requires Outside(h, start, start + len / 4 * 4)
      modifies this
      ensures Valid() && h == WithPool(old(h), start, len / 4 * 4 - HEAD)
      ensures BodiesKept(old(mem), mem, old(h.blk), 0)
    {
      hide HeapOk, BodiesKept, Rd, Outside;
      ghost var m, g := mem, h;
      var size := len / 4 * 4 - HEAD;
      assert size <= -(SENTINEL + 1);
      mem := mem[start := 0];
      ghost var m1, last := mem, Rd(mem, head + 12);
      ghost var m5 := m1[start + 8 := head][start + 12 := last][head + 12 := start][last + 8 := start];
      ghost var m' := m5[start + 4 := size][start + size := size][start + size + 4 := SENTINEL];
      h := WithPool(h, start, size);
      PoolStep(m, m1, m5, m', g, h, start, size, last);
      PoolApart(m, g, m1, start, start + size + HEAD);
      assert Rd(mem, Rd(mem, head + 12) + 8) == head;
      assert Rd(mem, Rd(mem, head + 8) + 12) == head;
      ChainAt(start);
      mem := mem[start + 4 := size];
      var bn := start + size;
      mem := mem[bn := size];
      mem := mem[bn + 4 := SENTINEL];
    }

    /** The four link writes for a block at the end of the list. */
    method ChainAt(b: int)
      requires head + LEAST <= b || b + LEAST <= head
      modifies this`mem
      ensures var m, last := old(mem), old(Rd(mem, head + 12));
              mem == m[b + 8 := head][b + 12 := last][head + 12 := b][last + 8 := b]
    {
      mem := mem[b + 8 := head];
      mem := mem[b + 12 := Rd(mem, head + 12)];
      mem := mem[head + 12 := b];
      mem := mem[Rd(mem, b + 12) + 8 := b];
    }

    /** The owner of an allocated block writes into it. */
    method OwnerWrites(b: int, x: int, v: int)
      requires Valid() && Allocated(h.blk, b) && b + HEAD <= x < Next(h.blk, b)
      modifies this`mem
      ensures Valid() && mem == old(mem)[x := v] && BodiesKept(old(mem), mem, h.blk, b)
    {
      hide HeapOk, BodiesKept;
      BodyWrite(mem, h, b, x, v);
      mem := mem[x := v];
    }

    /** memcpy from one allocated block into another. */
    method Copy(to: int, from: int, n: nat)
      requires Valid() && Allocated(h.blk, to - HEAD) && Allocated(h.blk, from - HEAD) && to != from
      requires n <= -h.blk[to - HEAD] - HEAD && n <= -h.blk[from - HEAD] - HEAD
      modifies this`mem
      ensures Valid() && BodiesKept(old(mem), mem, h.blk, to - HEAD)
      ensures forall k :: to <= k < to + n ==> Rd(mem, k) == Rd(old(mem), from + (k - to))
    {
      hide HeapOk, BodiesKept, Rd;
      NothingWritten(mem, h.blk, to - HEAD);
      for i := 0 to n
        invariant Valid() && h == old(h) && BodiesKept(old(mem), mem, h.blk, to - HEAD)
        invariant forall k :: to <= k < to + i ==> Rd(mem, k) == Rd(old(mem), from + (k - to))
      {
        ghost var m := mem;
        BodyCell(old(mem), mem, h.blk, to - HEAD, from - HEAD, from + i);
        OwnerWrites(to - HEAD, to + i, Rd(mem, from + i));
        BodiesChain(old(mem), m, mem, h.blk, to - HEAD);
        forall k | to <= k < to + i + 1 ensures Rd(mem, k) == Rd(old(mem), from + (k - to)) {
          Written(m, to + i, Rd(m, from + i), k);
        }
      }
    }

    /** bgetr. */
    method Resize(buf: int, size: int) returns (nbuf: int, overflow: bool)
      requires Valid() && 0 < size <= LONG_MAX && (buf == 0 || Allocated(h.blk, buf - HEAD))
      modifies this
      ensures Valid() && (overflow <==> size > LARGEST) && (overflow ==> nbuf == 0)
      ensures !overflow ==> (nbuf == 0 <==> forall b :: Free(old(h.blk), b) ==> old(h.blk)[b] < Need(size))
      ensures nbuf == 0 ==> mem == old(mem) && h == old(h)
      ensures nbuf != 0 ==> Allocated(h.blk, nbuf - HEAD) && -h.blk[nbuf - HEAD] - HEAD >= size
      ensures nbuf != 0 && buf != 0 ==> !Allocated(h.blk, buf - HEAD) && BodiesKept(old(mem), mem, old(h.blk), buf - HEAD)
      ensures nbuf != 0 && buf != 0 ==> forall k :: nbuf <= k < nbuf + size && k - nbuf < -old(h.blk)[buf - HEAD] - HEAD ==>
                Rd(mem, k) == Rd(old(mem), buf + (k - nbuf))
    {
      hide HeapOk, BodiesKept, Rd, Got, KeepsAllocated, Frees, Next;
      ghost var m0, blk0 := mem, h.blk;
      nbuf, overflow := Get(size);
      if nbuf == 0 || buf == 0 { return; }
      StillAllocated(m0, old(h), h.blk, buf - HEAD);
      BlockCells(mem, h, buf - HEAD);
      var osize := -Rd(mem, buf - HEAD + 4) - HEAD;
      assert osize > 0;
      ghost var m1, blk1 := mem, h.blk;
      var n := if size < osize then size else osize;
      Copy(nbuf, buf, n);
      ghost var m2 := mem;
      Release(buf);
      CopiedBodies(m0, m1, m2, mem, blk0, blk1, h.blk, nbuf, buf, n);
    }
  }

  lemma NeedPositive(requested: int)
    requires requested > 0
    ensures Need(requested) % 4 == 0 && Need(requested) >= LEAST
  {}

  lemma PoolApart(m: Mem, h: Heap, m1: Mem, start: int, end: int)
    requires HeapOk(m, h) && Outside(h, start, end) && start + LEAST <= end && m1 == m[start := 0]
    ensures h.head + LEAST <= start || start + LEAST <= h.head
    ensures Rd(m1, Rd(m1, h.head + 8) + 12) == h.head
  {
    var ring := Ring(h.head, h.list);
    assert LinkStep(m, ring, 0);
    assert |h.list| > 0 ==> h.list[0] in h.blk && BlockOk(h.blk, h.ends, h.list[0]);
  }

  /** A write into an allocated body touches neither header nor link. */
  lemma BodyWrite(m: Mem, h: Heap, b: int, x: int, v: int)
    requires HeapOk(m, h) && Allocated(h.blk, b) && b + HEAD <= x < Next(h.blk, b)
    ensures HeapOk(m[x := v], h) && BodiesKept(m, m[x := v], h.blk, b)
  {
    forall y | IsHeader(h.blk, h.ends, y) ensures y != x && y + 4 != x { HeaderCell(h, y); }
    forall f | f == h.head || f in h.list ensures f + 8 != x && f + 12 != x {
      assert f in h.list ==> Free(h.blk, f);
      LinkCell(h, f);
    }
    BodyAlone(m, h, b, x, v);
    hide Framed, HeadersOk, RingOk, BodiesKept;
    HeadersSame(m, m[x := v], h.blk, h.ends, {});
    RingSame(m, m[x := v], h.head, h.list, Nodes(h));
  }

  lemma BodyAlone(m: Mem, h: Heap, b: int, x: int, v: int)
    requires Framed(h) && b in h.blk && b + HEAD <= x < Next(h.blk, b)
    ensures BodiesKept(m, m[x := v], h.blk, b)
  {}

  lemma BodyCell(m: Mem, m': Mem, blk: Blocks, but: int, c: int, x: int)
    requires BodiesKept(m, m', blk, but) && Allocated(blk, c) && c != but && c + HEAD <= x < Next(blk, c)
    ensures Rd(m', x) == Rd(m, x)
  {}

  lemma Written(m: Mem, x: int, v: int, y: int)
    ensures Rd(m[x := v], y) == if y == x then v else Rd(m, y)
  {}

  lemma StillAllocated(m: Mem, h: Heap, now: Blocks, b: int)
    requires HeapOk(m, h) && Allocated(h.blk, b) && KeepsAllocated(h.blk, now, 0)
    ensures Allocated(now, b) && now[b] == h.blk[b] && 0 !in h.blk
  {
    hide MemoryOk;
    assert BlockOk(h.blk, h.ends, b);
    assert 0 in h.blk ==> BlockOk(h.blk, h.ends, 0);
  }

  /** What bgetr's three parts together keep. */
  lemma CopiedBodies(m0: Mem, m1: Mem, m2: Mem, m3: Mem, blk0: Blocks, blk1: Blocks, blk2: Blocks, nbuf: int, buf: int, n: nat)
    requires BodiesKept(m0, m1, blk0, 0) && BodiesKept(m1, m2, blk1, nbuf - HEAD) && BodiesKept(m2, m3, blk1, buf - HEAD)
    requires KeepsAllocated(blk0, blk1, 0) && Frees(blk1, blk2, buf - HEAD) && nbuf != buf && 0 !in blk0
    requires Allocated(blk1, nbuf - HEAD) && !Allocated(blk0, nbuf - HEAD) && Allocated(blk0, buf - HEAD)
    requires n <= -blk1[nbuf - HEAD] - HEAD && n <= -blk0[buf - HEAD] - HEAD
    requires forall k :: nbuf <= k < nbuf + n ==> Rd(m2, k) == Rd(m1, buf + (k - nbuf))
    ensures BodiesKept(m0, m3, blk0, buf - HEAD) && !Allocated(blk2, buf - HEAD)
    ensures Allocated(blk2, nbuf - HEAD) && blk2[nbuf - HEAD] == blk1[nbuf - HEAD]
    ensures forall k :: nbuf <= k < nbuf + n ==> Rd(m3, k) == Rd(m0, buf + (k - nbuf))
  {
    forall c, x | Allocated(blk0, c) && c != buf - HEAD && c + HEAD <= x < Next(blk0, c) ensures Rd(m3, x) == Rd(m0, x) {
      BodyCell(m0, m1, blk0, 0, c, x);
      BodyCell(m1, m2, blk1, nbuf - HEAD, c, x);
      BodyCell(m2, m3, blk1, buf - HEAD, c, x);
    }
    forall k | nbuf <= k < nbuf + n ensures Rd(m3, k) == Rd(m0, buf + (k - nbuf)) {
      BodyCell(m2, m3, blk1, buf - HEAD, nbuf - HEAD, k);
      BodyCell(m0, m1, blk0, 0, buf - HEAD, buf + (k - nbuf));
    }
  }

  /** b's neighbours on the list link back to b, and b's links are clear of theirs. */
  ghost predicate Linking(m: Mem, b: int) {
    var a, c := Rd(m, b + 12), Rd(m, b + 8);
    Rd(m, a + 8) == b && Rd(m, c + 12) == b && a != b && c != b && a + 8 != b + 12
  }

  lemma Dechained(m: Mem, h: Heap, i: nat, a: int, c: int, stale: set<int>)
    requires MemoryOk(m, h, stale) && i < |h.list| && a == Rd(m, h.list[i] + 12) && c == Rd(m, h.list[i] + 8)
    ensures Linking(m, h.list[i])
  {
    hide HeadersOk;
    UnlinkRing(m, h.head, h.list, Nodes(h), i);
    assert h.list[i] in Nodes(h) && a in Nodes(h);
  }

  lemma WholeMemory(m: Mem, h: Heap)
    requires HeapOk(m, h)
    ensures MemoryOk(m, h, {})
  {}

  lemma PrevIsBlock(blk: Blocks, p: int, b: int)
    requires IsPrev(blk, p, b)
    ensures p in blk && blk[p] == b - p
  {}

  /** The first and the last block of the list link to its head, and b is apart from it. */
  lemma HeadLinks(m: Mem, h: Heap, b: int)
    requires HeapOk(m, h) && b in h.blk
    ensures Rd(m, Rd(m, h.head + 12) + 8) == h.head && Rd(m, Rd(m, h.head + 8) + 12) == h.head
    ensures h.head + LEAST <= b || b + LEAST <= h.head
  {
    var ring := Ring(h.head, h.list);
    assert LinkStep(m, ring, 0) && LinkStep(m, ring, |h.list|);
    assert b in Nodes(h) && h.head in Nodes(h) && BlockOk(h.blk, h.ends, b);
  }

  lemma HalfCells(m: Mem, h: Heap, p: int)
    requires HalfShape(h, p) && p in h.blk && MemoryOk(m, h, {Next(h.blk, p)})
    ensures Rd(m, p + 4) == h.blk[p] > 0 && Free(h.blk, p)
    ensures var x := p + h.blk[p];
            && x == Next(h.blk, p) != p && (Rd(m, x + 4) > 0 <==> Free(h.blk, x))
            && (Free(h.blk, x) ==> Rd(m, x + 4) == h.blk[x] && x in h.list && Rd(m, x + h.blk[x]) == h.blk[x])
  {
    hide RingOk;
    assert BlockOk(h.blk, h.ends, p);
    var x := p + h.blk[p];
    assert x in h.blk || x in h.ends;
    if Free(h.blk, x) {
      assert BlockOk(h.blk, h.ends, x);
      var y := Next(h.blk, x);
      assert IsHeader(h.blk, h.ends, y) && y != x && PrevOk(m, h.blk, y) && IsPrev(h.blk, x, y);
    }
  }

  lemma StillSized(m: Mem, m': Mem, h: Heap, p: int, i: nat, a: int, c: int)
    requires HalfShape(h, p) && p in h.blk && MemoryOk(m, h, {Next(h.blk, p)}) && i < |h.list|
    requires a == Rd(m, h.list[i] + 12) && c == Rd(m, h.list[i] + 8) && m' == m[a + 8 := c][c + 12 := a]
    ensures Rd(m', p + 4) == h.blk[p]
  {
    hide Framed, RingOk, PrevOk, Rd;
    UnlinkStep(m, m', h, i, a, c, {Next(h.blk, p)}, 0);
  }

  lemma JoinedFree(blk: Blocks, p: int, q: int)
    requires Free(blk, p) && Free(blk, q)
    ensures Free(Join(blk, p, q, blk[p] + blk[q]), p)
  {}

  lemma HalfIsWhole(h: Heap, p: int)
    requires HalfShape(h, p) && p in h.blk && !Free(h.blk, Next(h.blk, p))
    ensures ShapeOk(h)
  {
    hide Framed, ListsFree;
  }

  lemma WholeCells(m: Mem, h: Heap, p: int)
    requires ShapeOk(h) && Free(h.blk, p) && MemoryOk(m, h, {Next(h.blk, p)})
    ensures Rd(m, p + 4) == h.blk[p] > 0
    ensures Next(h.blk, p) == p + h.blk[p] && Rd(m, p + h.blk[p] + 4) < 0
  {
    hide RingOk;
    assert BlockOk(h.blk, h.ends, p);
    var x := p + h.blk[p];
    assert x in h.blk ==> BlockOk(h.blk, h.ends, x) && !Free(h.blk, x);
  }

  lemma NothingWritten(m: Mem, blk: Blocks, but: int)
    ensures BodiesKept(m, m, blk, but)
  {}

  lemma Unchanged(m: Mem, blk: Blocks)
    ensures BodiesKept(m, m, blk, 0) && KeepsAllocated(blk, blk, 0)
  {}

  lemma CutFresh(m: Mem, h: Heap, b: int, k: int, n: int)
    requires HeapOk(m, h) && Free(h.blk, b) && k > 0 && n > 0 && k + n == h.blk[b]
    ensures b + k !in h.blk
  {
    hide MemoryOk;
    assert BlockOk(h.blk, h.ends, b);
  }

  lemma AllListed(m: Mem, h: Heap)
    requires HeapOk(m, h)
    ensures forall b :: Free(h.blk, b) ==> exists k :: 0 <= k < |h.list| && h.list[k] == b
  {
    hide MemoryOk, Framed;
    forall b | Free(h.blk, b) ensures exists k :: 0 <= k < |h.list| && h.list[k] == b { assert b in h.list; }
  }

  lemma GotAllocated(was: Blocks, now: Blocks, need: int, a: int, c: int)
    requires Got(was, now, need, a) && (a in was ==> Free(was, a)) && need > 0
    ensures Allocated(now, c) <==> Allocated(was, c) || c == a
    ensures Allocated(was, c) ==> now[c] == was[c]
  {}

  /** Releasing what was just allocated gives back the very same heap. */
  lemma ReleaseUndoesGet(m: Mem, h: Heap, mid: Blocks, m': Mem, h': Heap, need: int, a: int)
    requires HeapOk(m, h) && HeapOk(m', h') && h'.ends == h.ends && h'.pools == h.pools && need > 0
    requires Got(h.blk, mid, need, a) && (a in h.blk ==> Free(h.blk, a)) && Frees(mid, h'.blk, a)
    ensures h'.blk == h.blk
  {
    hide MemoryOk, Got, Sound, Coalesced;
    forall c ensures (Allocated(h.blk, c) <==> Allocated(h'.blk, c)) && (Allocated(h.blk, c) ==> h.blk[c] == h'.blk[c]) {
      GotAllocated(h.blk, mid, need, a, c);
    }
    Determined(h.blk, h'.blk, h.ends, h.pools);
  }
}
