/** The memory pool of the buddy allocator as a tiling by free and owned blocks.

    A block of order o at address a is the range [a, a + 2^o). Owned blocks are those
    outside the allocator: handed out by buddy_alloc, or never given to it so far. */
module BuddyHeap {
  import opened Bits

  datatype Heap = Heap(base: nat, pool: nat, min: nat, free: map<nat, nat>, owned: map<nat, nat>)

  ghost predicate IsBlock(h: Heap, a: nat) {
    a in h.free || a in h.owned
  }

  ghost function Order(h: Heap, a: nat): (o: nat)
    requires IsBlock(h, a)
  {
    if a in h.free then h.free[a] else h.owned[a]
  }

  /** a is a proper address for a block of order o. */
  ghost predicate BlockAt(h: Heap, a: nat, o: nat) {
    && h.base <= a && h.min <= o <= h.pool
    && Aligned(a - h.base, o) && a - h.base + Pow2(o) <= Pow2(h.pool)
  }

  /** Block a covers the byte at x. */
  ghost predicate Holds(h: Heap, a: nat, x: nat) {
    IsBlock(h, a) && a <= x < a + Pow2(Order(h, a))
  }

  ghost predicate InPool(h: Heap, x: nat) {
    h.base <= x < h.base + Pow2(h.pool)
  }

  /** Every byte of the pool lies in exactly one block, and blocks are well placed. */
  ghost predicate Tiled(h: Heap) {
    && h.min <= h.pool
    && (forall a: nat :: a in h.free ==> a !in h.owned)
    && (forall a: nat :: IsBlock(h, a) ==> BlockAt(h, a, Order(h, a)))
    && (forall a: nat, b: nat, x: nat :: Holds(h, a, x) && Holds(h, b, x) ==> a == b)
    && (forall x: nat :: InPool(h, x) ==> exists a: nat :: Holds(h, a, x))
  }

  /** The other half of the block of the next order: flip bit o of the offset. */
  function BuddyOf(base: nat, a: nat, o: nat): (r: nat)
    requires base <= a
  {
    if Shr(a - base, o) % 2 == 0 then a + Pow2(o)
    else if a >= base + Pow2(o) then a - Pow2(o) else a
  }

  /** No two free blocks could be merged. */
  ghost predicate Coalesced(h: Heap) {
    forall a: nat :: a in h.free && h.base <= a && h.free[a] < h.pool ==>
      var b := BuddyOf(h.base, a, h.free[a]);
      !(b in h.free && h.free[b] == h.free[a])
  }

  /** The offsets of a buddy pair and of the block they form. */
  lemma BuddyOffsets(x: nat, o: nat)
    requires Aligned(x, o)
    ensures Shr(x, o) % 2 == 0 ==> Aligned(x, o + 1) && Shr(x + Pow2(o), o) % 2 == 1 && Aligned(x + Pow2(o), o)
    ensures Shr(x, o) % 2 == 1 ==>
              x >= Pow2(o) && Aligned(x - Pow2(o), o + 1) && Shr(x - Pow2(o), o) % 2 == 0 && Aligned(x - Pow2(o), o)
  {
    hide Low, Shl, Shr, Pow2;
    var q := Shr(x, o);
    Decompose(x, o);
    PowDouble(o);
    HalfStep(q / 2, o);
    Recompose(2 * (q / 2), 0, o);
    Recompose(2 * (q / 2) + 1, 0, o);
    ShlAligned(q / 2, o + 1);
    AlignedDown(Shl(q / 2, o + 1), o, o + 1);
  }

  lemma HalfStep(q: nat, o: nat)
    ensures Shl(2 * q, o) == Shl(q, o + 1) && Shl(2 * q + 1, o) == Shl(q, o + 1) + Pow2(o)
  {
    ShlTwice(q, o);
    ShlAdd(2 * q, 1, o);
    ShlPow2(0, o);
  }

  /** The start of the block that a and its buddy form. */
  function Parent(base: nat, a: nat, o: nat): (r: nat)
    requires base <= a
  {
    var b := BuddyOf(base, a, o);
    if b < a then b else a
  }

  lemma BuddyPair(h: Heap, a: nat, o: nat)
    requires BlockAt(h, a, o) && o < h.pool
    ensures var b := BuddyOf(h.base, a, o);
            && BlockAt(h, b, o) && b != a && BuddyOf(h.base, b, o) == a
            && BlockAt(h, Parent(h.base, a, o), o + 1) && Parent(h.base, b, o) == Parent(h.base, a, o)
            && (b == a + Pow2(o) || a == b + Pow2(o)) && Pow2(o + 1) == 2 * Pow2(o)
  {
    hide Low, Shr, Shl, Pow2;
    var x := a - h.base;
    BuddyOffsets(x, o);
    PowDouble(o);
    if Shr(x, o) % 2 == 0 {
      RoomAbove(x, o + 1, h.pool);
    } else {
      RoomAbove(x - Pow2(o), o + 1, h.pool);
    }
  }

  lemma PowDouble(o: nat)
    ensures Pow2(o + 1) == 2 * Pow2(o) && Pow2(o) > 0
  {}

  /** An aligned offset inside the pool leaves room for its whole block. */
  lemma RoomAbove(x: nat, o: nat, pool: nat)
    requires Aligned(x, o) && o <= pool && x < Pow2(pool)
    ensures x + Pow2(o) <= Pow2(pool)
  {
    hide Low, Pow2;
    Pow2Aligned(pool, o);
    AlignedGap(x, Pow2(pool), o);
  }

  /** A well placed address that lies in a block of no greater order is that block's start. */
  lemma StartOfSmaller(h: Heap, a: nat, o: nat, s: nat)
    requires Tiled(h) && BlockAt(h, a, o) && Holds(h, s, a) && Order(h, s) <= o
    ensures s == a
  {
    hide Low, Pow2;
    var o' := Order(h, s);
    AlignedDown(a - h.base, o', o);
    if s < a { AlignedGap(s - h.base, a - h.base, o'); }
  }

  /** A block that reaches into an aligned range of no greater order covers it. */
  lemma CoversAligned(h: Heap, a: nat, o: nat, s: nat, x: nat)
    requires Tiled(h) && BlockAt(h, a, o) && a <= x < a + Pow2(o) && Holds(h, s, x) && o <= Order(h, s)
    ensures s <= a && a + Pow2(o) <= s + Pow2(Order(h, s))
  {
    hide Low, Pow2;
    var o' := Order(h, s);
    AlignedDown(s - h.base, o, o');
    if a < s { AlignedGap(a - h.base, s - h.base, o); }
    AlignedNested(a - h.base, o, s - h.base, o');
  }

  /** The buddy address of an owned block starts a block, whatever its tag may say. */
  lemma BuddyStartsBlock(h: Heap, c: nat, o: nat)
    requires Tiled(h) && IsBlock(h, c) && Order(h, c) == o < h.pool
    ensures var b := BuddyOf(h.base, c, o); IsBlock(h, b) && Order(h, b) <= o
  {
    hide Low, Shr, Pow2, Aligned, BuddyOf, Tiled;
    TiledAt(h, c);
    var b := BuddyOf(h.base, c, o);
    BuddyPair(h, c, o);
    var s := BlockHolding(h, b);
    if Order(h, s) <= o {
      StartOfSmaller(h, b, o, s);
    } else {
      var p := Parent(h.base, c, o);
      CoversAligned(h, p, o + 1, s, b);
      Unique(h, s, c, c);
    }
  }

  lemma TiledAt(h: Heap, a: nat)
    requires Tiled(h) && IsBlock(h, a)
    ensures BlockAt(h, a, Order(h, a)) && Holds(h, a, a) && InPool(h, a)
    ensures a in h.owned ==> a !in h.free
  {
    PowDouble(Order(h, a));
  }

  lemma BlockHolding(h: Heap, x: nat) returns (s: nat)
    requires Tiled(h) && InPool(h, x)
    ensures Holds(h, s, x)
  {
    s :| Holds(h, s, x);
  }

  lemma Unique(h: Heap, a: nat, b: nat, x: nat)
    requires Tiled(h) && Holds(h, a, x) && Holds(h, b, x)
    ensures a == b
  {}

  /** Some block of order at least o contains the whole range [a, a + 2^o). */
  ghost predicate FreeBlockAround(h: Heap, a: nat, o: nat) {
    exists f: nat :: f in h.free && f <= a && a + Pow2(o) <= f + Pow2(h.free[f])
  }

  ghost predicate AllFree(h: Heap, a: nat, o: nat) {
    forall x: nat :: a <= x < a + Pow2(o) ==> FreeByte(h, x)
  }

  ghost predicate FreeByte(h: Heap, x: nat) {
    exists f: nat :: f in h.free && Holds(h, f, x)
  }

  /** Coalescing is complete: an aligned range of free bytes lies inside one free block. */
  lemma {:induction false} FreeSpanInOneBlock(h: Heap, a: nat, o: nat)
    requires Tiled(h) && Coalesced(h) && BlockAt(h, a, o) && AllFree(h, a, o)
    ensures FreeBlockAround(h, a, o)
    decreases o
  {
    hide Low, Shr, Pow2, Aligned, BuddyOf, Tiled;
    PowDouble(o);
    assert FreeByte(h, a);
    var s :| s in h.free && Holds(h, s, a);
    TiledAt(h, s);
    if Order(h, s) >= o {
      CoversAligned(h, a, o, s, a);
    } else {
      StartOfSmaller(h, a, o, s);
      HalvesAreFree(h, a, o);
      FreeSpanInOneBlock(h, a, o - 1);
      FreeSpanInOneBlock(h, a + Pow2(o - 1), o - 1);
      TwoHalves(h, a, o);
    }
  }

  lemma HalvesAreFree(h: Heap, a: nat, o: nat)
    requires BlockAt(h, a, o) && h.min < o && AllFree(h, a, o)
    ensures BlockAt(h, a, o - 1) && BlockAt(h, a + Pow2(o - 1), o - 1)
    ensures BuddyOf(h.base, a, o - 1) == a + Pow2(o - 1)
    ensures AllFree(h, a, o - 1) && AllFree(h, a + Pow2(o - 1), o - 1)
  {
    hide Low, Shr, Pow2, Holds;
    var x := a - h.base;
    PowDouble(o - 1);
    AlignedDown(x, o - 1, o);
    EvenHalf(x, o - 1);
    BuddyOffsets(x, o - 1);
  }

  lemma EvenHalf(x: nat, o: nat)
    requires Aligned(x, o + 1)
    ensures Shr(x, o) % 2 == 0
  {
    Decompose(x, o + 1);
    HalfStep(Shr(x, o + 1), o);
    Recompose(2 * Shr(x, o + 1), 0, o);
  }

  lemma TwoHalves(h: Heap, a: nat, o: nat)
    requires Tiled(h) && Coalesced(h) && BlockAt(h, a, o) && h.min < o
    requires a in h.free && h.free[a] < o && BuddyOf(h.base, a, o - 1) == a + Pow2(o - 1)
    requires FreeBlockAround(h, a, o - 1) && FreeBlockAround(h, a + Pow2(o - 1), o - 1)
    requires BlockAt(h, a + Pow2(o - 1), o - 1)
    ensures FreeBlockAround(h, a, o)
  {
    hide Low, Shr, Pow2, Aligned, BuddyOf, Tiled;
    PowDouble(o - 1);
    var f :| f in h.free && f <= a && a + Pow2(o - 1) <= f + Pow2(h.free[f]);
    TiledAt(h, a);
    Unique(h, f, a, a);
    var m := a + Pow2(o - 1);
    var f' :| f' in h.free && f' <= m && m + Pow2(o - 1) <= f' + Pow2(h.free[f']);
    if h.free[a] < o - 1 { Pow2Mono(h.free[a], o - 1); }
    if h.free[f'] >= o {
      CoversAligned(h, a, o, f', m);
    } else {
      StartOfSmaller2(h, m, o - 1, f');
    }
  }

  lemma StartOfSmaller2(h: Heap, a: nat, o: nat, s: nat)
    requires Tiled(h) && BlockAt(h, a, o) && Holds(h, s, a) && Order(h, s) <= o
    requires a + Pow2(o) <= s + Pow2(Order(h, s))
    ensures s == a && Order(h, s) == o
  {
    hide Low, Pow2;
    StartOfSmaller(h, a, o, s);
    PowDouble(Order(h, s));
    if Order(h, s) < o { Pow2Mono(Order(h, s), o); }
  }

  /** Free blocks are determined by the free bytes: merging reaches one normal form, so
      allocating a block and freeing it again restores the very same free blocks. */
  lemma FreeBlocksUnique(h: Heap, h': Heap)
    requires Tiled(h) && Coalesced(h) && Tiled(h') && Coalesced(h')
    requires h'.base == h.base && h'.pool == h.pool && h'.min == h.min
    requires forall x: nat :: FreeByte(h, x) <==> FreeByte(h', x)
    ensures h'.free == h.free
  {
    forall f: nat ensures f in h.free <==> f in h'.free
                  ensures f in h.free && f in h'.free ==> h.free[f] == h'.free[f]
    {
      if f in h.free { SameFreeBlock(h, h', f); }
      if f in h'.free { SameFreeBlock(h', h, f); }
    }
  }

  lemma SameFreeBlock(h: Heap, h': Heap, f: nat)
    requires Tiled(h) && Coalesced(h) && Tiled(h') && Coalesced(h') && f in h.free
    requires h'.base == h.base && h'.pool == h.pool && h'.min == h.min
    requires forall x: nat :: FreeByte(h, x) <==> FreeByte(h', x)
    ensures f in h'.free && h'.free[f] == h.free[f]
  {
    hide Low, Shr, Pow2, Aligned, BuddyOf, Tiled, Coalesced;
    BlockIsFree(h, f);
    assert AllFree(h', f, h.free[f]) by { forall x: nat | f <= x < f + Pow2(h.free[f]) ensures FreeByte(h', x) {} }
    assert BlockAt(h', f, h.free[f]);
    FreeSpanInOneBlock(h', f, h.free[f]);
    var f': nat :| f' in h'.free && f' <= f && f + Pow2(h.free[f]) <= f' + Pow2(h'.free[f']);
    BlockIsFree(h', f');
    assert AllFree(h, f', h'.free[f']) by { forall x: nat | f' <= x < f' + Pow2(h'.free[f']) ensures FreeByte(h, x) {} }
    assert BlockAt(h, f', h'.free[f']);
    FreeSpanInOneBlock(h, f', h'.free[f']);
    var g: nat :| g in h.free && g <= f' && f' + Pow2(h'.free[f']) <= g + Pow2(h.free[g]);
    Unique(h, f, g, f);
    SameSize(h.free[f], h'.free[f']);
  }

  lemma BlockIsFree(h: Heap, f: nat)
    requires Tiled(h) && f in h.free
    ensures BlockAt(h, f, h.free[f]) && AllFree(h, f, h.free[f]) && Holds(h, f, f)
  {
    hide Low, Shr, Pow2, Aligned, Tiled;
    TiledAt(h, f);
    forall x: nat | f <= x < f + Pow2(h.free[f]) ensures FreeByte(h, x) { assert Holds(h, f, x); }
  }

  lemma SameSize(o: nat, o': nat)
    requires Pow2(o) == Pow2(o')
    ensures o == o'
  {
    hide Pow2;
    PowDouble(o);
    PowDouble(o');
    if o < o' { Pow2Mono(o, o'); }
    if o' < o { Pow2Mono(o', o); }
  }
}
