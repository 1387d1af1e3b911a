/** The steps of buddy_alloc and buddy_free on the tiling. */
module BuddySteps {
  import opened Bits
  import opened BuddyHeap

  /** Outside [lo, hi) nothing changes, and no block crosses its borders. */
  ghost predicate SameOutside(h: Heap, h': Heap, lo: nat, hi: nat) {
    && h'.base == h.base && h'.pool == h.pool && h'.min == h.min
    && (forall a: nat :: !(lo <= a < hi) ==> (IsBlock(h', a) <==> IsBlock(h, a)))
    && (forall a: nat :: !(lo <= a < hi) && IsBlock(h, a) && IsBlock(h', a) ==> Order(h', a) == Order(h, a))
    && (forall a: nat :: IsBlock(h, a) ==> lo <= a || a + Pow2(Order(h, a)) <= lo)
    && (forall a: nat :: lo <= a < hi && IsBlock(h, a) ==> a + Pow2(Order(h, a)) <= hi)
  }

  /** Inside [lo, hi) the new blocks tile. */
  ghost predicate TilesInside(h': Heap, lo: nat, hi: nat) {
    && (forall a: nat :: lo <= a < hi && IsBlock(h', a) ==> BlockAt(h', a, Order(h', a)) && a + Pow2(Order(h', a)) <= hi)
    && (forall a: nat, b: nat, x: nat :: lo <= a < hi && lo <= b < hi && Holds(h', a, x) && Holds(h', b, x) ==> a == b)
    && (forall x: nat :: lo <= x < hi ==> Held(h', x))
  }

  ghost predicate Held(h: Heap, x: nat) {
    exists a: nat :: Holds(h, a, x)
  }

  /** Replacing the blocks of one range by others that tile it keeps the tiling. */
  lemma Retile(h: Heap, h': Heap, lo: nat, hi: nat)
    requires Tiled(h) && SameOutside(h, h', lo, hi) && TilesInside(h', lo, hi)
    requires forall a: nat :: a in h'.free ==> a !in h'.owned
    ensures Tiled(h')
  {
    hide Pow2, Low, Aligned;
    forall a: nat | IsBlock(h', a) ensures BlockAt(h', a, Order(h', a)) {
      if !(lo <= a < hi) { assert BlockAt(h, a, Order(h, a)); }
    }
    forall a: nat, b: nat, x: nat | Holds(h', a, x) && Holds(h', b, x) ensures a == b {
      if !(lo <= a < hi) { assert Holds(h, a, x); }
      if !(lo <= b < hi) { assert Holds(h, b, x); }
    }
    forall x: nat | InPool(h', x) ensures exists a: nat :: Holds(h', a, x) {
      if lo <= x < hi {
        assert Held(h', x);
      } else {
        assert InPool(h, x);
        var a :| Holds(h, a, x);
        assert Holds(h', a, x);
      }
    }
  }

  /** The range of one block is a range that nothing crosses. */
  lemma OwnRange(h: Heap, a: nat, b: nat)
    requires Tiled(h) && IsBlock(h, a) && IsBlock(h, b)
    ensures b < a ==> b + Pow2(Order(h, b)) <= a
    ensures a < b ==> a + Pow2(Order(h, a)) <= b
  {
    hide Pow2, Low, Aligned, Tiled;
    TiledAt(h, a);
    TiledAt(h, b);
    if b < a < b + Pow2(Order(h, b)) { Unique(h, a, b, a); }
    if a < b < a + Pow2(Order(h, a)) { Unique(h, a, b, b); }
  }

  /** A block changes hands. */
  ghost function Take(h: Heap, a: nat): (h': Heap)
    requires a in h.free
  {
    h.(free := h.free - {a}, owned := h.owned[a := h.free[a]])
  }

  ghost function Give(h: Heap, a: nat): (h': Heap)
    requires a in h.owned
  {
    h.(free := h.free[a := h.owned[a]], owned := h.owned - {a})
  }

  lemma SameBlocks(h: Heap, h': Heap)
    requires Tiled(h) && h'.base == h.base && h'.pool == h.pool && h'.min == h.min
    requires forall a: nat :: IsBlock(h', a) <==> IsBlock(h, a)
    requires forall a: nat :: IsBlock(h, a) && IsBlock(h', a) ==> Order(h', a) == Order(h, a)
    requires forall a: nat :: a in h'.free ==> a !in h'.owned
    ensures Tiled(h')
  {
    hide Pow2, Low, Aligned;
    forall a: nat, x: nat ensures Holds(h', a, x) <==> Holds(h, a, x) {}
    forall a: nat | IsBlock(h', a) ensures BlockAt(h', a, Order(h', a)) {
      assert BlockAt(h, a, Order(h, a));
    }
    forall x: nat | InPool(h', x) ensures exists a: nat :: Holds(h', a, x) {
      assert InPool(h, x);
      var a :| Holds(h, a, x);
      assert Holds(h', a, x);
    }
  }

  lemma TakeTiled(h: Heap, a: nat)
    requires Tiled(h) && a in h.free
    ensures Tiled(Take(h, a)) && (Coalesced(h) ==> Coalesced(Take(h, a)))
  {
    hide BuddyOf;
    SameBlocks(h, Take(h, a));
  }

  lemma GiveTiled(h: Heap, a: nat)
    requires Tiled(h) && a in h.owned
    ensures Tiled(Give(h, a))
  {
    SameBlocks(h, Give(h, a));
  }

  /** Giving a block whose buddy is not free in the same order keeps the pool coalesced. */
  lemma GiveCoalesced(h: Heap, a: nat)
    requires Tiled(h) && a in h.owned && Coalesced(h)
    requires h.base <= a
    requires h.owned[a] < h.pool ==>
               var b := BuddyOf(h.base, a, h.owned[a]); !(b in h.free && h.free[b] == h.owned[a])
    ensures Coalesced(Give(h, a))
  {
    hide BuddyOf, Pow2, Low, Aligned, Tiled;
    var h' := Give(h, a);
    forall f: nat | f in h'.free && h'.base <= f && h'.free[f] < h'.pool
      ensures var b := BuddyOf(h'.base, f, h'.free[f]); !(b in h'.free && h'.free[b] == h'.free[f])
    {
      var b := BuddyOf(h.base, f, h'.free[f]);
      if b == a && f != a {
        TiledAt(h, f);
        BuddyPair(h, f, h.free[f]);
      }
      TiledAt(h, a);
      BuddyPair2(h, a, h.owned[a]);
    }
  }

  lemma BuddyPair2(h: Heap, a: nat, o: nat)
    requires BlockAt(h, a, o)
    ensures o < h.pool ==> BuddyOf(h.base, a, o) != a
  {
    if o < h.pool { BuddyPair(h, a, o); }
  }

  /** An owned block is cut in two; the upper half becomes free. */
  ghost function Split(h: Heap, a: nat): (h': Heap)
    requires a in h.owned && h.owned[a] > 0
  {
    var o := h.owned[a] - 1;
    h.(free := h.free[a + Pow2(o) := o], owned := h.owned[a := o])
  }

  lemma SplitPlaces(h: Heap, a: nat)
    requires Tiled(h) && a in h.owned && h.owned[a] > h.min
    ensures var o := h.owned[a] - 1;
            && BlockAt(h, a, o) && BlockAt(h, a + Pow2(o), o) && BuddyOf(h.base, a, o) == a + Pow2(o)
            && BuddyOf(h.base, a + Pow2(o), o) == a
            && Pow2(o + 1) == 2 * Pow2(o) && Pow2(o) > 0 && !IsBlock(h, a + Pow2(o))
  {
    hide Low, Shr, Pow2, Tiled;
    var o := h.owned[a] - 1;
    TiledAt(h, a);
    PowDouble(o);
    AlignedDown(a - h.base, o, o + 1);
    EvenHalf(a - h.base, o);
    BuddyOffsets(a - h.base, o);
    BuddyPair(h, a, o);
    if IsBlock(h, a + Pow2(o)) { OwnRange(h, a, a + Pow2(o)); }
  }

  lemma SplitTiled(h: Heap, a: nat)
    requires Tiled(h) && a in h.owned && h.owned[a] > h.min
    ensures Tiled(Split(h, a))
  {
    hide Low, Shr, Pow2, Aligned, BuddyOf, Tiled;
    SplitPlaces(h, a);
    var h' := Split(h, a);
    var o := h.owned[a] - 1;
    var u := a + Pow2(o);
    var hi := a + Pow2(o + 1);
    TiledAt(h, a);
    forall b: nat | IsBlock(h, b) && b != a ensures b < a || hi <= b {
      OwnRange(h, a, b);
    }
    assert SameOutside(h, h', a, hi) by {
      forall b: nat | IsBlock(h, b) ensures a <= b || b + Pow2(Order(h, b)) <= a { OwnRange(h, a, b); }
    }
    assert TilesInside(h', a, hi) by {
      assert forall b: nat :: IsBlock(h', b) && b != a && b != u ==> IsBlock(h, b);
      assert u !in h'.owned && a !in h'.free && BlockAt(h', a, o) && BlockAt(h', u, o);
      forall x: nat | a <= x < hi ensures Held(h', x) {
        assert if x < u then Holds(h', a, x) else Holds(h', u, x);
      }
    }
    FreeOwnedApart(h, u);
    Retile(h, h', a, hi);
  }

  lemma FreeOwnedApart(h: Heap, u: nat)
    requires Tiled(h)
    ensures forall a: nat :: a in h.free ==> a !in h.owned
  {}

  lemma SplitCoalesced(h: Heap, a: nat)
    requires Tiled(h) && a in h.owned && h.owned[a] > h.min && Coalesced(h)
    ensures Coalesced(Split(h, a))
  {
    hide Low, Shr, Pow2, Aligned, BuddyOf, Tiled;
    SplitPlaces(h, a);
    FreeOwnedApart(h, a);
    var h' := Split(h, a);
    var o := h.owned[a] - 1;
    var u := a + Pow2(o);
    forall f: nat | f in h'.free && h'.base <= f && h'.free[f] < h'.pool
      ensures var b := BuddyOf(h'.base, f, h'.free[f]); !(b in h'.free && h'.free[b] == h'.free[f])
    {
      if f != u {
        TiledAt(h, f);
        BuddyPair(h, f, h.free[f]);
      }
    }
  }

  /** An owned block and its free buddy become one owned block. */
  ghost function Merge(h: Heap, c: nat): (h': Heap)
    requires c in h.owned && h.base <= c
  {
    var o := h.owned[c];
    var b := BuddyOf(h.base, c, o);
    h.(free := h.free - {b}, owned := (h.owned - {c})[Parent(h.base, c, o) := o + 1])
  }

  lemma MergeTiled(h: Heap, c: nat)
    requires Tiled(h) && c in h.owned && h.base <= c && h.owned[c] < h.pool
    requires var b := BuddyOf(h.base, c, h.owned[c]); b in h.free && h.free[b] == h.owned[c]
    ensures Tiled(Merge(h, c))
  {
    hide Low, Shr, Pow2, Aligned, BuddyOf, Tiled;
    TiledAt(h, c);
    var o := h.owned[c];
    var b := BuddyOf(h.base, c, o);
    TiledAt(h, b);
    BuddyPair(h, c, o);
    FreeOwnedApart(h, b);
    var p := Parent(h.base, c, o);
    var h' := Merge(h, c);
    var hi := p + Pow2(o + 1);
    forall a: nat | IsBlock(h, a) ensures a == b || a == c || a + Pow2(Order(h, a)) <= p || hi <= a {
      OwnRange(h, a, b);
      OwnRange(h, a, c);
    }
    assert SameOutside(h, h', p, hi);
    assert TilesInside(h', p, hi) by {
      assert forall a: nat :: IsBlock(h', a) && a != p ==> IsBlock(h, a) && a != b && a != c;
      assert p !in h'.free && BlockAt(h', p, o + 1);
      forall x: nat | p <= x < hi ensures Held(h', x) { assert Holds(h', p, x); }
    }
    Retile(h, h', p, hi);
  }

  lemma MergeCoalesced(h: Heap, c: nat)
    requires c in h.owned && h.base <= c && Coalesced(h)
    ensures Coalesced(Merge(h, c))
  {
    hide BuddyOf;
  }

  /** The range [a, a + 2^o) consists of whole owned blocks. */
  ghost predicate OwnedRange(h: Heap, a: nat, o: nat) {
    && BlockAt(h, a, o)
    && (forall b: nat :: b in h.free ==> b + Pow2(h.free[b]) <= a || a + Pow2(o) <= b)
    && (forall b: nat :: b in h.owned ==>
          b + Pow2(h.owned[b]) <= a || a + Pow2(o) <= b || (a <= b && b + Pow2(h.owned[b]) <= a + Pow2(o)))
  }

  /** Whole owned blocks are handed back as one. */
  ghost function Join(h: Heap, a: nat, o: nat): (h': Heap) {
    h.(owned := (map b | b in h.owned && !(a <= b < a + Pow2(o)) :: h.owned[b])[a := o])
  }

  lemma JoinTiled(h: Heap, a: nat, o: nat)
    requires Tiled(h) && OwnedRange(h, a, o)
    ensures Tiled(Join(h, a, o)) && (Coalesced(h) ==> Coalesced(Join(h, a, o)))
  {
    hide Low, Shr, Pow2, Aligned, BuddyOf, Tiled;
    var h' := Join(h, a, o);
    var hi := a + Pow2(o);
    PowDouble(o);
    FreeOwnedApart(h, a);
    forall b: nat | IsBlock(h, b) ensures b + Pow2(Order(h, b)) <= a || hi <= b || (a <= b && b + Pow2(Order(h, b)) <= hi) {}
    forall b: nat | IsBlock(h, b) ensures Pow2(Order(h, b)) > 0 { PowDouble(Order(h, b)); }
    assert SameOutside(h, h', a, hi);
    assert TilesInside(h', a, hi) by {
      hide SameOutside;
      forall x: nat | a <= x < hi ensures Held(h', x) { assert Holds(h', a, x); }
    }
    hide SameOutside, TilesInside, OwnedRange, Join;
    Retile(h, h', a, hi);
  }

  /** The range of an owned block is an owned range, and joining it changes nothing. */
  lemma OwnedBlockIsRange(h: Heap, a: nat)
    requires Tiled(h) && a in h.owned
    ensures OwnedRange(h, a, h.owned[a]) && Join(h, a, h.owned[a]) == h
  {
    hide Low, Shr, Pow2, Aligned, BuddyOf, Tiled;
    TiledAt(h, a);
    FreeOwnedApart(h, a);
    forall b: nat | IsBlock(h, b) && b != a ensures b + Pow2(Order(h, b)) <= a || a + Pow2(h.owned[a]) <= b {
      OwnRange(h, a, b);
    }
    assert OwnedRange(h, a, h.owned[a]) by {
      forall b: nat | b in h.free ensures b + Pow2(h.free[b]) <= a || a + Pow2(h.owned[a]) <= b {
        assert IsBlock(h, b) && b != a;
      }
      forall b: nat | b in h.owned && b != a ensures b + Pow2(h.owned[b]) <= a || a + Pow2(h.owned[a]) <= b {
        assert IsBlock(h, b);
      }
    }
    assert Join(h, a, h.owned[a]).owned == h.owned by {
      forall b: nat | b in h.owned && b != a ensures !(a <= b < a + Pow2(h.owned[a])) {
        assert IsBlock(h, b);
        PowDouble(h.owned[b]);
      }
    }
  }
}
