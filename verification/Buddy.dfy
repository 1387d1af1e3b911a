/** The buddy memory allocator: free lists, tag bits and block headers. */
module Buddy {
  import opened Bits
  import opened BuddyHeap
  import opened BuddySteps

  /** The tag bit of a block: one bit for each block of the smallest size. */
  function BlockId(base: nat, min: nat, a: nat): (id: nat)
    requires base <= a
  {
    Shr(a - base, min)
  }

  lemma IdInRange(h: Heap, a: nat, o: nat)
    requires BlockAt(h, a, o)
    ensures BlockId(h.base, h.min, a) < Pow2(h.pool - h.min)
  {
    hide Pow2, Shr, Low;
    PowDouble(o);
    ShrBound(a - h.base, h.min, h.pool - h.min);
  }

  lemma IdsDiffer(h: Heap, a: nat, o: nat, b: nat, o': nat)
    requires BlockAt(h, a, o) && BlockAt(h, b, o') && BlockId(h.base, h.min, a) == BlockId(h.base, h.min, b)
    ensures a == b
  {
    hide Pow2, Shr, Low, Shl;
    AlignedDown(a - h.base, h.min, o);
    AlignedDown(b - h.base, h.min, o');
    Decompose(a - h.base, h.min);
    Decompose(b - h.base, h.min);
  }

  /** The tag at the start of a block tells whether it is free; all other tags, and that
      of the block at hand, may be stale. */
  ghost predicate TagsOk(h: Heap, tags: seq<bool>, hand: set<nat>)
    requires Tiled(h)
  {
    && |tags| == Pow2(h.pool - h.min)
    && forall a: nat :: IsBlock(h, a) && a !in hand ==> TagAt(h, tags, a) == (a in h.free)
  }

  ghost predicate TagAt(h: Heap, tags: seq<bool>, a: nat)
    requires Tiled(h) && |tags| == Pow2(h.pool - h.min) && IsBlock(h, a)
  {
    IdInRange(h, a, Order(h, a));
    tags[BlockId(h.base, h.min, a)]
  }

  /** List j holds each free block of order j once, and nothing else. */
  ghost predicate ListsOk(h: Heap, lists: seq<seq<nat>>) {
    && |lists| == h.pool + 1
    && (forall a: nat :: a in h.free ==> h.free[a] <= h.pool)
    && (forall j: nat, a: nat :: j <= h.pool ==> (a in lists[j] <==> a in h.free && h.free[a] == j))
    && (forall j: nat :: j <= h.pool ==> NoDuplicates(lists[j]))
  }

  ghost predicate NoDuplicates(s: seq<nat>) {
    forall i: nat, k: nat :: i < k < |s| ==> s[i] != s[k]
  }

  /** The header of each free block stores its order. */
  ghost predicate HeadersOk(h: Heap, header: map<nat, nat>) {
    forall a: nat :: a in h.free ==> a in header && header[a] == h.free[a]
  }

  ghost predicate StateOk(h: Heap, tags: seq<bool>, lists: seq<seq<nat>>, header: map<nat, nat>, hand: set<nat>) {
    Tiled(h) && Coalesced(h) && TagsOk(h, tags, hand) && ListsOk(h, lists) && HeadersOk(h, header)
  }

  /** list_del */
  function Remove(s: seq<nat>, a: nat): (r: seq<nat>)
    ensures a !in s ==> r == s
  {
    if s == [] then [] else if s[0] == a then s[1..] else [s[0]] + Remove(s[1..], a)
  }

  lemma {:induction false} RemoveElements(s: seq<nat>, a: nat)
    requires NoDuplicates(s)
    ensures NoDuplicates(Remove(s, a)) && forall b: nat :: b in Remove(s, a) <==> b in s && b != a
  {
    if s != [] {
      RemoveElements(s[1..], a);
      assert s == [s[0]] + s[1..];
      if s[0] == a {
        assert a !in s[1..];
      } else {
        assert s[0] !in s[1..];
      }
    }
  }

  lemma AddElement(s: seq<nat>, a: nat)
    requires NoDuplicates(s) && a !in s
    ensures NoDuplicates([a] + s)
  {}

  /** The first block of list j is taken off and its tag cleared. */
  lemma TakeStep(h: Heap, tags: seq<bool>, lists: seq<seq<nat>>, header: map<nat, nat>, j: nat)
    requires StateOk(h, tags, lists, header, {}) && j <= h.pool && lists[j] != []
    ensures var a := lists[j][0];
            && a in h.free && h.free[a] == j && h.base <= a && BlockId(h.base, h.min, a) < |tags|
            && StateOk(Take(h, a), tags[BlockId(h.base, h.min, a) := false], lists[j := lists[j][1..]], header, {})
  {
    hide Pow2, Shr, Low, Aligned, Tiled, Coalesced, BuddyOf, BlockId;
    var a := lists[j][0];
    assert a in lists[j];
    TiledAt(h, a);
    IdInRange(h, a, j);
    TakeTiled(h, a);
    var h' := Take(h, a);
    TagChange(h, h', tags, a, false, {});
    RemoveElements(lists[j], a);
    assert Remove(lists[j], a) == lists[j][1..];
  }

  /** Setting the tag of one block to tell the truth about it. */
  lemma TagChange(h: Heap, h': Heap, tags: seq<bool>, a: nat, free: bool, hand: set<nat>)
    requires Tiled(h) && Tiled(h') && TagsOk(h, tags, hand) && IsBlock(h', a) && (free <==> a in h'.free)
    requires h'.base == h.base && h'.min == h.min && h'.pool == h.pool
    requires forall b: nat :: IsBlock(h', b) && b != a ==> IsBlock(h, b) && b !in hand && (b in h'.free <==> b in h.free)
    ensures BlockId(h.base, h.min, a) < |tags|
    ensures TagsOk(h', tags[BlockId(h.base, h.min, a) := free], {})
  {
    hide Pow2, Shr, Low, Aligned, Tiled, BlockId;
    TiledAt(h', a);
    IdInRange(h', a, Order(h', a));
    var tags' := tags[BlockId(h.base, h.min, a) := free];
    forall b: nat | IsBlock(h', b) ensures TagAt(h', tags', b) == (b in h'.free) {
      TiledAt(h', b);
      IdInRange(h', b, Order(h', b));
      if b != a {
        if BlockId(h.base, h.min, b) == BlockId(h.base, h.min, a) {
          IdsDiffer(h', a, Order(h', a), b, Order(h', b));
        }
        assert TagAt(h, tags, b) == (b in h.free);
      }
    }
  }

  /** The block at hand is cut; its upper half goes to list o. */
  lemma SplitStep(h: Heap, tags: seq<bool>, lists: seq<seq<nat>>, header: map<nat, nat>, a: nat)
    requires StateOk(h, tags, lists, header, {}) && a in h.owned && h.owned[a] > h.min
    ensures var o := h.owned[a] - 1;
            var u := a + Pow2(o);
            && o <= h.pool && h.base <= u && BlockId(h.base, h.min, u) < |tags|
            && StateOk(Split(h, a), tags[BlockId(h.base, h.min, u) := true], lists[o := [u] + lists[o]], header[u := o], {})
  {
    hide Pow2, Shr, Low, Aligned, Tiled, Coalesced, BuddyOf, BlockId;
    SplitPlaces(h, a);
    SplitTiled(h, a);
    SplitCoalesced(h, a);
    TiledAt(h, a);
    var o := h.owned[a] - 1;
    var u := a + Pow2(o);
    var h' := Split(h, a);
    TagChange(h, h', tags, u, true, {});
    AddElement(lists[o], u);
    SplitLists(h, lists, a);
  }

  lemma SplitLists(h: Heap, lists: seq<seq<nat>>, a: nat)
    requires ListsOk(h, lists) && a in h.owned && 0 < h.owned[a] <= h.pool
    requires !IsBlock(h, a + Pow2(h.owned[a] - 1))
    ensures var o := h.owned[a] - 1; ListsOk(Split(h, a), lists[o := [a + Pow2(o)] + lists[o]])
  {
    hide Pow2;
    var o := h.owned[a] - 1;
    var u := a + Pow2(o);
    AddElement(lists[o], u);
    var h', lists' := Split(h, a), lists[o := [u] + lists[o]];
    forall j: nat, b: nat | j <= h'.pool ensures b in lists'[j] <==> b in h'.free && h'.free[b] == j {}
  }

  /** Whole owned blocks handed back together count as one block at hand. */
  lemma JoinStep(h: Heap, tags: seq<bool>, lists: seq<seq<nat>>, header: map<nat, nat>, a: nat, o: nat)
    requires StateOk(h, tags, lists, header, {}) && OwnedRange(h, a, o)
    ensures StateOk(Join(h, a, o), tags, lists, header, {})
    ensures h.base <= a && BlockId(h.base, h.min, a) < |tags| && !tags[BlockId(h.base, h.min, a)]
  {
    hide Pow2, Shr, Low, Aligned, Tiled, Coalesced, BuddyOf, BlockId;
    PowDouble(o);
    var b := BlockHolding(h, a);
    TiledAt(h, b);
    assert b == a && a in h.owned;
    IdInRange(h, a, o);
    assert TagAt(h, tags, a) == (a in h.free);
    JoinTiled(h, a, o);
    var h' := Join(h, a, o);
    forall c: nat | IsBlock(h', c) ensures TagAt(h', tags, c) == (c in h'.free) {
      TiledAt(h', c);
      assert IsBlock(h, c);
      assert TagAt(h, tags, c) == (c in h.free);
    }
  }

  /** A set tag at the buddy address means a free block there, despite stale tags. */
  lemma BuddyTag(h: Heap, tags: seq<bool>, lists: seq<seq<nat>>, header: map<nat, nat>, c: nat)
    requires StateOk(h, tags, lists, header, {c}) && c in h.owned && h.owned[c] < h.pool
    ensures h.base <= c
    ensures var b := BuddyOf(h.base, c, h.owned[c]);
            && h.base <= b && BlockId(h.base, h.min, b) < |tags|
            && (tags[BlockId(h.base, h.min, b)] <==> b in h.free)
  {
    hide Pow2, Shr, Low, Aligned, Tiled, Coalesced, BuddyOf, BlockId;
    TiledAt(h, c);
    var o := h.owned[c];
    var b := BuddyOf(h.base, c, o);
    BuddyPair(h, c, o);
    BuddyStartsBlock(h, c, o);
    TiledAt(h, b);
    IdInRange(h, b, Order(h, b));
    assert TagAt(h, tags, b) == (b in h.free);
  }

  /** The block at hand absorbs its free buddy, whose tag is left as it is. */
  lemma MergeStep(h: Heap, tags: seq<bool>, lists: seq<seq<nat>>, header: map<nat, nat>, c: nat)
    requires StateOk(h, tags, lists, header, {c}) && c in h.owned && h.base <= c && h.owned[c] < h.pool
    requires var b := BuddyOf(h.base, c, h.owned[c]); b in h.free && h.free[b] == h.owned[c]
    ensures var o, b := h.owned[c], BuddyOf(h.base, c, h.owned[c]);
            var p := Parent(h.base, c, o);
            StateOk(Merge(h, c), tags, lists[o := Remove(lists[o], b)], header[p := o + 1], {p})
  {
    hide Pow2, Shr, Low, Aligned, Tiled, Coalesced, BuddyOf, BlockId;
    TiledAt(h, c);
    var o := h.owned[c];
    var b := BuddyOf(h.base, c, o);
    var p := Parent(h.base, c, o);
    var h' := Merge(h, c);
    MergeTiled(h, c);
    MergeCoalesced(h, c);
    BuddyPair(h, c, o);
    RemoveElements(lists[o], b);
    FreeOwnedApart(h, b);
    assert p == b || p == c;
    assert p !in h'.free;
    forall a: nat | IsBlock(h', a) && a != p ensures TagAt(h', tags, a) == (a in h'.free) {
      TiledAt(h', a);
      assert IsBlock(h, a) && a != c;
      assert TagAt(h, tags, a) == (a in h.free);
    }
  }

  /** The block at hand becomes free when its buddy is not a free block of the same order. */
  lemma GiveStep(h: Heap, tags: seq<bool>, lists: seq<seq<nat>>, header: map<nat, nat>, c: nat)
    requires StateOk(h, tags, lists, header, {c}) && c in h.owned && h.base <= c
    requires h.owned[c] < h.pool ==>
               var b := BuddyOf(h.base, c, h.owned[c]); !(b in h.free && h.free[b] == h.owned[c])
    ensures var o := h.owned[c];
            && o <= h.pool && BlockId(h.base, h.min, c) < |tags|
            && StateOk(Give(h, c), tags[BlockId(h.base, h.min, c) := true], lists[o := [c] + lists[o]], header[c := o], {})
  {
    hide Pow2, Shr, Low, Aligned, Tiled, Coalesced, BuddyOf, BlockId;
    TiledAt(h, c);
    var o := h.owned[c];
    GiveTiled(h, c);
    GiveCoalesced(h, c);
    var h' := Give(h, c);
    AddElement(lists[o], c);
    TagChange(h, h', tags, c, true, {c});
    var lists' := lists[o := [c] + lists[o]];
    forall j: nat, b: nat | j <= h'.pool ensures b in lists'[j] <==> b in h'.free && h'.free[b] == j {}
  }

  /** x is one of the 2^o bytes from a on. */
  predicate Within(a: nat, o: nat, x: nat) {
    a <= x < a + Pow2(o)
  }

  lemma TakeBytes(h: Heap, a: nat, x: nat)
    requires Tiled(h) && a in h.free
    ensures FreeByte(Take(h, a), x) <==> FreeByte(h, x) && !Within(a, h.free[a], x)
  {
    hide Pow2, Low, Aligned, BlockAt;
    var h' := Take(h, a);
    if FreeByte(h', x) {
      var f: nat :| f in h'.free && Holds(h', f, x);
      assert Holds(h, f, x);
      assert Within(a, h.free[a], x) ==> Holds(h, a, x);
    }
    if FreeByte(h, x) && !Within(a, h.free[a], x) {
      var f: nat :| f in h.free && Holds(h, f, x);
      assert Holds(h', f, x);
    }
  }

  lemma SplitBytes(h: Heap, a: nat, x: nat)
    requires Tiled(h) && a in h.owned && h.owned[a] > h.min
    ensures var o := h.owned[a] - 1;
            FreeByte(Split(h, a), x) <==> FreeByte(h, x) || Within(a + Pow2(o), o, x)
  {
    hide Pow2, Low, Aligned, BlockAt, Tiled;
    SplitPlaces(h, a);
    TiledAt(h, a);
    var h' := Split(h, a);
    var u := a + Pow2(h.owned[a] - 1);
    if f: nat :| f in h'.free && Holds(h', f, x) {
      if f != u { assert Holds(h, f, x); }
    }
    if f: nat :| f in h.free && Holds(h, f, x) {
      assert Holds(h', f, x);
    }
    if Within(u, h.owned[a] - 1, x) { assert Holds(h', u, x); }
  }

  lemma GiveBytes(h: Heap, a: nat, x: nat)
    requires Tiled(h) && a in h.owned
    ensures FreeByte(Give(h, a), x) <==> FreeByte(h, x) || Within(a, h.owned[a], x)
  {
    hide Pow2, Low, Aligned, BlockAt, Tiled;
    TiledAt(h, a);
    var h' := Give(h, a);
    if f: nat :| f in h'.free && Holds(h', f, x) {
      if f != a { assert Holds(h, f, x); }
    }
    if f: nat :| f in h.free && Holds(h, f, x) { assert Holds(h', f, x); }
    if Within(a, h.owned[a], x) { assert Holds(h', a, x); }
  }

  lemma JoinBytes(h: Heap, a: nat, o: nat, x: nat)
    requires Tiled(h) && OwnedRange(h, a, o)
    ensures FreeByte(Join(h, a, o), x) <==> FreeByte(h, x)
  {
    hide Pow2, Low, Aligned, BlockAt, Tiled;
    var h' := Join(h, a, o);
    FreeOwnedApart(h, a);
    if f: nat :| f in h'.free && Holds(h', f, x) { assert Holds(h, f, x); }
    if f: nat :| f in h.free && Holds(h, f, x) { assert Holds(h', f, x); }
  }

  lemma MergeBytes(h: Heap, c: nat, x: nat)
    requires Tiled(h) && c in h.owned && h.base <= c && h.owned[c] < h.pool
    requires var b := BuddyOf(h.base, c, h.owned[c]); b in h.free && h.free[b] == h.owned[c]
    ensures var o := h.owned[c];
            FreeByte(Merge(h, c), x) || Within(Parent(h.base, c, o), o + 1, x) <==> FreeByte(h, x) || Within(c, o, x)
  {
    hide Pow2, Low, Aligned, Tiled, BuddyOf, Shr;
    TiledAt(h, c);
    var o := h.owned[c];
    var b := BuddyOf(h.base, c, o);
    BuddyPair(h, c, o);
    var h' := Merge(h, c);
    if f: nat :| f in h'.free && Holds(h', f, x) { assert Holds(h, f, x); }
    if f: nat :| f in h.free && Holds(h, f, x) {
      if f != b { assert Holds(h', f, x); }
    }
    if Within(b, o, x) { assert Holds(h, b, x); }
  }

  const BLOCK_STRUCT_SIZE: nat := 24

  /** The smallest order, raised so that a free block can hold its header. */
  function MinimumOrder(min: nat): (r: nat)
    ensures Pow2(r) >= BLOCK_STRUCT_SIZE
    ensures r >= min && (Pow2(min) >= BLOCK_STRUCT_SIZE ==> r == min)
    ensures r > min ==> Pow2(r - 1) < BLOCK_STRUCT_SIZE
  {
    assert Pow2(4) == 16 && Pow2(5) == 32;
    if Pow2(min) < BLOCK_STRUCT_SIZE then
      assert min < 5 by { if min >= 5 { Pow2Mono(5, min); } }
      5
    else min
  }

  /** buddy_init: no pool when even the smallest block would not fit. */
  method Init(base: nat, pool: nat, min0: nat) returns (mp: Mempool?)
    ensures mp == null <==> MinimumOrder(min0) > pool
    ensures mp != null ==>
              && mp.Valid() && fresh(mp) && fresh(mp.tagBits) && fresh(mp.avail) && mp.heap.free == map[]
              && mp.baseAddr == base && mp.poolOrder == pool && mp.minOrder == MinimumOrder(min0)
  {
    var min := MinimumOrder(min0);
    if min > pool { return null; }
    mp := new Mempool(base, pool, min);
  }

  class Mempool {
    const baseAddr: nat
    const poolOrder: nat
    const minOrder: nat
    const tagBits: array<bool>
    const avail: array<seq<nat>>   // one list of free blocks for each order
    var header: map<nat, nat>      // the order stored at the head of a block
    ghost var heap: Heap

    ghost predicate Valid()
      reads this, tagBits, avail
    {
      && heap.base == baseAddr && heap.pool == poolOrder && heap.min == minOrder
      && StateOk(heap, tagBits[..], avail[..], header, {})
    }

    /** buddy_init: all memory starts outside the allocator. */
    constructor (base: nat, pool: nat, min: nat)
      requires min <= pool
      ensures Valid() && fresh(tagBits) && fresh(avail)
      ensures baseAddr == base && poolOrder == pool && minOrder == min
      ensures heap.free == map[]
    {
      baseAddr, poolOrder, minOrder := base, pool, min;
      tagBits := new bool[Pow2(pool - min)](_ => false);
      avail := new seq<nat>[pool + 1](_ => []);
      header := map[];
      heap := AllOwned(base, pool, min);
      new;
      AllOwnedTiled(base, pool, min);
      FreshTags(heap, tagBits[..]);
    }

    /** Owners may write anything into their own memory, block headers included. */
    method OwnerWrites(memory: map<nat, nat>)
      requires Valid() && forall a: nat :: a in heap.free ==> a in header && a in memory && memory[a] == header[a]
      modifies this`header
      ensures Valid() && header == memory
    {
      hide Tiled, Coalesced, TagsOk, ListsOk;
      header := memory;
    }

    /** buddy_alloc: a block of 2^order bytes, or nothing when no aligned range of that
        size is free. */
    method Alloc(order0: nat) returns (ok: bool, block: nat)
      requires Valid() && order0 <= poolOrder
      modifies this, tagBits, avail
      ensures Valid()
      ensures var order := if order0 < minOrder then minOrder else order0;
              && (ok <==> exists a: nat :: BlockAt(old(heap), a, order) && AllFree(old(heap), a, order))
              && (!ok ==> heap == old(heap))
              && (ok ==>
                    && BlockAt(old(heap), block, order) && AllFree(old(heap), block, order)
                    && block !in old(heap).owned && heap.owned == old(heap).owned[block := order]
                    && forall x: nat :: FreeByte(heap, x) <==> FreeByte(old(heap), x) && !Within(block, order, x))
    {
      hide *;
      var order := if order0 < minOrder then minOrder else order0;
      block := 0;
      ValidBounds();
      var j := order;
      while j <= poolOrder
        invariant order <= j <= poolOrder + 1 && Valid() && heap == old(heap)
        invariant avail.Length == poolOrder + 1
        invariant forall i: nat :: order <= i < j ==> avail[i] == []
      {
        if avail[j] != [] {
          block := SplitDown(order, j);
          return true, block;
        }
        j := j + 1;
      }
      NoneFree(order);
      ok := false;
    }

    lemma ValidHeap()
      requires Valid()
      ensures Tiled(heap) && Coalesced(heap) && heap.base == baseAddr && heap.pool == poolOrder && heap.min == minOrder
    {
      hide Tiled, Coalesced, TagsOk, ListsOk, HeadersOk;
    }

    lemma ValidBounds()
      requires Valid()
      ensures minOrder <= poolOrder && avail.Length == poolOrder + 1
    {
      hide Pow2;
    }

    /** No block of sufficient order, hence no free range. */
    lemma NoneFree(order: nat)
      requires Valid() && minOrder <= order <= poolOrder && avail.Length == poolOrder + 1
      requires forall i: nat :: order <= i <= poolOrder ==> avail[i] == []
      ensures forall a: nat :: BlockAt(heap, a, order) ==> !AllFree(heap, a, order)
    {
      hide Pow2, Low, Aligned, Shr, BuddyOf;
      forall a: nat | BlockAt(heap, a, order) ensures !AllFree(heap, a, order) {
        if AllFree(heap, a, order) {
          FreeSpanInOneBlock(heap, a, order);
          var f: nat :| f in heap.free && f <= a && a + Pow2(order) <= f + Pow2(heap.free[f]);
          assert f in avail[..][heap.free[f]];
          PowDouble(heap.free[f]);
          if heap.free[f] < order { Pow2Mono(heap.free[f], order); }
        }
      }
    }

    /** Takes the first block of list j and trims it to the order wanted. */
    method SplitDown(order: nat, j0: nat) returns (block: nat)
      requires Valid() && minOrder <= order <= j0 <= poolOrder && avail.Length == poolOrder + 1 && avail[j0] != []
      modifies this, tagBits, avail
      ensures Valid()
      ensures BlockAt(old(heap), block, order) && AllFree(old(heap), block, order)
      ensures block !in old(heap).owned && heap.owned == old(heap).owned[block := order]
      ensures forall x: nat :: FreeByte(heap, x) <==> FreeByte(old(heap), x) && !Within(block, order, x)
    {
      hide Pow2, Low, Shr, Aligned, StateOk, BlockId, FreeByte, Tiled, Within, BuddyOf;
      var j := j0;
      TakeStep(heap, tagBits[..], avail[..], header, j);
      block := avail[j][0];
      TakenBlock(heap, tagBits[..], avail[..], header, block);
      avail[j] := avail[j][1..];
      tagBits[BlockId(baseAddr, minOrder, block)] := false;
      heap := Take(heap, block);
      while j > order
        invariant order <= j <= j0 && Valid() && avail.Length == poolOrder + 1
        invariant block !in old(heap).owned && heap.owned == old(heap).owned[block := j]
        invariant BlockAt(old(heap), block, j) && AllFree(old(heap), block, j)
        invariant forall x: nat :: FreeByte(heap, x) <==> FreeByte(old(heap), x) && !Within(block, j, x)
      {
        SplitStep(heap, tagBits[..], avail[..], header, block);
        TrimmedBlock(heap, tagBits[..], avail[..], header, old(heap), block);
        j := j - 1;
        var buddy := block + Pow2(j);
        header := header[buddy := j];
        tagBits[BlockId(baseAddr, minOrder, buddy)] := true;
        avail[j] := [buddy] + avail[j];
        heap := Split(heap, block);
      }
    }

    /** buddy_free: hands back a range of whole owned blocks, usually a single one, and
        merges it with free buddies as far as possible. */
    method Free(addr: nat, order0: nat)
      requires Valid() && order0 <= poolOrder
      requires OwnedRange(heap, addr, if order0 < minOrder then minOrder else order0)
      modifies this, tagBits, avail
      ensures Valid()
      ensures var order := if order0 < minOrder then minOrder else order0;
              && heap.owned == Rest(old(heap), addr, order)
              && forall x: nat :: FreeByte(heap, x) <==> FreeByte(old(heap), x) || Within(addr, order, x)
    {
      hide Pow2, Low, Shr, Aligned, StateOk, BlockId, FreeByte, Tiled, Within, BuddyOf, Coalesced, OwnedRange, Freeing, Rest,
           Join, Merge, Give, Remove;
      var order := if order0 < minOrder then minOrder else order0;
      ghost var o0 := order;
      ghost var h0 := heap;
      FreeingStart(heap, tagBits[..], avail[..], header, addr, order);
      assert !tagBits[BlockId(baseAddr, minOrder, addr)];   // BUG_ON(is_available(mp, block))
      heap := Join(heap, addr, order);
      var block := addr;
      while order < poolOrder
        invariant Freeing(heap, tagBits[..], avail[..], header, block, order, h0, addr, o0)
        invariant order <= poolOrder && baseAddr <= block && avail.Length == poolOrder + 1
        invariant h0 == old(heap) && heap.base == baseAddr && heap.pool == poolOrder && heap.min == minOrder
      {
        FreeingBuddy(heap, tagBits[..], avail[..], header, block, order, h0, addr, o0);
        var buddy := BuddyOf(baseAddr, block, order);
        if !tagBits[BlockId(baseAddr, minOrder, buddy)] { break; }
        if header[buddy] != order { break; }
        FreeingMerge(heap, tagBits[..], avail[..], header, block, order, h0, addr, o0);
        ghost var was := avail[..];
        avail[order] := Remove(avail[order], buddy);
        assert avail[..] == was[order := Remove(was[order], buddy)];
        heap := Merge(heap, block);
        if buddy < block { block := buddy; }
        order := order + 1;
        header := header[block := order];
      }
      FreeingEnd(heap, tagBits[..], avail[..], header, block, order, h0, addr, o0);
      header := header[block := order];
      ghost var tags, lists := tagBits[..], avail[..];
      tagBits[BlockId(baseAddr, minOrder, block)] := true;
      avail[order] := [block] + avail[order];
      assert tagBits[..] == tags[BlockId(baseAddr, minOrder, block) := true];
      assert avail[..] == lists[order := [block] + lists[order]];
      heap := Give(heap, block);
    }
  }

  /** A range is being freed: the block at hand has grown from it, and together with the
      free bytes it covers what was free plus the range. */
  ghost predicate Freeing(h: Heap, tags: seq<bool>, lists: seq<seq<nat>>, header: map<nat, nat>, block: nat, order: nat,
                          h0: Heap, addr: nat, o0: nat)
  {
    && h.base == h0.base && h.pool == h0.pool && h.min == h0.min
    && StateOk(h, tags, lists, header, {block})
    && h.base <= block && block in h.owned && h.owned[block] == order
    && h.owned - {block} == Rest(h0, addr, o0)
    && forall x: nat :: FreeByte(h, x) || Within(block, order, x) <==> FreeByte(h0, x) || Within(addr, o0, x)
  }

  /** The blocks that stay owned when the range [a, a + 2^o) is freed. */
  lemma RestoredOwned(h: Heap, h': Heap, a: nat, o: nat)
    requires Tiled(h') && a !in h.owned && h'.owned == h.owned[a := o]
    ensures OwnedRange(h', a, o) && Rest(h', a, o) == h.owned
  {
    OwnedBlockIsRange(h', a);
    hide Tiled, OwnedRange;
    assert Join(h', a, o).owned == Rest(h', a, o)[a := o];
    var rest := Rest(h', a, o);
    assert a !in rest;
    forall b | b in h.owned ensures b in rest { assert b in h'.owned && b in rest[a := o]; }
    forall b | b in rest ensures b in h.owned && rest[b] == h.owned[b] { assert b in h'.owned; }
  }

  /** Freeing what was just allocated gives back the very same pool. */
  method AllocThenFree(mp: Mempool, order0: nat) returns (ok: bool)
    requires mp.Valid() && order0 <= mp.poolOrder
    modifies mp, mp.tagBits, mp.avail
    ensures mp.Valid() && mp.heap == old(mp.heap)
  {
    ghost var h := mp.heap;
    mp.ValidHeap();
    hide Tiled, Coalesced, FreeByte, AllFree, BlockAt, OwnedRange, StateOk, Rest;
    var block;
    ok, block := mp.Alloc(order0);
    if ok {
      ghost var order := if order0 < mp.minOrder then mp.minOrder else order0;
      mp.ValidHeap();
      RestoredOwned(h, mp.heap, block, order);
      mp.Free(block, order0);
      mp.ValidHeap();
      BlockBytes(h, block, order);
      FreeBlocksUnique(h, mp.heap);
    }
  }

  /** The bytes of a free range are free. */
  lemma BlockBytes(h: Heap, a: nat, o: nat)
    requires AllFree(h, a, o)
    ensures forall x: nat :: Within(a, o, x) ==> FreeByte(h, x)
  {}

  ghost function Rest(h: Heap, a: nat, o: nat): (r: map<nat, nat>) {
    map b | b in h.owned && !(a <= b < a + Pow2(o)) :: h.owned[b]
  }

  lemma FreeingStart(h: Heap, tags: seq<bool>, lists: seq<seq<nat>>, header: map<nat, nat>, a: nat, o: nat)
    requires StateOk(h, tags, lists, header, {}) && OwnedRange(h, a, o)
    ensures h.base <= a && BlockId(h.base, h.min, a) < |tags| && !tags[BlockId(h.base, h.min, a)]
    ensures |lists| == h.pool + 1 && h.min <= o <= h.pool
    ensures var h' := Join(h, a, o);
            h'.base == h.base && h'.pool == h.pool && h'.min == h.min && Freeing(h', tags, lists, header, a, o, h, a, o)
  {
    hide Pow2, Low, Shr, Aligned, StateOk, BlockId, FreeByte, Tiled, Within, BuddyOf, Coalesced;
    JoinStep(h, tags, lists, header, a, o);
    JoinedRange(h, tags, lists, header, a, o);
    InHand(Join(h, a, o), tags, lists, header, a);
  }

  lemma FreeingBuddy(h: Heap, tags: seq<bool>, lists: seq<seq<nat>>, header: map<nat, nat>, block: nat, order: nat,
                     h0: Heap, addr: nat, o0: nat)
    requires Freeing(h, tags, lists, header, block, order, h0, addr, o0) && order < h.pool
    ensures h.base <= block
    ensures var b := BuddyOf(h.base, block, order);
            && h.base <= b && BlockId(h.base, h.min, b) < |tags|
            && (tags[BlockId(h.base, h.min, b)] <==> b in h.free)
            && (b in h.free ==> b in header && header[b] == h.free[b])
  {
    hide Pow2, Low, Shr, Aligned, StateOk, BlockId, FreeByte, Tiled, Within, BuddyOf, Coalesced, Rest;
    BuddyTag(h, tags, lists, header, block);
    FreeHeaders(h, tags, lists, header, {block});
  }

  lemma FreeingMerge(h: Heap, tags: seq<bool>, lists: seq<seq<nat>>, header: map<nat, nat>, block: nat, order: nat,
                     h0: Heap, addr: nat, o0: nat)
    requires Freeing(h, tags, lists, header, block, order, h0, addr, o0) && order < h.pool && h.base <= block
    requires var b := BuddyOf(h.base, block, order); b in h.free && h.free[b] == order
    ensures block in h.owned && order < |lists|
    ensures var b, h' := BuddyOf(h.base, block, order), Merge(h, block);
            var p := if b < block then b else block;
            && h.base <= p && h'.base == h.base && h'.pool == h.pool && h'.min == h.min
            && Freeing(h', tags, lists[order := Remove(lists[order], b)], header[p := order + 1], p, order + 1, h0, addr, o0)
  {
    hide Pow2, Low, Shr, Aligned, BlockId, FreeByte, Tiled, Within, BuddyOf, Coalesced, Rest, TagsOk;
    MergeStep(h, tags, lists, header, block);
    MergedRange(h, tags, lists, header, block);
  }

  lemma FreeingEnd(h: Heap, tags: seq<bool>, lists: seq<seq<nat>>, header: map<nat, nat>, block: nat, order: nat,
                   h0: Heap, addr: nat, o0: nat)
    requires Freeing(h, tags, lists, header, block, order, h0, addr, o0)
    requires order < h.pool ==> var b := BuddyOf(h.base, block, order); !(b in h.free && h.free[b] == order)
    ensures block in h.owned && h.base <= block && order < |lists| && BlockId(h.base, h.min, block) < |tags|
    ensures var h' := Give(h, block);
            && h'.base == h.base && h'.pool == h.pool && h'.min == h.min && h'.owned == Rest(h0, addr, o0)
            && StateOk(h', tags[BlockId(h.base, h.min, block) := true], lists[order := [block] + lists[order]],
                       header[block := order], {})
            && forall x: nat :: FreeByte(h', x) <==> FreeByte(h0, x) || Within(addr, o0, x)
  {
    hide Pow2, Low, Shr, Aligned, BlockId, FreeByte, Tiled, Within, BuddyOf, Coalesced, Rest, TagsOk;
    GiveStep(h, tags, lists, header, block);
    GivenRange(h, tags, lists, header, block);
  }

  lemma JoinedRange(h: Heap, tags: seq<bool>, lists: seq<seq<nat>>, header: map<nat, nat>, a: nat, o: nat)
    requires StateOk(h, tags, lists, header, {}) && OwnedRange(h, a, o)
    ensures var h' := Join(h, a, o);
            && h.base <= a && a in h'.owned && h'.owned[a] == o && o <= h.pool && |lists| == h.pool + 1
            && h'.owned - {a} == Rest(h, a, o)
            && forall x: nat :: FreeByte(h', x) <==> FreeByte(h, x)
  {
    hide Pow2, Low, Aligned, Tiled, FreeByte;
    PowDouble(o);
    forall x: nat ensures FreeByte(Join(h, a, o), x) <==> FreeByte(h, x) { JoinBytes(h, a, o, x); }
  }

  /** A block may be treated as the one at hand. */
  lemma InHand(h: Heap, tags: seq<bool>, lists: seq<seq<nat>>, header: map<nat, nat>, a: nat)
    requires StateOk(h, tags, lists, header, {})
    ensures StateOk(h, tags, lists, header, {a})
  {
    hide Pow2, Low, Aligned, Tiled;
  }

  lemma FreeHeaders(h: Heap, tags: seq<bool>, lists: seq<seq<nat>>, header: map<nat, nat>, hand: set<nat>)
    requires StateOk(h, tags, lists, header, hand)
    ensures forall a: nat :: a in h.free ==> a in header && header[a] == h.free[a]
  {
    hide Pow2, Low, Aligned, Tiled;
  }

  lemma MergedRange(h: Heap, tags: seq<bool>, lists: seq<seq<nat>>, header: map<nat, nat>, c: nat)
    requires StateOk(h, tags, lists, header, {c}) && c in h.owned && h.base <= c && h.owned[c] < h.pool
    requires var b := BuddyOf(h.base, c, h.owned[c]); b in h.free && h.free[b] == h.owned[c]
    ensures var o, h' := h.owned[c], Merge(h, c);
            var p := Parent(h.base, c, o);
            && h.base <= p && p in h'.owned && h'.owned[p] == o + 1 && h'.owned - {p} == h.owned - {c}
            && forall x: nat :: FreeByte(h', x) || Within(p, o + 1, x) <==> FreeByte(h, x) || Within(c, o, x)
  {
    hide Pow2, Low, Aligned, Tiled, FreeByte, BuddyOf;
    TiledAt(h, c);
    BuddyPair(h, c, h.owned[c]);
    FreeOwnedApart(h, c);
    var o := h.owned[c];
    forall x: nat
      ensures FreeByte(Merge(h, c), x) || Within(Parent(h.base, c, o), o + 1, x) <==> FreeByte(h, x) || Within(c, o, x)
    {
      MergeBytes(h, c, x);
    }
  }

  lemma GivenRange(h: Heap, tags: seq<bool>, lists: seq<seq<nat>>, header: map<nat, nat>, a: nat)
    requires StateOk(h, tags, lists, header, {a}) && a in h.owned
    ensures forall x: nat :: FreeByte(Give(h, a), x) <==> FreeByte(h, x) || Within(a, h.owned[a], x)
  {
    hide Pow2, Low, Aligned, Tiled, FreeByte;
    forall x: nat ensures FreeByte(Give(h, a), x) <==> FreeByte(h, x) || Within(a, h.owned[a], x) { GiveBytes(h, a, x); }
  }

  lemma TakenBlock(h: Heap, tags: seq<bool>, lists: seq<seq<nat>>, header: map<nat, nat>, a: nat)
    requires StateOk(h, tags, lists, header, {}) && a in h.free
    ensures a !in h.owned && BlockAt(h, a, h.free[a]) && AllFree(h, a, h.free[a])
    ensures forall x: nat :: FreeByte(Take(h, a), x) <==> FreeByte(h, x) && !Within(a, h.free[a], x)
  {
    hide Pow2, Low, Aligned, Tiled;
    TiledAt(h, a);
    forall x: nat ensures FreeByte(Take(h, a), x) <==> FreeByte(h, x) && !Within(a, h.free[a], x) { TakeBytes(h, a, x); }
    forall x: nat | a <= x < a + Pow2(h.free[a]) ensures FreeByte(h, x) { assert Holds(h, a, x); }
  }

  lemma TrimmedBlock(h: Heap, tags: seq<bool>, lists: seq<seq<nat>>, header: map<nat, nat>, h0: Heap, a: nat)
    requires StateOk(h, tags, lists, header, {}) && a in h.owned && h.owned[a] > h.min
    requires h0.base == h.base && h0.pool == h.pool && h0.min == h.min
    requires BlockAt(h0, a, h.owned[a]) && AllFree(h0, a, h.owned[a])
    requires forall x: nat :: FreeByte(h, x) <==> FreeByte(h0, x) && !Within(a, h.owned[a], x)
    ensures var o := h.owned[a] - 1;
            && BlockAt(h0, a, o) && AllFree(h0, a, o)
            && forall x: nat :: FreeByte(Split(h, a), x) <==> FreeByte(h0, x) && !Within(a, o, x)
  {
    hide Pow2, Low, Aligned, Tiled, FreeByte, Shr;
    var o := h.owned[a] - 1;
    HalvesAreFree(h0, a, h.owned[a]);
    PowDouble(o);
    forall x: nat ensures FreeByte(Split(h, a), x) <==> FreeByte(h0, x) && !Within(a, o, x) {
      SplitBytes(h, a, x);
      assert Within(a + Pow2(o), o, x) ==> FreeByte(h0, x);
    }
  }

  /** Initially every smallest block is owned. */
  ghost function AllOwned(base: nat, pool: nat, min: nat): (h: Heap) {
    Heap(base, pool, min, map[], map a: nat | base <= a < base + Pow2(pool) && SmallestAt(base, min, a) :: min)
  }

  ghost predicate SmallestAt(base: nat, min: nat, a: nat) {
    base <= a && Aligned(a - base, min)
  }

  lemma FreshTags(h: Heap, tags: seq<bool>)
    requires Tiled(h) && h.free == map[] && |tags| == Pow2(h.pool - h.min) && forall i :: 0 <= i < |tags| ==> !tags[i]
    ensures TagsOk(h, tags, {})
  {
    hide Tiled, Pow2;
    forall a: nat | IsBlock(h, a) ensures TagAt(h, tags, a) == (a in h.free) {
      TiledAt(h, a);
      IdInRange(h, a, Order(h, a));
    }
  }

  lemma AllOwnedTiled(base: nat, pool: nat, min: nat)
    requires min <= pool
    ensures Tiled(AllOwned(base, pool, min))
  {
    hide Pow2, Low, Shl, Shr;
    var h := AllOwned(base, pool, min);
    PowDouble(min);
    forall a: nat | IsBlock(h, a) ensures BlockAt(h, a, Order(h, a)) {
      RoomAbove(a - base, min, pool);
    }
    forall a: nat, b: nat, x: nat | Holds(h, a, x) && Holds(h, b, x) ensures a == b {
      if a < b { AlignedGap(a - base, b - base, min); }
      if b < a { AlignedGap(b - base, a - base, min); }
    }
    forall x: nat | InPool(h, x) ensures exists a: nat :: Holds(h, a, x) {
      var q := Shl(Shr(x - base, min), min);
      Decompose(x - base, min);
      ShlAligned(Shr(x - base, min), min);
      assert Holds(h, base + q, x);
    }
  }
}
