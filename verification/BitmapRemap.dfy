/** Rank and select on bitmaps, and the map between two bitmaps that they define. */
module BitmapRemap {
  import opened Bitmaps

  /** The number of set bits below a position. */
  function Rank(bits: seq<bool>, pos: nat): (r: nat)
    requires pos <= |bits|
    ensures r <= pos
  {
    if pos == 0 then 0 else Rank(bits, pos - 1) + if bits[pos - 1] then 1 else 0
  }

  function Weight(bits: seq<bool>): (w: nat) {
    Rank(bits, |bits|)
  }

  lemma {:induction false} RankMono(bits: seq<bool>, p: nat, q: nat)
    requires p <= q <= |bits|
    ensures Rank(bits, p) <= Rank(bits, q)
    ensures p < q && bits[p] ==> Rank(bits, p) < Rank(bits, q)
    decreases q
  {
    if p < q {
      RankMono(bits, p, q - 1);
    }
  }

  lemma {:induction false} RankSame(bits: seq<bool>, p: nat, q: nat)
    requires p <= q <= |bits| && forall k :: p <= k < q ==> !bits[k]
    ensures Rank(bits, p) == Rank(bits, q)
    decreases q
  {
    if p < q { RankSame(bits, p, q - 1); }
  }

  /** bitmap_pos_to_ord: which set bit it is, or -1 if the bit is not set. */
  method PosToOrd(bits: seq<bool>, pos: int) returns (ord: int)
    ensures ord == if 0 <= pos < |bits| && bits[pos] then Rank(bits, pos) else -1
  {
    if pos < 0 || pos >= |bits| || !bits[pos] { return -1; }
    var i := FindNextBit(bits, 0);
    RankSame(bits, 0, i);
    ord := 0;
    while i < pos
      invariant i <= pos && bits[i] && ord == Rank(bits, i)
    {
      ghost var was := i;
      i := FindNextBit(bits, i + 1);
      RankSame(bits, was + 1, i);
      ord := ord + 1;
    }
    assert i == pos;
  }

  /** p is the position of set bit number ord. */
  predicate IsSelect(bits: seq<bool>, ord: nat, p: nat) {
    p < |bits| && bits[p] && Rank(bits, p) == ord
  }

  /** bitmap_ord_to_pos: the position of set bit number ord, or 0 if there are not as many. */
  method OrdToPos(bits: seq<bool>, ord: int) returns (pos: nat)
    ensures 0 <= ord < Weight(bits) ==> IsSelect(bits, ord, pos)
    ensures !(0 <= ord < Weight(bits)) ==> pos == 0
  {
    pos := 0;
    if 0 <= ord < |bits| {
      var left := ord;
      var i := FindNextBit(bits, 0);
      RankSame(bits, 0, i);
      while i < |bits| && left > 0
        invariant i <= |bits| && 0 <= left && (i < |bits| ==> bits[i]) && ord - left == Rank(bits, i)
        decreases |bits| - i
      {
        ghost var was := i;
        i := FindNextBit(bits, i + 1);
        RankSame(bits, was + 1, i);
        left := left - 1;
      }
      if i < |bits| {
        RankMono(bits, i, |bits|);
        if left == 0 { pos := i; }
      }
    }
  }

  /** The position that a bit is mapped to. */
  ghost predicate Remaps(from: seq<bool>, to: seq<bool>, p: int, q: int) {
    if 0 <= p < |from| && from[p] && Weight(to) > 0 then q >= 0 && IsSelect(to, Rank(from, p) % Weight(to), q)
    else q == p
  }

  /** bitmap_bitremap. */
  method BitRemap(p: int, from: seq<bool>, to: seq<bool>) returns (q: int)
    requires |from| == |to|
    ensures Remaps(from, to, p, q)
  {
    var w := WeightOf(to);
    var n := PosToOrd(from, p);
    if n < 0 || w == 0 { return p; }
    q := OrdToPos(to, n % w);
  }

  /** bitmap_weight. */
  method WeightOf(bits: seq<bool>) returns (w: nat)
    ensures w == Weight(bits)
  {
    w := 0;
    for k := 0 to |bits|
      invariant w == Rank(bits, k)
    {
      if bits[k] { w := w + 1; }
    }
  }

  lemma SelectUnique(bits: seq<bool>, ord: nat, p: nat, q: nat)
    requires IsSelect(bits, ord, p) && IsSelect(bits, ord, q)
    ensures p == q
  {
    if p < q { RankMono(bits, p, q); } else { RankMono(bits, q, p); }
  }

  ghost predicate SetIn(bits: seq<bool>, p: int) {
    0 <= p < |bits| && bits[p]
  }

  lemma RankBelow(bits: seq<bool>, p: nat)
    requires SetIn(bits, p)
    ensures Rank(bits, p) < Weight(bits)
  {
    RankMono(bits, p, |bits|);
  }

  lemma ModSmall(n: nat, w: nat)
    requires n < w
    ensures n % w == n
  {}

  /** Between bitmaps of equal weight the n-th set bit goes to the n-th set bit. */
  lemma RemapsIff(from: seq<bool>, to: seq<bool>, p: int, q: int)
    requires Weight(from) == Weight(to) && SetIn(from, p)
    ensures Remaps(from, to, p, q) <==> q >= 0 && IsSelect(to, Rank(from, p), q)
  {
    RankBelow(from, p);
    hide Rank, IsSelect;
    ModSmall(Rank(from, p), Weight(to));
  }

  /** The map takes set bits to set bits, and the map back takes them to where they were. */
  lemma RemapBack(from: seq<bool>, to: seq<bool>, p: int, q: int, back: int)
    requires |from| == |to| && Weight(from) == Weight(to) && SetIn(from, p) && Remaps(from, to, p, q) && Remaps(to, from, q, back)
    ensures SetIn(to, q) && Rank(to, q) == Rank(from, p) && back == p
  {
    hide Rank, Remaps, Weight;
    RemapsIff(from, to, p, q);
    RemapsIff(to, from, q, back);
    SelectUnique(from, Rank(from, p), p, back);
  }

  lemma SelectMonotone(bits: seq<bool>, n: nat, m: nat, p: nat, q: nat)
    requires IsSelect(bits, n, p) && IsSelect(bits, m, q)
    ensures p < q <==> n < m
  {
    if p < q { RankMono(bits, p, q); }
    if q < p { RankMono(bits, q, p); }
  }

  /** It keeps the order, so it is one to one. */
  lemma RemapMonotone(from: seq<bool>, to: seq<bool>, p: int, q: int, p': int, q': int)
    requires |from| == |to| && Weight(from) == Weight(to) && SetIn(from, p) && SetIn(from, p')
    requires Remaps(from, to, p, q) && Remaps(from, to, p', q')
    ensures p < p' <==> q < q'
  {
    hide Rank, Remaps, Weight;
    RemapsIff(from, to, p, q);
    RemapsIff(from, to, p', q');
    SelectMonotone(from, Rank(from, p), Rank(from, p'), p, p');
    SelectMonotone(to, Rank(from, p), Rank(from, p'), q, q');
  }

  lemma {:induction false} SelectExists(bits: seq<bool>, ord: nat, n: nat) returns (p: nat)
    requires n <= |bits| && ord < Rank(bits, n)
    ensures IsSelect(bits, ord, p) && p < n
    decreases n
  {
    if bits[n - 1] && Rank(bits, n - 1) == ord { p := n - 1; } else { p := SelectExists(bits, ord, n - 1); }
  }

  /** It reaches every set bit. */
  lemma RemapOnto(from: seq<bool>, to: seq<bool>, q: int) returns (p: int)
    requires |from| == |to| && Weight(from) == Weight(to) && SetIn(to, q)
    ensures SetIn(from, p) && Remaps(from, to, p, q)
  {
    RankBelow(to, q);
    p := SelectExists(from, Rank(to, q), |from|);
    hide Rank, Remaps;
    RemapsIff(from, to, p, q);
  }
}
