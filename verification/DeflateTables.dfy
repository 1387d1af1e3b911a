/** The constants of the DEFLATE format, from the rules behind the tables of RFC 1951. */
module DeflateTables {
  import opened Bits
  import opened HuffmanCode
  import opened HuffmanLengths
  import opened Deflate

  // Lengths and distances (section 3.2.5)

  /** Extra bits and smallest value of the n-th code: codes of equal width come in groups of
      2^m, and the width grows by one bit from group to group. */
  function GroupExtra(m: nat, n: nat): (e: nat) {
    if n < 2 * Pow2(m) then 0 else n / Pow2(m) - 1
  }

  function GroupBase(m: nat, n: nat): (r: nat) {
    if n < 2 * Pow2(m) then n else (Pow2(m) + n % Pow2(m)) * Pow2(GroupExtra(m, n))
  }

  /** Length codes are groups of four from length 3 on; the last code stands for 258 alone. */
  lemma LengthTable(i: nat)
    requires i < 31
    ensures i < 28 ==> LengthExtra()[i] == GroupExtra(2, i) && LengthBase()[i] == 3 + GroupBase(2, i)
    ensures i == 28 ==> LengthExtra()[i] == 0 && LengthBase()[i] == 258
    ensures i > 28 <==> LengthExtra()[i] == 99
  {
    if i < 28 { hide GroupExtra, GroupBase; if i < 16 { ShortLengthTable(i); } else { LongLengthTable(i); } }
  }

  lemma ShortLengthTable(i: nat)
    requires i < 16
    ensures LengthExtra()[i] == GroupExtra(2, i) && LengthBase()[i] == 3 + GroupBase(2, i)
  {
    assert Pow2(2) == 4;
  }

  lemma LongLengthTable(i: nat)
    requires 16 <= i < 28
    ensures LengthExtra()[i] == GroupExtra(2, i) && LengthBase()[i] == 3 + GroupBase(2, i)
  {
    assert Pow2(2) == 4 && Pow2(3) == 8 && Pow2(4) == 16 && Pow2(5) == 32;
  }

  /** Distance codes are groups of two from distance 1 on. */
  lemma DistanceTable(i: nat)
    requires i < 30
    ensures DistanceExtra()[i] == GroupExtra(1, i) && DistanceBase()[i] == 1 + GroupBase(1, i)
  {
    hide GroupExtra, GroupBase, DistanceExtra, DistanceBase;
    if i < 15 { NearDistances(i); } else { FarDistances(i); }
  }

  lemma NearDistances(i: nat)
    requires i < 15
    ensures DistanceExtra()[i] == GroupExtra(1, i) && DistanceBase()[i] == 1 + GroupBase(1, i)
  {
    Pow2Small(GroupExtra(1, i));
  }

  lemma FarDistances(i: nat)
    requires 15 <= i < 30
    ensures DistanceExtra()[i] == GroupExtra(1, i) && DistanceBase()[i] == 1 + GroupBase(1, i)
  {
    Pow2Small(GroupExtra(1, i));
  }

  /** The values of a code begin where those of the code before it end. */
  lemma LengthsTile(i: nat)
    requires i < 27
    ensures LengthBase()[i + 1] == LengthBase()[i] + Pow2(LengthExtra()[i])
  {
    Pow2Small(LengthExtra()[i]);
  }

  lemma DistancesTile(i: nat)
    requires i < 29
    ensures DistanceBase()[i + 1] == DistanceBase()[i] + Pow2(DistanceExtra()[i])
  {
    hide DistanceExtra, DistanceBase, Pow2;
    if i < 15 { NearTile(i); } else { FarTile(i); }
  }

  lemma NearTile(i: nat)
    requires i < 15
    ensures DistanceBase()[i + 1] == DistanceBase()[i] + Pow2(DistanceExtra()[i])
  {
    Pow2Small(DistanceExtra()[i]);
  }

  lemma FarTile(i: nat)
    requires 15 <= i < 29
    ensures DistanceBase()[i + 1] == DistanceBase()[i] + Pow2(DistanceExtra()[i])
  {
    Pow2Small(DistanceExtra()[i]);
  }

  /** Codes stand for consecutive ranges: in increasing order and without a gap. */
  ghost predicate Tiles(base: seq<nat>, extra: seq<nat>, n: nat) {
    n < |base| && n < |extra| && forall i :: 0 <= i < n ==> base[i + 1] == base[i] + Pow2(extra[i])
  }

  predicate InRange(base: seq<nat>, extra: seq<nat>, i: nat, v: nat)
    requires i < |base| && i < |extra|
  {
    base[i] <= v < base[i] + Pow2(extra[i])
  }

  lemma {:induction false} TilesUp(base: seq<nat>, extra: seq<nat>, n: nat, i: nat, j: nat)
    requires Tiles(base, extra, n) && i < j <= n
    ensures base[i] + Pow2(extra[i]) <= base[j]
  {
    if i < j - 1 {
      TilesUp(base, extra, n, i, j - 1);
      assert base[j - 1 + 1] == base[j - 1] + Pow2(extra[j - 1]);
    }
  }

  lemma {:induction false} TileOf(base: seq<nat>, extra: seq<nat>, n: nat, v: nat) returns (i: nat)
    requires Tiles(base, extra, n) && base[0] <= v < base[n] + Pow2(extra[n])
    ensures i <= n && InRange(base, extra, i, v)
  {
    if base[n] <= v { return n; }
    assert base[n - 1 + 1] == base[n - 1] + Pow2(extra[n - 1]);
    i := TileOf(base, extra, n - 1, v);
  }

  lemma TilesApart(base: seq<nat>, extra: seq<nat>, n: nat, i: nat, j: nat, v: nat)
    requires Tiles(base, extra, n) && i <= n && j <= n && InRange(base, extra, i, v) && InRange(base, extra, j, v)
    ensures i == j
  {
    if i < j { TilesUp(base, extra, n, i, j); }
    if j < i { TilesUp(base, extra, n, j, i); }
  }

  /** Every length from 3 to 258 has exactly one code below 285. */
  lemma LengthCode(len: nat) returns (i: nat)
    requires 3 <= len <= 258
    ensures i < 28 && InRange(LengthBase(), LengthExtra(), i, len)
    ensures forall j: nat :: j < 28 && InRange(LengthBase(), LengthExtra(), j, len) ==> j == i
  {
    hide InRange, LengthBase, LengthExtra, Pow2;
    assert Tiles(LengthBase(), LengthExtra(), 27) by {
      forall i: nat | i < 27 ensures LengthBase()[i + 1] == LengthBase()[i] + Pow2(LengthExtra()[i]) { LengthsTile(i); }
    }
    LengthEnds();
    i := TileOf(LengthBase(), LengthExtra(), 27, len);
    forall j: nat | j < 28 && InRange(LengthBase(), LengthExtra(), j, len) ensures j == i {
      TilesApart(LengthBase(), LengthExtra(), 27, i, j, len);
    }
  }

  lemma LengthEnds()
    ensures LengthBase()[0] == 3 && LengthBase()[27] + Pow2(LengthExtra()[27]) == 259
  {
    Pow2Small(5);
  }

  /** Every distance from 1 to 32768 has exactly one code. */
  lemma DistanceCodeOf(dist: nat) returns (i: nat)
    requires 1 <= dist <= 32768
    ensures i < 30 && InRange(DistanceBase(), DistanceExtra(), i, dist)
    ensures forall j: nat :: j < 30 && InRange(DistanceBase(), DistanceExtra(), j, dist) ==> j == i
  {
    hide InRange, DistanceBase, DistanceExtra, Pow2;
    assert Tiles(DistanceBase(), DistanceExtra(), 29) by {
      forall i: nat | i < 29 ensures DistanceBase()[i + 1] == DistanceBase()[i] + Pow2(DistanceExtra()[i]) { DistancesTile(i); }
    }
    DistanceEnds();
    i := TileOf(DistanceBase(), DistanceExtra(), 29, dist);
    forall j: nat | j < 30 && InRange(DistanceBase(), DistanceExtra(), j, dist) ensures j == i {
      TilesApart(DistanceBase(), DistanceExtra(), 29, i, j, dist);
    }
  }

  lemma DistanceEnds()
    ensures DistanceBase()[0] == 1 && DistanceBase()[29] + Pow2(DistanceExtra()[29]) == 32769
  {
    Pow2Small(13);
  }

  // Code lengths (section 3.2.7)

  /** Symbol 16 repeats three to six times; 17 and 18 tile the runs of zeros from 3 to 138. */
  lemma RepeatTable()
    ensures RepeatBase(16) == 3 && RepeatBase(16) + Pow2(RepeatBits(16)) == 7
    ensures RepeatBase(17) == 3 && RepeatBase(18) == RepeatBase(17) + Pow2(RepeatBits(17))
    ensures RepeatBase(18) + Pow2(RepeatBits(18)) == 139
  {
    Pow2Small(2);
    Pow2Small(3);
    Pow2Small(7);
  }

  /** The repeat symbols, no code, then outwards from 8: the lengths that are used least come last. */
  lemma OrderTable(t: nat)
    requires t < 19
    ensures LengthOrder()[t] == if t < 3 then 16 + t else if t == 3 then 0 else if t % 2 == 0 then 6 + t / 2 else 9 - t / 2
  {}

  /** The place of a code length code in that order. */
  function OrderOf(s: nat): (t: nat)
    requires s < 19
    ensures t < 19 && LengthOrder()[t] == s
  {
    if s >= 16 then s - 16 else if s == 0 then 3 else if s >= 8 then 2 * (s - 6) else 2 * (9 - s) + 1
  }

  lemma OrderUnique(t: nat, u: nat)
    requires t < 19 && u < 19 && LengthOrder()[t] == LengthOrder()[u]
    ensures t == u
  {
    OrderTable(t);
    OrderTable(u);
  }

  // The fixed codes (section 3.2.6)

  lemma {:induction false} CountRun(lens: seq<nat>, n: nat, x: nat, k: nat)
    ensures Count(lens + seq(n, _ => x), k) == Count(lens, k) + if x == k then n else 0
  {
    var run := seq(n, _ => x);
    if n == 0 {
      assert lens + run == lens;
    } else {
      CountRun(lens, n - 1, x, k);
      var all := lens + run;
      assert all[..|all| - 1] == lens + seq(n - 1, _ => x) && all[|all| - 1] == x;
    }
  }

  lemma FixedCounts(k: nat)
    ensures Count(FixedLiterals(), k) == if k == 7 then 24 else if k == 8 then 152 else if k == 9 then 112 else 0
  {
    hide Count;
    var r1, r2, r3, r4 := seq(144, _ => 8), seq(112, _ => 9), seq(24, _ => 7), seq(8, _ => 8);
    CountNone(k);
    CountRun([], 144, 8, k);
    CountRun([] + r1, 112, 9, k);
    CountRun([] + r1 + r2, 24, 7, k);
    CountRun([] + r1 + r2 + r3, 8, 8, k);
    assert FixedLiterals() == [] + r1 + r2 + r3 + r4;
  }

  lemma CountNone(k: nat)
    ensures Count([], k) == 0
  {}

  /** The rank of a symbol among those with a code of equal length. */
  lemma FixedRank(sym: nat)
    requires sym < 288
    ensures Count(FixedLiterals()[..sym], FixedLiterals()[sym]) ==
            if sym < 144 then sym else if sym < 256 then sym - 144 else if sym < 280 then sym - 256 else sym - 136
  {
    hide Count;
    var r1, r2, r3 := seq(144, _ => 8), seq(112, _ => 9), seq(24, _ => 7);
    var k := FixedLiterals()[sym];
    CountNone(k);
    if sym < 144 {
      CountRun([], sym, 8, k);
      assert FixedLiterals()[..sym] == [] + seq(sym, _ => 8);
    } else {
      CountRun([], 144, 8, k);
      if sym < 256 {
        CountRun([] + r1, sym - 144, 9, k);
        assert FixedLiterals()[..sym] == [] + r1 + seq(sym - 144, _ => 9);
      } else {
        CountRun([] + r1, 112, 9, k);
        if sym < 280 {
          CountRun([] + r1 + r2, sym - 256, 7, k);
          assert FixedLiterals()[..sym] == [] + r1 + r2 + seq(sym - 256, _ => 7);
        } else {
          CountRun([] + r1 + r2, 24, 7, k);
          CountRun([] + r1 + r2 + r3, sym - 280, 8, k);
          assert FixedLiterals()[..sym] == [] + r1 + r2 + r3 + seq(sym - 280, _ => 8);
        }
      }
    }
  }

  lemma {:induction false} NextCodeNone(c: seq<nat>, k: nat)
    requires 1 <= k <= |c| && forall t :: 1 <= t < k ==> c[t] == 0
    ensures NextCode(c, k) == 0
  {
    if k > 1 { NextCodeNone(c, k - 1); }
  }

  /** The codes of the literals and lengths as the format lists them. */
  lemma FixedCode(sym: nat)
    requires sym < 288
    ensures |FixedLiterals()| == 288
    ensures sym < 144 ==> FixedLiterals()[sym] == 8 && Code(FixedLiterals(), sym) == 0x30 + sym
    ensures 144 <= sym < 256 ==> FixedLiterals()[sym] == 9 && Code(FixedLiterals(), sym) == 0x190 + (sym - 144)
    ensures 256 <= sym < 280 ==> FixedLiterals()[sym] == 7 && Code(FixedLiterals(), sym) == sym - 256
    ensures 280 <= sym ==> FixedLiterals()[sym] == 8 && Code(FixedLiterals(), sym) == 0xc0 + (sym - 280)
  {
    hide Count;
    var k := FixedLiterals()[sym];
    var c := Counts(FixedLiterals(), k);
    forall t | 1 <= t < k ensures c[t] == if t == 7 then 24 else if t == 8 then 152 else 0 { FixedCounts(t); }
    NextCodeNone(c, 7);
    FixedRank(sym);
  }

  /** The codes of the distances are their numbers. */
  lemma FixedDistance(sym: nat)
    requires sym < 30
    ensures |FixedDistances()| == 30 && FixedDistances()[sym] == 5 && Code(FixedDistances(), sym) == sym
  {
    hide Count;
    var c := Counts(FixedDistances(), 5);
    forall t | 1 <= t < 5 ensures c[t] == 0 {
      CountNone(t);
      CountRun([], 30, 5, t);
      assert FixedDistances() == [] + seq(30, _ => 5);
    }
    NextCodeNone(c, 5);
    CountNone(5);
    CountRun([], sym, 5, 5);
    assert FixedDistances()[..sym] == [] + seq(sym, _ => 5);
  }
}
