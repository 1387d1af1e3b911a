/** scripts/kallsyms: compressing the kernel symbol table with a table of pairs. */
module SymbolCompressor {
  import opened TokenTable
  import opened PairCounts

  ghost predicate NoPair(s: seq<Code>, a: Code, b: Code) {
    forall j :: !PairAt(s, a, b, j)
  }

  ghost predicate FirstPair(s: seq<Code>, a: Code, b: Code, k: int) {
    PairAt(s, a, b, k) && forall j :: j < k ==> !PairAt(s, a, b, j)
  }

  /** memmem for a two-byte needle in the n bytes from `start`: the first match, or -1. */
  method FindPair(buf: array<Code>, start: nat, n: nat, a: Code, b: Code) returns (k: int)
    requires start + n <= buf.Length
    ensures k != -1 ==> 0 <= k && FirstPair(buf[start..start + n], a, b, k)
    ensures k == -1 ==> NoPair(buf[start..start + n], a, b)
  {
    ghost var s := buf[start..start + n];
    k := 0;
    while k + 1 < n
      invariant 0 <= k && forall j :: j < k ==> !PairAt(s, a, b, j)
    {
      if buf[start + k] == a && buf[start + k + 1] == b { return; }
      k := k + 1;
    }
    k := -1;
  }

  /** memmove to the byte before. */
  method MoveDown(buf: array<Code>, dest: nat, n: nat)
    requires dest + 1 + n <= buf.Length
    modifies buf
    ensures buf[..] == old(buf[..dest] + buf[dest + 1..dest + 1 + n] + buf[dest + n..])
  {
    var i: nat := 0;
    while i < n
      invariant i <= n
      invariant forall j :: 0 <= j < dest ==> buf[j] == old(buf[j])
      invariant forall j :: dest <= j < dest + i ==> buf[j] == old(buf[j + 1])
      invariant forall j :: dest + i <= j < buf.Length ==> buf[j] == old(buf[j])
    {
      buf[dest + i] := buf[dest + 1 + i];
      i := i + 1;
    }
  }

  /** A symbol buffer: n codes, then zeros to the end, at least one. */
  ghost predicate Padded(buf: seq<Code>, n: nat) {
    n < |buf| && forall k :: n <= k < |buf| ==> buf[k] == 0
  }

  /** A search that runs past the symbol's end, into the zeros, finds the same. */
  lemma SearchPastEnd(buf: seq<Code>, p: nat, size: nat, len: nat, a: Code, b: Code, k: int)
    requires p <= len <= p + size <= |buf| && Padded(buf, len) && a != 0 && b != 0
    ensures FirstPair(buf[p..p + size], a, b, k) ==> FirstPair(buf[p..len], a, b, k)
    ensures NoPair(buf[p..p + size], a, b) ==> NoPair(buf[p..len], a, b)
  {
    var s, t := buf[p..p + size], buf[p..len];
    forall j ensures PairAt(s, a, b, j) <==> PairAt(t, a, b, j) {
      if 0 <= j < size - 1 && j + 1 >= len - p { assert s[j + 1] == buf[p + j + 1] == 0; }
    }
  }

  /** One replacement at p2 and the move that closes the gap. */
  method ReplaceOne(buf: array<Code>, p1: nat, p2: nat, len: nat, len0: nat, a: Code, b: Code, x: Code)
    requires p1 <= p2 && len <= len0 < buf.Length && Padded(buf[..], len)
    requires p1 <= len && FirstPair(buf[p1..len], a, b, p2 - p1)
    modifies buf
    ensures p2 + 1 <= len - 1 && Padded(buf[..], len - 1)
    ensures old(buf[..p1] + Replace(buf[p1..len], a, b, x)) == buf[..p2 + 1] + Replace(buf[p2 + 1..len - 1], a, b, x)
  {
    hide Replace;
    ghost var was := buf[..];
    assert was[p1..len] == buf[p1..len];
    buf[p2] := x;
    assert buf[..] == was[p2 := x];
    MoveDown(buf, p2 + 1, len0 - (p2 + 1));
    Shifted(was, buf[..], p1, p2, len, len0, x);
    ReplacedPart(was, p1, p2, len, a, b, x);
  }

  lemma ReplacedPart(was: seq<Code>, p1: nat, p2: nat, len: nat, a: Code, b: Code, x: Code)
    requires p1 <= p2 && p1 <= len <= |was| && FirstPair(was[p1..len], a, b, p2 - p1)
    ensures p2 + 2 <= len
    ensures was[..p1] + Replace(was[p1..len], a, b, x)
            == (was[..p1] + was[p1..len][..p2 - p1] + [x]) + Replace(was[p2 + 2..len], a, b, x)
  {
    hide Replace;
    var s := was[p1..len];
    ReplaceFirst(s, a, b, x, p2 - p1);
    assert s[p2 - p1 + 2..] == was[p2 + 2..len];
    var r := Replace(was[p2 + 2..len], a, b, x);
    assert was[..p1] + (s[..p2 - p1] + [x] + r) == (was[..p1] + s[..p2 - p1] + [x]) + r;
  }

  lemma Shifted(was: seq<Code>, now: seq<Code>, p1: nat, p2: nat, len: nat, len0: nat, x: Code)
    requires p1 <= p2 && p2 + 2 <= len <= len0 < |was| && Padded(was, len)
    requires now == was[p2 := x][..p2 + 1] + was[p2 + 2..len0 + 1] + was[len0..]
    ensures |now| == |was| && Padded(now, len - 1)
    ensures now[p2 + 1..len - 1] == was[p2 + 2..len]
    ensures now[..p2 + 1] == was[..p1] + was[p1..len][..p2 - p1] + [x]
  {
    assert forall k :: p2 + 1 <= k < len0 ==> now[k] == was[k + 1];
    assert forall k :: len0 <= k < |now| ==> now[k] == was[k];
    assert forall k :: 0 <= k < p2 ==> now[k] == was[k];
  }

  /** Replaces every occurrence of (a, b) in the symbol by x, in place. The byte count
      `size` runs ahead of the symbol's end by one for each replacement; the bytes there
      are zeros, which no pair in use contains. */
  method ReplaceInPlace(buf: array<Code>, len0: nat, first: nat, a: Code, b: Code, x: Code) returns (len: nat)
    requires Padded(buf[..], len0) && a != 0 && b != 0 && FirstPair(buf[..len0], a, b, first)
    modifies buf
    ensures len <= len0 && Padded(buf[..], len) && buf[..len] == Replace(old(buf[..len0]), a, b, x)
  {
    hide Replace, Padded, FirstPair;
    PaddedBound(buf[..], len0);
    ghost var goal := Replace(buf[..len0], a, b, x);
    len := len0;
    var size, p1: nat, p2: nat := len0, 0, first;
    var more := true;
    assert buf[0..len] == buf[..len] && buf[..0] + goal == goal;
    while more
      invariant p1 + size == len0 && p1 <= len <= len0 < buf.Length && Padded(buf[..], len)
      invariant goal == buf[..p1] + Replace(buf[p1..len], a, b, x)
      invariant more ==> p1 <= p2 && FirstPair(buf[p1..len], a, b, p2 - p1)
      invariant !more ==> NoPair(buf[p1..len], a, b)
      decreases len, more
    {
      ReplaceOne(buf, p1, p2, len, len0, a, b, x);
      p2 := p2 + 1;
      size := size - (p2 - p1);
      p1 := p2;
      len := len - 1;
      if size < 2 {
        more := false;
      } else {
        var k := FindPair(buf, p1, size, a, b);
        SearchPastEnd(buf[..], p1, size, len, a, b, k);
        more := k != -1;
        if more { p2 := p1 + k; }
      }
    }
    ReplaceNone(buf[p1..len], a, b, x);
    assert buf[..len] == buf[..p1] + buf[p1..len];
  }

  lemma PaddedBound(buf: seq<Code>, n: nat)
    requires Padded(buf, n)
    ensures n < |buf|
  {}

  // learn_symbol and forget_symbol

  lemma PairCountNext(s: seq<Code>, k: nat, p: nat)
    requires k + 1 < |s|
    ensures PairCount(s[..k + 2], p) == PairCount(s[..k + 1], p) + if PairIndex(s[k], s[k + 1]) == p then 1 else 0
  {
    assert s[..k + 2][..k + 1] == s[..k + 1];
  }

  /** How the counts of all pairs of a symbol enter token_profit: sign is 1 or -1. */
  ghost predicate Shifts(was: seq<int>, now: seq<int>, s: seq<Code>, sign: int) {
    |was| == |now| == 0x10000 && forall p: nat :: p < 0x10000 ==> now[p] == was[p] + sign * PairCount(s, p)
  }

  method LearnSymbol(profit: array<int>, buf: array<Code>, len: nat)
    requires profit.Length == 0x10000 && len <= buf.Length
    modifies profit
    ensures buf[..] == old(buf[..]) && Shifts(old(profit[..]), profit[..], buf[..len], 1)
  {
    hide PairIndex, PairCount;
    ghost var s := buf[..len];
    var i: nat := 0;
    assert s[..0] == [];
    while i < len - 1
      invariant i == 0 || i < len
      invariant buf[..len] == s
      invariant Shifts(old(profit[..]), profit[..], s[..if len == 0 then 0 else i + 1], 1)
    {
      assert buf[i] == s[i] && buf[i + 1] == s[i + 1];
      var at := PairIndex(buf[i], buf[i + 1]);
      profit[at] := profit[at] + 1;
      forall p: nat | p < 0x10000 ensures profit[p] == old(profit[p]) + PairCount(s[..i + 2], p) { PairCountNext(s, i, p); }
      i := i + 1;
    }
    assert s[..if len == 0 then 0 else i + 1] == s;
  }

  method ForgetSymbol(profit: array<int>, buf: array<Code>, len: nat)
    requires profit.Length == 0x10000 && len <= buf.Length
    modifies profit
    ensures buf[..] == old(buf[..]) && Shifts(old(profit[..]), profit[..], buf[..len], -1)
  {
    hide PairIndex, PairCount;
    ghost var s := buf[..len];
    var i: nat := 0;
    assert s[..0] == [];
    while i < len - 1
      invariant i == 0 || i < len
      invariant buf[..len] == s
      invariant Shifts(old(profit[..]), profit[..], s[..if len == 0 then 0 else i + 1], -1)
    {
      assert buf[i] == s[i] && buf[i + 1] == s[i + 1];
      var at := PairIndex(buf[i], buf[i + 1]);
      profit[at] := profit[at] - 1;
      forall p: nat | p < 0x10000 ensures profit[p] == old(profit[p]) - PairCount(s[..i + 2], p) { PairCountNext(s, i, p); }
      i := i + 1;
    }
    assert s[..if len == 0 then 0 else i + 1] == s;
  }
}
