/** Canonical Huffman codes as section 3.2.2 of RFC 1951 defines them, and the same
    codes seen as consecutive intervals of the code space [0, 2^g). */
module HuffmanCode {
  import opened Bits

  /** Number of symbols whose code has length k (bl_count in the RFC). */
  function Count(lens: seq<nat>, k: nat): (r: nat)
    ensures r <= |lens|
  {
    if lens == [] then 0
    else Count(lens[..|lens| - 1], k) + if lens[|lens| - 1] == k then 1 else 0
  }

  /** The smallest code of each length (next_code in the RFC), from the counts. */
  function NextCode(c: seq<nat>, k: nat): (r: nat)
    requires 1 <= k <= |c|
  {
    if k == 1 then 0 else (NextCode(c, k - 1) + c[k - 1]) * 2
  }

  /** The counts of all lengths 0..max. */
  function Counts(lens: seq<nat>, max: nat): (c: seq<nat>)
    ensures |c| == max + 1 && forall k :: 0 <= k <= max ==> c[k] == Count(lens, k)
  {
    seq(max + 1, k requires k >= 0 => Count(lens, k))
  }

  /** The code of a symbol: consecutive values, in symbol order, within a length. */
  function Code(lens: seq<nat>, sym: nat): (r: nat)
    requires sym < |lens| && lens[sym] > 0
  {
    NextCode(Counts(lens, lens[sym]), lens[sym]) + Count(lens[..sym], lens[sym])
  }

  /** The next bits of the stream are the code of `sym`, first bit most significant. */
  ghost predicate Matches(lens: seq<nat>, sym: nat, stream: nat)
  {
    sym < |lens| && lens[sym] > 0 && Rev(lens[sym], stream) == Code(lens, sym)
  }

  /** Where the codes of length k start in the code space of g-bit patterns. */
  function Start(c: seq<nat>, g: nat, k: nat): (r: nat)
    requires 1 <= k <= g + 1 <= |c|
  {
    if k == 1 then 0 else Start(c, g, k - 1) + Shl(c[k - 1], g - (k - 1))
  }

  /** How many codes are shorter than k. */
  function Offset(c: seq<nat>, k: nat): (r: nat)
    requires 1 <= k <= |c|
  {
    if k == 1 then 0 else Offset(c, k - 1) + c[k - 1]
  }

  /** The counts fill the code space exactly and some code has the greatest length. */
  ghost predicate Full(c: seq<nat>, g: nat) {
    1 <= g < |c| && c[g] > 0 && Start(c, g, g + 1) == Pow2(g)
  }

  lemma {:induction false} StartMono(c: seq<nat>, g: nat, k: nat, k': nat)
    requires 1 <= k <= k' <= g + 1 <= |c|
    ensures Start(c, g, k) <= Start(c, g, k')
  {
    if k < k' { StartMono(c, g, k, k' - 1); }
  }

  lemma {:induction false} OffsetMono(c: seq<nat>, k: nat, k': nat)
    requires 1 <= k <= k' <= |c|
    ensures Offset(c, k) <= Offset(c, k')
  {
    if k < k' { OffsetMono(c, k, k' - 1); }
  }

  /** The interval view agrees with the RFC's recurrence. */
  lemma {:induction false} StartIsNextCode(c: seq<nat>, g: nat, k: nat)
    requires 1 <= k <= g < |c|
    ensures Start(c, g, k) == Shl(NextCode(c, k), g - k)
  {
    if k > 1 {
      StartIsNextCode(c, g, k - 1);
      ShlAdd(NextCode(c, k - 1), c[k - 1], g - k + 1);
      ShlTwice(NextCode(c, k - 1) + c[k - 1], g - k);
    } else {
      ShlZero(g - k);
    }
  }

  /** Start and Offset look only at shorter lengths. */
  lemma {:induction false} StartPrefix(c: seq<nat>, c': seq<nat>, g: nat, k: nat)
    requires 1 <= k <= g + 1 <= |c| && g + 1 <= |c'|
    requires forall t :: 1 <= t < k ==> c[t] == c'[t]
    ensures Start(c, g, k) == Start(c', g, k)
  {
    if k > 1 { StartPrefix(c, c', g, k - 1); }
  }

  lemma {:induction false} NextCodePrefix(c: seq<nat>, c': seq<nat>, k: nat)
    requires 1 <= k <= |c| && k <= |c'|
    requires forall t :: 1 <= t < k ==> c[t] == c'[t]
    ensures NextCode(c, k) == NextCode(c', k)
  {
    if k > 1 { NextCodePrefix(c, c', k - 1); }
  }

  /** The length of the code whose interval holds point x. */
  function LenFrom(c: seq<nat>, g: nat, x: nat, k: nat): (r: nat)
    requires 1 <= k <= g < |c| && Start(c, g, k) <= x < Start(c, g, g + 1)
    ensures k <= r <= g && Start(c, g, r) <= x < Start(c, g, r + 1)
    decreases g - k
  {
    if x < Start(c, g, k + 1) || k == g then k else LenFrom(c, g, x, k + 1)
  }

  function LenAt(c: seq<nat>, g: nat, x: nat): (r: nat)
    requires Full(c, g) && x < Pow2(g)
    ensures 1 <= r <= g && Start(c, g, r) <= x < Start(c, g, r + 1)
  {
    LenFrom(c, g, x, 1)
  }

  /** The rank of that code among all codes in canonical order. */
  function RankAt(c: seq<nat>, g: nat, x: nat): (r: nat)
    requires Full(c, g) && x < Pow2(g)
  {
    var k := LenAt(c, g, x);
    Offset(c, k) + Shr(x - Start(c, g, k), g - k)
  }

  lemma LenUnique(c: seq<nat>, g: nat, x: nat, k: nat)
    requires Full(c, g) && x < Pow2(g) && 1 <= k <= g
    requires Start(c, g, k) <= x < Start(c, g, k + 1)
    ensures LenAt(c, g, x) == k
  {
    var r := LenAt(c, g, x);
    if r < k { StartMono(c, g, r + 1, k); }
    if k < r { StartMono(c, g, k + 1, r); }
  }

  /** Where the m-th code of length k starts. */
  function CodeStart(c: seq<nat>, g: nat, k: nat, m: nat): (r: nat)
    requires 1 <= k <= g < |c|
  {
    Start(c, g, k) + Shl(m, g - k)
  }

  /** Code m of length k owns the points [CodeStart, CodeStart + 2^(g-k)). */
  lemma CodeInterval(c: seq<nat>, g: nat, k: nat, m: nat, x: nat)
    requires Full(c, g) && 1 <= k <= g && m < c[k]
    requires CodeStart(c, g, k, m) <= x < CodeStart(c, g, k, m) + Pow2(g - k)
    ensures x < Pow2(g) && LenAt(c, g, x) == k && RankAt(c, g, x) == Offset(c, k) + m
  {
    ShlMono(m, c[k], g - k);
    Recompose(m, x - CodeStart(c, g, k, m), g - k);
    StartMono(c, g, k + 1, g + 1);
    LenUnique(c, g, x, k);
  }

  /** Every point belongs to a code. */
  lemma CodeOf(c: seq<nat>, g: nat, x: nat) returns (k: nat, m: nat)
    requires Full(c, g) && x < Pow2(g)
    ensures 1 <= k <= g && m < c[k] && k == LenAt(c, g, x)
    ensures CodeStart(c, g, k, m) <= x < CodeStart(c, g, k, m) + Pow2(g - k)
  {
    k := LenAt(c, g, x);
    m := Shr(x - Start(c, g, k), g - k);
    Decompose(x - Start(c, g, k), g - k);
    if m >= c[k] { ShlMono(c[k], m, g - k); }
  }

  /** A code's start is a multiple of its interval's size. */
  lemma CodeStartAligned(c: seq<nat>, g: nat, k: nat, m: nat)
    requires 1 <= k <= g < |c|
    ensures CodeStart(c, g, k, m) == Shl(NextCode(c, k) + m, g - k)
  {
    StartIsNextCode(c, g, k);
    ShlAdd(NextCode(c, k), m, g - k);
  }
}
