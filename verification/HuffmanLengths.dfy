/** A list of code lengths, as huft_build and section 3.2.2 of RFC 1951 read it. */
module HuffmanLengths {
  import opened Bits
  import opened HuffmanCode
  import opened HuftTables

  const N_MAX := 288
  const MAX_LEN := 16

  /** What huft_build assumes of its caller. */
  predicate LengthsOk(lens: seq<nat>) {
    1 <= |lens| <= N_MAX && forall s :: 0 <= s < |lens| ==> lens[s] <= MAX_LEN
  }

  function MaxLen(lens: seq<nat>): (r: nat)
    ensures forall s :: 0 <= s < |lens| ==> lens[s] <= r
    ensures r == 0 || r in lens
  {
    if lens == [] then 0
    else
      var r := MaxLen(lens[..|lens| - 1]);
      if lens[|lens| - 1] > r then lens[|lens| - 1] else r
  }

  /** The shortest code in use. */
  function MinLen(lens: seq<nat>): (r: nat)
    ensures forall s :: 0 <= s < |lens| && lens[s] > 0 ==> 0 < r <= lens[s]
    ensures r == 0 || r in lens
  {
    if lens == [] then 0
    else
      var r := MinLen(lens[..|lens| - 1]);
      var x := lens[|lens| - 1];
      if x > 0 && (r == 0 || x < r) then x else r
  }

  predicate AllZero(lens: seq<nat>) {
    forall s :: 0 <= s < |lens| ==> lens[s] == 0
  }

  /** The share of the code space that the codes take up, in units of 2^-16. */
  function KraftSum(lens: seq<nat>): (r: nat)
    requires forall s :: 0 <= s < |lens| ==> lens[s] <= MAX_LEN
  {
    if lens == [] then 0
    else
      var x := lens[|lens| - 1];
      KraftSum(lens[..|lens| - 1]) + if x > 0 then Pow2(MAX_LEN - x) else 0
  }

  lemma {:induction false} CountPositive(lens: seq<nat>, k: nat)
    ensures Count(lens, k) > 0 <==> k in lens
  {
    if lens != [] {
      var init := lens[..|lens| - 1];
      CountPositive(init, k);
      assert lens == init + [lens[|lens| - 1]];
    }
  }

  /** One more code of length k. */
  lemma {:induction false} StartBump(c: seq<nat>, g: nat, k: nat, n: nat)
    requires 1 <= n <= g + 1 <= |c| && k <= g
    ensures Start(c[k := c[k] + 1], g, n) == Start(c, g, n) + if 0 < k < n then Pow2(g - k) else 0
  {
    if n > 1 {
      StartBump(c, g, k, n - 1);
      if k == n - 1 {
        ShlAdd(c[k], 1, g - k);
        ShlPow2(0, g - k);
      }
    }
  }

  lemma {:induction false} StartOfNone(c: seq<nat>, g: nat, n: nat)
    requires 1 <= n <= g + 1 <= |c| && forall k :: 1 <= k < n ==> c[k] == 0
    ensures Start(c, g, n) == 0
  {
    if n > 1 {
      StartOfNone(c, g, n - 1);
      ShlZero(g - (n - 1));
    }
  }

  lemma {:induction false} KraftIsStart(lens: seq<nat>)
    requires forall s :: 0 <= s < |lens| ==> lens[s] <= MAX_LEN
    ensures Start(Counts(lens, MAX_LEN), MAX_LEN, MAX_LEN + 1) == KraftSum(lens)
  {
    hide Pow2, Start;
    var c := Counts(lens, MAX_LEN);
    if lens == [] {
      StartOfNone(c, MAX_LEN, MAX_LEN + 1);
    } else {
      var init, x := lens[..|lens| - 1], lens[|lens| - 1];
      var c' := Counts(init, MAX_LEN);
      KraftIsStart(init);
      assert c == c'[x := c'[x] + 1];
      StartBump(c', MAX_LEN, x, MAX_LEN + 1);
    }
  }

  /** The same counts in a larger code space. */
  lemma {:induction false} StartScale(c: seq<nat>, g: nat, n: nat, h: nat)
    requires 1 <= n <= g + 1 && g <= h < |c|
    ensures Start(c, h, n) == Shl(Start(c, g, n), h - g)
  {
    if n > 1 {
      StartScale(c, g, n - 1, h);
      ShlAdd(Start(c, g, n - 1), Shl(c[n - 1], g - (n - 1)), h - g);
      ShlShl(c[n - 1], g - (n - 1), h - g);
    } else {
      ShlZero(h - g);
    }
  }

  lemma {:induction false} StartTail(c: seq<nat>, h: nat, n: nat, n': nat)
    requires 1 <= n <= n' <= h + 1 <= |c| && forall k :: n <= k < n' ==> c[k] == 0
    ensures Start(c, h, n') == Start(c, h, n)
  {
    if n < n' {
      StartTail(c, h, n, n' - 1);
      ShlZero(h - (n' - 1));
    }
  }

  /** The code space in units of the longest code tells the same as the Kraft sum. */
  lemma KraftCompare(lens: seq<nat>, g: nat)
    requires forall s :: 0 <= s < |lens| ==> lens[s] <= g
    requires 1 <= g <= MAX_LEN
    ensures forall s :: 0 <= s < |lens| ==> lens[s] <= MAX_LEN
    ensures var full := Start(Counts(lens, MAX_LEN), g, g + 1);
            (full > Pow2(g) <==> KraftSum(lens) > Pow2(MAX_LEN)) &&
            (full < Pow2(g) <==> KraftSum(lens) < Pow2(MAX_LEN))
  {
    hide Pow2, Shl, Start, Low, Shr;
    var c := Counts(lens, MAX_LEN);
    KraftIsStart(lens);
    forall k | g + 1 <= k < MAX_LEN + 1 ensures c[k] == 0 { CountPositive(lens, k); }
    StartTail(c, MAX_LEN, g + 1, MAX_LEN + 1);
    StartScale(c, g, g + 1, MAX_LEN);
    var full := Start(c, g, g + 1);
    ShlPow2(g, MAX_LEN - g);
    Pow2Positive(MAX_LEN - g);
    if full <= Pow2(g) { ShlMono(full, Pow2(g), MAX_LEN - g); }
    if full >= Pow2(g) { ShlMono(Pow2(g), full, MAX_LEN - g); }
  }

  /** The counts with dummy codes of the greatest length added to fill the code space. */
  ghost function FilledCounts(lens: seq<nat>): (c: seq<nat>)
    requires LengthsOk(lens) && !AllZero(lens) && KraftSum(lens) <= Pow2(MAX_LEN)
    ensures |c| == MAX_LEN + 1
  {
    var c := Counts(lens, MAX_LEN);
    var g := MaxLen(lens);
    KraftCompare(lens, g);
    c[g := c[g] + (Pow2(g) - Start(c, g, g + 1))]
  }

  lemma FilledIsFull(lens: seq<nat>)
    requires LengthsOk(lens) && !AllZero(lens) && KraftSum(lens) <= Pow2(MAX_LEN)
    ensures Full(FilledCounts(lens), MaxLen(lens))
    ensures forall k :: 1 <= k < MaxLen(lens) ==> FilledCounts(lens)[k] == Count(lens, k)
    ensures FilledCounts(lens)[MaxLen(lens)] >= Count(lens, MaxLen(lens)) > 0
  {
    hide Pow2, Shl, Low, Shr;
    var c, c' := Counts(lens, MAX_LEN), FilledCounts(lens);
    var g := MaxLen(lens);
    KraftCompare(lens, g);
    CountPositive(lens, g);
    StartPrefix(c, c', g, g);
    var y := Pow2(g) - Start(c, g, g + 1);
    ShlAdd(c[g], y, 0);
    ShlNone(y);
  }

  lemma ShlNone(x: nat)
    ensures Shl(x, 0) == x
  {}

  /** Bits per table: the requested width, kept between shortest and longest code. */
  function TableWidth(lens: seq<nat>, want: nat): (r: nat) {
    var lo := if want < MinLen(lens) then MinLen(lens) else want;
    if lo > MaxLen(lens) then MaxLen(lens) else lo
  }

  /** A symbol's place in canonical order. */
  function Rank(lens: seq<nat>, sym: nat): (r: nat)
    requires LengthsOk(lens) && sym < |lens| && lens[sym] > 0
  {
    Offset(Counts(lens, MAX_LEN), lens[sym]) + Count(lens[..sym], lens[sym])
  }

  lemma {:induction false} CountGrows(lens: seq<nat>, s: nat, n: nat, k: nat)
    requires s <= n <= |lens|
    ensures Count(lens[..s], k) <= Count(lens[..n], k)
    ensures s < n && lens[s] == k ==> Count(lens[..s], k) < Count(lens[..n], k)
  {
    if s < n {
      CountGrows(lens, s, n - 1, k);
      assert lens[..n][..n - 1] == lens[..n - 1];
    }
  }

  lemma {:induction false} OffsetPrefix(c: seq<nat>, c': seq<nat>, k: nat)
    requires 1 <= k <= |c| && k <= |c'| && forall t :: 1 <= t < k ==> c[t] == c'[t]
    ensures Offset(c, k) == Offset(c', k)
  {
    if k > 1 { OffsetPrefix(c, c', k - 1); }
  }

  /** A stream matches a symbol exactly when its point has the symbol's length and rank. */
  lemma MatchIsRank(lens: seq<nat>, sym: nat, stream: nat)
    requires LengthsOk(lens) && !AllZero(lens) && KraftSum(lens) <= Pow2(MAX_LEN)
    requires sym < |lens| && lens[sym] > 0
    ensures Full(FilledCounts(lens), MaxLen(lens))
    ensures var c, g, x := FilledCounts(lens), MaxLen(lens), Rev(MaxLen(lens), stream);
            Matches(lens, sym, stream) <==> LenAt(c, g, x) == lens[sym] && RankAt(c, g, x) == Rank(lens, sym)
  {
    hide Pow2, Shl, Low, Shr, Rev, Start, FilledCounts, Full, LenAt;
    FilledIsFull(lens);
    var c, g, k := FilledCounts(lens), MaxLen(lens), lens[sym];
    FullBounds(c, g);
    var x := Rev(g, stream);
    var m := Count(lens[..sym], k);
    assert lens[..|lens|] == lens;
    CountGrows(lens, sym, |lens|, k);
    NextCodePrefix(Counts(lens, k), c, k);
    CodeStartAligned(c, g, k, m);
    OffsetPrefix(c, Counts(lens, MAX_LEN), k);
    RevSplit(k, g - k, stream);
    var code := NextCode(c, k) + m;
    if Rev(k, stream) == code {
      CodeInterval(c, g, k, m, x);
    } else {
      var k', m' := CodeOf(c, g, x);
      if k' == k && m' == m { SameBlock(Rev(k, stream), Rev(g - k, Shr(stream, k)), code, g - k, x); }
      if k' == k { CodeInterval(c, g, k', m', x); }
    }
  }

  lemma FullBounds(c: seq<nat>, g: nat)
    requires Full(c, g)
    ensures 1 <= g < |c|
  {}

  lemma SameBlock(q: nat, r: nat, q': nat, n: nat, x: nat)
    requires r < Pow2(n) && x == Shl(q, n) + r && Shl(q', n) <= x < Shl(q', n) + Pow2(n)
    ensures q == q'
  {
    hide *;
    Recompose(q, r, n);
    Recompose(q', x - Shl(q', n), n);
  }

  /** There are no more codes than symbols. */
  lemma {:induction false} TotalCodes(b: seq<nat>, g: nat)
    requires forall s :: 0 <= s < |b| ==> b[s] <= MAX_LEN
    requires g <= MAX_LEN
    ensures Offset(Counts(b, MAX_LEN), g + 1) <= |b|
  {
    var c := Counts(b, MAX_LEN);
    if b == [] {
      OffsetOfNone(c, g + 1);
    } else {
      var init, x := b[..|b| - 1], b[|b| - 1];
      TotalCodes(init, g);
      var c' := Counts(init, MAX_LEN);
      assert c == c'[x := c'[x] + 1];
      OffsetBump(c', x, g + 1);
    }
  }

  lemma {:induction false} OffsetOfNone(c: seq<nat>, n: nat)
    requires 1 <= n <= |c| && forall k :: 1 <= k < n ==> c[k] == 0
    ensures Offset(c, n) == 0
  {
    if n > 1 { OffsetOfNone(c, n - 1); }
  }

  lemma {:induction false} OffsetBump(c: seq<nat>, k: nat, n: nat)
    requires 1 <= n <= |c| && k < |c|
    ensures Offset(c[k := c[k] + 1], n) == Offset(c, n) + if 0 < k < n then 1 else 0
  {
    if n > 1 { OffsetBump(c, k, n - 1); }
  }
}
