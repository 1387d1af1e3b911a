/** huft_build: from code lengths to linked lookup tables that decode them. */
module HuftBuild {
  import opened Bits
  import opened HuffmanCode
  import opened HuffmanLengths
  import opened HuftTables
  import opened HuftPlacement
  import opened HuftCorrect

  /** Counts the codes of each length. */
  method CountLengths(b: seq<nat>) returns (c: array<nat>)
    requires LengthsOk(b)
    ensures fresh(c) && c[..] == Counts(b, MAX_LEN)
  {
    c := new nat[MAX_LEN + 1](_ => 0);
    var p := 0;
    while p < |b|
      invariant 0 <= p <= |b|
      invariant forall k :: 0 <= k <= MAX_LEN ==> c[k] == Count(b[..p], k)
    {
      assert b[..p + 1][..p] == b[..p];
      c[b[p]] := c[b[p]] + 1;
      p := p + 1;
    }
    assert b[..p] == b;
  }

  /** Finds the shortest and longest code and the table width. */
  method FindWidths(b: seq<nat>, c: array<nat>, want: nat) returns (l: nat, kmin: nat, g: nat)
    requires LengthsOk(b) && !AllZero(b) && c[..] == Counts(b, MAX_LEN)
    ensures kmin == MinLen(b) && g == MaxLen(b) && l == TableWidth(b, want)
    ensures kmin <= l <= g && (kmin <= want <= g ==> l == want) && (want < kmin ==> l == kmin) && (want > g ==> l == g)
    ensures 1 <= kmin <= g <= MAX_LEN && forall k :: 1 <= k < kmin ==> c[k] == 0
  {
    l := want;
    var j := 1;
    while j <= MAX_LEN && c[j] == 0
      invariant 1 <= j <= MAX_LEN + 1 && forall k :: 1 <= k < j ==> c[k] == 0
    {
      j := j + 1;
    }
    MinFromCounts(b, c[..], j);
    kmin := j;
    if l < j { l := j; }
    var i := MAX_LEN;
    while i > 0 && c[i] == 0
      invariant 0 <= i <= MAX_LEN && forall k :: i < k <= MAX_LEN ==> c[k] == 0
    {
      i := i - 1;
    }
    MaxFromCounts(b, c[..], i);
    g := i;
    if l > i { l := i; }
  }

  /** Adds dummy codes of the greatest length for the patterns left over; fails when
      there are more codes than patterns. */
  method FillOut(b: seq<nat>, c: array<nat>, kmin: nat, g: nat) returns (ok: bool, y: nat)
    requires LengthsOk(b) && !AllZero(b) && c[..] == Counts(b, MAX_LEN)
    requires g == MaxLen(b) && 1 <= kmin <= g <= MAX_LEN && forall k :: 1 <= k < kmin ==> c[k] == 0
    modifies c
    ensures ok <==> KraftSum(b) <= Pow2(MAX_LEN)
    ensures ok ==> c[..] == FilledCounts(b) && (y == 0 <==> KraftSum(b) == Pow2(MAX_LEN))
  {
    hide Pow2, Shl, Shr, Low, FilledCounts, KraftSum, Counts, MaxLen, LengthsOk, AllZero;
    ghost var cs := c[..];
    FillStart(b, kmin, g);
    y := 0;
    var j, i := kmin, g;
    var left: int := Pow2(j);
    while j < i
      invariant kmin <= j <= i == g && c[..] == cs && left >= 0
      invariant Start(cs, g, j) + Shl(left, g - j) == Pow2(g)
    {
      FillStep(cs, g, j, left);
      left := left - c[j];
      if left < 0 { return false, y; }
      left := 2 * left;
      j := j + 1;
    }
    FillStep(cs, g, j, left);
    left := left - c[i];
    if left < 0 { return false, y; }
    y := left;
    c[i] := c[i] + y;
    ShlNone(y);
    FilledBy(b, y);
    ok := true;
  }

  lemma FillStart(b: seq<nat>, kmin: nat, g: nat)
    requires LengthsOk(b) && g == MaxLen(b) && 1 <= kmin <= g <= MAX_LEN
    requires forall k :: 1 <= k < kmin ==> Counts(b, MAX_LEN)[k] == 0
    ensures var full := Start(Counts(b, MAX_LEN), g, g + 1); full > Pow2(g) <==> KraftSum(b) > Pow2(MAX_LEN)
    ensures Start(Counts(b, MAX_LEN), g, kmin) + Shl(Pow2(kmin), g - kmin) == Pow2(g)
  {
    hide Pow2, Shl, KraftSum;
    KraftCompare(b, g);
    StartOfNone(Counts(b, MAX_LEN), g, kmin);
    ShlPow2(kmin, g - kmin);
  }

  /** Deducting the codes of length j from the patterns left. */
  lemma FillStep(c: seq<nat>, g: nat, j: nat, left: nat)
    requires 1 <= j <= g < |c| && Start(c, g, j) + Shl(left, g - j) == Pow2(g)
    ensures left < c[j] ==> Start(c, g, g + 1) > Pow2(g)
    ensures left >= c[j] ==> Start(c, g, j + 1) + Shl(left - c[j], g - j) == Pow2(g)
    ensures left >= c[j] && j < g ==> Start(c, g, j + 1) + Shl(2 * (left - c[j]), g - (j + 1)) == Pow2(g)
  {
    hide Pow2, Shl;
    if left < c[j] {
      ShlMono(left, c[j], g - j);
      StartMono(c, g, j + 1, g + 1);
      Pow2Positive(g - j);
    } else {
      ShlAdd(left - c[j], c[j], g - j);
      if j < g { DoubledShift(left - c[j], g - (j + 1)); }
    }
  }

  lemma DoubledShift(x: nat, n: nat)
    ensures Shl(2 * x, n) == Shl(x, n + 1)
  {
    ShlTwice(x, n);
  }

  lemma FilledBy(b: seq<nat>, y: nat)
    requires LengthsOk(b) && !AllZero(b)
    requires Start(Counts(b, MAX_LEN), MaxLen(b), MaxLen(b) + 1) + y == Pow2(MaxLen(b))
    ensures KraftSum(b) <= Pow2(MAX_LEN) && (y == 0 <==> KraftSum(b) == Pow2(MAX_LEN))
    ensures var c := Counts(b, MAX_LEN); FilledCounts(b) == c[MaxLen(b) := c[MaxLen(b)] + y]
  {
    hide Pow2, Shl;
    KraftCompare(b, MaxLen(b));
  }

  lemma MinFromCounts(b: seq<nat>, c: seq<nat>, j: nat)
    requires LengthsOk(b) && !AllZero(b) && c == Counts(b, MAX_LEN)
    requires 1 <= j <= MAX_LEN + 1 && (forall k :: 1 <= k < j ==> c[k] == 0) && (j <= MAX_LEN ==> c[j] > 0)
    ensures j == MinLen(b) <= MAX_LEN
  {
    var s :| 0 <= s < |b| && b[s] != 0;
    CountPositive(b, MinLen(b));
    CountPositive(b, j);
  }

  lemma MaxFromCounts(b: seq<nat>, c: seq<nat>, i: nat)
    requires LengthsOk(b) && !AllZero(b) && c == Counts(b, MAX_LEN)
    requires i <= MAX_LEN && (forall k :: i < k <= MAX_LEN ==> c[k] == 0) && (i > 0 ==> c[i] > 0)
    ensures i == MaxLen(b) >= MinLen(b)
  {
    var s :| 0 <= s < |b| && b[s] != 0;
    CountPositive(b, MaxLen(b));
    CountPositive(b, i);
  }

  /** The symbol at place t among those of length k. */
  predicate SymbolAt(b: seq<nat>, sym: nat, k: nat, t: nat) {
    sym < |b| && b[sym] == k && Count(b[..sym], k) == t
  }

  /** Value table v holds, at place t of length n, that symbol. */
  ghost predicate ValueAt(b: seq<nat>, v: seq<nat>, n: nat, t: nat)
    requires 1 <= n <= MAX_LEN
  {
    var r := Offset(Counts(b, MAX_LEN), n) + t;
    r < |v| && SymbolAt(b, v[r], n, t)
  }

  /** The first i symbols are in place. */
  ghost predicate ValuesOk(b: seq<nat>, v: seq<nat>, g: nat, i: nat)
    requires g <= MAX_LEN && i <= |b|
  {
    forall n, t {:trigger ValueAt(b, v, n, t)} :: 1 <= n <= g && 0 <= t < Count(b[..i], n) ==> ValueAt(b, v, n, t)
  }

  /** Starting offsets into the value table for each length. */
  method Offsets(b: seq<nat>, c: array<nat>, g: nat) returns (x: array<nat>)
    requires 1 <= g <= MAX_LEN
    requires c.Length == MAX_LEN + 1 && forall k :: 1 <= k < g ==> c[k] == Count(b, k)
    ensures fresh(x) && x.Length == MAX_LEN + 1
    ensures forall n :: 1 <= n <= g ==> x[n] == Offset(Counts(b, MAX_LEN), n)
  {
    x := new nat[MAX_LEN + 1](_ => 0);
    var j, k := 0, 1;
    while k < g
      invariant 1 <= k <= g && j == Offset(Counts(b, MAX_LEN), k)
      invariant forall n :: 1 <= n <= k ==> x[n] == Offset(Counts(b, MAX_LEN), n)
    {
      j := j + c[k];
      k := k + 1;
      x[k] := j;
    }
  }

  /** Lists the symbols that have a code in canonical order: by length, then by number. */
  method SortValues(b: seq<nat>, c: array<nat>, g: nat) returns (v: seq<nat>)
    requires LengthsOk(b) && 1 <= g == MaxLen(b)
    requires c.Length == MAX_LEN + 1 && forall k :: 1 <= k < g ==> c[k] == Count(b, k)
    ensures |v| == Offset(Counts(b, MAX_LEN), g + 1)
    ensures ValuesOk(b, v, g, |b|)
  {
    hide Count, Counts, Offset, ValuesOk;
    ghost var cs := Counts(b, MAX_LEN);
    var x := Offsets(b, c, g);
    var vals := new nat[N_MAX](_ => 0);
    SortStart(b, vals[..], g);
    var i: nat := 0;
    while i < |b|
      invariant 0 <= i <= |b|
      invariant forall n :: 1 <= n <= g ==> x[n] == Offset(cs, n) + Count(b[..i], n)
      invariant ValuesOk(b, vals[..], g, i)
    {
      var j := b[i];
      SortStep(b, vals[..], g, i);
      if j != 0 {
        ghost var was := vals[..];
        vals[x[j]] := i;
        assert vals[..] == was[x[j] := i];
        x[j] := x[j] + 1;
      }
      i := i + 1;
    }
    SortEnd(b, vals[..], g);
    v := vals[..x[g]];
  }

  lemma SortStart(b: seq<nat>, v: seq<nat>, g: nat)
    requires g <= MAX_LEN
    ensures ValuesOk(b, v, g, 0) && forall n :: 1 <= n <= g ==> Count(b[..0], n) == 0
  {}

  lemma SortStep(b: seq<nat>, v: seq<nat>, g: nat, i: nat)
    requires LengthsOk(b) && 1 <= g == MaxLen(b) <= MAX_LEN && i < |b| && |v| == N_MAX
    requires ValuesOk(b, v, g, i)
    ensures b[i] == 0 ==> ValuesOk(b, v, g, i + 1)
    ensures b[i] > 0 ==> var r := Offset(Counts(b, MAX_LEN), b[i]) + Count(b[..i], b[i]);
                         r < N_MAX && ValuesOk(b, v[r := i], g, i + 1)
    ensures forall n :: 1 <= n <= g ==> Count(b[..i + 1], n) == Count(b[..i], n) + if n == b[i] then 1 else 0
  {
    hide Offset, Counts, MaxLen, LengthsOk;
    assert b[..i + 1][..i] == b[..i];
    if b[i] > 0 {
      PlaceFor(b, g, i);
      var r := Offset(Counts(b, MAX_LEN), b[i]) + Count(b[..i], b[i]);
      var v' := v[r := i];
      forall n, t | 1 <= n <= g && 0 <= t < Count(b[..i + 1], n)
        ensures ValueAt(b, v', n, t)
      {
        if !(n == b[i] && t == Count(b[..i], n)) {
          PlacesDiffer(b, g, i, n, t);
          assert ValueAt(b, v, n, t);
        }
      }
    } else {
      forall n, t | 1 <= n <= g && 0 <= t < Count(b[..i + 1], n) ensures ValueAt(b, v, n, t) {}
    }
  }

  lemma SortEnd(b: seq<nat>, v: seq<nat>, g: nat)
    requires LengthsOk(b) && 1 <= g == MaxLen(b) && |v| == N_MAX && ValuesOk(b, v, g, |b|)
    ensures var n := Offset(Counts(b, MAX_LEN), g) + Count(b[..|b|], g);
            n == Offset(Counts(b, MAX_LEN), g + 1) <= N_MAX && ValuesOk(b, v[..n], g, |b|)
  {
    var cs := Counts(b, MAX_LEN);
    assert b[..|b|] == b;
    TotalCodes(b, g);
    var v' := v[..Offset(cs, g + 1)];
    forall n, t | 1 <= n <= g && 0 <= t < Count(b, n) ensures ValueAt(b, v', n, t) {
      assert ValueAt(b, v, n, t);
      OffsetMono(cs, n + 1, g + 1);
    }
  }

  lemma PlaceFor(b: seq<nat>, g: nat, i: nat)
    requires LengthsOk(b) && g == MaxLen(b) && i < |b| && b[i] > 0
    ensures Offset(Counts(b, MAX_LEN), b[i]) + Count(b[..i], b[i]) < |b| <= N_MAX
  {
    var c := Counts(b, MAX_LEN);
    assert b[..|b|] == b;
    CountGrows(b, i, |b|, b[i]);
    OffsetMono(c, b[i] + 1, g + 1);
    TotalCodes(b, g);
  }

  lemma PlacesDiffer(b: seq<nat>, g: nat, i: nat, n: nat, t: nat)
    requires LengthsOk(b) && g == MaxLen(b) && i < |b| && b[i] > 0 && 1 <= n <= g
    requires t < Count(b[..i + 1], n) && !(n == b[i] && t == Count(b[..i], n))
    ensures t < Count(b[..i], n)
    ensures Offset(Counts(b, MAX_LEN), n) + t != Offset(Counts(b, MAX_LEN), b[i]) + Count(b[..i], b[i])
  {
    var c := Counts(b, MAX_LEN);
    assert b[..i + 1][..i] == b[..i] && b[..|b|] == b;
    CountGrows(b, i, |b|, b[i]);
    CountGrows(b, i, |b|, n);
    if n < b[i] { OffsetMono(c, n + 1, b[i]); }
    if b[i] < n { OffsetMono(c, b[i] + 1, n); }
  }

  /** The entry lists that come with the lengths: base values and extra bits for symbols
      from `simple` on, one for each symbol. */
  predicate ListsOk(b: seq<nat>, simple: nat, base: seq<nat>, extra: seq<nat>) {
    && |base| == |extra| && |b| <= simple + |base|
    && forall n :: 0 <= n < |extra| ==> extra[n] <= 16 || extra[n] == UNUSED
  }

  /** What decoding symbol sym with a code of n bits should give. */
  function Meaning(sym: nat, n: nat, simple: nat, base: seq<nat>, extra: seq<nat>): (r: Decoded)
    requires sym < simple || (sym - simple < |base| && sym - simple < |extra|)
  {
    var leaf := LeafOf(sym, simple, base, extra);
    if leaf.e == UNUSED then Invalid else Symbol(leaf.e, leaf.n, n)
  }

  /** r is what section 3.2.2 of RFC 1951 makes of the stream: the symbol whose code it
      starts with, or invalid when there is none. */
  ghost predicate Decoding(b: seq<nat>, simple: nat, base: seq<nat>, extra: seq<nat>, stream: nat, r: Decoded)
    requires ListsOk(b, simple, base, extra)
  {
    && (forall sym: nat :: Matches(b, sym, stream) ==> r == Meaning(sym, b[sym], simple, base, extra))
    && ((forall sym: nat :: !Matches(b, sym, stream)) ==> r == Invalid)
  }

  lemma DecodingUnique(b: seq<nat>, simple: nat, base: seq<nat>, extra: seq<nat>, stream: nat, r: Decoded, r': Decoded)
    requires ListsOk(b, simple, base, extra)
    requires Decoding(b, simple, base, extra, stream, r) && Decoding(b, simple, base, extra, stream, r')
    ensures r == r'
  {
    if sym: nat :| Matches(b, sym, stream) {}
  }

  /** The tables decode every stream as the RFC does. */
  ghost predicate DecodesCanonically(b: seq<nat>, simple: nat, base: seq<nat>, extra: seq<nat>, tables: Tables, l: nat)
    requires ListsOk(b, simple, base, extra) && |tables| > 0
  {
    forall stream: nat :: Decoding(b, simple, base, extra, stream, Walk(tables, 0, l, stream))
  }

  /** Shape sh lists the code of lengths b with the meaning of each symbol. */
  ghost predicate Describes(b: seq<nat>, simple: nat, base: seq<nat>, extra: seq<nat>, v: seq<nat>, sh: Shape)
    requires LengthsOk(b) && !AllZero(b) && KraftSum(b) <= Pow2(MAX_LEN) && ListsOk(b, simple, base, extra)
  {
    && sh.c == FilledCounts(b) && sh.g == MaxLen(b) && ShapeOk(sh)
    && |v| == Offset(Counts(b, MAX_LEN), sh.g + 1) && ValuesOk(b, v, sh.g, |b|)
    && SymbolsOk(v, simple, base, extra) && sh.leaves == Leaves(v, simple, base, extra)
  }

  /** The symbol of a given length and rank. */
  lemma SymbolOfRank(b: seq<nat>, v: seq<nat>, r: nat, k: nat) returns (sym: nat)
    requires LengthsOk(b) && 1 <= k <= MaxLen(b) && ValuesOk(b, v, MaxLen(b), |b|)
    requires var c := Counts(b, MAX_LEN); Offset(c, k) <= r < Offset(c, k + 1)
    ensures r < |v| && sym == v[r] < |b| && b[sym] == k && Rank(b, sym) == r
  {
    var c := Counts(b, MAX_LEN);
    var t := r - Offset(c, k);
    assert b[..|b|] == b;
    assert ValueAt(b, v, k, t);
    sym := v[r];
  }

  lemma RankInjective(b: seq<nat>, s: nat, s': nat)
    requires LengthsOk(b) && s < |b| && s' < |b| && b[s] == b[s'] > 0 && Rank(b, s) == Rank(b, s')
    ensures s == s'
  {
    if s < s' { CountGrows(b, s, s', b[s]); }
    if s' < s { CountGrows(b, s', s, b[s]); }
  }

  /** The reference decoder on intervals agrees with the codes of the RFC. */
  lemma ExpectedIsMeaning(b: seq<nat>, simple: nat, base: seq<nat>, extra: seq<nat>, v: seq<nat>, sh: Shape, stream: nat)
    requires LengthsOk(b) && !AllZero(b) && KraftSum(b) <= Pow2(MAX_LEN) && ListsOk(b, simple, base, extra)
    requires Describes(b, simple, base, extra, v, sh)
    ensures Decoding(b, simple, base, extra, stream, Expected(sh, Rev(sh.g, stream)))
  {
    hide Pow2, Shl, Low, Shr, Rev, Start, FilledCounts, Counts, Offset, KraftSum, ValuesOk, Matches, Rank;
    var c, g, x := sh.c, sh.g, Rev(sh.g, stream);
    var k, rank := LenAt(c, g, x), RankAt(c, g, x);
    RankRange(b, c, g, x);
    if rank < |v| {
      var sym := SymbolOfRank(b, v, rank, k);
      MatchIsRank(b, sym, stream);
      forall sym': nat | Matches(b, sym', stream) ensures sym' == sym {
        MatchLength(b, sym', stream);
        MatchIsRank(b, sym', stream);
        RankInjective(b, sym, sym');
      }
    } else {
      forall sym': nat ensures !Matches(b, sym', stream) {
        if Matches(b, sym', stream) {
          MatchLength(b, sym', stream);
          MatchIsRank(b, sym', stream);
          RankBound(b, sym');
        }
      }
    }
  }

  /** A complete code matches every stream. */
  lemma CompleteMatches(b: seq<nat>, stream: nat) returns (sym: nat)
    requires LengthsOk(b) && !AllZero(b) && KraftSum(b) == Pow2(MAX_LEN)
    ensures Matches(b, sym, stream)
  {
    hide Pow2, Shl, Low, Shr, Rev, Start, KraftSum, Matches, LenAt;
    var g := MaxLen(b);
    var c, x := FilledCounts(b), Rev(g, stream);
    FilledIsFull(b);
    KraftCompare(b, g);
    assert c == Counts(b, MAX_LEN);
    var k, m := CodeOf(c, g, x);
    CodeInterval(c, g, k, m, x);
    sym := NthSymbol(b, k, m);
    MatchIsRank(b, sym, stream);
  }

  /** The m-th symbol with a code of length k. */
  lemma {:induction false} NthSymbol(b: seq<nat>, k: nat, m: nat) returns (sym: nat)
    requires m < Count(b, k)
    ensures SymbolAt(b, sym, k, m)
  {
    var init := b[..|b| - 1];
    if m < Count(init, k) {
      sym := NthSymbol(init, k, m);
      assert b[..sym] == init[..sym];
    } else {
      sym := |b| - 1;
    }
  }

  lemma MatchLength(b: seq<nat>, sym: nat, stream: nat)
    requires Matches(b, sym, stream)
    ensures sym < |b| && b[sym] > 0
  {}

  lemma RankBound(b: seq<nat>, sym: nat)
    requires LengthsOk(b) && sym < |b| && b[sym] > 0
    ensures Rank(b, sym) < Offset(Counts(b, MAX_LEN), MaxLen(b) + 1)
  {
    assert b[..|b|] == b;
    CountGrows(b, sym, |b|, b[sym]);
    OffsetMono(Counts(b, MAX_LEN), b[sym] + 1, MaxLen(b) + 1);
  }

  /** A rank below the number of real codes lies among the codes of its length. */
  lemma RankRange(b: seq<nat>, c: seq<nat>, g: nat, x: nat)
    requires LengthsOk(b) && !AllZero(b) && KraftSum(b) <= Pow2(MAX_LEN)
    requires c == FilledCounts(b) && g == MaxLen(b) && Full(c, g) && x < Pow2(g)
    ensures var cs := Counts(b, MAX_LEN);
            var k, r := LenAt(c, g, x), RankAt(c, g, x);
            r < Offset(cs, g + 1) ==> Offset(cs, k) <= r < Offset(cs, k + 1)
  {
    hide Pow2, Shl, Low, Shr, FilledCounts, KraftSum;
    FilledIsFull(b);
    var cs := Counts(b, MAX_LEN);
    var k, m := CodeOf(c, g, x);
    CodeInterval(c, g, k, m, x);
    OffsetPrefix(cs, c, k);
  }

  /** When one table holds all codes, its entries give length and value at once. The
      entry of an unused pattern repeats the value of a longest code. */
  ghost predicate DirectEntry(b: seq<nat>, simple: nat, base: seq<nat>, extra: seq<nat>, l: nat, stream: nat, ent: Huft)
    requires ListsOk(b, simple, base, extra)
  {
    && ent.Huft? && ent.v.Num?
    && (forall sym: nat :: Matches(b, sym, stream) ==>
          ent.b == b[sym] && ent.v.n == LeafOf(sym, simple, base, extra).n)
    && ((forall sym: nat :: !Matches(b, sym, stream)) ==>
          ent.b == l && exists sym: nat :: sym < |b| && b[sym] == l && ent.v.n == LeafOf(sym, simple, base, extra).n)
  }

  ghost predicate DirectLookup(b: seq<nat>, simple: nat, base: seq<nat>, extra: seq<nat>, tables: Tables, l: nat)
    requires ListsOk(b, simple, base, extra)
  {
    && |tables| > 0 && |tables[0]| == Pow2(l)
    && forall stream: nat :: DirectEntry(b, simple, base, extra, l, stream, tables[0][Low(stream, l)])
  }

  /** In a single table the entry for a stream is the one of the code that owns its point. */
  lemma SingleTable(sh: Shape, tables: Tables, info: seq<Info>, stream: nat)
    requires Built(sh, tables, info) && sh.l == sh.g
    ensures |tables[0]| == Pow2(sh.l)
    ensures var ent := tables[0][Low(stream, sh.l)];
            && ent.Huft? && ent.b == LenAt(sh.c, sh.g, Rev(sh.g, stream))
            && LeafMatches(sh, ent, RankAt(sh.c, sh.g, Rev(sh.g, stream)))
  {
    hide Pow2, Shl, Low, Shr, Rev, Start, LeafMatches;
    ShrNone(stream);
    RevNone(stream);
    ShlZero(sh.g);
    LookupCell(sh, info[0], stream);
    Pow2AtZero();
    assert EntryOk(sh, tables, info, 0, Low(stream, sh.l));
  }

  lemma DirectFound(b: seq<nat>, simple: nat, base: seq<nat>, extra: seq<nat>, v: seq<nat>, sh: Shape, stream: nat, ent: Huft)
    requires LengthsOk(b) && !AllZero(b) && KraftSum(b) <= Pow2(MAX_LEN) && ListsOk(b, simple, base, extra)
    requires Describes(b, simple, base, extra, v, sh) && sh.l == sh.g && ent.Huft?
    requires ent.b == LenAt(sh.c, sh.g, Rev(sh.g, stream))
    requires LeafMatches(sh, ent, RankAt(sh.c, sh.g, Rev(sh.g, stream)))
    requires |v| > 0
    ensures DirectEntry(b, simple, base, extra, sh.l, stream, ent)
  {
    hide Pow2, Shl, Low, Shr, Rev, Start, FilledCounts, Counts, Offset, KraftSum, ValuesOk, Matches, Rank;
    var c, g, x := sh.c, sh.g, Rev(sh.g, stream);
    var k, rank := LenAt(c, g, x), RankAt(c, g, x);
    RankRange(b, c, g, x);
    if rank < |v| {
      var sym := SymbolOfRank(b, v, rank, k);
      MatchIsRank(b, sym, stream);
      forall sym': nat | Matches(b, sym', stream) ensures sym' == sym {
        MatchLength(b, sym', stream);
        MatchIsRank(b, sym', stream);
        RankInjective(b, sym, sym');
      }
    } else {
      forall sym': nat ensures !Matches(b, sym', stream) {
        if Matches(b, sym', stream) {
          MatchLength(b, sym', stream);
          MatchIsRank(b, sym', stream);
          RankBound(b, sym');
        }
      }
      DummyLength(b, c, g, x);
      var sym := LastSymbol(b, v);
      assert sh.leaves[|v| - 1] == LeafOf(v[|v| - 1], simple, base, extra);
    }
  }

  /** The last symbol in canonical order has a longest code. */
  lemma LastSymbol(b: seq<nat>, v: seq<nat>) returns (sym: nat)
    requires LengthsOk(b) && !AllZero(b) && ValuesOk(b, v, MaxLen(b), |b|)
    requires |v| == Offset(Counts(b, MAX_LEN), MaxLen(b) + 1) > 0
    ensures sym == v[|v| - 1] < |b| && b[sym] == MaxLen(b)
  {
    hide ValuesOk;
    CountPositive(b, MaxLen(b));
    sym := SymbolOfRank(b, v, |v| - 1, MaxLen(b));
  }

  /** Dummy codes have the greatest length. */
  lemma DummyLength(b: seq<nat>, c: seq<nat>, g: nat, x: nat)
    requires LengthsOk(b) && !AllZero(b) && KraftSum(b) <= Pow2(MAX_LEN)
    requires c == FilledCounts(b) && g == MaxLen(b) && Full(c, g) && x < Pow2(g)
    requires RankAt(c, g, x) >= Offset(Counts(b, MAX_LEN), g + 1)
    ensures LenAt(c, g, x) == g
  {
    hide Pow2, Shl, Low, Shr, FilledCounts, KraftSum;
    FilledIsFull(b);
    var cs := Counts(b, MAX_LEN);
    var k, m := CodeOf(c, g, x);
    CodeInterval(c, g, k, m, x);
    if k < g {
      OffsetPrefix(cs, c, k + 1);
      OffsetMono(cs, k + 1, g + 1);
    }
  }

  lemma ConcludeDirect(b: seq<nat>, simple: nat, base: seq<nat>, extra: seq<nat>, v: seq<nat>, sh: Shape, tables: Tables, info: seq<Info>)
    requires LengthsOk(b) && !AllZero(b) && KraftSum(b) <= Pow2(MAX_LEN) && ListsOk(b, simple, base, extra)
    requires Describes(b, simple, base, extra, v, sh) && Built(sh, tables, info) && sh.l == sh.g
    ensures DirectLookup(b, simple, base, extra, tables, sh.l)
  {
    hide Pow2, Shl, Low, Shr, Rev, Start, FilledCounts, KraftSum, ValuesOk, Matches, Rank, Built, LeafMatches, DirectEntry, Counts;
    BuiltNonempty(sh, tables, info);
    CountPositive(b, sh.g);
    SingleTable(sh, tables, info, 0);
    forall stream: nat ensures DirectEntry(b, simple, base, extra, sh.l, stream, tables[0][Low(stream, sh.l)]) {
      SingleTable(sh, tables, info, stream);
      DirectFound(b, simple, base, extra, v, sh, stream, tables[0][Low(stream, sh.l)]);
    }
  }

  /** Builds the decoding tables for lengths b. The result is 2 for no codes at all or
      more codes than patterns, 1 for an incomplete code of more than one bit, else 0. */
  method Build(b: seq<nat>, simple: nat, base: seq<nat>, extra: seq<nat>, want: nat)
    returns (ret: nat, tables: Tables, l: nat)
    requires LengthsOk(b) && ListsOk(b, simple, base, extra)
    ensures ret <= 2
    ensures ret == 2 <==> AllZero(b) || KraftSum(b) > Pow2(MAX_LEN)
    ensures ret == 1 <==> !AllZero(b) && KraftSum(b) < Pow2(MAX_LEN) && MaxLen(b) != 1
    ensures ret < 2 ==> |tables| > 0 && 1 <= l == TableWidth(b, want) <= MaxLen(b) <= MAX_LEN
    ensures ret < 2 ==>
              (DecodesCanonically(b, simple, base, extra, tables, l)
               <==> !WideOpening(FilledCounts(b), MaxLen(b), l))
    ensures ret < 2 && l == MaxLen(b) ==> DirectLookup(b, simple, base, extra, tables, l)
    ensures ret < 2 && !WideOpening(FilledCounts(b), MaxLen(b), l) ==> Coded(b) && LooksAs(b, want, tables, l)
  {
    hide LooksAs, DirectLookup, Pow2, Shl, Low, Shr, Rev, Start, FilledCounts, KraftSum, ValuesOk, Describes, DecodesCanonically, WideOpening, Leaves, MaxLen, MinLen;
    tables, l := [], 0;
    var c := CountLengths(b);
    ZeroCount(b);
    if c[0] == |b| {
      return 2, tables, 0;
    }
    var kmin, g;
    l, kmin, g := FindWidths(b, c, want);
    var ok, y := FillOut(b, c, kmin, g);
    if !ok {
      return 2, tables, l;
    }
    FilledIsFull(b);
    var v := SortValues(b, c, g);
    ghost var sh := Setup(b, simple, base, extra, v, kmin, g, l, want);
    ghost var info;
    tables, info := BuildTables(c[..], g, l, kmin, v, simple, base, extra, sh);
    Conclude(b, simple, base, extra, v, sh, tables, info);
    if !WideOpening(FilledCounts(b), g, l) { ConcludeLooks(b, simple, base, extra, v, sh, tables, info, want); }
    if l == g { ConcludeDirect(b, simple, base, extra, v, sh, tables, info); }
    ret := if y != 0 && g != 1 then 1 else 0;
  }

  lemma {:induction false} ZeroCount(b: seq<nat>)
    ensures Count(b, 0) == |b| <==> AllZero(b)
  {
    if b != [] {
      ZeroCount(b[..|b| - 1]);
      assert b == b[..|b| - 1] + [b[|b| - 1]];
    }
  }

  lemma Setup(b: seq<nat>, simple: nat, base: seq<nat>, extra: seq<nat>, v: seq<nat>, kmin: nat, g: nat, l: nat, want: nat)
    returns (sh: Shape)
    requires LengthsOk(b) && !AllZero(b) && KraftSum(b) <= Pow2(MAX_LEN) && ListsOk(b, simple, base, extra)
    requires kmin == MinLen(b) && g == MaxLen(b) && l == TableWidth(b, want) && 1 <= kmin <= g <= MAX_LEN
    requires forall k :: 1 <= k < kmin ==> Count(b, k) == 0
    requires |v| == Offset(Counts(b, MAX_LEN), g + 1) && ValuesOk(b, v, g, |b|)
    ensures SymbolsOk(v, simple, base, extra)
    ensures sh == Shape(FilledCounts(b), g, l, Leaves(v, simple, base, extra)) && ShapeOk(sh)
    ensures Describes(b, simple, base, extra, v, sh)
    ensures 1 <= kmin <= l && Start(sh.c, g, kmin) == 0 && sh.c[kmin] > 0 && Offset(sh.c, kmin) == 0
  {
    hide Pow2, Shl, Low, Shr, Rev, FilledCounts, KraftSum, Counts, ValuesOk;
    FilledIsFull(b);
    var c := FilledCounts(b);
    CountPositive(b, kmin);
    StartOfNone(c, g, kmin);
    OffsetOfNone(c, kmin);
    forall r | 0 <= r < |v| ensures v[r] < |b| {
      var k := LengthOfRank(Counts(b, MAX_LEN), r, g);
      var sym := SymbolOfRank(b, v, r, k);
    }
    sh := Shape(c, g, l, Leaves(v, simple, base, extra));
  }

  lemma {:induction false} LengthOfRank(c: seq<nat>, r: nat, g: nat) returns (k: nat)
    requires g < |c| && r < Offset(c, g + 1)
    ensures 1 <= k <= g && Offset(c, k) <= r < Offset(c, k + 1)
  {
    if Offset(c, g) <= r { k := g; } else { k := LengthOfRank(c, r, g - 1); }
  }

  lemma Conclude(b: seq<nat>, simple: nat, base: seq<nat>, extra: seq<nat>, v: seq<nat>, sh: Shape, tables: Tables, info: seq<Info>)
    requires LengthsOk(b) && !AllZero(b) && KraftSum(b) <= Pow2(MAX_LEN) && ListsOk(b, simple, base, extra)
    requires Describes(b, simple, base, extra, v, sh) && Built(sh, tables, info)
    ensures DecodesCanonically(b, simple, base, extra, tables, sh.l)
            <==> !WideOpening(FilledCounts(b), MaxLen(b), sh.l)
  {
    hide Pow2, Shl, Low, Shr, Rev, Start, FilledCounts, Counts, Offset, KraftSum, ValuesOk, Decoding, Rank, Built, WideOpening, Walk, Expected;
    BuiltNonempty(sh, tables, info);
    DecodesIffNotWide(sh, tables, info);
    forall stream: nat
      ensures Decoding(b, simple, base, extra, stream, Expected(sh, Rev(sh.g, stream)))
      ensures Decoding(b, simple, base, extra, stream, Walk(tables, 0, sh.l, stream))
              <==> Walk(tables, 0, sh.l, stream) == Expected(sh, Rev(sh.g, stream))
    {
      ExpectedIsMeaning(b, simple, base, extra, v, sh, stream);
      if Decoding(b, simple, base, extra, stream, Walk(tables, 0, sh.l, stream)) {
        DecodingUnique(b, simple, base, extra, stream, Walk(tables, 0, sh.l, stream), Expected(sh, Rev(sh.g, stream)));
      }
    }
  }

  /** Lengths that make up a code. */
  ghost predicate Coded(b: seq<nat>) {
    LengthsOk(b) && !AllZero(b) && KraftSum(b) <= Pow2(MAX_LEN)
  }

  /** How many bits the tables for lengths b look at on a stream. */
  ghost function LookBits(b: seq<nat>, want: nat, stream: nat): (r: nat)
    requires Coded(b)
  {
    FilledIsFull(b);
    WidthPositive(b, want);
    Lookahead(FilledCounts(b), MaxLen(b), TableWidth(b, want), 0, Rev(MaxLen(b), stream))
  }

  lemma WidthPositive(b: seq<nat>, want: nat)
    requires LengthsOk(b) && !AllZero(b)
    ensures 1 <= TableWidth(b, want) <= MaxLen(b) <= MAX_LEN
  {
    var s :| 0 <= s < |b| && b[s] != 0;
  }

  ghost predicate LooksAs(b: seq<nat>, want: nat, tables: Tables, l: nat)
    requires Coded(b) && |tables| > 0
  {
    forall stream: nat :: Looks(tables, 0, l, stream) == LookBits(b, want, stream)
  }

  /** Between the length of the code and a table beyond it. */
  lemma LookBitsBound(b: seq<nat>, want: nat, stream: nat, sym: nat)
    requires Coded(b) && Matches(b, sym, stream)
    ensures sym < |b| && b[sym] <= LookBits(b, want, stream) < b[sym] + TableWidth(b, want) && LookBits(b, want, stream) <= MaxLen(b)
  {
    hide Pow2, Rev, LenAt, FilledCounts, KraftSum, Lookahead, Matches;
    MatchLength(b, sym, stream);
    MatchIsRank(b, sym, stream);
    WidthPositive(b, want);
    LookaheadBound(FilledCounts(b), MaxLen(b), TableWidth(b, want), 0, Rev(MaxLen(b), stream));
  }

  lemma ConcludeLooks(b: seq<nat>, simple: nat, base: seq<nat>, extra: seq<nat>, v: seq<nat>, sh: Shape, tables: Tables, info: seq<Info>,
                      want: nat)
    requires Coded(b) && ListsOk(b, simple, base, extra) && sh.l == TableWidth(b, want)
    requires Describes(b, simple, base, extra, v, sh) && Built(sh, tables, info) && !WideOpening(FilledCounts(b), MaxLen(b), sh.l)
    ensures |tables| > 0 && LooksAs(b, want, tables, sh.l)
  {
    hide Pow2, Shl, Low, Shr, Rev, Start, FilledCounts, KraftSum, WideOpening, Looks, Lookahead, EntryOk, WideUnwritten, ValuesOk, Counts, Offset;
    forall stream: nat ensures Looks(tables, 0, sh.l, stream) == LookBits(b, want, stream) {
      forall t | 0 <= t < |info| ensures !Wide(sh, info[t]) {
        if Wide(sh, info[t]) { WideTableMeansWideCode(sh, tables, info, t); }
      }
      ShrNone(stream);
      ShlZero(sh.g);
      RevNone(stream);
      WalkLooks(sh, tables, info, 0, stream);
    }
  }

  lemma BuiltNonempty(sh: Shape, tables: Tables, info: seq<Info>)
    requires Built(sh, tables, info)
    ensures |tables| > 0
  {}
}
