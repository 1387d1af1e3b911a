/** Counting adjacent pairs of codes in symbols. */
module PairCounts {
  import opened TokenTable

  /** The index of a pair in token_profit. */
  function PairIndex(a: Code, b: Code): (r: nat)
    ensures r < 0x10000
  {
    a + b * 256
  }

  lemma PairIndexInverse(a: Code, b: Code)
    ensures PairIndex(a, b) % 256 == a && PairIndex(a, b) / 256 == b
  {}

  /** How often pair number p occurs in a symbol. */
  function PairCount(s: seq<Code>, p: nat): (r: nat)
    ensures |s| < 2 ==> r == 0
  {
    if |s| < 2 then 0
    else PairCount(s[..|s| - 1], p) + if PairIndex(s[|s| - 2], s[|s| - 1]) == p then 1 else 0
  }

  /** How often pair number p occurs in all symbols. */
  function Total(syms: seq<seq<Code>>, p: nat): (r: nat) {
    if syms == [] then 0 else Total(syms[..|syms| - 1], p) + PairCount(syms[|syms| - 1], p)
  }

  lemma {:induction false} TotalUpdate(syms: seq<seq<Code>>, i: nat, s: seq<Code>, p: nat)
    requires i < |syms|
    ensures Total(syms[i := s], p) == Total(syms, p) - PairCount(syms[i], p) + PairCount(s, p)
  {
    var n := |syms| - 1;
    if i == n {
      assert syms[i := s][..n] == syms[..n];
    } else {
      TotalUpdate(syms[..n], i, s, p);
      assert syms[i := s][..n] == syms[..n][i := s];
    }
  }

  lemma {:induction false} TotalIncludes(syms: seq<seq<Code>>, i: nat, p: nat)
    requires i < |syms|
    ensures PairCount(syms[i], p) <= Total(syms, p)
  {
    if i < |syms| - 1 { TotalIncludes(syms[..|syms| - 1], i, p); }
  }

  /** A pair is counted exactly when it occurs. */
  lemma {:induction false} CountedIffPresent(s: seq<Code>, a: Code, b: Code)
    ensures PairCount(s, PairIndex(a, b)) > 0 <==> exists k :: PairAt(s, a, b, k)
  {
    if |s| >= 2 {
      var n := |s| - 1;
      CountedIffPresent(s[..n], a, b);
      if k :| PairAt(s[..n], a, b, k) { assert PairAt(s, a, b, k); }
      if PairIndex(s[n - 1], s[n]) == PairIndex(a, b) {
        PairIndexInverse(s[n - 1], s[n]);
        PairIndexInverse(a, b);
        assert PairAt(s, a, b, n - 1);
      }
      if k :| PairAt(s, a, b, k) {
        if k < n - 1 { assert PairAt(s[..n], a, b, k); }
      }
    }
  }

  lemma {:induction false} TotalPresent(syms: seq<seq<Code>>, p: nat) returns (i: nat)
    requires Total(syms, p) > 0
    ensures i < |syms| && PairCount(syms[i], p) > 0
  {
    var n := |syms| - 1;
    if PairCount(syms[n], p) > 0 { i := n; } else { i := TotalPresent(syms[..n], p); }
  }
}
