/** The token table of the kernel symbol compressor.

    Every byte code stands for itself when some symbol uses it as a character. The other
    codes are assigned, from 255 down, to pairs of codes. */
module TokenTable {

  type Code = c: nat | c < 256

  /** best_table and best_table_len: not assigned yet, an original character, a pair. */
  datatype Slot = Empty | Char | Pair(a: Code, b: Code)

  type Table = t: seq<Slot> | |t| == 256 witness seq(256, _ => Empty)

  /** Expanding code c ends: a pair is made of characters and codes assigned before it. */
  ghost predicate Good(t: Table, c: Code)
    decreases 256 - c, 1
  {
    t[c].Char? || (t[c].Pair? && GoodPart(t, c, t[c].a) && GoodPart(t, c, t[c].b))
  }

  ghost predicate GoodPart(t: Table, c: Code, d: Code)
    decreases 256 - c, 0
  {
    t[d].Char? || (d > c && Good(t, d))
  }

  /** expand_symbol on a single code. */
  ghost function ExpandCode(t: Table, c: Code): (r: seq<Code>)
    requires Good(t, c)
    ensures |r| > 0
    decreases 256 - c, 1
  {
    if t[c].Char? then [c] else ExpandPart(t, c, t[c].a) + ExpandPart(t, c, t[c].b)
  }

  ghost function ExpandPart(t: Table, c: Code, d: Code): (r: seq<Code>)
    requires GoodPart(t, c, d)
    ensures |r| > 0
    decreases 256 - c, 0
  {
    if t[d].Char? then [d] else ExpandCode(t, d)
  }

  ghost predicate AllGood(t: Table, s: seq<Code>) {
    forall k :: 0 <= k < |s| ==> Good(t, s[k])
  }

  /** expand_symbol: the characters that a compressed symbol stands for. */
  ghost function Expand(t: Table, s: seq<Code>): (r: seq<Code>)
    requires AllGood(t, s)
  {
    if s == [] then [] else ExpandCode(t, s[0]) + Expand(t, s[1..])
  }

  lemma {:induction false} ExpandAppend(t: Table, s: seq<Code>, s': seq<Code>)
    requires AllGood(t, s) && AllGood(t, s')
    ensures AllGood(t, s + s') && Expand(t, s + s') == Expand(t, s) + Expand(t, s')
  {
    if s == [] {
      assert s + s' == s';
    } else {
      ExpandAppend(t, s[1..], s');
      assert (s + s')[1..] == s[1..] + s';
    }
  }

  /** A part of a good code expands to the same as the code on its own. */
  lemma PartIsCode(t: Table, c: Code, d: Code)
    requires GoodPart(t, c, d)
    ensures Good(t, d) && ExpandPart(t, c, d) == ExpandCode(t, d)
  {}

  /** Assigning an empty slot leaves all good codes as they were. */
  lemma {:induction false} GoodStable(t: Table, i: Code, x: Slot, c: Code)
    requires t[i].Empty? && Good(t, c)
    ensures Good(t[i := x], c) && ExpandCode(t[i := x], c) == ExpandCode(t, c)
    decreases 256 - c
  {
    var t' := t[i := x];
    if t[c].Pair? {
      var a, b := t[c].a, t[c].b;
      if !t[a].Char? { GoodStable(t, i, x, a); }
      if !t[b].Char? { GoodStable(t, i, x, b); }
      assert GoodPart(t', c, a) && GoodPart(t', c, b);
    }
  }

  lemma {:induction false} ExpandStable(t: Table, i: Code, x: Slot, s: seq<Code>)
    requires t[i].Empty? && AllGood(t, s)
    ensures AllGood(t[i := x], s) && Expand(t[i := x], s) == Expand(t, s)
  {
    if s != [] {
      GoodStable(t, i, x, s[0]);
      ExpandStable(t, i, x, s[1..]);
      var t' := t[i := x];
      forall k | 0 <= k < |s| ensures Good(t', s[k]) {
        if k > 0 { assert s[k] == s[1..][k - 1]; }
      }
    }
  }

  /** Slots below i that are not characters are still empty. */
  ghost predicate EmptyUpTo(t: Table, i: int) {
    forall c: Code :: c <= i ==> t[c].Char? || t[c].Empty?
  }

  /** A pair of good codes makes a good code in the next free slot. */
  lemma PairIsGood(t: Table, i: Code, a: Code, b: Code)
    requires EmptyUpTo(t, i) && t[i].Empty? && Good(t, a) && Good(t, b)
    ensures var t' := t[i := Pair(a, b)];
            Good(t', i) && ExpandCode(t', i) == ExpandCode(t, a) + ExpandCode(t, b)
  {
    var t' := t[i := Pair(a, b)];
    GoodStable(t, i, Pair(a, b), a);
    GoodStable(t, i, Pair(a, b), b);
    assert t[a].Char? || a > i;
    assert t[b].Char? || b > i;
    PartIsCode(t', i, a);
    PartIsCode(t', i, b);
  }

  /** The pair (a, b) stands at position k. */
  predicate PairAt(s: seq<Code>, a: Code, b: Code, k: int) {
    0 <= k < |s| - 1 && s[k] == a && s[k + 1] == b
  }

  /** Replacing a pair by a new code, from left to right without overlap. */
  function Replace(s: seq<Code>, a: Code, b: Code, x: Code): (r: seq<Code>)
    ensures |r| <= |s|
  {
    if |s| < 2 then s
    else if s[0] == a && s[1] == b then [x] + Replace(s[2..], a, b, x)
    else [s[0]] + Replace(s[1..], a, b, x)
  }

  lemma {:induction false} ReplaceNone(s: seq<Code>, a: Code, b: Code, x: Code)
    requires forall k :: !PairAt(s, a, b, k)
    ensures Replace(s, a, b, x) == s
  {
    if |s| >= 2 {
      assert !PairAt(s, a, b, 0);
      forall k ensures !PairAt(s[1..], a, b, k) { assert !PairAt(s, a, b, k + 1); }
      ReplaceNone(s[1..], a, b, x);
    }
  }

  /** The first occurrence is replaced, the search goes on behind it. */
  lemma {:induction false} ReplaceFirst(s: seq<Code>, a: Code, b: Code, x: Code, k: nat)
    requires PairAt(s, a, b, k) && forall j :: 0 <= j < k ==> !PairAt(s, a, b, j)
    ensures Replace(s, a, b, x) == s[..k] + [x] + Replace(s[k + 2..], a, b, x)
  {
    if k == 0 {
      assert s[..0] + [x] == [x];
    } else {
      var t := s[1..];
      assert !PairAt(s, a, b, 0);
      forall j | 0 <= j < k - 1 ensures !PairAt(t, a, b, j) { assert !PairAt(s, a, b, j + 1); }
      ReplaceFirst(t, a, b, x, k - 1);
      var rest := Replace(s[k + 2..], a, b, x);
      assert t[k + 1..] == s[k + 2..];
      assert s[..k] == [s[0]] + t[..k - 1];
      assert s[..k] + [x] + rest == [s[0]] + (t[..k - 1] + [x] + rest);
    }
  }

  /** Replacing does not change what a symbol stands for. */
  lemma {:induction false} ReplaceExpands(t: Table, s: seq<Code>, a: Code, b: Code, x: Code)
    requires AllGood(t, s) && Good(t, x) && t[x] == Pair(a, b)
    ensures AllGood(t, Replace(s, a, b, x)) && Expand(t, Replace(s, a, b, x)) == Expand(t, s)
  {
    if |s| >= 2 {
      if s[0] == a && s[1] == b {
        ReplaceExpands(t, s[2..], a, b, x);
        var r := Replace(s[2..], a, b, x);
        assert ([x] + r)[1..] == r;
        PartIsCode(t, x, a);
        PartIsCode(t, x, b);
        assert s[1..][1..] == s[2..];
        assert Expand(t, s) == ExpandCode(t, a) + (ExpandCode(t, b) + Expand(t, s[2..]));
      } else {
        ReplaceExpands(t, s[1..], a, b, x);
        var r := Replace(s[1..], a, b, x);
        assert ([s[0]] + r)[1..] == r;
      }
    }
  }

  lemma {:induction false} ReplaceCodes(s: seq<Code>, a: Code, b: Code, x: Code, k: nat)
    requires k < |Replace(s, a, b, x)|
    ensures Replace(s, a, b, x)[k] == x || Replace(s, a, b, x)[k] in s
  {
    if |s| >= 2 && k > 0 {
      if s[0] == a && s[1] == b {
        ReplaceCodes(s[2..], a, b, x, k - 1);
      } else {
        ReplaceCodes(s[1..], a, b, x, k - 1);
      }
    }
  }
}
