/** The run of the symbol compressor, slot by slot, and what every step of it keeps. */
module TokenRun {
  import opened TokenTable
  import opened PairCounts

  ghost predicate NonZero(s: seq<Code>) {
    forall k :: 0 <= k < |s| ==> s[k] != 0
  }

  function ReplaceAll(syms: seq<seq<Code>>, a: Code, b: Code, x: Code): (r: seq<seq<Code>>)
    ensures |r| == |syms|
  {
    seq(|syms|, j requires 0 <= j < |syms| => Replace(syms[j], a, b, x))
  }

  /** A compressed symbol still stands for its name. */
  ghost predicate Stands(t: Table, s: seq<Code>, name: seq<Code>) {
    AllGood(t, s) && Expand(t, s) == name
  }

  ghost predicate AllStand(t: Table, syms: seq<seq<Code>>, names: seq<seq<Code>>) {
    |syms| == |names| && forall j :: 0 <= j < |syms| ==> Stands(t, syms[j], names[j])
  }

  ghost predicate AllNonZero(syms: seq<seq<Code>>) {
    forall j :: 0 <= j < |syms| ==> NonZero(syms[j])
  }

  /** No symbol has two codes next to each other any more. */
  ghost predicate Dry(syms: seq<seq<Code>>) {
    forall p: nat :: p < 0x10000 ==> Total(syms, p) == 0
  }

  /** Every code above i expands, to no more than the longest name. */
  ghost predicate Filled(t: Table, i: int, longest: nat) {
    forall c: Code :: c > i ==> Good(t, c) && |ExpandCode(t, c)| <= longest
  }

  ghost predicate SomeUses(syms: seq<seq<Code>>, c: Code) {
    exists j :: 0 <= j < |syms| && c in syms[j]
  }

  ghost predicate NoneAbove(names: seq<seq<Code>>, longest: nat) {
    longest >= 1 && forall j :: 0 <= j < |names| ==> |names[j]| <= longest
  }

  // How far the characters of the names reach

  function Length(syms: seq<seq<Code>>): (n: nat) {
    if syms == [] then 0 else |syms[0]| + Length(syms[1..])
  }

  /** Pairs in the slots above i. */
  function PairSlots(t: Table, i: int): (n: nat)
    requires -1 <= i <= 255
    decreases 255 - i
  {
    if i == 255 then 0 else PairSlots(t, i + 1) + if t[i + 1].Pair? then 1 else 0
  }

  /** Every pair made the symbols shorter by a code at least, until there was no pair. Only
      characters of the names stand for themselves. */
  ghost predicate Spent(names: seq<seq<Code>>, t: Table, syms: seq<seq<Code>>, i: int)
    requires -1 <= i <= 255
  {
    && (forall c: Code :: t[c].Char? ==> SomeUses(names, c))
    && (Length(syms) + PairSlots(t, i) <= Length(names) || if i >= 0 then Dry(syms) else t[0] == Pair(0, 0))
  }

  lemma {:induction false} PairSlotsSame(t: Table, t': Table, i: int)
    requires -1 <= i <= 255 && forall c: Code :: c > i ==> t'[c] == t[c]
    ensures PairSlots(t', i) == PairSlots(t, i)
    decreases 255 - i
  {
    if i < 255 { PairSlotsSame(t, t', i + 1); }
  }

  lemma {:induction false} ReplaceShorter(s: seq<Code>, a: Code, b: Code, x: Code, k: int)
    requires PairAt(s, a, b, k)
    ensures |Replace(s, a, b, x)| < |s|
  {
    if !(s[0] == a && s[1] == b) { ReplaceShorter(s[1..], a, b, x, k - 1); }
  }

  lemma {:induction false} LengthLess(syms: seq<seq<Code>>, r: seq<seq<Code>>)
    requires |r| == |syms| && forall j :: 0 <= j < |syms| ==> |r[j]| <= |syms[j]|
    ensures Length(r) <= Length(syms)
    ensures (exists j :: 0 <= j < |syms| && |r[j]| < |syms[j]|) ==> Length(r) < Length(syms)
  {
    if syms != [] {
      LengthLess(syms[1..], r[1..]);
      if j :| 0 <= j < |syms| && |r[j]| < |syms[j]| {
        assert j > 0 ==> |r[1..][j - 1]| < |syms[1..][j - 1]|;
      }
    }
  }

  /** Entering a pair that occurs in symbol j. */
  lemma SpentPair(names: seq<seq<Code>>, t: Table, syms: seq<seq<Code>>, i: Code, a: Code, b: Code, j: nat, k: int)
    requires Spent(names, t, syms, i) && !Dry(syms) && t[i].Empty? && j < |syms| && PairAt(syms[j], a, b, k)
    ensures Spent(names, t[i := Pair(a, b)], ReplaceAll(syms, a, b, i), i - 1)
  {
    hide Dry, Replace, SomeUses;
    var t', r := t[i := Pair(a, b)], ReplaceAll(syms, a, b, i);
    PairSlotsSame(t, t', i);
    ReplaceShorter(syms[j], a, b, i, k);
    assert |r[j]| < |syms[j]|;
    LengthLess(syms, r);
  }

  /** Leaving a character alone, or entering the pair (0, 0) when there is no other. */
  lemma SpentQuiet(names: seq<seq<Code>>, t: Table, t': Table, syms: seq<seq<Code>>, i: Code)
    requires Spent(names, t, syms, i) && forall c: Code :: c != i ==> t'[c] == t[c]
    requires if Dry(syms) && t[i].Empty? then t'[i] == Pair(0, 0) else i > 0 && t' == t && t[i].Char?
    ensures Spent(names, t', syms, i - 1)
  {
    hide Dry, SomeUses;
    PairSlotsSame(t, t', i);
  }

  /** Slots 255 to i + 1 are done. Either every one of them got a pair in use, or the
      symbols ran out of pairs and the rest got the pair (0, 0). */
  ghost predicate Progress(names: seq<seq<Code>>, longest: nat, t: Table, syms: seq<seq<Code>>, i: int) {
    && -1 <= i <= 255 && Spent(names, t, syms, i)
    && NoneAbove(names, longest)
    && AllStand(t, syms, names)
    && EmptyUpTo(t, i)
    && (i >= 0 ==> t[0].Empty? && AllNonZero(syms))
    && (Filled(t, i, longest) || Dry(syms))
    && (i < 0 ==> !t[0].Char?)
    && (i < 0 ==> if t[0] == Pair(0, 0) then Dry(syms) && !SomeUses(syms, 0)
                  else Filled(t, i, longest) && SomeUses(syms, 0))
  }

  /** A character's slot is left alone. */
  lemma CharStep(names: seq<seq<Code>>, longest: nat, t: Table, syms: seq<seq<Code>>, i: Code)
    requires Progress(names, longest, t, syms, i) && !t[i].Empty?
    ensures i > 0 && Progress(names, longest, t, syms, i - 1)
  {
    hide Spent;
    assert t[i].Char? && i > 0;
    SpentQuiet(names, t, t, syms, i);
    if Filled(t, i, longest) {
      forall c: Code | c > i - 1 ensures Good(t, c) && |ExpandCode(t, c)| <= longest {
        if c == i { assert t[i].Char?; }
      }
    }
  }

  /** The pair at k is part of what the symbol stands for. */
  lemma {:induction false} PairInside(t: Table, s: seq<Code>, a: Code, b: Code, k: int)
    requires AllGood(t, s) && PairAt(s, a, b, k)
    ensures Good(t, a) && Good(t, b)
    ensures |ExpandCode(t, a)| + |ExpandCode(t, b)| <= |Expand(t, s)|
  {
    assert Good(t, s[k]) && Good(t, s[k + 1]);
    if k == 0 {
      assert Expand(t, s) == ExpandCode(t, a) + Expand(t, s[1..]);
      assert Expand(t, s[1..]) == ExpandCode(t, s[1..][0]) + Expand(t, s[1..][1..]);
    } else {
      PairInside(t, s[1..], a, b, k - 1);
    }
  }

  /** A counted pair consists of good codes, both in use in some symbol. */
  lemma CountedPair(names: seq<seq<Code>>, longest: nat, t: Table, syms: seq<seq<Code>>, i: Code, a: Code, b: Code)
    requires Progress(names, longest, t, syms, i) && Total(syms, PairIndex(a, b)) > 0
    ensures a != 0 && b != 0 && Good(t, a) && Good(t, b)
    ensures |ExpandCode(t, a)| + |ExpandCode(t, b)| <= longest
    ensures exists j, k :: 0 <= j < |syms| && PairAt(syms[j], a, b, k)
  {
    hide Total, PairCount, Expand, Good, ExpandCode, PairIndex, Spent;
    var j := TotalPresent(syms, PairIndex(a, b));
    CountedIffPresent(syms[j], a, b);
    var k :| PairAt(syms[j], a, b, k);
    assert Stands(t, syms[j], names[j]) && NonZero(syms[j]);
    PairInside(t, syms[j], a, b, k);
  }

  lemma StandStep(t: Table, syms: seq<seq<Code>>, names: seq<seq<Code>>, i: Code, a: Code, b: Code)
    requires AllStand(t, syms, names) && t[i].Empty? && EmptyUpTo(t, i) && Good(t, a) && Good(t, b)
    ensures AllStand(t[i := Pair(a, b)], ReplaceAll(syms, a, b, i), names)
  {
    hide Good, Expand, EmptyUpTo, AllGood;
    var t' := t[i := Pair(a, b)];
    PairIsGood(t, i, a, b);
    forall j | 0 <= j < |syms| ensures Stands(t', ReplaceAll(syms, a, b, i)[j], names[j]) {
      assert Stands(t, syms[j], names[j]);
      ExpandStable(t, i, Pair(a, b), syms[j]);
      ReplaceExpands(t', syms[j], a, b, i);
    }
  }

  lemma FilledStep(t: Table, i: Code, a: Code, b: Code, longest: nat)
    requires t[i].Empty? && EmptyUpTo(t, i) && Good(t, a) && Good(t, b)
    requires Filled(t, i, longest) && |ExpandCode(t, a)| + |ExpandCode(t, b)| <= longest
    ensures Filled(t[i := Pair(a, b)], i - 1, longest)
  {
    hide Good, EmptyUpTo, ExpandCode;
    var t' := t[i := Pair(a, b)];
    forall c: Code | c > i - 1 ensures Good(t', c) && |ExpandCode(t', c)| <= longest {
      if c == i { PairIsGood(t, i, a, b); } else { GoodStable(t, i, Pair(a, b), c); }
    }
  }

  lemma NonZeroStep(syms: seq<seq<Code>>, a: Code, b: Code, x: Code)
    requires AllNonZero(syms) && x != 0
    ensures AllNonZero(ReplaceAll(syms, a, b, x))
  {
    hide Replace;
    var r := ReplaceAll(syms, a, b, x);
    forall j, k | 0 <= j < |r| && 0 <= k < |r[j]| ensures r[j][k] != 0 {
      assert NonZero(syms[j]);
      ReplaceCodes(syms[j], a, b, x, k);
    }
  }

  lemma {:induction false} ReplacedIsUsed(s: seq<Code>, a: Code, b: Code, x: Code, k: int)
    requires PairAt(s, a, b, k)
    ensures x in Replace(s, a, b, x) || (a == b && k > 0 && PairAt(s, a, b, k - 1))
  {
    if !(s[0] == a && s[1] == b) {
      ReplacedIsUsed(s[1..], a, b, x, k - 1);
      var r := Replace(s[1..], a, b, x);
      assert Replace(s, a, b, x) == [s[0]] + r;
      assert x in r ==> x in [s[0]] + r;
      if x !in r { assert PairAt(s[1..], a, b, k - 2); }
    } else {
      assert Replace(s, a, b, x)[0] == x;
    }
  }

  lemma UsesStep(syms: seq<seq<Code>>, a: Code, b: Code, x: Code, j: nat, k: int)
    requires j < |syms| && PairAt(syms[j], a, b, k)
    ensures SomeUses(ReplaceAll(syms, a, b, x), x)
    decreases k
  {
    hide Replace;
    ReplacedIsUsed(syms[j], a, b, x, k);
    var r := ReplaceAll(syms, a, b, x);
    if x in Replace(syms[j], a, b, x) {
      assert x in r[j];
    } else {
      UsesStep(syms, a, b, x, j, k - 1);
    }
  }

  lemma EmptyStep(t: Table, i: Code, x: Slot)
    requires EmptyUpTo(t, i)
    ensures EmptyUpTo(t[i := x], i - 1)
  {}

  /** A pair that occurs takes the slot and is replaced everywhere. */
  lemma PairStep(names: seq<seq<Code>>, longest: nat, t: Table, syms: seq<seq<Code>>, i: Code, a: Code, b: Code)
    requires Progress(names, longest, t, syms, i) && t[i].Empty? && Total(syms, PairIndex(a, b)) > 0
    ensures Progress(names, longest, t[i := Pair(a, b)], ReplaceAll(syms, a, b, i), i - 1)
  {
    hide EmptyUpTo, Good, Total, PairIndex, AllStand, Filled, AllNonZero, ReplaceAll, ExpandCode, PairAt, Spent;
    CountedPair(names, longest, t, syms, i, a, b);
    assert !Dry(syms) by { assert PairIndex(a, b) < 0x10000; }
    StandStep(t, syms, names, i, a, b);
    FilledStep(t, i, a, b, longest);
    EmptyStep(t, i, Pair(a, b));
    var j, k :| 0 <= j < |syms| && PairAt(syms[j], a, b, k);
    SpentPair(names, t, syms, i, a, b, j, k);
    if i > 0 { NonZeroStep(syms, a, b, i); } else { UsesStep(syms, a, b, 0, j, k); }
  }

  /** With no pair left the slot gets (0, 0), and the symbols stay as they are. */
  lemma DryStep(names: seq<seq<Code>>, longest: nat, t: Table, syms: seq<seq<Code>>, i: Code)
    requires Progress(names, longest, t, syms, i) && t[i].Empty? && Dry(syms)
    ensures Progress(names, longest, t[i := Pair(0, 0)], syms, i - 1)
  {
    hide Good, Total, Expand, Spent, Dry;
    var t' := t[i := Pair(0, 0)];
    SpentQuiet(names, t, t', syms, i);
    forall j | 0 <= j < |syms| ensures Stands(t', syms[j], names[j]) {
      assert Stands(t, syms[j], names[j]);
      ExpandStable(t, i, Pair(0, 0), syms[j]);
    }
    forall j | 0 <= j < |syms| ensures 0 !in syms[j] { assert NonZero(syms[j]); }
  }

  // When does writing the finished table end?

  /** expand_symbol with the recursion cut off at a depth; None: deeper than that. */
  datatype Expansion = TooDeep | Chars(chars: seq<Code>)

  function ExpandTo(t: Table, s: seq<Code>, depth: nat): (r: Expansion)
    decreases depth, |s|
  {
    if s == [] then Chars([])
    else
      var head := if t[s[0]].Char? then Chars([s[0]])
                  else if depth == 0 then TooDeep
                  else ExpandTo(t, Body(t[s[0]]), depth - 1);
      var rest := ExpandTo(t, s[1..], depth);
      if head.TooDeep? || rest.TooDeep? then TooDeep else Chars(head.chars + rest.chars)
  }

  function Body(x: Slot): (r: seq<Code>) {
    if x.Pair? then [x.a, x.b] else []
  }

  lemma ExpandOne(t: Table, c: Code)
    requires Good(t, c)
    ensures Expand(t, [c]) == ExpandCode(t, c)
  {
    assert Expand(t, [c]) == ExpandCode(t, [c][0]) + Expand(t, [c][1..]);
    assert [c][1..] == [];
  }

  lemma ExpandBody(t: Table, c: Code)
    requires Good(t, c) && t[c].Pair?
    ensures AllGood(t, Body(t[c])) && Expand(t, Body(t[c])) == ExpandCode(t, c)
  {
    hide Expand;
    var a, b := t[c].a, t[c].b;
    PartIsCode(t, c, a);
    PartIsCode(t, c, b);
    ExpandOne(t, a);
    ExpandOne(t, b);
    ExpandAppend(t, [a], [b]);
    assert Body(t[c]) == [a] + [b];
  }

  /** A good code's expansion ends, 256 levels are always enough. */
  lemma {:induction false} GoodEnds(t: Table, s: seq<Code>, lo: nat)
    requires lo <= 256 && AllGood(t, s)
    requires forall k :: 0 <= k < |s| ==> t[s[k]].Char? || s[k] >= lo
    ensures ExpandTo(t, s, 256 - lo) == Chars(Expand(t, s))
    decreases 256 - lo, |s|
  {
    if s != [] {
      var c := s[0];
      if t[c].Pair? {
        var pair := Body(t[c]);
        assert Good(t, c) && pair == [t[c].a, t[c].b];
        ExpandBody(t, c);
        GoodEnds(t, pair, lo + 1);
      }
      GoodEnds(t, s[1..], lo);
    }
  }

  /** The pair (0, 0) in slot 0 expands without end. */
  lemma {:induction false} ZeroPairNeverEnds(t: Table, depth: nat)
    requires t[0] == Pair(0, 0)
    ensures ExpandTo(t, [0], depth).TooDeep?
  {
    if depth > 0 {
      ZeroPairNeverEnds(t, depth - 1);
      assert Body(t[0]) == [0, 0];
      assert ExpandTo(t, [0, 0][1..], depth - 1) == ExpandTo(t, [0], depth - 1);
      var head := ExpandTo(t, Body(t[0]), depth - 1);
      assert head.TooDeep? by {
        var rest := ExpandTo(t, [0, 0][1..], depth - 1);
        assert rest.TooDeep?;
      }
    }
  }

  /** The finished table can be expanded exactly when some compressed symbol uses code 0. */
  lemma FinishedIff(names: seq<seq<Code>>, longest: nat, t: Table, syms: seq<seq<Code>>)
    requires Progress(names, longest, t, syms, -1)
    ensures SomeUses(syms, 0) <==> Filled(t, -1, longest)
    ensures SomeUses(syms, 0) <==> exists depth: nat :: !ExpandTo(t, [0], depth).TooDeep?
  {
    if SomeUses(syms, 0) {
      assert Good(t, 0);
      GoodEnds(t, [0], 0);
    } else {
      forall depth: nat ensures ExpandTo(t, [0], depth).TooDeep? { ZeroPairNeverEnds(t, depth); }
      assert !Good(t, 0);
    }
  }

  /** A symbol of two codes or more has a pair. */
  lemma LongIsNotDry(syms: seq<seq<Code>>, j: nat)
    requires j < |syms| && |syms[j]| >= 2
    ensures !Dry(syms)
  {
    var s := syms[j];
    var p := PairIndex(s[0], s[1]);
    assert PairAt(s, s[0], s[1], 0);
    CountedIffPresent(s, s[0], s[1]);
    TotalIncludes(syms, j, p);
  }

  ghost function ExpandOrNil(t: Table, c: Code): (r: seq<Code>) {
    if Good(t, c) then ExpandCode(t, c) else []
  }

  ghost function Codes(n: nat): (r: set<Code>)
    requires n <= 256
    ensures forall c :: c in r <==> 1 <= c < n
    ensures |r| == if n == 0 then 0 else n - 1
  {
    if n <= 1 then {} else Codes(n - 1) + {n - 1}
  }

  lemma {:induction false} ImageSize(t: Table, from: set<Code>, to: set<seq<Code>>)
    requires forall x :: x in to ==> exists c :: c in from && ExpandOrNil(t, c) == x
    ensures |to| <= |from|
    decreases from
  {
    if to != {} {
      var x :| x in to;
      var c :| c in from && ExpandOrNil(t, c) == x;
      forall y | y in to - {x} ensures exists d :: d in from - {c} && ExpandOrNil(t, d) == y {
        var d :| d in from && ExpandOrNil(t, d) == y;
        assert d in from - {c};
      }
      ImageSize(t, from - {c}, to - {x});
    }
  }

  lemma SingleCode(t: Table, syms: seq<seq<Code>>, names: seq<seq<Code>>, j: nat) returns (c: Code)
    requires AllStand(t, syms, names) && Dry(syms) && !SomeUses(syms, 0) && j < |names| && names[j] != []
    ensures c in Codes(256) && ExpandOrNil(t, c) == names[j]
  {
    hide Dry, Codes, Good, ExpandCode;
    if |syms[j]| >= 2 { LongIsNotDry(syms, j); }
    assert Stands(t, syms[j], names[j]);
    assert syms[j] != [];
    c := syms[j][0];
    assert c in syms[j] && syms[j] == [c] && Good(t, c);
    ExpandOne(t, c);
  }

  /** With 256 different names the compressor never runs out of pairs. */
  lemma ManyNames(names: seq<seq<Code>>, longest: nat, t: Table, syms: seq<seq<Code>>)
    requires Progress(names, longest, t, syms, -1)
    requires forall j :: 0 <= j < |names| ==> names[j] != []
    requires |set j | 0 <= j < |names| :: names[j]| >= 256
    ensures SomeUses(syms, 0) && Filled(t, -1, longest)
  {
    hide Expand, Good, Dry, Filled, AllStand, SomeUses;
    if !SomeUses(syms, 0) {
      var all := set j | 0 <= j < |names| :: names[j];
      forall x | x in all ensures exists c :: c in Codes(256) && ExpandOrNil(t, c) == x {
        var j :| 0 <= j < |names| && names[j] == x;
        var c := SingleCode(t, syms, names, j);
      }
      ImageSize(t, Codes(256), all);
    }
  }

  /** The characters that the names use. */
  ghost function Letters(names: seq<seq<Code>>): (r: set<Code>) {
    set c: Code | SomeUses(names, c)
  }

  lemma {:induction false} SlotCount(names: seq<seq<Code>>, t: Table, i: int) returns (chars: set<Code>)
    requires -1 <= i <= 255 && forall c: Code :: c > i ==> (t[c].Char? && SomeUses(names, c)) || t[c].Pair?
    ensures PairSlots(t, i) + |chars| == 255 - i && forall c :: c in chars ==> c > i && SomeUses(names, c)
    decreases 255 - i
  {
    hide SomeUses;
    chars := {};
    if i < 255 {
      chars := SlotCount(names, t, i + 1);
      if t[i + 1].Char? { chars := chars + {i + 1}; }
    }
  }

  lemma {:induction false} SubsetSize(a: set<Code>, b: set<Code>)
    requires a <= b
    ensures |a| <= |b|
  {
    if a != {} {
      var x :| x in a;
      SubsetSize(a - {x}, b - {x});
    }
  }

  lemma {:induction false} UsedIsLong(syms: seq<seq<Code>>, j: nat)
    requires j < |syms| && syms[j] != []
    ensures Length(syms) > 0
  {
    if j > 0 { UsedIsLong(syms[1..], j - 1); }
  }

  /** With few characters the compressor does run out of pairs: if the names have no more
      characters in all than there are codes which no name uses. */
  lemma FewCharacters(names: seq<seq<Code>>, longest: nat, t: Table, syms: seq<seq<Code>>)
    requires Progress(names, longest, t, syms, -1) && Length(names) + |Letters(names)| <= 256
    ensures t[0] == Pair(0, 0) && !SomeUses(syms, 0)
  {
    hide Dry, AllStand, ExpandCode;
    if t[0] != Pair(0, 0) {
      forall c: Code ensures (t[c].Char? && SomeUses(names, c)) || t[c].Pair? { assert Good(t, c); }
      var chars := SlotCount(names, t, -1);
      SubsetSize(chars, Letters(names));
      var j :| 0 <= j < |syms| && 0 in syms[j];
      UsedIsLong(syms, j);
    }
  }
}
