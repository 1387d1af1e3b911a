/** The state of scripts/kallsyms while it builds the token table. */
module KallsymsTool {
  import opened TokenTable
  import opened PairCounts
  import opened TokenRun
  import opened SymbolCompressor

  ghost predicate CountsOf(profit: seq<int>, syms: seq<seq<Code>>) {
    |profit| == 0x10000 && forall p: nat :: p < 0x10000 ==> profit[p] == Total(syms, p)
  }

  lemma CountsReplaced(p0: seq<int>, p1: seq<int>, p2: seq<int>, syms: seq<seq<Code>>, i: nat, s: seq<Code>)
    requires i < |syms| && CountsOf(p0, syms) && Shifts(p0, p1, syms[i], -1) && Shifts(p1, p2, s, 1)
    ensures CountsOf(p2, syms[i := s])
  {
    hide Total, PairCount;
    forall p: nat | p < 0x10000 ensures p2[p] == Total(syms[i := s], p) { TotalUpdate(syms, i, s, p); }
  }

  /** token_profit's best entry: the first of the largest. */
  predicate IsBest(profit: seq<int>, best: nat) {
    best < |profit| && (forall p :: 0 <= p < |profit| ==> profit[p] <= profit[best])
    && (forall p :: 0 <= p < best ==> profit[p] < profit[best])
  }

  method FindBestToken(profit: array<int>) returns (best: nat)
    requires profit.Length == 0x10000 && forall p :: 0 <= p < profit.Length ==> profit[p] >= 0
    ensures IsBest(profit[..], best)
  {
    var bestProfit := -10000;
    best := 0;
    for i := 0 to 0x10000
      invariant if i == 0 then best == 0 && bestProfit == -10000 else best < i && profit[best] == bestProfit
      invariant forall p :: 0 <= p < i ==> profit[p] <= bestProfit
      invariant forall p :: 0 <= p < best ==> profit[p] < bestProfit
    {
      if profit[i] > bestProfit {
        best := i;
        bestProfit := profit[i];
      }
    }
  }

  lemma TotalNone(syms: seq<seq<Code>>)
    ensures forall p: nat :: p < 0x10000 ==> Total(syms[..0], p) == 0
  {}

  lemma CountsGrow(p0: seq<int>, p1: seq<int>, syms: seq<seq<Code>>, i: nat)
    requires i < |syms| && CountsOf(p0, syms[..i]) && Shifts(p0, p1, syms[i], 1)
    ensures CountsOf(p1, syms[..i + 1])
  {
    hide PairCount;
    assert syms[..i + 1][..i] == syms[..i];
  }

  lemma CountsNatural(profit: seq<int>, syms: seq<seq<Code>>)
    requires CountsOf(profit, syms)
    ensures |profit| == 0x10000 && forall p :: 0 <= p < |profit| ==> profit[p] >= 0
  {
    hide Total;
    forall p: nat | p < 0x10000 ensures profit[p] >= 0 { assert profit[p] == Total(syms, p); }
  }

  /** The table before any pair: the codes that symbols use stand for themselves. */
  ghost predicate CharsOnly(t: Table, syms: seq<seq<Code>>) {
    forall c: Code :: t[c] == if SomeUses(syms, c) then Char else Empty
  }

  lemma CharAdded(t: Table, before: seq<seq<Code>>, s: seq<Code>, j: nat)
    requires j < |s| && t[s[j]].Char?
    requires forall c: Code :: c != s[j] ==> t[c] == if SomeUses(before + [s[..j]], c) then Char else Empty
    ensures CharsOnly(t, before + [s[..j + 1]])
  {
    var u, v := before + [s[..j]], before + [s[..j + 1]];
    var n := |before|;
    forall c: Code ensures SomeUses(v, c) <==> c == s[j] || SomeUses(u, c) {
      assert v[n][j] == s[j];
      if SomeUses(u, c) {
        var k :| 0 <= k < |u| && c in u[k];
        assert c in v[k];
      }
      if SomeUses(v, c) {
        var k :| 0 <= k < |v| && c in v[k];
        assert c == s[j] || c in u[k];
      }
    }
  }

  lemma NothingAdded(t: Table, before: seq<seq<Code>>, s: seq<Code>)
    requires CharsOnly(t, before) && s == []
    ensures CharsOnly(t, before + [s])
  {
    var v := before + [s];
    forall c: Code ensures SomeUses(v, c) <==> SomeUses(before, c) {
      if SomeUses(before, c) {
        var k :| 0 <= k < |before| && c in before[k];
        assert c in v[k];
      }
    }
  }

  lemma {:induction false} CharsExpand(t: Table, s: seq<Code>)
    requires forall k :: 0 <= k < |s| ==> t[s[k]].Char?
    ensures Stands(t, s, s)
  {
    if s != [] {
      CharsExpand(t, s[1..]);
      assert s == [s[0]] + s[1..];
    }
  }

  lemma InitialProgress(t: Table, syms: seq<seq<Code>>, longest: nat)
    requires CharsOnly(t, syms) && AllNonZero(syms) && NoneAbove(syms, longest)
    ensures Progress(syms, longest, t, syms, 255)
  {
    forall j | 0 <= j < |syms| ensures Stands(t, syms[j], syms[j]) {
      forall k | 0 <= k < |syms[j]| ensures t[syms[j][k]].Char? { assert SomeUses(syms, syms[j][k]); }
      CharsExpand(t, syms[j]);
    }
    assert !SomeUses(syms, 0);
    assert PairSlots(t, 255) == 0;
  }

  /** Entering the most frequent pair, and replacing it, is progress. */
  lemma BestStep(names: seq<seq<Code>>, longest: nat, t: Table, syms: seq<seq<Code>>, i: Code,
                 profit: seq<int>, best: nat)
    requires Progress(names, longest, t, syms, i) && t[i].Empty? && CountsOf(profit, syms) && IsBest(profit, best)
    ensures AllNonZero(syms)
    ensures var a: Code, b: Code := best % 256, best / 256;
            Progress(names, longest, t[i := Pair(a, b)], ReplaceAll(syms, a, b, i), i - 1)
  {
    var a: Code, b: Code := best % 256, best / 256;
    assert PairIndex(a, b) == best;
    if profit[best] > 0 {
      PairStep(names, longest, t, syms, i, a, b);
    } else {
      NothingLeft(profit, syms, best);
      DryStep(names, longest, t, syms, i);
      NothingReplaced(syms, i);
    }
  }

  lemma NothingLeft(profit: seq<int>, syms: seq<seq<Code>>, best: nat)
    requires CountsOf(profit, syms) && IsBest(profit, best) && profit[best] <= 0
    ensures best == 0 && Dry(syms)
  {
    hide Total;
    CountsNatural(profit, syms);
    forall p: nat | p < 0x10000 ensures Total(syms, p) == 0 { assert profit[p] == Total(syms, p); }
    assert profit[0] >= 0;
  }

  lemma NothingReplaced(syms: seq<seq<Code>>, x: Code)
    requires AllNonZero(syms)
    ensures ReplaceAll(syms, 0, 0, x) == syms
  {
    hide Replace;
    forall j | 0 <= j < |syms| ensures Replace(syms[j], 0, 0, x) == syms[j] {
      assert NonZero(syms[j]);
      ReplaceNone(syms[j], 0, 0, x);
    }
  }

  class Compressor {
    /** The symbols' byte buffers, one for each symbol. */
    const sym: seq<array<Code>>
    const profit: array<int>
    var len: seq<nat>
    var table: Table
    /** What the buffers hold. */
    ghost var syms: seq<seq<Code>>

    ghost function Buffers(): (r: set<object>) {
      set i | 0 <= i < |sym| :: sym[i]
    }

    ghost predicate Holds(i: nat)
      requires i < |sym|
      reads this`len, this`syms, sym[i]
    {
      i < |len| && i < |syms| && Padded(sym[i][..], len[i]) && sym[i][..len[i]] == syms[i]
    }

    ghost predicate Valid()
      reads this`len, this`syms, Buffers()
    {
      && |sym| == |len| == |syms|
      && (forall i, j :: 0 <= i < j < |sym| ==> sym[i] != sym[j])
      && (forall i :: 0 <= i < |sym| ==> Holds(i))
      && profit.Length == 0x10000
    }

    ghost predicate Counted()
      reads this`syms, profit
    {
      CountsOf(profit[..], syms)
    }

    constructor (sym: seq<array<Code>>, len: seq<nat>, ghost names: seq<seq<Code>>)
      requires |sym| == |len| == |names| && (forall i, j :: 0 <= i < j < |sym| ==> sym[i] != sym[j])
      requires forall i :: 0 <= i < |sym| ==> Padded(sym[i][..], len[i]) && sym[i][..len[i]] == names[i]
      ensures Valid() && this.sym == sym && syms == names && fresh(profit)
      ensures forall p :: 0 <= p < 0x10000 ==> profit[p] == 0
    {
      this.sym, this.len, syms := sym, len, names;
      profit := new int[0x10000](_ => 0);
      table := seq(256, _ => Empty);
    }

    /** compress_symbols for one symbol. */
    method CompressSymbol(i: nat, a: Code, b: Code, x: Code)
      requires Valid() && Counted() && i < |sym| && NonZero(syms[i])
      modifies this`len, this`syms, Buffers(), profit
      ensures Valid() && Counted()
      ensures syms == old(syms)[i := Replace(old(syms)[i], a, b, x)]
    {
      hide Replace, PairCount, CountsOf, Shifts, Padded;
      assert Holds(i);
      PaddedBound(sym[i][..], len[i]);
      var n := len[i];
      ghost var s, p0 := syms[i], profit[..];
      assert sym[i][0..0 + n] == s;
      var p2 := FindPair(sym[i], 0, n, a, b);
      if p2 == -1 {
        ReplaceNone(s, a, b, x);
        return;
      }
      ForgetSymbol(profit, sym[i], n);
      ghost var p1 := profit[..];
      n := ReplaceInPlace(sym[i], n, p2, a, b, x);
      len := len[i := n];
      PaddedBound(sym[i][..], n);
      LearnSymbol(profit, sym[i], n);
      ghost var r := sym[i][..n];
      CountsReplaced(p0, p1, profit[..], syms, i, r);
      syms := syms[i := r];
      forall j | 0 <= j < |sym| ensures Holds(j) {
        if j != i { assert old(Holds(j)) && sym[j] != sym[i]; }
      }
    }

    /** compress_symbols. */
    method CompressSymbols(a: Code, b: Code, x: Code)
      requires Valid() && Counted() && AllNonZero(syms)
      modifies this`len, this`syms, Buffers(), profit
      ensures Valid() && Counted() && syms == ReplaceAll(old(syms), a, b, x)
    {
      hide Replace, CountsOf, Padded, NonZero;
      ghost var was := syms;
      for i := 0 to |sym|
        invariant Valid() && Counted()
        invariant forall j :: 0 <= j < i ==> syms[j] == Replace(was[j], a, b, x)
        invariant forall j :: i <= j < |sym| ==> syms[j] == was[j]
      {
        CompressSymbol(i, a, b, x);
      }
    }

    /** build_initial_tok_table's count, all symbols being valid. */
    method LearnAll()
      requires Valid() && forall p :: 0 <= p < 0x10000 ==> profit[p] == 0
      modifies profit
      ensures Valid() && Counted()
    {
      hide PairCount, Padded, Total, Shifts;
      assert CountsOf(profit[..], syms[..0]) by { TotalNone(syms); }
      for i := 0 to |sym|
        invariant Valid() && CountsOf(profit[..], syms[..i])
        modifies profit
      {
        assert Holds(i);
        PaddedBound(sym[i][..], len[i]);
        ghost var p0 := profit[..];
        LearnSymbol(profit, sym[i], len[i]);
        CountsGrow(p0, profit[..], syms, i);
      }
      assert syms[..|sym|] == syms;
    }

    /** insert_real_symbols_in_table. */
    method InsertRealSymbols()
      requires Valid()
      modifies this`table
      ensures Valid() && CharsOnly(table, syms)
    {
      hide Padded;
      table := seq(256, _ => Empty);
      for i := 0 to |sym|
        invariant Valid() && CharsOnly(table, syms[..i])
      {
        assert Holds(i);
        PaddedBound(sym[i][..], len[i]);
        NothingAdded(table, syms[..i], syms[i][..0]);
        for j := 0 to len[i]
          invariant Valid() && CharsOnly(table, syms[..i] + [syms[i][..j]])
        {
          var c := sym[i][j];
          table := table[c := Char];
          assert syms[i][j] == c;
          CharAdded(table, syms[..i], syms[i], j);
        }
        assert |syms[i]| == len[i] && syms[i][..len[i]] == syms[i];
        assert syms[..i] + [syms[i]] == syms[..i + 1];
      }
      assert syms[..|sym|] == syms;
    }

    /** optimize_result. */
    method OptimizeResult(ghost names: seq<seq<Code>>, ghost longest: nat)
      requires Valid() && Counted() && Progress(names, longest, table, syms, 255)
      modifies this`len, this`syms, this`table, Buffers(), profit
      ensures Valid() && Counted() && Progress(names, longest, table, syms, -1)
    {
      hide Progress, CountsOf, Padded, ReplaceAll, PairIndex;
      for i := 256 downto 0
        invariant Valid() && Counted() && Progress(names, longest, table, syms, i - 1)
      {
        if table[i].Empty? {
          CountsNatural(profit[..], syms);
          var best := FindBestToken(profit);
          var a, b := best % 256, best / 256;
          BestStep(names, longest, table, syms, i, profit[..], best);
          table := table[i := Pair(a, b)];
          CompressSymbols(a, b, i);
        } else {
          CharStep(names, longest, table, syms, i);
        }
      }
    }

    /** optimize_token_table; false: there is no symbol. */
    method OptimizeTokenTable(ghost longest: nat) returns (ok: bool)
      requires Valid() && forall p :: 0 <= p < 0x10000 ==> profit[p] == 0
      requires AllNonZero(syms) && NoneAbove(syms, longest)
      modifies this`len, this`syms, this`table, Buffers(), profit
      ensures Valid() && ok == (sym != [])
      ensures ok ==> Progress(old(syms), longest, table, syms, -1)
    {
      hide Progress, CountsOf, Padded;
      LearnAll();
      InsertRealSymbols();
      if |sym| == 0 { return false; }
      InitialProgress(table, syms, longest);
      OptimizeResult(syms, longest);
      ok := true;
    }
  }
}
