/** Single steps of the reference decoder, and the fixed codes. */
module DeflateSteps {
  import opened Bits
  import opened HuffmanCode
  import opened HuffmanLengths
  import opened HuftTables
  import opened HuftCorrect
  import opened HuftUses
  import opened Deflate

  lemma MatchFacts(t: Decoded, dd: seq<nat>, stream: nat, avail: nat)
    requires DistanceCode(dd) && t.Symbol? && 1 <= t.n
    ensures var r := Match(t, dd, stream, avail);
            r.Copy? ==> t.used < r.used <= avail && 1 <= r.len && 1 <= r.dist <= MAX_DISTANCE
  {}

  ghost predicate SymbolFacts(t: Decoded) {
    t.Symbol? ==> t.used > 0 && (t.e == LITERAL ==> t.n < 256) && (t.e < 15 ==> 1 <= t.n)
  }

  /** One step of the reference decoder: a literal, the end, or an error. */
  lemma CodesStep(ll: seq<nat>, dd: seq<nat>, stream: nat, avail: nat, hist: seq<Byte>, t: Decoded)
    requires LiteralCode(ll) && DistanceCode(dd) && |hist| >= MAX_DISTANCE && t == LiteralAt(ll, stream) && SymbolFacts(t)
    ensures !t.Symbol? ==> Codes(ll, dd, stream, avail, hist) == Bad
    ensures t.Symbol? && t.used > avail ==> Codes(ll, dd, stream, avail, hist) == Underrun
    ensures t.Symbol? && t.used <= avail && t.e == LITERAL ==>
              Codes(ll, dd, stream, avail, hist) == Codes(ll, dd, Shr(stream, t.used), avail - t.used, hist + [t.n])
    ensures t.Symbol? && t.used <= avail && t.e == END_OF_BLOCK ==>
              Codes(ll, dd, stream, avail, hist) == Done(Shr(stream, t.used), avail - t.used, hist)
  {
    hide LiteralAt, Match, CopyMatch, Shr, LiteralCode, DistanceCode;
  }

  /** A back reference. */
  lemma CodesMatch(ll: seq<nat>, dd: seq<nat>, stream: nat, avail: nat, hist: seq<Byte>, t: Decoded, m: Reference)
    requires LiteralCode(ll) && DistanceCode(dd) && |hist| >= MAX_DISTANCE && t == LiteralAt(ll, stream) && SymbolFacts(t)
    requires t.Symbol? && t.used <= avail && t.e < 15 && m == Match(t, dd, stream, avail)
    ensures m == NoDistance ==> Codes(ll, dd, stream, avail, hist) == Bad
    ensures m == NoBits ==> Codes(ll, dd, stream, avail, hist) == Underrun
    ensures m.Copy? ==> Codes(ll, dd, stream, avail, hist) == Codes(ll, dd, Shr(stream, m.used), avail - m.used, CopyMatch(hist, m.dist, m.len))
  {
    hide LiteralAt, Match, CopyMatch, Shr, LiteralCode, DistanceCode;
  }

  lemma CodesLeave(ll: seq<nat>, dd: seq<nat>, stream: nat, avail: nat, hist: seq<Byte>)
    requires LiteralCode(ll) && DistanceCode(dd) && |hist| >= MAX_DISTANCE
    ensures Codes(ll, dd, stream, avail, hist).Done? ==> Codes(ll, dd, stream, avail, hist).avail <= avail
  {
    hide LiteralCode, DistanceCode;
  }

  ghost predicate Bounded(lens: seq<nat>) {
    forall s :: 0 <= s < |lens| ==> lens[s] <= MAX_LEN
  }

  /** Adding n codes of one length. */
  lemma {:induction false} KraftRun(lens: seq<nat>, n: nat, x: nat)
    requires 0 < x <= MAX_LEN && Bounded(lens)
    ensures Bounded(lens + seq(n, _ => x))
    ensures KraftSum(lens + seq(n, _ => x)) == KraftSum(lens) + n * Pow2(MAX_LEN - x)
  {
    hide Pow2;
    var run := seq(n, _ => x);
    if n == 0 {
      assert lens + run == lens;
    } else {
      var init := seq(n - 1, _ => x);
      KraftRun(lens, n - 1, x);
      var all := lens + run;
      assert all[..|all| - 1] == lens + init && all[|all| - 1] == x;
      MulStep(n, Pow2(MAX_LEN - x));
    }
  }

  lemma MulStep(n: nat, p: nat)
    requires n > 0
    ensures n * p == (n - 1) * p + p
  {}

  /** The fixed literal code is complete, the fixed distance code is not; neither needs
      a wide table. */
  lemma FixedCodesUsable()
    ensures LengthsOk(FixedLiterals()) && LengthsOk(FixedDistances())
    ensures !AllZero(FixedLiterals()) && !AllZero(FixedDistances())
    ensures KraftSum(FixedLiterals()) == Pow2(MAX_LEN) > KraftSum(FixedDistances())
    ensures MaxLen(FixedLiterals()) == 9 && TableWidth(FixedLiterals(), 7) == 7
    ensures MaxLen(FixedDistances()) == 5 == TableWidth(FixedDistances(), 5)
    ensures !WideOpening(FilledCounts(FixedLiterals()), 9, 7) && !WideOpening(FilledCounts(FixedDistances()), 5, 5)
  {
    FixedSums();
    TwoLevelsNotWide(FilledCounts(FixedLiterals()), 9, 7);
    TwoLevelsNotWide(FilledCounts(FixedDistances()), 5, 5);
  }

  lemma FixedSums()
    ensures !AllZero(FixedLiterals()) && !AllZero(FixedDistances())
    ensures KraftSum(FixedLiterals()) == Pow2(MAX_LEN) > KraftSum(FixedDistances())
    ensures MaxLen(FixedLiterals()) == 9 && MinLen(FixedLiterals()) == 7
    ensures MaxLen(FixedDistances()) == 5 == MinLen(FixedDistances())
  {
    hide Pow2, FixedLiterals, FixedDistances, KraftSum, MaxLen, MinLen, AllZero;
    LiteralSums(FixedLiterals());
    DistanceSums(FixedDistances());
    PowersAround();
  }

  lemma KraftNone()
    ensures KraftSum([]) == 0
  {}

  lemma LiteralSums(l: seq<nat>)
    requires l == FixedLiterals()
    ensures Bounded(l) && !AllZero(l) && KraftSum(l) == Pow2(MAX_LEN) && MaxLen(l) == 9 && MinLen(l) == 7
  {
    hide Pow2, KraftSum, MaxLen, MinLen;
    KraftNone();
    assert l[0] == 8 && l[150] == 9 && l[260] == 7;
    var r1, r2, r3, r4 := seq(144, _ => 8), seq(112, _ => 9), seq(24, _ => 7), seq(8, _ => 8);
    KraftRun([], 144, 8);
    KraftRun([] + r1, 112, 9);
    KraftRun([] + r1 + r2, 24, 7);
    KraftRun([] + r1 + r2 + r3, 8, 8);
    assert l == [] + r1 + r2 + r3 + r4;
    PowersAround();
  }

  lemma DistanceSums(d: seq<nat>)
    requires d == FixedDistances()
    ensures Bounded(d) && !AllZero(d) && KraftSum(d) < Pow2(MAX_LEN) && MaxLen(d) == 5 == MinLen(d)
  {
    hide Pow2, KraftSum, MaxLen, MinLen;
    KraftNone();
    assert d[0] == 5;
    KraftRun([], 30, 5);
    assert d == [] + seq(30, _ => 5);
    PowersAround();
  }

  lemma PowersAround()
    ensures Pow2(7) == 128 && Pow2(8) == 256 && Pow2(9) == 512 && Pow2(11) == 2048 && Pow2(16) == 65536
  {
    assert Pow2(4) == 16;
    assert Pow2(7) == 8 * Pow2(4);
    assert Pow2(9) == 4 * Pow2(7);
    assert Pow2(11) == 4 * Pow2(9);
    assert Pow2(14) == 8 * Pow2(11);
    assert Pow2(16) == 4 * Pow2(14);
  }

  /** One step of reading code lengths. */
  lemma ReadLengthsStep(cl: seq<nat>, n: nat, stream: nat, avail: nat, acc: seq<nat>)
    requires LengthsOk(cl) && Usable(cl) && |cl| == 19 && |acc| <= n
    requires forall s :: 0 <= s < |acc| ==> acc[s] < 16
    ensures var r := ReadLengths(cl, n, stream, avail, acc);
            var (sym, used) := LengthSymbolAt(cl, stream);
            var u, x := used + RepeatBits(sym), RepeatBits(sym);
            var count := RepeatBase(sym) + Low(Shr(stream, used), x);
            && (r.Lengths? ==> r.avail <= avail)
            && (|acc| == n ==> r == Lengths(acc, stream, avail))
            && (|acc| < n ==>
                  && (r.Lengths? ==> used <= avail && r.avail <= avail - used)
                  && (used <= avail && sym < 16 ==> r == ReadLengths(cl, n, Shr(stream, used), avail - used, acc + [sym]))
                  && (used > avail ==> r == NoLengths) && (sym >= 16 && u > avail ==> r == NoLengths)
                  && (sym >= 16 && u <= avail && |acc| + count > n ==> r == BadLengths)
                  && (sym >= 16 && u <= avail && |acc| + count <= n ==>
                        r == ReadLengths(cl, n, Shr(stream, u), avail - u, acc + Repeat(RepeatedLength(sym, acc), count))))
  {
    hide Low, Shr, Pow2, LengthsOk, Usable, LengthSymbolAt;
  }

  lemma RepeatSmall(sym: nat, acc: seq<nat>, count: nat)
    requires forall s :: 0 <= s < |acc| ==> acc[s] < 16
    ensures var all := acc + Repeat(RepeatedLength(sym, acc), count); |all| == |acc| + count && forall s :: 0 <= s < |all| ==> all[s] < 16
  {}

  lemma BlocksStep(stream: nat, avail: nat, hist: seq<Byte>)
    requires |hist| >= MAX_DISTANCE
    ensures var r, all := Block(stream, avail, hist), Blocks(stream, avail, hist);
            && (all.Done? ==> all.avail <= avail && r.Done? && all.avail <= r.avail)
            && (r.Done? ==> r.avail < avail && |r.hist| >= MAX_DISTANCE)
            && (r.Done? ==> all == if Low(stream, 1) == 1 then r else Blocks(r.stream, r.avail, r.hist))
  {
    hide Block, Low;
  }

  lemma DynamicStep(stream: nat, avail: nat, hist: seq<Byte>)
    requires |hist| >= MAX_DISTANCE
    ensures var r := Dynamic(stream, avail, hist);
            var nl, nd, nb := LITERALS + Low(stream, 5), 1 + Low(Shr(stream, 5), 5), 4 + Low(Shr(stream, 10), 4);
            && nb <= 19
            && (avail < 14 ==> r == Underrun)
            && (avail >= 14 && (nl > 286 || nd > 30) ==> r == Bad)
            && (avail >= 14 && nl <= 286 && nd <= 30 ==>
                  && (avail - 14 < 3 * nb ==> r == Underrun)
                  && (avail - 14 >= 3 * nb ==>
                        var cl := CodeLengths(Shr(stream, 14), 0, nb, Repeat(0, 19));
                        && (forall s :: 0 <= s < 19 ==> cl[s] < 8)
                        && r == DynamicBody(cl, nl, nd, Shr(stream, 14 + 3 * nb), avail - 14 - 3 * nb, hist)))
  {
    hide Low, Shr, DynamicBody, CodeLengths;
    assert Pow2(4) == 16;
  }
}
