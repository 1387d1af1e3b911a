/** Where inflate calls huft_build the tables are never too wide; elsewhere they can be. */
module HuftUses {
  import opened Bits
  import opened HuffmanCode
  import opened HuffmanLengths
  import opened HuftTables
  import opened HuftCorrect

  /** Two table levels always suffice. */
  lemma TwoLevelsNotWide(c: seq<nat>, g: nat, l: nat)
    requires 1 <= l <= g < |c| && g <= 2 * l
    ensures !WideOpening(c, g, l)
  {
    forall k: nat, m: nat, w: nat ensures !WideCode(c, g, l, k, m, w) {}
  }

  /** From code m of length k on, each code takes at most 2^(g-k) points. */
  lemma {:induction false} CodesAfter(c: seq<nat>, g: nat, k: nat, m: nat, n: nat)
    requires 1 <= k < n <= g + 1 <= |c| && m <= c[k]
    ensures Offset(c, k) + m <= Offset(c, n)
    ensures Start(c, g, n) <= CodeStart(c, g, k, m) + Shl(Offset(c, n) - Offset(c, k) - m, g - k)
  {
    if n == k + 1 {
      ShlAdd(m, c[k] - m, g - k);
    } else {
      CodesAfter(c, g, k, m, n - 1);
      ShlGrows(c[n - 1], g - (n - 1), g - k);
      ShlAdd(Offset(c, n - 1) - Offset(c, k) - m, c[n - 1], g - k);
    }
  }

  lemma {:induction false} ShlGrows(x: nat, m: nat, n: nat)
    requires m <= n
    ensures Shl(x, m) <= Shl(x, n)
  {
    if m < n { ShlGrows(x, m, n - 1); }
  }

  /** A wide code needs more than 2^l codes below one prefix. */
  lemma WideNeedsCodes(c: seq<nat>, g: nat, l: nat, k: nat, m: nat, w: nat)
    requires Full(c, g) && 1 <= l <= g && WideCode(c, g, l, k, m, w)
    ensures Offset(c, g + 1) >= Pow2(l + 1)
  {
    hide Low, Shl, Shr, Pow2, Start;
    var x := CodeStart(c, g, k, m);
    Pow2Positive(g - k);
    CodeInterval(c, g, k, m, x);
    CodesAfter(c, g, k, m, g + 1);
    Pow2Aligned(g, g - w);
    AlignedGap(x, Pow2(g), g - w);
    var n := Offset(c, g + 1) - Offset(c, k) - m;
    ShlPow2(k - w, g - k);
    if n < Pow2(k - w) { ShlMono(n, Pow2(k - w), g - k); }
    Pow2Mono(l + 1, k - w);
  }

  /** A complete code with fewer than 2^(want+1) symbols never opens a wide table. This
      covers all calls that demand a complete code: at most 286 literal and length codes
      with 9 bits, 30 distance codes with 6 bits, 19 length codes with 7 bits. */
  lemma SmallCompleteNotWide(lens: seq<nat>, want: nat)
    requires LengthsOk(lens) && !AllZero(lens) && KraftSum(lens) == Pow2(MAX_LEN)
    requires |lens| < Pow2(want + 1)
    ensures 1 <= TableWidth(lens, want) <= MaxLen(lens) <= MAX_LEN
    ensures !WideOpening(FilledCounts(lens), MaxLen(lens), TableWidth(lens, want))
  {
    hide Low, Shl, Shr, Pow2, Start, KraftSum;
    var c, g, l := FilledCounts(lens), MaxLen(lens), TableWidth(lens, want);
    FilledIsFull(lens);
    var s :| 0 <= s < |lens| && lens[s] != 0;
    KraftCompare(lens, g);
    assert c == Counts(lens, MAX_LEN);
    TotalCodes(lens, g);
    if l == g {
      TwoLevelsNotWide(c, g, l);
    } else {
      Pow2Mono(want + 1, l + 1);
      forall k: nat, m: nat, w: nat ensures !WideCode(c, g, l, k, m, w) {
        if WideCode(c, g, l, k, m, w) { WideNeedsCodes(c, g, l, k, m, w); }
      }
    }
  }

  lemma CallSites(lens: seq<nat>)
    requires LengthsOk(lens) && !AllZero(lens) && KraftSum(lens) == Pow2(MAX_LEN)
    ensures |lens| <= 286 ==> !WideOpening(FilledCounts(lens), MaxLen(lens), TableWidth(lens, 9))
    ensures |lens| <= 30 ==> !WideOpening(FilledCounts(lens), MaxLen(lens), TableWidth(lens, 6))
    ensures |lens| <= 19 ==> !WideOpening(FilledCounts(lens), MaxLen(lens), TableWidth(lens, 7))
  {
    hide WideOpening, FilledCounts, MaxLen, TableWidth, KraftSum, LengthsOk, AllZero;
    PowersUsed();
    if |lens| <= 286 { SmallCompleteNotWide(lens, 9); }
    if |lens| <= 30 { SmallCompleteNotWide(lens, 6); }
    if |lens| <= 19 { SmallCompleteNotWide(lens, 7); }
  }

  lemma PowersUsed()
    ensures Pow2(7) == 128 && Pow2(8) == 256 && Pow2(10) == 1024
  {
    assert Pow2(4) == 16;
    assert Pow2(7) == 8 * Pow2(4);
  }

  /** A complete code for which huft_build, asked for one-bit tables, goes wrong. */
  lemma WideExample()
    ensures var lens := [1, 3, 3, 3, 3];
            && LengthsOk(lens) && !AllZero(lens) && KraftSum(lens) == Pow2(MAX_LEN)
            && MaxLen(lens) == 3 && TableWidth(lens, 1) == 1
            && WideOpening(FilledCounts(lens), 3, 1)
  {
    hide Low, Shl, Shr, Pow2, Start, FilledCounts, KraftSum, MaxLen, MinLen, Count;
    var lens := [1, 3, 3, 3, 3];
    assert lens[0] == 1;
    ExampleSums(lens);
    FilledIsFull(lens);
    KraftCompare(lens, 3);
    var c := FilledCounts(lens);
    ExampleCounts(c);
    assert WideCode(c, 3, 1, 3, 0, 1);
  }

  /** A list with some codes of length 3 after one of length 1. */
  ghost predicate OneThenThrees(lens: seq<nat>, n: nat) {
    && |lens| == n + 1 && LengthsOk(lens)
    && KraftSum(lens) == Pow2(15) + n * Pow2(13)
    && MaxLen(lens) == (if n == 0 then 1 else 3) && MinLen(lens) == 1
    && Count(lens, 1) == 1 && Count(lens, 2) == 0 && Count(lens, 3) == n
  }

  lemma AddThree(lens: seq<nat>, n: nat)
    requires OneThenThrees(lens, n) && n < 10
    ensures OneThenThrees(lens + [3], n + 1)
  {
    hide Pow2;
    assert (lens + [3])[..|lens|] == lens;
  }

  lemma OneAlone()
    ensures OneThenThrees([1], 0)
  {
    hide Pow2;
    assert [1][..0] == [];
  }

  lemma ThreesFill(lens: seq<nat>)
    requires OneThenThrees(lens, 4)
    ensures KraftSum(lens) == Pow2(MAX_LEN)
  {
    hide KraftSum, MaxLen, MinLen, Count;
    assert Pow2(15) == 2 * Pow2(14) == 4 * Pow2(13) && Pow2(16) == 2 * Pow2(15);
  }

  lemma ExampleSums(lens: seq<nat>)
    requires lens == [1, 3, 3, 3, 3]
    ensures LengthsOk(lens) && KraftSum(lens) == Pow2(MAX_LEN) && MaxLen(lens) == 3 && MinLen(lens) == 1
    ensures Count(lens, 1) == 1 && Count(lens, 2) == 0 && Count(lens, 3) == 4
  {
    hide KraftSum, MaxLen, MinLen, Count, Pow2;
    var l0 := [1];
    var l1 := l0 + [3];
    var l2 := l1 + [3];
    var l3 := l2 + [3];
    var l4 := l3 + [3];
    OneAlone();
    AddThree(l0, 0);
    AddThree(l1, 1);
    AddThree(l2, 2);
    AddThree(l3, 3);
    assert l4 == lens;
    ThreesFill(lens);
  }

  lemma ExampleCounts(c: seq<nat>)
    requires |c| == MAX_LEN + 1 && c[1] == 1 && c[2] == 0 && c[3] >= 1
    ensures WideCode(c, 3, 1, 3, 0, 1)
  {
    assert Start(c, 3, 2) == Shl(1, 2) == 4;
    assert Start(c, 3, 3) == 4;
    assert IsLevel(1, 1);
  }
}
