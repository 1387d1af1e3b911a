/** Shifts, masks and bit reversal on natural numbers.

    The C sources shift and mask unsigned words. The operators are written here by
    recursion on the shift count, so that proofs about them stay linear. */
module Bits {

  /** 1 << n */
  function Pow2(n: nat): (r: nat)
    ensures r >= 1
  {
    if n == 0 then 1 else 2 * Pow2(n - 1)
  }

  /** x << n */
  function Shl(x: nat, n: nat): (r: nat) {
    if n == 0 then x else 2 * Shl(x, n - 1)
  }

  /** x >> n */
  function Shr(x: nat, n: nat): (r: nat) {
    if n == 0 then x else Shr(x / 2, n - 1)
  }

  /** x & ((1 << n) - 1) */
  function Low(x: nat, n: nat): (r: nat)
    ensures r < Pow2(n)
  {
    if n == 0 then 0 else x % 2 + 2 * Low(x / 2, n - 1)
  }

  // Single facts for proofs that hide the definitions

  lemma Pow2Positive(n: nat)
    ensures Pow2(n) > 0
  {}

  lemma Pow2AtZero()
    ensures Pow2(0) == 1
  {}

  lemma ShrNone(x: nat)
    ensures Shr(x, 0) == x
  {}

  lemma {:induction false} Pow2Mono(m: nat, n: nat)
    requires m <= n
    ensures Pow2(m) <= Pow2(n)
    ensures m < n ==> 2 * Pow2(m) <= Pow2(n)
  {
    if m < n { Pow2Mono(m, n - 1); }
  }

  lemma {:induction false} ShlAdd(x: nat, y: nat, n: nat)
    ensures Shl(x + y, n) == Shl(x, n) + Shl(y, n)
  {
    if n != 0 { ShlAdd(x, y, n - 1); }
  }

  lemma {:induction false} ShlShl(x: nat, m: nat, n: nat)
    ensures Shl(Shl(x, m), n) == Shl(x, m + n)
  {
    if n != 0 { ShlShl(x, m, n - 1); }
  }

  lemma {:induction false} ShlPow2(m: nat, n: nat)
    ensures Shl(Pow2(m), n) == Pow2(m + n)
  {
    if n != 0 { ShlPow2(m, n - 1); }
  }

  lemma {:induction false} ShlZero(n: nat)
    ensures Shl(0, n) == 0
  {
    if n != 0 { ShlZero(n - 1); }
  }

  lemma {:induction false} ShlTwice(x: nat, n: nat)
    ensures Shl(2 * x, n) == 2 * Shl(x, n)
  {
    if n != 0 { ShlTwice(x, n - 1); }
  }

  /** Shifted values keep their order and are at least 2^n apart. */
  lemma {:induction false} ShlMono(x: nat, y: nat, n: nat)
    requires x <= y
    ensures Shl(x, n) <= Shl(y, n)
    ensures x < y ==> Shl(x, n) + Pow2(n) <= Shl(y, n)
  {
    if n != 0 { ShlMono(x, y, n - 1); }
  }

  lemma {:induction false} Decompose(x: nat, n: nat)
    ensures x == Shl(Shr(x, n), n) + Low(x, n)
  {
    if n != 0 {
      Decompose(x / 2, n - 1);
    }
  }

  /** High and low part are determined by their sum. */
  lemma {:induction false} Recompose(q: nat, r: nat, n: nat)
    requires r < Pow2(n)
    ensures Shr(Shl(q, n) + r, n) == q && Low(Shl(q, n) + r, n) == r
  {
    if n != 0 {
      var x := Shl(q, n) + r;
      Recompose(q, r / 2, n - 1);
      assert x / 2 == Shl(q, n - 1) + r / 2 && x % 2 == r % 2;
    }
  }

  lemma {:induction false} ShrShr(x: nat, m: nat, n: nat)
    ensures Shr(Shr(x, m), n) == Shr(x, m + n)
  {
    if m != 0 { ShrShr(x / 2, m - 1, n); }
  }

  lemma ShrSmall(x: nat, n: nat)
    requires x < Pow2(n)
    ensures Shr(x, n) == 0 && Low(x, n) == x
  {
    ShlZero(n);
    Recompose(0, x, n);
  }

  /** The C operators on unsigned words. */
  lemma {:induction false} ShiftIsDivision(x: nat, n: nat)
    ensures Shr(x, n) == x / Pow2(n) && Low(x, n) == x % Pow2(n) && Shl(x, n) == x * Pow2(n)
  {
    Decompose(x, n);
    ShlIsProduct(x, n);
    ShlIsProduct(Shr(x, n), n);
    DivModUnique(x, Pow2(n), Shr(x, n), Low(x, n));
  }

  lemma {:induction false} ShlIsProduct(x: nat, n: nat)
    ensures Shl(x, n) == x * Pow2(n)
  {
    if n != 0 { ShlIsProduct(x, n - 1); }
  }

  lemma MulMono(a: nat, b: nat, c: nat)
    requires a <= b
    ensures a * c <= b * c
  {}

  lemma DivModUnique(x: nat, d: nat, q: nat, r: nat)
    requires d > 0 && x == q * d + r && r < d
    ensures x / d == q && x % d == r
  {
    var q' := x / d;
    if q' < q { MulMono(q' + 1, q, d); }
    if q' > q { MulMono(q + 1, q', d); }
  }

  /** Rev(n, b) reads the low n bits of b first-bit-first: bit 0 of b becomes the
      most significant bit of the result. Huffman codes are packed into a DEFLATE
      stream this way (section 3.1.1 of RFC 1951). */
  function Rev(n: nat, b: nat): (r: nat)
    ensures r < Pow2(n)
  {
    if n == 0 then 0 else (if b % 2 == 1 then Pow2(n - 1) else 0) + Rev(n - 1, b / 2)
  }

  /** The first m bits are the most significant ones. */
  lemma {:induction false} RevSplit(m: nat, n: nat, b: nat)
    ensures Rev(m + n, b) == Shl(Rev(m, b), n) + Rev(n, Shr(b, m))
  {
    if m == 0 {
      ShlZero(n);
    } else {
      RevSplit(m - 1, n, b / 2);
      ShlPow2(m - 1, n);
      ShlAdd(Pow2(m - 1), Rev(m - 1, b / 2), n);
    }
  }

  lemma {:induction false} RevZero(n: nat)
    ensures Rev(n, 0) == 0
  {
    if n != 0 { RevZero(n - 1); }
  }

  /** Only the low n bits matter. */
  lemma {:induction false} RevLow(n: nat, b: nat)
    ensures Rev(n, Low(b, n)) == Rev(n, b)
  {
    if n != 0 {
      RevLow(n - 1, b / 2);
      assert Low(b, n) / 2 == Low(b / 2, n - 1) && Low(b, n) % 2 == b % 2;
    }
  }

  lemma {:induction false} RevInjective(n: nat, a: nat, b: nat)
    requires a < Pow2(n) && b < Pow2(n)
    requires Rev(n, a) == Rev(n, b)
    ensures a == b
  {
    if n != 0 {
      assert Rev(n - 1, a / 2) < Pow2(n - 1) && Rev(n - 1, b / 2) < Pow2(n - 1);
      RevInjective(n - 1, a / 2, b / 2);
    }
  }

  /** A word with no bits from position m on, read to any greater width. */
  lemma RevPad(m: nat, n: nat, b: nat)
    requires m <= n && b < Pow2(m)
    ensures Rev(n, b) == Shl(Rev(m, b), n - m)
  {
    RevSplit(m, n - m, b);
    ShrSmall(b, m);
    RevZero(n - m);
  }

  /** x is a multiple of 2^n. */
  predicate Aligned(x: nat, n: nat) {
    Low(x, n) == 0
  }

  lemma ShlAligned(q: nat, n: nat)
    ensures Aligned(Shl(q, n), n)
  {
    Recompose(q, 0, n);
  }

  lemma AlignedDown(x: nat, m: nat, n: nat)
    requires Aligned(x, n) && m <= n
    ensures Aligned(x, m)
  {
    Decompose(x, n);
    ShlShl(Shr(x, n), n - m, m);
    ShlAligned(Shl(Shr(x, n), n - m), m);
  }

  lemma AlignedAdd(x: nat, y: nat, n: nat)
    requires Aligned(x, n) && Aligned(y, n)
    ensures Aligned(x + y, n)
  {
    Decompose(x, n);
    Decompose(y, n);
    ShlAdd(Shr(x, n), Shr(y, n), n);
    ShlAligned(Shr(x, n) + Shr(y, n), n);
  }

  lemma Pow2Aligned(m: nat, n: nat)
    requires n <= m
    ensures Aligned(Pow2(m), n)
  {
    ShlPow2(m - n, n);
    ShlAligned(Pow2(m - n), n);
  }

  /** Different multiples of 2^n are at least 2^n apart. */
  lemma AlignedGap(x: nat, y: nat, n: nat)
    requires Aligned(x, n) && Aligned(y, n) && x < y
    ensures x + Pow2(n) <= y
  {
    Decompose(x, n);
    Decompose(y, n);
    if Shr(y, n) <= Shr(x, n) { ShlMono(Shr(y, n), Shr(x, n), n); }
    ShlMono(Shr(x, n), Shr(y, n), n);
  }

  /** An aligned small cell starting inside an aligned large one lies inside it. */
  lemma AlignedNested(x: nat, m: nat, y: nat, n: nat)
    requires Aligned(x, m) && Aligned(y, n) && m <= n && y <= x < y + Pow2(n)
    ensures x + Pow2(m) <= y + Pow2(n)
  {
    hide *;
    AlignedDown(y, m, n);
    Pow2Aligned(n, m);
    AlignedAdd(y, Pow2(n), m);
    AlignedGap(x, y + Pow2(n), m);
  }

  lemma ShrBound(x: nat, m: nat, n: nat)
    requires x < Pow2(m + n)
    ensures Shr(x, m) < Pow2(n)
  {
    Decompose(x, m);
    if Shr(x, m) >= Pow2(n) {
      ShlMono(Pow2(n), Shr(x, m), m);
      ShlPow2(n, m);
    }
  }

  /** Setting bit t of a word read to k bits. */
  lemma RevSetBit(k: nat, t: nat, i: nat)
    requires t < k && i < Pow2(t)
    ensures i + Pow2(t) < Pow2(t + 1)
    ensures Rev(k, i + Pow2(t)) == Rev(k, i) + Pow2(k - 1 - t)
  {
    hide Rev, Shl, Shr, Low;
    TopBit(t, i);
    var r := Rev(t, i);
    RevPad(t, k, i);
    RevPad(t + 1, k, i + Pow2(t));
    ShlAdd(Shl(r, 1), 1, k - 1 - t);
    ShlShl(r, 1, k - 1 - t);
    ShlPow2(0, k - 1 - t);
    assert Pow2(0) == 1;
  }

  lemma TopBit(t: nat, i: nat)
    requires i < Pow2(t)
    ensures i + Pow2(t) < Pow2(t + 1) && Rev(t + 1, i + Pow2(t)) == Shl(Rev(t, i), 1) + 1
  {
    RevSplit(t, 1, i + Pow2(t));
    ShlPow2(0, t);
    Recompose(1, i, t);
    RevLow(t, i + Pow2(t));
    assert Rev(1, 1) == 1;
  }

  /** A word whose reading is a multiple of 2^(g-w) has no bit from position w on. */
  lemma RevAlignedShort(g: nat, w: nat, i: nat)
    requires w <= g && i < Pow2(g) && Aligned(Rev(g, i), g - w)
    ensures i < Pow2(w)
  {
    hide Low, Shl, Shr, Pow2, Rev;
    RevSplit(w, g - w, i);
    Recompose(Rev(w, i), Rev(g - w, Shr(i, w)), g - w);
    ShrBound(i, w, g - w);
    RevZero(g - w);
    RevInjective(g - w, Shr(i, w), 0);
    Decompose(i, w);
    ShlZero(w);
  }

  /** Comparing the first w bits tells whether a reading lies in the block they name. */
  lemma RevPrefixTest(g: nat, w: nat, i: nat, x: nat)
    requires w <= g && x < Pow2(w)
    ensures Low(i, w) == x <==>
            Shl(Rev(w, x), g - w) <= Rev(g, i) < Shl(Rev(w, x), g - w) + Pow2(g - w)
  {
    hide Low, Shl, Shr, Pow2, Rev;
    RevSplit(w, g - w, i);
    RevLow(w, i);
    if Low(i, w) != x {
      if Rev(w, i) == Rev(w, x) { RevInjective(w, Low(i, w), x); }
      if Rev(w, i) < Rev(w, x) {
        ShlMono(Rev(w, i), Rev(w, x), g - w);
      } else {
        ShlMono(Rev(w, x), Rev(w, i), g - w);
      }
    }
  }

  /** The largest k-bit word is the one whose reading is all ones. */
  lemma {:induction false} RevAllOnes(k: nat, i: nat)
    requires i < Pow2(k) && Rev(k, i) == Pow2(k) - 1
    ensures i == Pow2(k) - 1
  {
    if k != 0 { RevAllOnes(k - 1, i / 2); }
  }

  /** Reading twice restores the word. */
  lemma {:induction false} RevRev(n: nat, b: nat)
    requires b < Pow2(n)
    ensures Rev(n, Rev(n, b)) == b
  {
    if n != 0 {
      var x := Rev(n - 1, b / 2);
      RevRev(n - 1, b / 2);
      RevPad(n - 1, n, x);
      RevSetBit(n, n - 1, x);
      assert Shl(Rev(n - 1, x), 1) == 2 * (b / 2);
    }
  }
}
