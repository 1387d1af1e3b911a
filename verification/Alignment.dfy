/** Rounding addresses up to multiples of powers of two. */
module Alignment {

  predicate IsPow2(n: nat) {
    n > 0 && (n == 1 || (n % 2 == 0 && IsPow2(n / 2)))
  }

  function Times(q: nat, a: nat): (r: nat) { q * a }

  ghost predicate Aligned(x: nat, a: nat) {
    exists q: nat :: Times(q, a) == x
  }

  /** (x + a - 1) & ~(a - 1) for a power of two. */
  function AlignUp(x: nat, a: nat): (r: nat)
    requires a > 0
  {
    (x + a - 1) / a * a
  }

  lemma PageIsPow2()
    ensures IsPow2(4096)
  {
    assert IsPow2(16) && IsPow2(256) by { assert IsPow2(2) && IsPow2(4); assert IsPow2(64); }
    assert IsPow2(1024);
  }

  lemma AlignUpSpec(x: nat, a: nat)
    requires a > 0
    ensures x <= AlignUp(x, a) < x + a && Aligned(AlignUp(x, a), a)
  {
    var q := (x + a - 1) / a;
    assert q * a <= x + a - 1 < q * a + a;
    assert Times(q, a) == AlignUp(x, a);
  }

  lemma MultiplesApart(x: nat, y: nat, a: nat)
    requires Aligned(x, a) && Aligned(y, a) && x > y
    ensures x >= y + a
  {
    var p: nat :| Times(p, a) == x;
    var q: nat :| Times(q, a) == y;
    assert p <= q ==> p * a <= q * a;
    assert p * a >= (q + 1) * a == q * a + a;
  }

  /** Rounding up gives the least multiple. */
  lemma AlignUpLeast(x: nat, a: nat, y: nat)
    requires a > 0 && x <= y && Aligned(y, a)
    ensures AlignUp(x, a) <= y
  {
    hide AlignUp, Aligned;
    AlignUpSpec(x, a);
    if AlignUp(x, a) > y { MultiplesApart(AlignUp(x, a), y, a); }
  }

  lemma ScaleAligned(x: nat, a: nat, m: nat)
    requires Aligned(x, a)
    ensures Aligned(x * m, a * m)
  {
    var q: nat :| Times(q, a) == x;
    assert Times(q, a * m) == x * m by { assert q * (a * m) == (q * a) * m; }
  }

  lemma {:induction false} SmallerDivides(a: nat, b: nat)
    requires IsPow2(a) && IsPow2(b) && a <= b
    ensures Aligned(b, a)
  {
    if a == 1 {
      assert Times(b, 1) == b;
    } else {
      SmallerDivides(a / 2, b / 2);
      ScaleAligned(b / 2, a / 2, 2);
    }
  }

  lemma SumAligned(x: nat, y: nat, a: nat)
    requires Aligned(x, a) && Aligned(y, a)
    ensures Aligned(x + y, a)
  {
    var p: nat :| Times(p, a) == x;
    var q: nat :| Times(q, a) == y;
    assert Times(p + q, a) == x + y;
  }

  lemma TransAligned(x: nat, b: nat, a: nat)
    requires Aligned(x, b) && Aligned(b, a)
    ensures Aligned(x, a)
  {
    var p: nat :| Times(p, b) == x;
    var q: nat :| Times(q, a) == b;
    assert Times(p * q, a) == x by { assert (p * q) * a == p * (q * a); }
  }
}
