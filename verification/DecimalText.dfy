/** Decimal numbers in text: number() with base 10 and simple_strtoul. */
module DecimalText {

  const TWO64: nat := 0x1_0000_0000_0000_0000

  predicate IsDigit(c: char) {
    '0' <= c <= '9'
  }

  function DigitChar(d: nat): (c: char)
    requires d < 10
    ensures IsDigit(c) && c as int == '0' as int + d
  {
    ('0' as int + d) as char
  }

  function DigitValue(c: char): (d: nat)
    requires IsDigit(c)
    ensures d < 10
  {
    c as int - '0' as int
  }

  /** The decimal form without leading zeros. */
  function Decimal(n: nat): (s: string)
    ensures s != [] && forall i :: 0 <= i < |s| ==> IsDigit(s[i])
  {
    if n < 10 then [DigitChar(n)] else Decimal(n / 10) + [DigitChar(n % 10)]
  }

  /** The value of a string of digits behind a number already read. */
  function Value(acc: nat, s: string): (n: nat)
    requires forall i :: 0 <= i < |s| ==> IsDigit(s[i])
    decreases |s|
  {
    if s == [] then acc else Value(acc * 10 + DigitValue(s[0]), s[1..])
  }

  lemma {:induction false} ValueAppend(acc: nat, s: string, c: char)
    requires (forall i :: 0 <= i < |s| ==> IsDigit(s[i])) && IsDigit(c)
    ensures Value(acc, s + [c]) == Value(acc, s) * 10 + DigitValue(c)
    decreases |s|
  {
    if s == [] {
      assert s + [c] == [c] && [c][1..] == [];
      assert Value(acc, [c]) == Value(acc * 10 + DigitValue(c), []);
    } else {
      assert (s + [c])[1..] == s[1..] + [c];
      ValueAppend(acc * 10 + DigitValue(s[0]), s[1..], c);
    }
  }

  /** Printing and reading a number are inverse. */
  lemma {:induction false} DecimalValue(n: nat)
    ensures Value(0, Decimal(n)) == n
  {
    if n < 10 {
      assert [DigitChar(n)][1..] == [];
      assert Value(0, [DigitChar(n)]) == Value(0 * 10 + n, []);
    } else {
      DecimalValue(n / 10);
      ValueAppend(0, Decimal(n / 10), DigitChar(n % 10));
    }
  }

  /** How many digits a text has from position i on. */
  function DigitsFrom(s: string, i: nat): (n: nat)
    requires i <= |s|
    ensures i + n <= |s| && forall k :: i <= k < i + n ==> IsDigit(s[k])
    decreases |s| - i
  {
    if i < |s| && IsDigit(s[i]) then 1 + DigitsFrom(s, i + 1) else 0
  }

  /** number() for %d: digits come out last first and are then turned around. */
  method Number(num: nat) returns (text: string)
    ensures text == Decimal(num)
  {
    hide Reverse, Decimal;
    var tmp: string := [];
    var n := num;
    ReverseNothing();
    DecimalLast(n);
    if n == 0 {
      tmp := ['0'];
      assert DigitChar(0) == '0';
    } else {
      while n != 0
        invariant n == 0 ==> tmp != []
        invariant Decimal(num) == (if n == 0 && tmp != [] then [] else Decimal(n)) + Reverse(tmp)
      {
        var digit := DigitChar(n % 10);
        ReverseAppend(tmp, digit);
        DecimalLast(n);
        tmp := tmp + [digit];
        n := n / 10;
      }
    }
    text := TurnAround(tmp);
  }

  method TurnAround(tmp: string) returns (text: string)
    ensures text == Reverse(tmp)
  {
    hide Reverse;
    var i := |tmp|;
    text := [];
    ReverseNothing();
    assert tmp[..i] == tmp;
    while i > 0
      invariant 0 <= i <= |tmp| && text + Reverse(tmp[..i]) == Reverse(tmp)
    {
      assert tmp[..i] == tmp[..i - 1] + [tmp[i - 1]];
      ReverseAppend(tmp[..i - 1], tmp[i - 1]);
      i := i - 1;
      text := text + [tmp[i]];
    }
    assert tmp[..0] == [];
  }

  lemma ReverseNothing()
    ensures Reverse([]) == [] && Reverse(['0']) == ['0']
  {
    assert ['0'][..0] == [];
  }

  lemma DecimalLast(n: nat)
    ensures Decimal(n) == (if n / 10 == 0 then [] else Decimal(n / 10)) + [DigitChar(n % 10)]
  {}

  ghost function Reverse(s: string): (r: string) {
    if s == [] then [] else [s[|s| - 1]] + Reverse(s[..|s| - 1])
  }

  lemma ReverseAppend(s: string, c: char)
    ensures Reverse(s + [c]) == [c] + Reverse(s)
  {
    assert (s + [c])[..|s|] == s;
  }

  lemma {:induction false} AddMultiple(x: nat, q: nat)
    ensures (x + q * TWO64) % TWO64 == x % TWO64
  {
    if q > 0 { AddMultiple(x, q - 1); }
  }

  lemma ModStep(a: nat, d: nat)
    ensures (a % TWO64 * 10 + d) % TWO64 == (a * 10 + d) % TWO64
  {
    var q, r := a / TWO64, a % TWO64;
    assert a * 10 + d == r * 10 + d + (q * 10) * TWO64;
    AddMultiple(r * 10 + d, q * 10);
  }

  /** simple_strtoul with base 10, on 64-bit words: the value modulo 2^64 and where it ends. */
  method StrToUl(s: string, start: nat) returns (result: nat, end: nat)
    requires start <= |s|
    ensures end == start + DigitsFrom(s, start) && result == Value(0, s[start..end]) % TWO64
  {
    result, end := 0, start;
    assert s[start..start] == [];
    while end < |s| && IsDigit(s[end])
      invariant start <= end <= |s| && forall k :: start <= k < end ==> IsDigit(s[k])
      invariant DigitsFrom(s, start) == end - start + DigitsFrom(s, end)
      invariant result == Value(0, s[start..end]) % TWO64
    {
      assert s[start..end + 1] == s[start..end] + [s[end]];
      ValueAppend(0, s[start..end], s[end]);
      ModStep(Value(0, s[start..end]), DigitValue(s[end]));
      result := (result * 10 + DigitValue(s[end])) % TWO64;
      end := end + 1;
    }
  }
}
