/** Bitmaps as comma-separated lists of bit numbers and ranges: printing and parsing. */
module BitmapList {
  import opened Bitmaps
  import opened DecimalText

  datatype Run = Run(bottom: nat, top: nat)

  /** bscnl_emit: a number, or two with a hyphen. */
  function RunText(r: Run): (s: string)
    ensures s != [] && IsDigit(s[0])
  {
    if r.bottom == r.top then Decimal(r.bottom) else Decimal(r.bottom) + "-" + Decimal(r.top)
  }

  function ListText(runs: seq<Run>): (s: string) {
    if runs == [] then []
    else if |runs| == 1 then RunText(runs[0])
    else ListText(runs[..|runs| - 1]) + "," + RunText(runs[|runs| - 1])
  }

  predicate InRun(r: Run, k: nat) {
    r.bottom <= k <= r.top
  }

  ghost predicate InRuns(runs: seq<Run>, k: nat) {
    exists i :: 0 <= i < |runs| && InRun(runs[i], k)
  }

  ghost predicate RunsFit(runs: seq<Run>, n: nat) {
    forall i :: 0 <= i < |runs| ==> runs[i].bottom <= runs[i].top < n
  }

  /** The runs are the set bits below n. */
  ghost predicate RunsOf(runs: seq<Run>, bits: seq<bool>, n: nat) {
    n <= |bits| && RunsFit(runs, n) && forall k: nat :: k < n ==> (bits[k] <==> InRuns(runs, k))
  }

  /** The runs are in order, with at least one clear bit between two of them: they are maximal. */
  predicate Spaced(runs: seq<Run>) {
    forall i, j :: 0 <= i < j < |runs| ==> runs[i].top + 1 < runs[j].bottom
  }

  lemma NotBefore(l: seq<Run>, m: seq<Run>, n: nat)
    requires l != [] && RunsFit(l, n) && RunsFit(m, n) && Spaced(m) && forall k: nat :: k < n ==> (InRuns(l, k) <==> InRuns(m, k))
    ensures m != [] && m[0].bottom <= l[0].bottom
  {
    assert InRun(l[0], l[0].bottom);
    assert InRuns(m, l[0].bottom);
    var i :| 0 <= i < |m| && InRun(m[i], l[0].bottom);
    assert i > 0 ==> m[0].top + 1 < m[i].bottom;
  }

  lemma NotLonger(l: seq<Run>, m: seq<Run>, n: nat)
    requires l != [] && m != [] && RunsFit(l, n) && RunsFit(m, n) && Spaced(m) && l[0].bottom == m[0].bottom
    requires forall k: nat :: k < n ==> (InRuns(l, k) <==> InRuns(m, k))
    ensures l[0].top <= m[0].top
  {
    var k := m[0].top + 1;
    assert !InRuns(m, k);
    assert l[0].top > m[0].top ==> InRun(l[0], k);
  }

  lemma InTail(l: seq<Run>, n: nat, k: nat)
    requires l != [] && RunsFit(l, n) && Spaced(l)
    ensures InRuns(l[1..], k) <==> InRuns(l, k) && k > l[0].top
  {
    if InRuns(l[1..], k) {
      var i :| 0 <= i < |l[1..]| && InRun(l[1..][i], k);
      assert InRun(l[i + 1], k) && l[0].top + 1 < l[i + 1].bottom;
    }
    if InRuns(l, k) && k > l[0].top {
      var i :| 0 <= i < |l| && InRun(l[i], k);
      assert InRun(l[1..][i - 1], k);
    }
  }

  /** Maximal runs are determined by the bits, and so the printed text is. */
  lemma {:induction false} RunsUnique(l: seq<Run>, m: seq<Run>, n: nat)
    requires RunsFit(l, n) && RunsFit(m, n) && Spaced(l) && Spaced(m) && forall k: nat :: k < n ==> (InRuns(l, k) <==> InRuns(m, k))
    ensures l == m
    decreases |l|
  {
    hide InRuns;
    if m != [] { NotBefore(m, l, n); }
    if l != [] {
      NotBefore(l, m, n);
      NotLonger(l, m, n);
      NotLonger(m, l, n);
      forall k: nat | k < n ensures InRuns(l[1..], k) <==> InRuns(m[1..], k) { InTail(l, n, k); InTail(m, n, k); }
      RunsUnique(l[1..], m[1..], n);
      assert l == [l[0]] + l[1..] && m == [m[0]] + m[1..];
    }
  }

  /** bscnl_emit. */
  method Emit(buf: string, bottom: nat, top: nat) returns (text: string)
    ensures text == buf + (if buf == [] then "" else ",") + RunText(Run(bottom, top))
  {
    text := buf;
    if |buf| > 0 { text := text + ","; }
    var low := Number(bottom);
    text := text + low;
    if bottom != top {
      var high := Number(top);
      text := text + "-" + high;
      assert text == buf + (if buf == [] then "" else ",") + (low + "-" + high);
    }
  }

  /** bitmap_scnlistprintf into a buffer that is large enough. */
  method PrintList(bits: seq<bool>) returns (text: string, ghost runs: seq<Run>)
    ensures text == ListText(runs) && RunsOf(runs, bits, |bits|) && Spaced(runs)
    ensures runs == [] <==> forall k :: 0 <= k < |bits| ==> !bits[k]
  {
    hide RunText, ListText, RunsOf, Spaced, InRuns;
    text, runs := [], [];
    ListEmpty();
    var cur := FindNextBit(bits, 0);
    var bottom := cur;
    NoRuns(bits, bottom);
    while cur < |bits|
      invariant bottom <= cur <= |bits| && (cur < |bits| ==> bits[cur]) && text == ListText(runs) && (text == [] <==> runs == [])
      invariant RunsOf(runs, bits, bottom) && Spaced(runs)
      invariant cur < |bits| ==> AllBelow(runs, bottom)
      invariant forall k :: bottom <= k < cur ==> bits[k]
      invariant cur == |bits| ==> bottom == |bits|
      invariant runs == [] && cur == |bits| ==> forall k :: 0 <= k < |bits| ==> !bits[k]
      decreases |bits| - cur
    {
      var top := cur;
      cur := FindNextBit(bits, cur + 1);
      if cur >= |bits| || cur > top + 1 {
        ListGrows(runs, Run(bottom, top));
        text := Emit(text, bottom, top);
        RunAdded(runs, bits, bottom, top, cur);
        RunSpaced(runs, bottom, top, cur);
        runs := runs + [Run(bottom, top)];
        bottom := cur;
      }
    }
    if runs != [] { SomeSet(runs, bits); }
  }

  /** All runs end before a clear bit below n. */
  predicate AllBelow(runs: seq<Run>, n: nat) {
    forall i :: 0 <= i < |runs| ==> runs[i].top + 1 < n
  }

  lemma NoRuns(bits: seq<bool>, n: nat)
    requires n <= |bits| && forall k :: 0 <= k < n ==> !bits[k]
    ensures RunsOf([], bits, n) && Spaced([]) && AllBelow([], n)
  {}

  lemma RunSpaced(runs: seq<Run>, bottom: nat, top: nat, cur: nat)
    requires Spaced(runs) && AllBelow(runs, bottom) && bottom <= top < cur
    ensures Spaced(runs + [Run(bottom, top)]) && (top + 1 < cur ==> AllBelow(runs + [Run(bottom, top)], cur))
  {}

  lemma SomeSet(runs: seq<Run>, bits: seq<bool>)
    requires RunsOf(runs, bits, |bits|) && runs != []
    ensures exists k :: 0 <= k < |bits| && bits[k]
  {
    assert InRun(runs[0], runs[0].bottom);
    assert InRuns(runs, runs[0].bottom) && bits[runs[0].bottom];
  }

  lemma ListEmpty()
    ensures ListText([]) == []
  {}

  lemma ListGrows(runs: seq<Run>, r: Run)
    ensures ListText(runs + [r]) == (if runs == [] then RunText(r) else ListText(runs) + "," + RunText(r)) != []
  {
    assert (runs + [r])[..|runs|] == runs;
  }

  lemma RunAdded(runs: seq<Run>, bits: seq<bool>, bottom: nat, top: nat, cur: nat)
    requires RunsOf(runs, bits, bottom) && bottom <= top < cur <= |bits|
    requires (forall k :: bottom <= k <= top ==> bits[k]) && (forall k :: top < k < cur ==> !bits[k])
    ensures RunsOf(runs + [Run(bottom, top)], bits, cur)
  {
    var all := runs + [Run(bottom, top)];
    forall k: nat | k < cur ensures bits[k] <==> InRuns(all, k) {
      if InRuns(runs, k) {
        var i :| 0 <= i < |runs| && InRun(runs[i], k);
        assert InRun(all[i], k);
      }
      assert bottom <= k <= top ==> InRun(all[|runs|], k);
      if InRuns(all, k) && k < bottom {
        var i :| 0 <= i < |all| && InRun(all[i], k);
        assert InRun(runs[i], k);
      }
    }
  }

  // bitmap_parselist

  datatype Parsed = Mask(bits: seq<bool>) | InvalidList | OutOfRange

  const TWO32: nat := 0x1_0000_0000

  /** The number at the start of a text as an unsigned int, and the text behind it. */
  function NumberOf(s: string): (r: nat) {
    Value(0, s[..DigitsFrom(s, 0)]) % TWO32
  }

  function AfterNumber(s: string): (r: string)
    ensures |r| <= |s| && (s != [] && IsDigit(s[0]) ==> |r| < |s|)
  {
    s[DigitsFrom(s, 0)..]
  }

  predicate StartsWithDigit(s: string) {
    s != [] && IsDigit(s[0])
  }

  predicate StartsWith(s: string, c: char) {
    s != [] && s[0] == c
  }

  function SetRange(bits: seq<bool>, a: nat, b: nat): (r: seq<bool>)
    ensures |r| == |bits|
  {
    seq(|bits|, k requires 0 <= k < |bits| => bits[k] || a <= k <= b)
  }

  /** What the parser makes of a text; the end of the text is the terminating zero. */
  function Parse(s: string, bits: seq<bool>): (r: Parsed)
    decreases |s|
  {
    if !StartsWithDigit(s) then InvalidList
    else
      var a, s1 := NumberOf(s), AfterNumber(s);
      if StartsWith(s1, '-') && !StartsWithDigit(s1[1..]) then InvalidList
      else
        var b := if StartsWith(s1, '-') then NumberOf(s1[1..]) else a;
        var s2 := if StartsWith(s1, '-') then AfterNumber(s1[1..]) else s1;
        if a > b then InvalidList
        else if b >= |bits| then OutOfRange
        else
          var marked := SetRange(bits, a, b);
          var s3 := if StartsWith(s2, ',') then s2[1..] else s2;
          if s3 == [] || StartsWith(s3, '\n') then Mask(marked) else Parse(s3, marked)
  }

  /** bitmap_parselist; the text still to be read stands for the pointer into it. */
  method ParseList(text: string, n: nat) returns (r: Parsed)
    ensures r == Parse(text, seq(n, _ => false))
  {
    hide NumberOf, AfterNumber, SetRange;
    var bits := seq(n, _ => false);
    var s := text;
    while true
      invariant |bits| == n && Parse(text, seq(n, _ => false)) == Parse(s, bits)
      decreases |s|
    {
      if !StartsWithDigit(s) { return InvalidList; }
      var a, s1 := ReadNumber(s);
      var b := a;
      if StartsWith(s1, '-') {
        s1 := s1[1..];
        if !StartsWithDigit(s1) { return InvalidList; }
        b, s1 := ReadNumber(s1);
      }
      if a > b { return InvalidList; }
      if b >= n { return OutOfRange; }
      bits := SetBits(bits, a, b);
      if StartsWith(s1, ',') { s1 := s1[1..]; }
      s := s1;
      if s == [] || StartsWith(s, '\n') { return Mask(bits); }
    }
  }

  method ReadNumber(s: string) returns (a: nat, rest: string)
    requires StartsWithDigit(s)
    ensures a == NumberOf(s) && rest == AfterNumber(s) && |rest| < |s|
  {
    var v, end := StrToUl(s, 0);
    TruncateWord(Value(0, s[0..end]));
    assert s[0..end] == s[..end];
    a, rest := v % TWO32, s[end..];
  }

  lemma TruncateWord(v: nat)
    ensures v % TWO64 % TWO32 == v % TWO32
  {
    assert TWO64 == TWO32 * TWO32;
    var q := v / TWO64;
    assert v == (q * TWO32) * TWO32 + v % TWO64;
  }

  method SetBits(bits: seq<bool>, a: nat, b: nat) returns (r: seq<bool>)
    requires a <= b < |bits|
    ensures r == SetRange(bits, a, b)
  {
    r := bits;
    var k := a;
    while k <= b
      invariant a <= k <= b + 1 && |r| == |bits|
      invariant forall j :: 0 <= j < |bits| ==> r[j] == (bits[j] || a <= j < k)
    {
      r := r[k := true];
      k := k + 1;
    }
  }

  // The round trip

  lemma {:induction false} DigitsStop(d: string, rest: string, k: nat)
    requires k <= |d| && (forall i :: 0 <= i < |d| ==> IsDigit(d[i])) && !StartsWithDigit(rest)
    ensures DigitsFrom(d + rest, k) == |d| - k
    decreases |d| - k
  {
    if k < |d| { DigitsStop(d, rest, k + 1); }
  }

  /** A printed number in front of something that is no digit is read back. */
  lemma ReadBack(n: nat, rest: string)
    requires n < TWO32 && !StartsWithDigit(rest)
    ensures StartsWithDigit(Decimal(n) + rest) && NumberOf(Decimal(n) + rest) == n && AfterNumber(Decimal(n) + rest) == rest
  {
    hide Decimal;
    var d := Decimal(n);
    DigitsStop(d, rest, 0);
    assert (d + rest)[..|d|] == d && (d + rest)[|d|..] == rest;
    DecimalValue(n);
  }

  /** The text of a list from its front. */
  ghost function TextFrom(runs: seq<Run>): (s: string) {
    if runs == [] then [] else RunText(runs[0]) + (if |runs| == 1 then "" else "," + TextFrom(runs[1..]))
  }

  lemma {:induction false} TextAppend(runs: seq<Run>, r: Run)
    requires runs != []
    ensures TextFrom(runs + [r]) == TextFrom(runs) + "," + RunText(r)
    decreases |runs|
  {
    hide RunText;
    var all := runs + [r];
    if |runs| == 1 {
      assert all[1..] == [r];
    } else {
      assert all[1..] == runs[1..] + [r];
      TextAppend(runs[1..], r);
    }
  }

  lemma {:induction false} TextIsList(runs: seq<Run>)
    ensures TextFrom(runs) == ListText(runs)
    decreases |runs|
  {
    hide RunText;
    if |runs| > 1 {
      var init, last := runs[..|runs| - 1], runs[|runs| - 1];
      TextIsList(init);
      TextAppend(init, last);
      ListGrows(init, last);
      assert init + [last] == runs;
    }
  }

  lemma ParseRun(r: Run, rest: string, bits: seq<bool>)
    requires r.bottom <= r.top < |bits| <= TWO32 && (rest == [] || (rest[0] == ',' && |rest| > 1 && rest[1] != '\n'))
    ensures Parse(RunText(r) + rest, bits) ==
            if rest == [] then Mask(SetRange(bits, r.bottom, r.top)) else Parse(rest[1..], SetRange(bits, r.bottom, r.top))
  {
    hide Decimal, NumberOf, AfterNumber;
    if r.bottom == r.top {
      ReadBack(r.bottom, rest);
    } else {
      var s1 := "-" + (Decimal(r.top) + rest);
      assert RunText(r) + rest == Decimal(r.bottom) + s1;
      ReadBack(r.bottom, s1);
      assert s1[1..] == Decimal(r.top) + rest;
      ReadBack(r.top, rest);
    }
  }

  ghost function Marked(bits: seq<bool>, runs: seq<Run>): (r: seq<bool>)
    ensures |r| == |bits|
    decreases |runs|
  {
    if runs == [] then bits else Marked(SetRange(bits, runs[0].bottom, runs[0].top), runs[1..])
  }

  lemma {:induction false} ParseText(runs: seq<Run>, bits: seq<bool>)
    requires runs != [] && RunsFit(runs, |bits|) && |bits| <= TWO32
    ensures Parse(TextFrom(runs), bits) == Mask(Marked(bits, runs))
    decreases |runs|
  {
    hide Parse, RunText, SetRange;
    var marked := SetRange(bits, runs[0].bottom, runs[0].top);
    if |runs| == 1 {
      assert RunText(runs[0]) + "" == RunText(runs[0]);
      ParseRun(runs[0], "", bits);
      assert runs[1..] == [];
    } else {
      var rest := "," + TextFrom(runs[1..]);
      assert rest[1..] == TextFrom(runs[1..]);
      TextStarts(runs[1..]);
      ParseRun(runs[0], rest, bits);
      ParseText(runs[1..], marked);
    }
  }

  lemma TextStarts(runs: seq<Run>)
    requires runs != []
    ensures StartsWithDigit(TextFrom(runs))
  {
    hide RunText;
  }

  lemma {:induction false} MarkedBits(bits: seq<bool>, runs: seq<Run>, k: nat)
    requires k < |bits|
    ensures Marked(bits, runs)[k] <==> bits[k] || InRuns(runs, k)
    decreases |runs|
  {
    if runs != [] {
      var rest := runs[1..];
      MarkedBits(SetRange(bits, runs[0].bottom, runs[0].top), rest, k);
      if InRuns(rest, k) {
        var i :| 0 <= i < |rest| && InRun(rest[i], k);
        assert InRun(runs[i + 1], k);
      }
      if InRuns(runs, k) && !InRun(runs[0], k) {
        var i :| 0 <= i < |runs| && InRun(runs[i], k);
        assert InRun(rest[i - 1], k);
      }
    }
  }

  /** Parsing what was printed gives the bitmap back. */
  lemma RoundTrip(bits: seq<bool>, runs: seq<Run>)
    requires RunsOf(runs, bits, |bits|) && runs != [] && |bits| <= TWO32
    ensures Parse(ListText(runs), seq(|bits|, _ => false)) == Mask(bits)
  {
    hide Parse, ListText, Marked;
    TextIsList(runs);
    var zero := seq(|bits|, _ => false);
    ParseText(runs, zero);
    forall k: nat | k < |bits| ensures Marked(zero, runs)[k] == bits[k] { MarkedBits(zero, runs, k); }
  }

  /** bitmap_scnlistprintf, then bitmap_parselist. */
  method PrintThenParse(bits: seq<bool>) returns (text: string, r: Parsed)
    requires |bits| <= TWO32
    ensures r == if forall k :: 0 <= k < |bits| ==> !bits[k] then InvalidList else Mask(bits)
  {
    hide Parse, RunsOf;
    ghost var runs;
    text, runs := PrintList(bits);
    r := ParseList(text, |bits|);
    if runs != [] { RoundTrip(bits, runs); } else { NothingParsed(|bits|); }
  }

  lemma NothingParsed(n: nat)
    ensures ListText([]) == [] && Parse([], seq(n, _ => false)) == InvalidList
  {}
}
