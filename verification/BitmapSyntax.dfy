/** What texts bitmap_parselist accepts, what they mean, and what it says of all others. */
module BitmapSyntax {
  import opened Bitmaps
  import opened DecimalText
  import opened BitmapList

  /** A number or a range, by its digits. */
  datatype Item = One(low: string) | Span(low: string, high: string)

  predicate Digits(s: string) {
    s != [] && forall i :: 0 <= i < |s| ==> IsDigit(s[i])
  }

  predicate ItemOk(it: Item) {
    Digits(it.low) && (it.Span? ==> Digits(it.high))
  }

  function ItemText(it: Item): (s: string) {
    if it.One? then it.low else it.low + "-" + it.high
  }

  /** The bits that an item names; numbers are taken modulo 2^32. */
  function Bounds(it: Item): (r: Run)
    requires ItemOk(it)
  {
    Run(Value(0, it.low) % TWO32, Value(0, if it.One? then it.low else it.high) % TWO32)
  }

  /** The item is in order and below n. */
  predicate Fits(it: Item, n: nat) {
    ItemOk(it) && Bounds(it).bottom <= Bounds(it).top < n
  }

  ghost predicate AllFit(items: seq<Item>, n: nat) {
    forall i :: 0 <= i < |items| ==> Fits(items[i], n)
  }

  /** Items with a comma behind each. */
  function Commas(items: seq<Item>): (s: string) {
    if items == [] then [] else ItemText(items[0]) + "," + Commas(items[1..])
  }

  /** Some item names the bit. */
  ghost predicate Named(items: seq<Item>, k: nat) {
    exists i :: 0 <= i < |items| && ItemOk(items[i]) && InRun(Bounds(items[i]), k)
  }

  /** The text up to the first newline. */
  function Line(s: string): (r: string)
    ensures |r| <= |s|
  {
    if s == [] || s[0] == '\n' then [] else [s[0]] + Line(s[1..])
  }

  /** What follows an item: no digit, and no hyphen behind a single number. */
  predicate Ends(it: Item, tail: string) {
    !StartsWithDigit(tail) && (it.One? ==> !StartsWith(tail, '-'))
  }

  // Reading one item

  lemma NumberRead(d: string, rest: string)
    requires Digits(d) && !StartsWithDigit(rest)
    ensures StartsWithDigit(d + rest) && NumberOf(d + rest) == Value(0, d) % TWO32 && AfterNumber(d + rest) == rest
  {
    DigitsStop(d, rest, 0);
    assert (d + rest)[..|d|] == d && (d + rest)[|d|..] == rest;
  }

  /** The parser at an item: it refuses it, or marks its bits and goes on behind it. */
  function Next(it: Item, tail: string, bits: seq<bool>): (r: Parsed)
    requires ItemOk(it)
  {
    var b := Bounds(it);
    if b.bottom > b.top then InvalidList
    else if b.top >= |bits| then OutOfRange
    else
      var marked, rest := SetRange(bits, b.bottom, b.top), if StartsWith(tail, ',') then tail[1..] else tail;
      if rest == [] || StartsWith(rest, '\n') then Mask(marked) else Parse(rest, marked)
  }

  lemma ItemRead(it: Item, tail: string, bits: seq<bool>)
    requires ItemOk(it) && Ends(it, tail)
    ensures Parse(ItemText(it) + tail, bits) == Next(it, tail, bits)
  {
    hide NumberOf, AfterNumber;
    if it.One? {
      NumberRead(it.low, tail);
    } else {
      var s1 := "-" + (it.high + tail);
      assert ItemText(it) + tail == it.low + s1;
      NumberRead(it.low, s1);
      assert s1[1..] == it.high + tail;
      NumberRead(it.high, tail);
    }
  }

  /** A hyphen without a number behind it. */
  lemma HyphenRead(low: string, tail: string, bits: seq<bool>)
    requires Digits(low) && !StartsWithDigit(tail)
    ensures Parse(low + ("-" + tail), bits) == InvalidList
  {
    hide NumberOf, AfterNumber;
    NumberRead(low, "-" + tail);
    assert ("-" + tail)[1..] == tail;
  }

  /** Every text that starts with a digit starts with an item or with a number and a hyphen. */
  lemma ItemOf(s: string) returns (it: Item, tail: string, hyphen: bool)
    requires StartsWithDigit(s)
    ensures hyphen ==> it.One? && ItemOk(it) && s == it.low + ("-" + tail) && !StartsWithDigit(tail)
    ensures !hyphen ==> ItemOk(it) && s == ItemText(it) + tail && Ends(it, tail)
  {
    var low, s1 := Leading(s);
    if !StartsWith(s1, '-') {
      it, tail, hyphen := One(low), s1, false;
    } else if !StartsWithDigit(s1[1..]) {
      it, tail, hyphen := One(low), s1[1..], true;
      assert s1 == "-" + s1[1..];
    } else {
      var high, s2 := Leading(s1[1..]);
      it, tail, hyphen := Span(low, high), s2, false;
      assert s1 == "-" + s1[1..];
      assert low + ("-" + (high + s2)) == low + "-" + high + s2;
    }
  }

  lemma Leading(s: string) returns (d: string, rest: string)
    requires StartsWithDigit(s)
    ensures s == d + rest && Digits(d) && !StartsWithDigit(rest)
  {
    var n := DigitsFrom(s, 0);
    d, rest := s[..n], s[n..];
    DigitsEnd(s, 0);
    assert s == d + rest;
  }

  lemma {:induction false} DigitsEnd(s: string, i: nat)
    requires i <= |s|
    ensures i + DigitsFrom(s, i) < |s| ==> !IsDigit(s[i + DigitsFrom(s, i)])
    decreases |s| - i
  {
    if i < |s| && IsDigit(s[i]) { DigitsEnd(s, i + 1); }
  }

  // The newline ends the text

  lemma {:induction false} LineAppend(a: string, b: string)
    requires '\n' !in a
    ensures Line(a + b) == a + Line(b)
  {
    if a == [] {
      assert a + b == b;
    } else {
      assert (a + b)[0] == a[0] && (a + b)[1..] == a[1..] + b;
      LineAppend(a[1..], b);
    }
  }

  lemma LineStart(s: string)
    ensures !StartsWith(Line(s), '\n') && (Line(s) == [] <==> s == [] || StartsWith(s, '\n'))
    ensures StartsWithDigit(Line(s)) <==> StartsWithDigit(s)
    ensures forall c :: c != '\n' ==> (StartsWith(Line(s), c) <==> StartsWith(s, c))
    ensures s != [] && s[0] != '\n' ==> Line(s)[1..] == Line(s[1..])
  {}

  lemma ItemPlain(it: Item)
    requires ItemOk(it)
    ensures '\n' !in ItemText(it) && ItemText(it) != []
  {}

  /** The parser does not look behind the newline. */
  lemma {:induction false} LineOnly(s: string, bits: seq<bool>)
    ensures Parse(s, bits) == Parse(Line(s), bits)
    decreases |s|
  {
    hide Parse, Line, NumberOf, AfterNumber;
    LineStart(s);
    if !StartsWithDigit(s) {
      NoItem(s, bits);
      NoItem(Line(s), bits);
    } else {
      var it, tail, hyphen := ItemOf(s);
      LineStart(tail);
      if hyphen {
        LineAppend(it.low, "-" + tail);
        LineAppend("-", tail);
        HyphenRead(it.low, tail, bits);
        HyphenRead(it.low, Line(tail), bits);
      } else {
        ItemPlain(it);
        LineAppend(ItemText(it), tail);
        ItemRead(it, tail, bits);
        ItemRead(it, Line(tail), bits);
        NextLine(it, tail, bits, s);
      }
    }
  }

  lemma NoItem(s: string, bits: seq<bool>)
    requires !StartsWithDigit(s)
    ensures Parse(s, bits) == InvalidList
  {}

  lemma {:induction false} NextLine(it: Item, tail: string, bits: seq<bool>, s: string)
    requires ItemOk(it) && Ends(it, tail) && |tail| < |s|
    ensures Next(it, tail, bits) == Next(it, Line(tail), bits)
    decreases |s|, 0
  {
    hide Parse, Line, Bounds;
    LineStart(tail);
    var b := Bounds(it);
    if b.bottom <= b.top < |bits| {
      var rest := if StartsWith(tail, ',') then tail[1..] else tail;
      LineStart(rest);
      if !(rest == [] || StartsWith(rest, '\n')) { LineOnly(rest, SetRange(bits, b.bottom, b.top)); }
    }
  }

  /** Texts with a newline mean what is in front of it. */
  lemma NewlineEnds(s: string, x: string, bits: seq<bool>)
    requires '\n' !in s
    ensures Parse(s + "\n" + x, bits) == Parse(s, bits)
  {
    hide Parse;
    assert s + "\n" + x == s + ("\n" + x);
    LineAppend(s, "\n" + x);
    LineAppend(s, "");
    assert s + "" == s;
    LineOnly(s + "\n" + x, bits);
  }

  // Lists of items

  function Spans(items: seq<Item>): (r: seq<Run>)
    requires forall i :: 0 <= i < |items| ==> ItemOk(items[i])
    ensures |r| == |items|
  {
    seq(|items|, i requires 0 <= i < |items| => Bounds(items[i]))
  }

  /** Items in order are read one after the other. */
  lemma {:induction false} CommasRead(items: seq<Item>, rest: string, bits: seq<bool>)
    requires AllFit(items, |bits|)
    ensures Parse(Commas(items) + rest, bits) ==
            if items != [] && (rest == [] || StartsWith(rest, '\n')) then Mask(Marked(bits, Spans(items))) else Parse(rest, Marked(bits, Spans(items)))
    decreases |items|
  {
    hide Parse, Bounds, Value;
    if items == [] {
      assert Commas(items) + rest == rest;
    } else {
      var it, more := items[0], items[1..];
      var tail := "," + (Commas(more) + rest);
      assert Commas(items) + rest == ItemText(it) + tail;
      assert tail[1..] == Commas(more) + rest;
      ItemRead(it, tail, bits);
      CommasRead(more, rest, SetRange(bits, Bounds(it).bottom, Bounds(it).top));
      assert Spans(items)[1..] == Spans(more);
      if more == [] { assert tail[1..] == rest; } else { CommasStart(more, rest); }
    }
  }

  lemma CommasStart(items: seq<Item>, rest: string)
    requires items != [] && ItemOk(items[0])
    ensures StartsWithDigit(Commas(items) + rest)
  {}

  /** The items, with commas between them and perhaps one behind the last. */
  ghost predicate IsList(line: string, items: seq<Item>) {
    items != [] && (line == Commas(items) || line + "," == Commas(items))
  }

  lemma {:induction false} CommasLast(items: seq<Item>)
    requires items != []
    ensures Commas(items) == Commas(items[..|items| - 1]) + ItemText(items[|items| - 1]) + ","
    decreases |items|
  {
    var init, last := items[..|items| - 1], items[|items| - 1];
    if |items| == 1 {
      assert items[1..] == [] && init == [] && Commas(items) == ItemText(last) + "," + [];
    } else {
      CommasLast(items[1..]);
      assert items[1..][..|items| - 2] == init[1..];
    }
  }

  lemma {:induction false} MarkedLast(bits: seq<bool>, runs: seq<Run>, r: Run)
    ensures Marked(bits, runs + [r]) == SetRange(Marked(bits, runs), r.bottom, r.top)
    decreases |runs|
  {
    hide SetRange;
    if runs == [] {
      assert runs + [r] == [r] && [r][1..] == [];
    } else {
      assert (runs + [r])[1..] == runs[1..] + [r];
      MarkedLast(SetRange(bits, runs[0].bottom, runs[0].top), runs[1..], r);
    }
  }

  /** Items with commas and a last one without. */
  lemma LastRead(init: seq<Item>, last: Item, bits: seq<bool>)
    requires AllFit(init, |bits|) && Fits(last, |bits|)
    ensures Parse(Commas(init) + ItemText(last), bits) == Mask(Marked(bits, Spans(init) + [Bounds(last)]))
  {
    hide Parse, Bounds, Value, SetRange, Marked, Commas;
    CommasRead(init, ItemText(last), bits);
    ItemPlain(last);
    NotNewline(ItemText(last));
    assert ItemText(last) + [] == ItemText(last);
    ItemRead(last, [], Marked(bits, Spans(init)));
    MarkedLast(bits, Spans(init), Bounds(last));
  }

  /** A list of items that are in order and in range is accepted. */
  lemma Accepts(line: string, items: seq<Item>, bits: seq<bool>)
    requires IsList(line, items) && AllFit(items, |bits|)
    ensures Parse(line, bits) == Mask(Marked(bits, Spans(items)))
  {
    hide Parse, Bounds, Value, SetRange, Marked, Fits, ItemText, ItemOk, Commas;
    if line == Commas(items) {
      CommasRead(items, [], bits);
      assert line + [] == line;
    } else {
      var n := |items| - 1;
      var init, last := items[..n], items[n];
      CommasLast(items);
      assert line == (line + ",")[..|line|] == Commas(init) + ItemText(last);
      LastRead(init, last, bits);
      AllOk(items, |bits|);
      assert Spans(init) + [Bounds(last)] == Spans(items);
    }
  }

  lemma NotNewline(s: string)
    requires '\n' !in s
    ensures !StartsWith(s, '\n')
  {}

  /** How a text can fail at some point: where an item should be there is none, or it is refused,
      or something other than a comma follows it. */
  ghost predicate Breaks(rest: string, n: nat, first: bool, r: Parsed) {
    match r
    case Mask(_) => false
    case InvalidList =>
      || (!StartsWithDigit(rest) && (first || rest != []))
      || (exists low, tail :: Digits(low) && !StartsWithDigit(tail) && rest == low + ("-" + tail))
      || (exists it, tail :: ItemAt(rest, it, tail) &&
            (Bounds(it).bottom > Bounds(it).top || (Fits(it, n) && tail != [] && tail[0] != ',')))
    case OutOfRange => exists it, tail :: ItemAt(rest, it, tail) && Bounds(it).bottom <= Bounds(it).top && Bounds(it).top >= n
  }

  ghost predicate ItemAt(rest: string, it: Item, tail: string) {
    ItemOk(it) && Ends(it, tail) && rest == ItemText(it) + tail
  }

  lemma Broken(rest: string, first: bool, r: Parsed, bits: seq<bool>)
    requires Breaks(rest, |bits|, first, r) && '\n' !in rest
    ensures Parse(rest, bits) == r && (first || rest != [])
  {
    hide Parse, Bounds;
    if r == OutOfRange {
      var it, tail :| ItemAt(rest, it, tail) && Bounds(it).bottom <= Bounds(it).top && Bounds(it).top >= |bits|;
      ItemRead(it, tail, bits);
      ItemPlain(it);
    } else if !StartsWithDigit(rest) {
      NoItem(rest, bits);
    } else if low, tail :| Digits(low) && !StartsWithDigit(tail) && rest == low + ("-" + tail) {
      HyphenRead(low, tail, bits);
    } else {
      var it, tail :| ItemAt(rest, it, tail) && (Bounds(it).bottom > Bounds(it).top || (Fits(it, |bits|) && tail != [] && tail[0] != ','));
      ItemRead(it, tail, bits);
      if Bounds(it).bottom <= Bounds(it).top {
        NoItem(tail, SetRange(bits, Bounds(it).bottom, Bounds(it).top));
        assert tail[0] in rest;
      }
    }
  }

  /** Items in order, and then the text fails. */
  ghost predicate FailsAfter(line: string, n: nat, items: seq<Item>, rest: string, r: Parsed) {
    AllFit(items, n) && line == Commas(items) + rest && Breaks(rest, n, items == [], r)
  }

  lemma Refuses(line: string, items: seq<Item>, rest: string, r: Parsed, bits: seq<bool>)
    requires FailsAfter(line, |bits|, items, rest, r) && '\n' !in line
    ensures Parse(line, bits) == r && r != Mask(bits)
  {
    hide Parse, Breaks, Commas, Marked;
    assert forall k :: 0 <= k < |rest| ==> rest[k] == line[|Commas(items)| + k];
    CommasRead(items, rest, bits);
    Broken(rest, items == [], r, Marked(bits, Spans(items)));
    NotNewline(rest);
    BreaksNoMask(rest, |bits|, items == [], r);
  }

  lemma BreaksNoMask(rest: string, n: nat, first: bool, r: Parsed)
    requires Breaks(rest, n, first, r)
    ensures !r.Mask?
  {}

  // Every text is a list or fails

  lemma AllFitCons(it: Item, items: seq<Item>, n: nat)
    requires Fits(it, n) && AllFit(items, n)
    ensures AllFit([it] + items, n) && Commas([it] + items) == ItemText(it) + "," + Commas(items)
  {
    assert ([it] + items)[1..] == items;
  }

  lemma {:induction false} Classify(line: string, n: nat) returns (ok: bool, items: seq<Item>, rest: string, r: Parsed)
    requires '\n' !in line
    ensures ok ==> IsList(line, items) && AllFit(items, n)
    ensures !ok ==> FailsAfter(line, n, items, rest, r)
    decreases |line|
  {
    hide Bounds, Breaks, Commas;
    if !StartsWithDigit(line) {
      ok, items, rest, r := false, [], line, InvalidList;
      BreaksEarly(line, n);
    } else {
      var it, tail, hyphen := ItemOf(line);
      ItemPlain(it);
      ok, items, rest, r := false, [], line, InvalidList;
      if hyphen || Bounds(it).bottom > Bounds(it).top || Bounds(it).top >= n || (tail != [] && tail[0] != ',') {
        r := BreaksAt(line, n, it, tail, hyphen);
      } else if |tail| <= 1 {
        ok, items := true, [it];
        AllFitCons(it, [], n);
        NoCommas([]);
        assert [it] + [] == [it];
        assert tail == [] ==> line == ItemText(it);
        assert tail != [] ==> tail == "," && line == ItemText(it) + ",";
      } else {
        assert line == ItemText(it) + "," + tail[1..];
        assert forall k :: 0 <= k < |tail[1..]| ==> tail[1..][k] == line[|ItemText(it)| + 1 + k];
        ok, items, rest, r := Classify(tail[1..], n);
        AllFitCons(it, items, n);
        if ok { ListCons(tail[1..], it, items); } else { FailsCons(tail[1..], n, it, items, rest, r); }
        items := [it] + items;
      }
    }
  }

  lemma BreaksEarly(line: string, n: nat)
    requires !StartsWithDigit(line)
    ensures Commas([]) + line == line && Breaks(line, n, true, InvalidList)
  {}

  lemma BreaksAt(line: string, n: nat, it: Item, tail: string, hyphen: bool) returns (r: Parsed)
    requires if hyphen then it.One? && ItemOk(it) && line == it.low + ("-" + tail) && !StartsWithDigit(tail) else ItemAt(line, it, tail)
    requires hyphen || Bounds(it).bottom > Bounds(it).top || Bounds(it).top >= n || (tail != [] && tail[0] != ',')
    ensures Commas([]) + line == line && Breaks(line, n, true, r)
  {
    hide Bounds;
    r := if !hyphen && Bounds(it).bottom <= Bounds(it).top && Bounds(it).top >= n then OutOfRange else InvalidList;
  }

  lemma ListCons(line: string, it: Item, items: seq<Item>)
    requires IsList(line, items) && Commas([it] + items) == ItemText(it) + "," + Commas(items)
    ensures IsList(ItemText(it) + "," + line, [it] + items)
  {
    hide Commas;
    assert ItemText(it) + "," + line + "," == ItemText(it) + "," + (line + ",");
  }

  lemma FailsCons(line: string, n: nat, it: Item, items: seq<Item>, rest: string, r: Parsed)
    requires FailsAfter(line, n, items, rest, r) && Fits(it, n) && Commas([it] + items) == ItemText(it) + "," + Commas(items) && line != []
    ensures FailsAfter(ItemText(it) + "," + line, n, [it] + items, rest, r)
  {
    hide Commas, Bounds;
    assert ItemText(it) + "," + (Commas(items) + rest) == ItemText(it) + "," + Commas(items) + rest;
    if items == [] { NoCommas(rest); }
  }

  lemma NoCommas(rest: string)
    ensures Commas([]) == [] && Commas([]) + rest == rest
  {}

  lemma LinePlain(s: string)
    ensures '\n' !in Line(s)
  {}

  lemma MarkedNamed(items: seq<Item>, bits: seq<bool>, k: nat)
    requires AllFit(items, |bits|) && k < |bits|
    ensures Marked(bits, Spans(items))[k] <==> bits[k] || Named(items, k)
  {
    hide Marked, Bounds;
    MarkedBits(bits, Spans(items), k);
    if InRuns(Spans(items), k) {
      var i :| 0 <= i < |Spans(items)| && InRun(Spans(items)[i], k);
      assert InRun(Bounds(items[i]), k);
    }
    if Named(items, k) {
      var i :| 0 <= i < |items| && ItemOk(items[i]) && InRun(Bounds(items[i]), k);
      assert InRun(Spans(items)[i], k);
    }
  }

  /** A mask is the answer exactly for lists of items that are in order and in range, and its bits
      are those that some item names. */
  lemma AcceptsIff(text: string, bits: seq<bool>)
    ensures var p, n := Parse(text, bits), |bits|;
            && (p.Mask? <==> exists items :: IsList(Line(text), items) && AllFit(items, n))
            && forall items :: IsList(Line(text), items) && AllFit(items, n) ==>
                 p.Mask? && |p.bits| == n && forall k: nat :: k < n ==> (p.bits[k] <==> bits[k] || Named(items, k))
  {
    hide Parse, IsList, AllFit, Named, Marked, FailsAfter;
    var line := Line(text);
    LineOnly(text, bits);
    LinePlain(text);
    forall items | IsList(line, items) && AllFit(items, |bits|)
      ensures Parse(text, bits).Mask? && |Parse(text, bits).bits| == |bits|
      ensures forall k: nat :: k < |bits| ==> (Parse(text, bits).bits[k] <==> bits[k] || Named(items, k))
    {
      AllOk(items, |bits|);
      Accepts(line, items, bits);
      forall k: nat | k < |bits| ensures Parse(text, bits).bits[k] <==> bits[k] || Named(items, k) { MarkedNamed(items, bits, k); }
    }
    var ok, items, rest, r := Classify(line, |bits|);
    if !ok { Refuses(line, items, rest, r, bits); NotMask(line, |bits|, items, rest, r); }
  }

  lemma AllOk(items: seq<Item>, n: nat)
    requires AllFit(items, n)
    ensures forall i :: 0 <= i < |items| ==> ItemOk(items[i])
  {}

  lemma NotMask(line: string, n: nat, items: seq<Item>, rest: string, r: Parsed)
    requires FailsAfter(line, n, items, rest, r)
    ensures !r.Mask?
  {}

  /** An error is the answer exactly if, behind items that are in order and in range, the text
      breaks in the way that the error stands for. */
  lemma RefusesIff(text: string, bits: seq<bool>, r: Parsed)
    requires !r.Mask?
    ensures Parse(text, bits) == r <==> exists items, rest :: FailsAfter(Line(text), |bits|, items, rest, r)
  {
    hide Parse, IsList, FailsAfter, Marked;
    var line := Line(text);
    LineOnly(text, bits);
    LinePlain(text);
    if items, rest :| FailsAfter(line, |bits|, items, rest, r) { Refuses(line, items, rest, r, bits); }
    var ok, items, rest, r' := Classify(line, |bits|);
    if ok { Accepts(line, items, bits); } else { Refuses(line, items, rest, r', bits); }
  }

  // Numbers that are too large

  /** A single number, written out: it is taken modulo 2^32 before it is compared. */
  lemma SingleNumber(k: nat, bits: seq<bool>)
    ensures var x := k % TWO32;
            Parse(Decimal(k), bits) == if x >= |bits| then OutOfRange else Mask(SetRange(bits, x, x))
  {
    hide Parse, Decimal, Value, SetRange;
    DecimalValue(k);
    var it := One(Decimal(k));
    ItemRead(it, [], bits);
    assert ItemText(it) + [] == Decimal(k);
  }

  /** A number too large for the mask is reported exactly if it is below 2^32 or too large also
      modulo 2^32. */
  lemma TooLargeReported(k: nat, bits: seq<bool>)
    requires k >= |bits|
    ensures Parse(Decimal(k), bits) == OutOfRange <==> k < TWO32 || k % TWO32 >= |bits|
  {
    hide Parse, Decimal, SetRange;
    SingleNumber(k, bits);
  }

  /** 2^32 is accepted as bit 0 of a mask of 8 bits. */
  lemma HugeAccepted()
    ensures Parse(Decimal(TWO32), seq(8, _ => false)) == Mask([true] + seq(7, _ => false))
  {
    hide Parse, Decimal;
    SingleNumber(TWO32, seq(8, _ => false));
    assert SetRange(seq(8, _ => false), 0, 0) == [true] + seq(7, _ => false);
  }
}
