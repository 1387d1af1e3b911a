/** The DEFLATE format (RFC 1951) as a reference decoder over the bits that remain.

    A position in the input is a pair: `stream`, the remaining bits as a number whose
    bit 0 comes first, and `avail`, how many of them there are. The decoder extends a
    history of bytes; back references look into that history. */
module Deflate {
  import opened Bits
  import opened HuffmanCode
  import opened HuffmanLengths
  import opened HuftTables
  import opened HuftBuild

  type Byte = b: nat | b < 256

  /** Base lengths and extra bits for length codes 257..285; 286 and 287 are unused. */
  function LengthBase(): (r: seq<nat>)
    ensures |r| == 31
  {
    [3, 4, 5, 6, 7, 8, 9, 10, 11, 13, 15, 17, 19, 23, 27, 31,
     35, 43, 51, 59, 67, 83, 99, 115, 131, 163, 195, 227, 258, 0, 0]
  }

  function LengthExtra(): (r: seq<nat>)
    ensures |r| == 31
  {
    [0, 0, 0, 0, 0, 0, 0, 0, 1, 1, 1, 1, 2, 2, 2, 2,
     3, 3, 3, 3, 4, 4, 4, 4, 5, 5, 5, 5, 0, 99, 99]
  }

  /** Base distances and extra bits for distance codes 0..29. */
  function DistanceBase(): (r: seq<nat>)
    ensures |r| == 30
  {
    [1, 2, 3, 4, 5, 7, 9, 13, 17, 25, 33, 49, 65, 97, 129, 193,
     257, 385, 513, 769, 1025, 1537, 2049, 3073, 4097, 6145,
     8193, 12289, 16385, 24577]
  }

  function DistanceExtra(): (r: seq<nat>)
    ensures |r| == 30
  {
    [0, 0, 0, 0, 1, 1, 2, 2, 3, 3, 4, 4, 5, 5, 6, 6,
     7, 7, 8, 8, 9, 9, 10, 10, 11, 11,
     12, 12, 13, 13]
  }

  /** Every length is at least one. */
  lemma LengthRange(i: nat)
    requires i < 31
    ensures LengthExtra()[i] == UNUSED || (LengthExtra()[i] <= 5 && 1 <= LengthBase()[i])
  {}

  /** No distance exceeds the window of 32 K. */
  lemma DistanceRange(i: nat)
    requires i < 30
    ensures DistanceExtra()[i] <= 13 && 1 <= DistanceBase()[i]
    ensures DistanceBase()[i] + Pow2(DistanceExtra()[i]) <= MAX_DISTANCE + 1
  {
    hide Pow2;
    Pow2Small(DistanceExtra()[i]);
  }

  lemma Pow2Small(n: nat)
    requires n <= 13
    ensures Pow2(n) == [1, 2, 4, 8, 16, 32, 64, 128, 256, 512, 1024, 2048, 4096, 8192][n]
  {
    if n > 0 { Pow2Small(n - 1); }
  }

  /** Order in which the lengths of the code length codes are sent. */
  function LengthOrder(): (r: seq<nat>)
    ensures |r| == 19 && forall t :: 0 <= t < 19 ==> r[t] < 19
  {
    [16, 17, 18, 0, 8, 7, 9, 6, 10, 5, 11, 4, 12, 3, 13, 2, 14, 1, 15]
  }

  const LITERALS: nat := 257
  const MAX_DISTANCE: nat := 32768

  datatype Outcome =
    | Done(stream: nat, avail: nat, hist: seq<Byte>)
    | Bad      // invalid data
    | Underrun // the input ends too early

  /** Two code length lists that go with the tables above. */
  predicate LiteralCode(ll: seq<nat>) {
    LengthsOk(ll) && |ll| <= 288
  }

  predicate DistanceCode(dd: seq<nat>) {
    LengthsOk(dd) && |dd| <= 30
  }

  lemma LiteralLists(ll: seq<nat>)
    requires LiteralCode(ll)
    ensures ListsOk(ll, LITERALS, LengthBase(), LengthExtra())
  {
    hide LengthBase, LengthExtra;
    forall n | 0 <= n < 31 ensures LengthExtra()[n] <= 16 || LengthExtra()[n] == UNUSED { LengthRange(n); }
  }

  lemma DistanceLists(dd: seq<nat>)
    requires DistanceCode(dd)
    ensures ListsOk(dd, 0, DistanceBase(), DistanceExtra())
  {
    hide DistanceBase, DistanceExtra;
    forall n | 0 <= n < 30 ensures DistanceExtra()[n] <= 16 || DistanceExtra()[n] == UNUSED { DistanceRange(n); }
  }

  /** The symbol whose code the stream starts with. */
  ghost function Decode(b: seq<nat>, simple: nat, base: seq<nat>, extra: seq<nat>, stream: nat): (r: Decoded)
    requires ListsOk(b, simple, base, extra)
  {
    if exists sym: nat :: Matches(b, sym, stream)
    then
      var sym: nat :| Matches(b, sym, stream);
      Meaning(sym, b[sym], simple, base, extra)
    else Invalid
  }

  ghost function LiteralAt(ll: seq<nat>, stream: nat): (r: Decoded)
    requires LiteralCode(ll)
  {
    LiteralLists(ll);
    Decode(ll, LITERALS, LengthBase(), LengthExtra(), stream)
  }

  ghost function DistanceAt(dd: seq<nat>, stream: nat): (r: Decoded)
    requires DistanceCode(dd)
  {
    DistanceLists(dd);
    Decode(dd, 0, DistanceBase(), DistanceExtra(), stream)
  }

  lemma LiteralFacts(ll: seq<nat>, stream: nat)
    requires LiteralCode(ll)
    ensures var r := LiteralAt(ll, stream);
            r.Symbol? ==> r.used > 0 && (r.e == LITERAL ==> r.n < 256) && (r.e < 15 ==> 1 <= r.n && r.e <= 5) && r.e <= 16
  {
    hide LengthBase, LengthExtra, Pow2;
    LiteralLists(ll);
    if sym: nat :| Matches(ll, sym, stream) {
      forall i | 0 <= i < 31 ensures LengthExtra()[i] == UNUSED || (LengthExtra()[i] <= 5 && 1 <= LengthBase()[i]) {
        LengthRange(i);
      }
    }
  }

  lemma DistanceFacts(dd: seq<nat>, stream: nat)
    requires DistanceCode(dd)
    ensures var r := DistanceAt(dd, stream);
            r.Symbol? ==> r.used > 0 && r.e <= 13 && 1 <= r.n && r.n + Pow2(r.e) <= MAX_DISTANCE + 1
  {
    hide DistanceBase, DistanceExtra, Pow2;
    DistanceLists(dd);
    if sym: nat :| Matches(dd, sym, stream) {
      forall i | 0 <= i < 30
        ensures DistanceExtra()[i] <= 13 && 1 <= DistanceBase()[i]
        ensures DistanceBase()[i] + Pow2(DistanceExtra()[i]) <= MAX_DISTANCE + 1
      {
        DistanceRange(i);
      }
    }
  }

  /** Copying `len` bytes one at a time from `dist` bytes back (section 3.2.3). */
  function CopyMatch(hist: seq<Byte>, dist: nat, len: nat): (r: seq<Byte>)
    requires 1 <= dist <= |hist|
    ensures |r| == |hist| + len
    decreases len
  {
    if len == 0 then hist else CopyMatch(hist + [hist[|hist| - dist]], dist, len - 1)
  }

  lemma {:induction false} CopyMatchSplit(hist: seq<Byte>, dist: nat, a: nat, b: nat)
    requires 1 <= dist <= |hist|
    ensures CopyMatch(CopyMatch(hist, dist, a), dist, b) == CopyMatch(hist, dist, a + b)
    decreases a
  {
    if a != 0 { CopyMatchSplit(hist + [hist[|hist| - dist]], dist, a - 1, b); }
  }

  /** The compressed data of a block, up to and including the end-of-block code. */
  ghost function Codes(ll: seq<nat>, dd: seq<nat>, stream: nat, avail: nat, hist: seq<Byte>): (r: Outcome)
    requires LiteralCode(ll) && DistanceCode(dd) && |hist| >= MAX_DISTANCE
    ensures r.Done? ==> r.avail <= avail && |hist| <= |r.hist|
    decreases avail
  {
    LiteralFacts(ll, stream);
    var t := LiteralAt(ll, stream);
    if !t.Symbol? then Bad
    else if t.used > avail then Underrun
    else if t.e == LITERAL then Codes(ll, dd, Shr(stream, t.used), avail - t.used, hist + [t.n])
    else if t.e == END_OF_BLOCK then Done(Shr(stream, t.used), avail - t.used, hist)
    else
      var m := Match(t, dd, stream, avail);
      if m.Copy? then
        Codes(ll, dd, Shr(stream, m.used), avail - m.used, CopyMatch(hist, m.dist, m.len))
      else if m.NoDistance? then Bad else Underrun
  }

  datatype Reference = Copy(len: nat, dist: nat, used: nat) | NoDistance | NoBits

  /** A length code with its extra bits, then a distance code with its extra bits. */
  ghost function Match(t: Decoded, dd: seq<nat>, stream: nat, avail: nat): (r: Reference)
    requires DistanceCode(dd) && t.Symbol? && 1 <= t.n
    ensures r.Copy? ==> t.used < r.used <= avail && 1 <= r.len && 1 <= r.dist <= MAX_DISTANCE
  {
    var u := t.used + t.e;
    if u > avail then NoBits
    else
      DistanceFacts(dd, Shr(stream, u));
      var d := DistanceAt(dd, Shr(stream, u));
      if !d.Symbol? then NoDistance
      else
        var v := u + d.used + d.e;
        if v > avail then NoBits
        else Copy(t.n + Low(Shr(stream, t.used), t.e), d.n + Low(Shr(stream, u + d.used), d.e), v)
  }

  /** A stored block: skip to a byte boundary, a length and its complement, the bytes. */
  ghost function Stored(stream: nat, avail: nat, hist: seq<Byte>): (r: Outcome)
    ensures r.Done? ==> r.avail <= avail && |hist| <= |r.hist|
  {
    var n := avail % 8;
    if avail - n < 32 then Underrun
    else
      var len := Low(Shr(stream, n), 16);
      if len != 0xffff - Low(Shr(stream, n + 16), 16) then Bad
      else StoredBytes(len, Shr(stream, n + 32), avail - n - 32, hist)
  }

  ghost function StoredBytes(n: nat, stream: nat, avail: nat, hist: seq<Byte>): (r: Outcome)
    ensures r.Done? ==> r.avail <= avail && |hist| <= |r.hist|
    decreases n
  {
    if n == 0 then Done(stream, avail, hist)
    else if avail < 8 then Underrun
    else StoredBytes(n - 1, Shr(stream, 8), avail - 8, hist + [ByteOf(stream)])
  }

  function ByteOf(stream: nat): (r: Byte) {
    assert Pow2(8) == 2 * Pow2(7) == 4 * Pow2(6) == 8 * Pow2(5) == 16 * Pow2(4) == 256;
    Low(stream, 8)
  }

  /** The codes that the decoder accepts: complete, or a single code of one bit. */
  ghost predicate Usable(lens: seq<nat>)
    requires LengthsOk(lens)
  {
    && !AllZero(lens) && KraftSum(lens) <= Pow2(MAX_LEN)
    && (KraftSum(lens) == Pow2(MAX_LEN) || MaxLen(lens) == 1)
  }

  /** Lengths of the code length codes: nb fields of three bits, in a fixed order. */
  ghost function CodeLengths(stream: nat, j: nat, nb: nat, acc: seq<nat>): (r: seq<nat>)
    requires j <= nb <= 19 && |acc| == 19
    ensures |r| == 19
    ensures (forall s :: 0 <= s < 19 ==> acc[s] < 8) ==> forall s :: 0 <= s < 19 ==> r[s] < 8
    decreases nb - j
  {
    assert Pow2(3) == 8;
    if j == nb then acc
    else CodeLengths(Shr(stream, 3), j + 1, nb, acc[LengthOrder()[j] := Low(stream, 3)])
  }

  datatype LengthsRead =
    | Lengths(lens: seq<nat>, stream: nat, avail: nat)
    | BadLengths
    | NoLengths

  /** A code length symbol. The unused pattern of a single one-bit code counts as that code. */
  ghost predicate LengthSymbol(cl: seq<nat>, stream: nat, sym: nat, used: nat) {
    && sym < |cl| && used > 0
    && (Matches(cl, sym, stream) ==> used == cl[sym])
    && (!Matches(cl, sym, stream) ==> (forall s: nat :: !Matches(cl, s, stream)) && cl[sym] == MaxLen(cl) == used)
  }

  /** Extra bits, smallest count and repeated length of the symbols 16, 17 and 18. */
  function RepeatBits(sym: nat): (r: nat) {
    if sym == 16 then 2 else if sym == 17 then 3 else 7
  }

  function RepeatBase(sym: nat): (r: nat) {
    if sym == 18 then 11 else 3
  }

  function RepeatedLength(sym: nat, acc: seq<nat>): (r: nat) {
    if sym == 16 && acc != [] then acc[|acc| - 1] else 0
  }

  function Repeat(x: nat, count: nat): (r: seq<nat>)
    ensures |r| == count && forall i :: 0 <= i < count ==> r[i] == x
  {
    seq(count, _ => x)
  }

  ghost function LengthSymbolAt(cl: seq<nat>, stream: nat): (r: (nat, nat))
    requires LengthsOk(cl) && Usable(cl)
    ensures LengthSymbol(cl, stream, r.0, r.1)
  {
    LengthSymbolExists(cl, stream);
    var sym: nat, used: nat :| LengthSymbol(cl, stream, sym, used);
    (sym, used)
  }

  lemma LengthSymbolExists(cl: seq<nat>, stream: nat)
    requires LengthsOk(cl) && Usable(cl)
    ensures exists sym: nat, used: nat :: LengthSymbol(cl, stream, sym, used)
  {
    if sym: nat :| Matches(cl, sym, stream) {
      assert LengthSymbol(cl, stream, sym, cl[sym]);
    } else {
      var sym: nat :| sym < |cl| && cl[sym] == MaxLen(cl);
      assert LengthSymbol(cl, stream, sym, MaxLen(cl));
    }
  }

  /** Reads n code lengths, literal and distance lengths as one list (section 3.2.7). */
  ghost function ReadLengths(cl: seq<nat>, n: nat, stream: nat, avail: nat, acc: seq<nat>): (r: LengthsRead)
    requires LengthsOk(cl) && Usable(cl) && |cl| == 19 && |acc| <= n
    requires forall s :: 0 <= s < |acc| ==> acc[s] < 16
    ensures r.Lengths? ==> r.avail <= avail && |r.lens| == n && forall s :: 0 <= s < n ==> r.lens[s] < 16
    decreases avail
  {
    if |acc| == n then Lengths(acc, stream, avail)
    else
      var (sym, used) := LengthSymbolAt(cl, stream);
      if used > avail then NoLengths
      else if sym < 16 then ReadLengths(cl, n, Shr(stream, used), avail - used, acc + [sym])
      else
        var u := used + RepeatBits(sym);
        if u > avail then NoLengths
        else
          var count := RepeatBase(sym) + Low(Shr(stream, used), RepeatBits(sym));
          if |acc| + count > n then BadLengths
          else ReadLengths(cl, n, Shr(stream, u), avail - u, acc + Repeat(RepeatedLength(sym, acc), count))
  }

  /** A block with its own Huffman codes. */
  ghost function Dynamic(stream: nat, avail: nat, hist: seq<Byte>): (r: Outcome)
    requires |hist| >= MAX_DISTANCE
    ensures r.Done? ==> r.avail <= avail && |hist| <= |r.hist|
  {
    if avail < 14 then Underrun
    else
      var nl := LITERALS + Low(stream, 5);
      var nd := 1 + Low(Shr(stream, 5), 5);
      var nb := LengthCodes(stream);
      if nl > 286 || nd > 30 then Bad
      else if avail - 14 < 3 * nb then Underrun
      else
        var cl := HeaderLengths(Shr(stream, 14), nb);
        DynamicBody(cl, nl, nd, Shr(stream, 14 + 3 * nb), avail - 14 - 3 * nb, hist)
  }

  ghost function HeaderLengths(stream: nat, nb: nat): (r: seq<nat>)
    requires nb <= 19
    ensures |r| == 19 && forall s :: 0 <= s < 19 ==> r[s] < 8
  {
    CodeLengths(stream, 0, nb, Repeat(0, 19))
  }

  /** How many code length codes follow the header. */
  ghost function LengthCodes(stream: nat): (r: nat)
    ensures 4 <= r <= 19
  {
    FourBits();
    4 + Low(Shr(stream, 10), 4)
  }

  lemma FourBits()
    ensures Pow2(4) == 16
  {}

  ghost function DynamicBody(cl: seq<nat>, nl: nat, nd: nat, stream: nat, avail: nat, hist: seq<Byte>): (r: Outcome)
    requires |cl| == 19 && (forall s :: 0 <= s < 19 ==> cl[s] < 8)
    requires LITERALS <= nl <= 286 && 1 <= nd <= 30 && |hist| >= MAX_DISTANCE
    ensures r.Done? ==> r.avail <= avail && |hist| <= |r.hist|
  {
    if !Usable(cl) then Bad
    else
      var r := ReadLengths(cl, nl + nd, stream, avail, []);
      if r.BadLengths? then Bad
      else if r.NoLengths? then Underrun
      else BodyCodes(r.lens, nl, r.stream, r.avail, hist)
  }

  /** The data behind the two lists of code lengths. */
  ghost function BodyCodes(lens: seq<nat>, nl: nat, stream: nat, avail: nat, hist: seq<Byte>): (r: Outcome)
    requires LITERALS <= nl <= 286 && 1 <= |lens| - nl <= 30 && |hist| >= MAX_DISTANCE && forall s :: 0 <= s < |lens| ==> lens[s] < 16
    ensures r.Done? ==> r.avail <= avail && |hist| <= |r.hist|
  {
    var ll, dd := lens[..nl], lens[nl..];
    if !Usable(ll) || !Usable(dd) then Bad else Codes(ll, dd, stream, avail, hist)
  }

  /** The lengths of the fixed codes (section 3.2.6). */
  function FixedLiterals(): (r: seq<nat>)
    ensures LiteralCode(r)
  {
    seq(288, i => if i < 144 then 8 else if i < 256 then 9 else if i < 280 then 7 else 8)
  }

  function FixedDistances(): (r: seq<nat>)
    ensures DistanceCode(r)
  {
    seq(30, _ => 5)
  }

  /** One block: the final flag, the block type, the data. */
  ghost function Block(stream: nat, avail: nat, hist: seq<Byte>): (r: Outcome)
    requires |hist| >= MAX_DISTANCE
    ensures r.Done? ==> r.avail < avail && |hist| <= |r.hist|
  {
    if avail < 3 then Underrun
    else
      var t := Low(Shr(stream, 1), 2);
      if t == 2 then Dynamic(Shr(stream, 3), avail - 3, hist)
      else if t == 0 then Stored(Shr(stream, 3), avail - 3, hist)
      else if t == 1 then Codes(FixedLiterals(), FixedDistances(), Shr(stream, 3), avail - 3, hist)
      else Bad
  }

  /** Blocks up to and including the one with the final flag. */
  ghost function Blocks(stream: nat, avail: nat, hist: seq<Byte>): (r: Outcome)
    requires |hist| >= MAX_DISTANCE
    ensures r.Done? ==> r.avail <= avail && |hist| <= |r.hist|
    decreases avail
  {
    var r := Block(stream, avail, hist);
    if !r.Done? || Low(stream, 1) == 1 then r
    else Blocks(r.stream, r.avail, r.hist)
  }
}
