/** Writing the DEFLATE format, and that the reference decoder reads it back.

    The writer follows the rules of RFC 1951 and not the decoder's tables. What it writes
    stands in front of bits that are already there. */
module DeflateEncoding {
  import opened Bits
  import opened HuffmanCode
  import opened HuffmanLengths
  import opened HuftTables
  import opened HuftBuild
  import opened Deflate
  import opened DeflateTables
  import opened DeflateSteps

  /** The bits to come and how many there are. */
  datatype Tail = Tail(stream: nat, avail: nat)

  /** n bits in front of others, the least significant first. */
  function Put(v: nat, n: nat, p: Tail): (r: Tail)
    requires v < Pow2(n)
  {
    Tail(Shl(p.stream, n) + v, p.avail + n)
  }

  lemma PutRead(v: nat, n: nat, p: Tail)
    requires v < Pow2(n)
    ensures var r := Put(v, n, p); Low(r.stream, n) == v && Shr(r.stream, n) == p.stream && r.avail == p.avail + n
  {
    Recompose(p.stream, v, n);
  }

  // Symbols

  /** Codes that a list of lengths can have. */
  ghost predicate Fits(b: seq<nat>) {
    LengthsOk(b) && !AllZero(b) && KraftSum(b) <= Pow2(MAX_LEN)
  }

  predicate Has(b: seq<nat>, sym: nat) {
    sym < |b| && b[sym] > 0
  }

  /** A code goes out with its most significant bit first. */
  function PutSymbol(b: seq<nat>, sym: nat, p: Tail): (r: Tail)
    requires Has(b, sym)
  {
    Put(Rev(b[sym], Code(b, sym)), b[sym], p)
  }

  lemma CodeFits(b: seq<nat>, sym: nat)
    requires Fits(b) && Has(b, sym)
    ensures Code(b, sym) < Pow2(b[sym])
  {
    hide Pow2, Shl, Low, Shr, Start, FilledCounts, Full, LenAt, KraftSum;
    FilledIsFull(b);
    var c, g, k := FilledCounts(b), MaxLen(b), b[sym];
    FullBounds(c, g);
    var m := Count(b[..sym], k);
    assert b[..|b|] == b;
    CountGrows(b, sym, |b|, k);
    NextCodePrefix(Counts(b, k), c, k);
    CodeStartAligned(c, g, k, m);
    Pow2Positive(g - k);
    CodeInterval(c, g, k, m, CodeStart(c, g, k, m));
    if Code(b, sym) >= Pow2(k) {
      ShlMono(Pow2(k), Code(b, sym), g - k);
      ShlPow2(k, g - k);
    }
  }

  lemma MatchUnique(b: seq<nat>, s: nat, t: nat, stream: nat)
    requires Fits(b) && Matches(b, s, stream) && Matches(b, t, stream)
    ensures s == t
  {
    hide Rev, LenAt, RankAt, FilledCounts, Full, KraftSum, Offset, Code;
    MatchIsRank(b, s, stream);
    MatchIsRank(b, t, stream);
    if s < t { CountGrows(b, s, t, b[s]); }
    if t < s { CountGrows(b, t, s, b[s]); }
  }

  /** The code that was written is the one the stream begins with. */
  lemma SymbolRead(b: seq<nat>, sym: nat, p: Tail)
    requires Fits(b) && Has(b, sym)
    ensures var r := PutSymbol(b, sym, p);
            && Matches(b, sym, r.stream) && (forall t: nat :: Matches(b, t, r.stream) ==> t == sym)
            && Shr(r.stream, b[sym]) == p.stream && r.avail == p.avail + b[sym]
  {
    hide Pow2, Low, Shr, Shl, Rev, Code, KraftSum;
    var k, code := b[sym], Code(b, sym);
    CodeFits(b, sym);
    PutRead(Rev(k, code), k, p);
    var r := PutSymbol(b, sym, p);
    RevLow(k, r.stream);
    RevRev(k, code);
    forall t: nat | Matches(b, t, r.stream) ensures t == sym { MatchUnique(b, sym, t, r.stream); }
  }

  // Literals and copies

  /** A byte, or a copy given by the number of a length code and of a distance code and the
      values of their extra bits. */
  datatype Token = Literal(c: Byte) | Back(i: nat, x: nat, j: nat, y: nat)

  function LengthBits(i: nat): (e: nat) {
    if i == 28 then 0 else GroupExtra(2, i)
  }

  function CopyLength(i: nat, x: nat): (r: nat) {
    if i == 28 then 258 else 3 + GroupBase(2, i) + x
  }

  function CopyDistance(j: nat, y: nat): (r: nat) {
    1 + GroupBase(1, j) + y
  }

  ghost predicate TokenOk(ll: seq<nat>, dd: seq<nat>, t: Token) {
    match t
    case Literal(c) => Has(ll, c)
    case Back(i, x, j, y) =>
      && i < 29 && Has(ll, 257 + i) && x < Pow2(LengthBits(i))
      && j < 30 && Has(dd, j) && y < Pow2(GroupExtra(1, j))
  }

  ghost function PutToken(ll: seq<nat>, dd: seq<nat>, t: Token, p: Tail): (r: Tail)
    requires TokenOk(ll, dd, t)
  {
    match t
    case Literal(c) => PutSymbol(ll, c, p)
    case Back(i, x, j, y) =>
      PutSymbol(ll, 257 + i, Put(x, LengthBits(i), PutSymbol(dd, j, Put(y, GroupExtra(1, j), p))))
  }

  /** What a token adds to the history. */
  function Extend(t: Token, hist: seq<Byte>): (r: seq<Byte>)
    requires |hist| >= MAX_DISTANCE
    ensures |r| >= |hist|
  {
    match t
    case Literal(c) => hist + [c]
    case Back(i, x, j, y) => if CopyDistance(j, y) <= |hist| then CopyMatch(hist, CopyDistance(j, y), CopyLength(i, x)) else hist
  }

  /** The symbols of the two codes mean what the rules say. */
  lemma LiteralMeans(ll: seq<nat>, sym: nat, p: Tail)
    requires LiteralCode(ll) && Fits(ll) && Has(ll, sym) && sym < 286
    ensures LiteralAt(ll, PutSymbol(ll, sym, p).stream) ==
            if sym < 256 then Symbol(LITERAL, sym, ll[sym])
            else if sym == 256 then Symbol(END_OF_BLOCK, sym, ll[sym])
            else Symbol(LengthBits(sym - 257), CopyLength(sym - 257, 0), ll[sym])
  {
    hide PutSymbol, LengthBase, LengthExtra, GroupBase, GroupExtra, Pow2, Shr, Matches;
    SymbolRead(ll, sym, p);
    LiteralLists(ll);
    if sym >= 257 {
      LengthTable(sym - 257);
    }
  }

  lemma DistanceMeans(dd: seq<nat>, sym: nat, p: Tail)
    requires DistanceCode(dd) && Fits(dd) && Has(dd, sym)
    ensures DistanceAt(dd, PutSymbol(dd, sym, p).stream) == Symbol(GroupExtra(1, sym), CopyDistance(sym, 0), dd[sym])
  {
    hide PutSymbol, DistanceBase, DistanceExtra, GroupBase, GroupExtra, Pow2, Shr, Matches;
    SymbolRead(dd, sym, p);
    DistanceLists(dd);
    DistanceTable(sym);
    DistanceRange(sym);
  }

  lemma CopyBounds(i: nat, x: nat, j: nat, y: nat)
    requires i < 29 && x < Pow2(LengthBits(i)) && j < 30 && y < Pow2(GroupExtra(1, j))
    ensures 3 <= CopyLength(i, 0) <= CopyLength(i, x) <= 258 && CopyLength(i, x) == CopyLength(i, 0) + x && LengthBits(i) <= 5
    ensures 1 <= CopyDistance(j, y) <= MAX_DISTANCE && CopyDistance(j, y) == CopyDistance(j, 0) + y
  {
    hide LengthBase, LengthExtra, DistanceBase, DistanceExtra, GroupBase, GroupExtra;
    LengthTable(i);
    LengthRange(i);
    DistanceTable(j);
    DistanceRange(j);
    if i < 28 { LengthAtMost(i); } else { Pow2AtZero(); }
  }

  lemma LengthAtMost(i: nat)
    requires i < 28
    ensures 3 <= LengthBase()[i] && LengthBase()[i] + Pow2(LengthExtra()[i]) <= 259
  {
    Pow2Small(LengthExtra()[i]);
  }

  /** Every length from 3 to 258 and every distance up to 32768 can be written. */
  lemma CopyOf(len: nat, dist: nat) returns (i: nat, x: nat, j: nat, y: nat)
    requires 3 <= len <= 258 && 1 <= dist <= 32768
    ensures i < 29 && x < Pow2(LengthBits(i)) && CopyLength(i, x) == len
    ensures j < 30 && y < Pow2(GroupExtra(1, j)) && CopyDistance(j, y) == dist
  {
    hide LengthBase, LengthExtra, DistanceBase, DistanceExtra, GroupBase, GroupExtra, Pow2;
    i := LengthCode(len);
    LengthTable(i);
    x := len - LengthBase()[i];
    j := DistanceCodeOf(dist);
    DistanceTable(j);
    y := dist - DistanceBase()[j];
  }

  /** A copy is read as the reference that was written. */
  lemma CopyRead(ll: seq<nat>, dd: seq<nat>, i: nat, x: nat, j: nat, y: nat, p: Tail)
    requires LiteralCode(ll) && DistanceCode(dd) && Fits(ll) && Fits(dd) && TokenOk(ll, dd, Back(i, x, j, y))
    ensures var r := PutToken(ll, dd, Back(i, x, j, y), p);
            var t := LiteralAt(ll, r.stream);
            && t.Symbol? && t.e < 15 && 1 <= t.n && 0 < t.used <= r.avail
            && var m := Match(t, dd, r.stream, r.avail);
               && m.Copy? && m.len == CopyLength(i, x) && m.dist == CopyDistance(j, y)
               && Shr(r.stream, m.used) == p.stream && r.avail - m.used == p.avail
  {
    hide LengthBase, LengthExtra, DistanceBase, DistanceExtra, GroupBase, GroupExtra, Pow2, Shr, Low, LiteralAt, DistanceAt,
         PutSymbol, Fits, CopyLength, CopyDistance, LengthBits, LiteralCode, DistanceCode;
    var e, f := LengthBits(i), GroupExtra(1, j);
    var p1 := Put(y, f, p);
    var p2 := PutSymbol(dd, j, p1);
    var p3 := Put(x, e, p2);
    var r := PutSymbol(ll, 257 + i, p3);
    PutRead(y, f, p);
    SymbolRead(dd, j, p1);
    PutRead(x, e, p2);
    SymbolRead(ll, 257 + i, p3);
    CopyBounds(i, x, j, y);
    LiteralMeans(ll, 257 + i, p3);
    DistanceMeans(dd, j, p1);
    var k, d := ll[257 + i], dd[j];
    ShrShr(r.stream, k, e);
    ShrShr(r.stream, k + e, d);
    ShrShr(r.stream, k + e + d, f);
    assert 257 + i - 257 == i;
  }

  // The data of a block

  ghost predicate TokensOk(ll: seq<nat>, dd: seq<nat>, tokens: seq<Token>) {
    forall k :: 0 <= k < |tokens| ==> TokenOk(ll, dd, tokens[k])
  }

  /** The tokens and the end of block. */
  ghost function PutTokens(ll: seq<nat>, dd: seq<nat>, tokens: seq<Token>, p: Tail): (r: Tail)
    requires Has(ll, 256) && TokensOk(ll, dd, tokens)
  {
    if tokens == [] then PutSymbol(ll, 256, p)
    else PutToken(ll, dd, tokens[0], PutTokens(ll, dd, tokens[1..], p))
  }

  function ExtendAll(tokens: seq<Token>, hist: seq<Byte>): (r: seq<Byte>)
    requires |hist| >= MAX_DISTANCE
    ensures |r| >= |hist|
    decreases |tokens|
  {
    if tokens == [] then hist else ExtendAll(tokens[1..], Extend(tokens[0], hist))
  }

  /** Codes with an end of block, and with distances unless nothing is copied. */
  ghost predicate CodesOk(ll: seq<nat>, dd: seq<nat>) {
    LiteralCode(ll) && DistanceCode(dd) && Fits(ll) && Fits(dd) && Has(ll, 256)
  }

  /** One token is read back. */
  lemma TokenRead(ll: seq<nat>, dd: seq<nat>, t: Token, p: Tail, hist: seq<Byte>)
    requires CodesOk(ll, dd) && TokenOk(ll, dd, t) && |hist| >= MAX_DISTANCE
    ensures var r := PutToken(ll, dd, t, p); Codes(ll, dd, r.stream, r.avail, hist) == Codes(ll, dd, p.stream, p.avail, Extend(t, hist))
  {
    hide Codes, LiteralAt, Match, CopyMatch, Shr, PutSymbol, Fits, GroupBase, GroupExtra, Pow2, LiteralCode, DistanceCode,
         CopyLength, CopyDistance, LengthBits;
    var r := PutToken(ll, dd, t, p);
    match t
    case Literal(c) =>
      LiteralMeans(ll, c, p);
      SymbolRead(ll, c, p);
      CodesStep(ll, dd, r.stream, r.avail, hist, LiteralAt(ll, r.stream));
    case Back(i, x, j, y) =>
      CopyBounds(i, x, j, y);
      CopyRead(ll, dd, i, x, j, y, p);
      var s := LiteralAt(ll, r.stream);
      CodesMatch(ll, dd, r.stream, r.avail, hist, s, Match(s, dd, r.stream, r.avail));
  }

  /** The decoder gives back what the tokens stand for. */
  lemma {:induction false} TokensRead(ll: seq<nat>, dd: seq<nat>, tokens: seq<Token>, p: Tail, hist: seq<Byte>)
    requires CodesOk(ll, dd) && TokensOk(ll, dd, tokens) && |hist| >= MAX_DISTANCE
    ensures var r := PutTokens(ll, dd, tokens, p);
            Codes(ll, dd, r.stream, r.avail, hist) == Done(p.stream, p.avail, ExtendAll(tokens, hist))
    decreases |tokens|
  {
    hide Codes, LiteralAt, Shr, PutSymbol, PutToken, TokenOk, Extend;
    if tokens == [] {
      LiteralMeans(ll, 256, p);
      SymbolRead(ll, 256, p);
      var r := PutSymbol(ll, 256, p);
      CodesStep(ll, dd, r.stream, r.avail, hist, LiteralAt(ll, r.stream));
    } else {
      var rest := PutTokens(ll, dd, tokens[1..], p);
      TokenRead(ll, dd, tokens[0], rest, hist);
      TokensRead(ll, dd, tokens[1..], p, Extend(tokens[0], hist));
    }
  }

  // Code lengths

  /** A code length, the one before it 3 to 6 times, or 3 to 10 or 11 to 138 zeros. */
  datatype LengthToken = Length(n: nat) | Again(x: nat) | Zeros(x: nat) | ManyZeros(x: nat)

  function TokenSymbol(t: LengthToken): (sym: nat) {
    match t case Length(n) => n case Again(_) => 16 case Zeros(_) => 17 case ManyZeros(_) => 18
  }

  ghost predicate LengthTokenOk(cl: seq<nat>, t: LengthToken) {
    && Has(cl, TokenSymbol(t))
    && match t case Length(n) => n < 16 case Again(x) => x < 4 case Zeros(x) => x < 8 case ManyZeros(x) => x < 128
  }

  ghost function PutLength(cl: seq<nat>, t: LengthToken, p: Tail): (r: Tail)
    requires LengthTokenOk(cl, t)
  {
    SmallPowers();
    match t
    case Length(n) => PutSymbol(cl, n, p)
    case Again(x) => PutSymbol(cl, 16, Put(x, 2, p))
    case Zeros(x) => PutSymbol(cl, 17, Put(x, 3, p))
    case ManyZeros(x) => PutSymbol(cl, 18, Put(x, 7, p))
  }

  lemma SmallPowers()
    ensures Pow2(1) == 2 && Pow2(2) == 4 && Pow2(3) == 8 && Pow2(4) == 16 && Pow2(5) == 32 && Pow2(7) == 128 && Pow2(16) == 65536
  {
    Pow2Small(1);
    Pow2Small(2);
    Pow2Small(3);
    Pow2Small(4);
    Pow2Small(5);
    Pow2Small(7);
    Pow2Small(13);
  }

  function AddLengths(t: LengthToken, lens: seq<nat>): (r: seq<nat>)
    ensures |r| > |lens|
  {
    match t
    case Length(n) => lens + [n]
    case Again(x) => lens + seq(3 + x, _ => if lens == [] then 0 else lens[|lens| - 1])
    case Zeros(x) => lens + seq(3 + x, _ => 0)
    case ManyZeros(x) => lens + seq(11 + x, _ => 0)
  }

  ghost predicate LengthTokensOk(cl: seq<nat>, tokens: seq<LengthToken>) {
    forall k :: 0 <= k < |tokens| ==> LengthTokenOk(cl, tokens[k])
  }

  ghost function PutLengths(cl: seq<nat>, tokens: seq<LengthToken>, p: Tail): (r: Tail)
    requires LengthTokensOk(cl, tokens)
  {
    if tokens == [] then p else PutLength(cl, tokens[0], PutLengths(cl, tokens[1..], p))
  }

  function AllLengths(tokens: seq<LengthToken>, lens: seq<nat>): (r: seq<nat>)
    ensures |r| >= |lens| && (tokens != [] ==> |r| > |lens|)
    decreases |tokens|
  {
    if tokens == [] then lens else AllLengths(tokens[1..], AddLengths(tokens[0], lens))
  }

  ghost predicate ShortLengths(lens: seq<nat>) {
    forall s :: 0 <= s < |lens| ==> lens[s] < 16
  }

  lemma AddShort(cl: seq<nat>, t: LengthToken, lens: seq<nat>)
    requires LengthTokenOk(cl, t) && ShortLengths(lens)
    ensures ShortLengths(AddLengths(t, lens))
  {}

  lemma LengthSymbolRead(cl: seq<nat>, sym: nat, p: Tail)
    requires LengthsOk(cl) && Usable(cl) && Has(cl, sym)
    ensures LengthSymbolAt(cl, PutSymbol(cl, sym, p).stream) == (sym, cl[sym])
  {
    hide PutSymbol, KraftSum, Matches, Shr;
    SymbolRead(cl, sym, p);
    var r := LengthSymbolAt(cl, PutSymbol(cl, sym, p).stream);
    assert LengthSymbol(cl, PutSymbol(cl, sym, p).stream, r.0, r.1);
  }

  /** One length token is read back. */
  lemma LengthTokenRead(cl: seq<nat>, n: nat, t: LengthToken, p: Tail, lens: seq<nat>)
    requires LengthsOk(cl) && Usable(cl) && |cl| == 19 && LengthTokenOk(cl, t) && ShortLengths(lens)
    requires |AddLengths(t, lens)| <= n
    ensures ShortLengths(AddLengths(t, lens))
    ensures var r := PutLength(cl, t, p);
            ReadLengths(cl, n, r.stream, r.avail, lens) == ReadLengths(cl, n, p.stream, p.avail, AddLengths(t, lens))
  {
    hide PutSymbol, LengthSymbolAt, Usable, Shr, Low, Pow2;
    AddShort(cl, t, lens);
    SmallPowers();
    var r := PutLength(cl, t, p);
    var sym := TokenSymbol(t);
    match t
    case Length(_) =>
      LengthSymbolRead(cl, sym, p);
      UsableFits(cl);
      SymbolRead(cl, sym, p);
    case Again(x) => RepeatRead(cl, n, sym, x, p, lens, AddLengths(t, lens));
    case Zeros(x) => RepeatRead(cl, n, sym, x, p, lens, AddLengths(t, lens));
    case ManyZeros(x) => RepeatRead(cl, n, sym, x, p, lens, AddLengths(t, lens));
  }

  lemma UsableFits(b: seq<nat>)
    requires LengthsOk(b) && Usable(b)
    ensures Fits(b)
  {}

  lemma RepeatRead(cl: seq<nat>, n: nat, sym: nat, x: nat, p: Tail, lens: seq<nat>, more: seq<nat>)
    requires LengthsOk(cl) && Usable(cl) && |cl| == 19 && Has(cl, sym) && sym >= 16 && ShortLengths(lens) && ShortLengths(more)
    requires x < Pow2(RepeatBits(sym)) && |lens| < |more| <= n
    requires more == lens + Repeat(RepeatedLength(sym, lens), RepeatBase(sym) + x)
    ensures var r := PutSymbol(cl, sym, Put(x, RepeatBits(sym), p));
            ReadLengths(cl, n, r.stream, r.avail, lens) == ReadLengths(cl, n, p.stream, p.avail, more)
  {
    hide PutSymbol, LengthSymbolAt, ReadLengths, Usable, Shr, Low, Pow2, RepeatBits, RepeatBase, RepeatedLength;
    var p1 := Put(x, RepeatBits(sym), p);
    var r := PutSymbol(cl, sym, p1);
    UsableFits(cl);
    LengthSymbolRead(cl, sym, p1);
    SymbolRead(cl, sym, p1);
    PutRead(x, RepeatBits(sym), p);
    ShrShr(r.stream, cl[sym], RepeatBits(sym));
    ReadLengthsStep(cl, n, r.stream, r.avail, lens);
  }

  /** The list of code lengths is read back. */
  lemma {:induction false} LengthsRead(cl: seq<nat>, tokens: seq<LengthToken>, p: Tail, lens: seq<nat>)
    requires LengthsOk(cl) && Usable(cl) && |cl| == 19 && LengthTokensOk(cl, tokens) && ShortLengths(lens)
    ensures var r, all := PutLengths(cl, tokens, p), AllLengths(tokens, lens);
            ShortLengths(all) && ReadLengths(cl, |all|, r.stream, r.avail, lens) == Lengths(all, p.stream, p.avail)
    decreases |tokens|
  {
    hide PutLength, LengthTokenOk, AddLengths, Usable, LengthSymbolAt;
    if tokens != [] {
      var rest := PutLengths(cl, tokens[1..], p);
      var n := |AllLengths(tokens, lens)|;
      LengthTokenRead(cl, n, tokens[0], rest, lens);
      LengthsRead(cl, tokens[1..], p, AddLengths(tokens[0], lens));
    }
  }

  // The header of a block with its own codes

  /** Three bits for each code length code, in the format's order. */
  ghost function PutHeader(cl: seq<nat>, t: nat, nb: nat, p: Tail): (r: Tail)
    requires |cl| == 19 && (forall s :: 0 <= s < 19 ==> cl[s] < 8) && t <= nb <= 19
    decreases nb - t
  {
    SmallPowers();
    if t == nb then p else Put(cl[LengthOrder()[t]], 3, PutHeader(cl, t + 1, nb, p))
  }

  lemma {:induction false} HeaderRead(cl: seq<nat>, t: nat, nb: nat, p: Tail, acc: seq<nat>)
    requires |cl| == 19 && (forall s :: 0 <= s < 19 ==> cl[s] < 8) && t <= nb <= 19 && |acc| == 19
    requires forall u :: 0 <= u < 19 ==> acc[LengthOrder()[u]] == if u < t then cl[LengthOrder()[u]] else 0
    requires forall u :: nb <= u < 19 ==> cl[LengthOrder()[u]] == 0
    ensures var r := PutHeader(cl, t, nb, p);
            CodeLengths(r.stream, t, nb, acc) == cl && Shr(r.stream, 3 * (nb - t)) == p.stream && r.avail == p.avail + 3 * (nb - t)
    decreases nb - t
  {
    hide LengthOrder, Shr, Low, Pow2;
    SmallPowers();
    if t == nb {
      forall s | 0 <= s < 19 ensures acc[s] == cl[s] {
        var u := OrderOf(s);
        assert acc[LengthOrder()[u]] == cl[LengthOrder()[u]];
      }
      ShrNone(p.stream);
    } else {
      var x := cl[LengthOrder()[t]];
      var rest := PutHeader(cl, t + 1, nb, p);
      PutRead(x, 3, rest);
      var next := acc[LengthOrder()[t] := x];
      forall u | 0 <= u < 19 ensures next[LengthOrder()[u]] == if u < t + 1 then cl[LengthOrder()[u]] else 0 {
        if u != t && LengthOrder()[u] == LengthOrder()[t] { OrderUnique(u, t); }
      }
      HeaderRead(cl, t + 1, nb, p, next);
      ShrShr(PutHeader(cl, t, nb, p).stream, 3, 3 * (nb - t - 1));
    }
  }

  // Blocks

  datatype BlockData =
    | StoredData(fill: nat, gap: nat, bytes: seq<Byte>)  // `gap` bits up to a byte boundary
    | FixedData(tokens: seq<Token>)
    | DynamicData(nl: nat, nd: nat, nb: nat, cl: seq<nat>, lengths: seq<LengthToken>, tokens: seq<Token>)

  function PutBytes(bytes: seq<Byte>, p: Tail): (r: Tail) {
    Pow2Small(8);
    if bytes == [] then p else Put(bytes[0], 8, PutBytes(bytes[1..], p))
  }

  /** The numbers in the header and the code length codes. */
  ghost predicate HeadOk(nl: nat, nd: nat, nb: nat, cl: seq<nat>) {
    && 257 <= nl <= 286 && 1 <= nd <= 30 && 4 <= nb <= 19
    && |cl| == 19 && (forall s :: 0 <= s < 19 ==> cl[s] < 8)
    && (forall u :: nb <= u < 19 ==> cl[LengthOrder()[u]] == 0)
  }

  ghost function PutHead(nl: nat, nd: nat, nb: nat, cl: seq<nat>, p: Tail): (r: Tail)
    requires HeadOk(nl, nd, nb, cl)
  {
    SmallPowers();
    Put(nl - 257, 5, Put(nd - 1, 5, Put(nb - 4, 4, PutHeader(cl, 0, nb, p))))
  }

  /** Two codes with an end of block, in which the tokens can be written. */
  ghost predicate DataOk(ll: seq<nat>, dd: seq<nat>, tokens: seq<Token>) {
    LengthsOk(ll) && LengthsOk(dd) && Usable(ll) && Usable(dd) && Has(ll, 256) && TokensOk(ll, dd, tokens)
  }

  ghost predicate DynamicOk(b: BlockData)
    requires b.DynamicData?
  {
    && HeadOk(b.nl, b.nd, b.nb, b.cl) && Usable(b.cl) && LengthTokensOk(b.cl, b.lengths)
    && var lens := AllLengths(b.lengths, []);
       |lens| == b.nl + b.nd && ShortLengths(lens) && DataOk(lens[..b.nl], lens[b.nl..], b.tokens)
  }

  /** The code lengths and the data. */
  ghost function PutCodes(b: BlockData, p: Tail): (r: Tail)
    requires b.DynamicData? && DynamicOk(b)
  {
    var lens := AllLengths(b.lengths, []);
    PutLengths(b.cl, b.lengths, PutTokens(lens[..b.nl], lens[b.nl..], b.tokens, p))
  }

  /** The block can be written in front of p: a stored block ends at a byte boundary. */
  ghost predicate BlockOk(b: BlockData, p: Tail) {
    match b
    case StoredData(fill, gap, bytes) => gap < 8 && fill < Pow2(gap) && |bytes| < 65536 && p.avail % 8 == 0
    case FixedData(tokens) => TokensOk(FixedLiterals(), FixedDistances(), tokens)
    case DynamicData(_, _, _, _, _, _) => DynamicOk(b)
  }

  ghost function PutBody(b: BlockData, p: Tail): (r: Tail)
    requires BlockOk(b, p)
  {
    SmallPowers();
    match b
    case StoredData(fill, gap, bytes) => Put(fill, gap, Put(|bytes|, 16, Put(65535 - |bytes|, 16, PutBytes(bytes, p))))
    case FixedData(tokens) => PutTokens(FixedLiterals(), FixedDistances(), tokens, p)
    case DynamicData(nl, nd, nb, cl, _, _) => PutHead(nl, nd, nb, cl, PutCodes(b, p))
  }

  /** The final flag, the type, the body. */
  ghost function PutBlock(last: bool, b: BlockData, p: Tail): (r: Tail)
    requires BlockOk(b, p)
  {
    SmallPowers();
    var kind := match b case StoredData(_, _, _) => 0 case FixedData(_) => 1 case DynamicData(_, _, _, _, _, _) => 2;
    Put(if last then 1 else 0, 1, Put(kind, 2, PutBody(b, p)))
  }

  function ExtendBlock(b: BlockData, hist: seq<Byte>): (r: seq<Byte>)
    requires |hist| >= MAX_DISTANCE
    ensures |r| >= |hist|
  {
    if b.StoredData? then hist + b.bytes else ExtendAll(b.tokens, hist)
  }

  lemma {:induction false} BytesRead(bytes: seq<Byte>, p: Tail, hist: seq<Byte>)
    ensures var r := PutBytes(bytes, p);
            r.avail == p.avail + 8 * |bytes| && StoredBytes(|bytes|, r.stream, r.avail, hist) == Done(p.stream, p.avail, hist + bytes)
    decreases |bytes|
  {
    hide Shr, Low, Pow2;
    if bytes == [] {
      assert hist + bytes == hist;
    } else {
      Pow2Small(8);
      PutRead(bytes[0], 8, PutBytes(bytes[1..], p));
      BytesRead(bytes[1..], p, hist + [bytes[0]]);
      assert hist + [bytes[0]] + bytes[1..] == hist + bytes;
    }
  }

  lemma StoredRead(b: BlockData, p: Tail, hist: seq<Byte>)
    requires b.StoredData? && BlockOk(b, p)
    ensures var r := PutBody(b, p); Stored(r.stream, r.avail, hist) == Done(p.stream, p.avail, hist + b.bytes)
  {
    hide Shr, Low, Pow2, StoredBytes, PutBytes;
    SmallPowers();
    var p1 := PutBytes(b.bytes, p);
    var p2 := Put(65535 - |b.bytes|, 16, p1);
    var p3 := Put(|b.bytes|, 16, p2);
    var r := Put(b.fill, b.gap, p3);
    BytesRead(b.bytes, p, hist);
    PutRead(65535 - |b.bytes|, 16, p1);
    PutRead(|b.bytes|, 16, p2);
    PutRead(b.fill, b.gap, p3);
    ShrShr(r.stream, b.gap, 16);
    ShrShr(r.stream, b.gap + 16, 16);
    assert r.avail % 8 == b.gap;
  }

  lemma FixedRead(b: BlockData, p: Tail, hist: seq<Byte>)
    requires b.FixedData? && BlockOk(b, p) && |hist| >= MAX_DISTANCE
    ensures var r := PutBody(b, p);
            Codes(FixedLiterals(), FixedDistances(), r.stream, r.avail, hist) == Done(p.stream, p.avail, ExtendAll(b.tokens, hist))
  {
    hide Codes, PutTokens, ExtendAll, KraftSum, Pow2, TokensOk;
    FixedCodesUsable();
    FixedCode(256);
    TokensRead(FixedLiterals(), FixedDistances(), b.tokens, p, hist);
  }

  /** The data behind the lists of code lengths. */
  lemma DataRead(lens: seq<nat>, nl: nat, tokens: seq<Token>, p: Tail, hist: seq<Byte>)
    requires 257 <= nl <= 286 && 1 <= |lens| - nl <= 30 && ShortLengths(lens) && |hist| >= MAX_DISTANCE
    requires DataOk(lens[..nl], lens[nl..], tokens)
    ensures var r := PutTokens(lens[..nl], lens[nl..], tokens, p);
            BodyCodes(lens, nl, r.stream, r.avail, hist) == Done(p.stream, p.avail, ExtendAll(tokens, hist))
  {
    hide Codes, PutTokens, ExtendAll, KraftSum, Pow2, TokensOk, Usable;
    UsableFits(lens[..nl]);
    UsableFits(lens[nl..]);
    TokensRead(lens[..nl], lens[nl..], tokens, p, hist);
  }

  /** The code lengths and the data behind them. */
  lemma BodyRead(b: BlockData, p: Tail, hist: seq<Byte>)
    requires b.DynamicData? && DynamicOk(b) && |hist| >= MAX_DISTANCE
    ensures var r := PutCodes(b, p);
            DynamicBody(b.cl, b.nl, b.nd, r.stream, r.avail, hist) == Done(p.stream, p.avail, ExtendAll(b.tokens, hist))
  {
    hide PutTokens, PutLengths, ExtendAll, LengthTokensOk, Usable, ReadLengths, AllLengths, LengthOrder, BodyCodes, DataOk;
    var lens := AllLengths(b.lengths, []);
    DataTokens(lens[..b.nl], lens[b.nl..], b.tokens);
    DataRead(lens, b.nl, b.tokens, p, hist);
    LengthsRead(b.cl, b.lengths, PutTokens(lens[..b.nl], lens[b.nl..], b.tokens, p), []);
  }

  lemma DataTokens(ll: seq<nat>, dd: seq<nat>, tokens: seq<Token>)
    requires DataOk(ll, dd, tokens)
    ensures Has(ll, 256) && TokensOk(ll, dd, tokens)
  {}

  /** The three numbers in front are read back. */
  lemma NumbersRead(a: nat, b: nat, c: nat, p: Tail)
    requires a < Pow2(5) && b < Pow2(5) && c < Pow2(4)
    ensures var r := Put(a, 5, Put(b, 5, Put(c, 4, p)));
            && Low(r.stream, 5) == a && Low(Shr(r.stream, 5), 5) == b && Low(Shr(r.stream, 10), 4) == c
            && Shr(r.stream, 14) == p.stream && r.avail == p.avail + 14
  {
    hide *;
    var p1 := Put(c, 4, p);
    var p2 := Put(b, 5, p1);
    var r := Put(a, 5, p2);
    PutRead(c, 4, p);
    PutRead(b, 5, p1);
    PutRead(a, 5, p2);
    ShrShr(r.stream, 5, 5);
    ShrShr(r.stream, 10, 4);
  }

  /** The whole header is read back. */
  lemma HeadRead(nl: nat, nd: nat, nb: nat, cl: seq<nat>, p: Tail, hist: seq<Byte>)
    requires HeadOk(nl, nd, nb, cl) && |hist| >= MAX_DISTANCE
    ensures var r := PutHead(nl, nd, nb, cl, p);
            Dynamic(r.stream, r.avail, hist) == DynamicBody(cl, nl, nd, p.stream, p.avail, hist)
  {
    hide PutHeader, Put, Pow2, Shr, Low, CodeLengths, DynamicBody, Dynamic, LengthOrder;
    SmallPowers();
    HeaderRead(cl, 0, nb, p, Repeat(0, 19));
    NumbersRead(nl - 257, nd - 1, nb - 4, PutHeader(cl, 0, nb, p));
    var r := PutHead(nl, nd, nb, cl, p);
    ShrShr(r.stream, 14, 3 * nb);
    DynamicStep(r.stream, r.avail, hist);
  }

  lemma DynamicRead(b: BlockData, p: Tail, hist: seq<Byte>)
    requires b.DynamicData? && BlockOk(b, p) && |hist| >= MAX_DISTANCE
    ensures var r := PutBody(b, p); Dynamic(r.stream, r.avail, hist) == Done(p.stream, p.avail, ExtendAll(b.tokens, hist))
  {
    hide PutCodes, PutHead, ExtendAll, DynamicBody, Dynamic, AllLengths, LengthOrder, DataOk, LengthTokensOk, Usable;
    BodyRead(b, p, hist);
    HeadRead(b.nl, b.nd, b.nb, b.cl, PutCodes(b, p), hist);
  }

  /** One block is read back. */
  lemma BlockRead(last: bool, b: BlockData, p: Tail, hist: seq<Byte>)
    requires BlockOk(b, p) && |hist| >= MAX_DISTANCE
    ensures var r := PutBlock(last, b, p);
            && Block(r.stream, r.avail, hist) == Done(p.stream, p.avail, ExtendBlock(b, hist))
            && Low(r.stream, 1) == if last then 1 else 0
  {
    hide Codes, Stored, Dynamic, PutBody, ExtendAll, Shr, Low, Pow2, BlockOk;
    SmallPowers();
    var kind := match b case StoredData(_, _, _) => 0 case FixedData(_) => 1 case DynamicData(_, _, _, _, _, _) => 2;
    var body := PutBody(b, p);
    PutRead(kind, 2, body);
    PutRead(if last then 1 else 0, 1, Put(kind, 2, body));
    ShrShr(PutBlock(last, b, p).stream, 1, 2);
    match b
    case StoredData(_, _, _) => StoredRead(b, p, hist);
    case FixedData(_) => FixedRead(b, p, hist);
    case DynamicData(_, _, _, _, _, _) => DynamicRead(b, p, hist);
  }

  // Whole data

  /** All blocks, the last one with the final flag. */
  ghost function PutBlocks(blocks: seq<BlockData>, p: Tail): (r: Tail)
    requires BlocksOk(blocks, p)
    decreases |blocks|, 1
  {
    if |blocks| == 1 then PutBlock(true, blocks[0], p)
    else PutBlock(false, blocks[0], PutBlocks(blocks[1..], p))
  }

  ghost predicate BlocksOk(blocks: seq<BlockData>, p: Tail)
    decreases |blocks|, 0
  {
    && blocks != []
    && if |blocks| == 1 then BlockOk(blocks[0], p)
       else BlocksOk(blocks[1..], p) && BlockOk(blocks[0], PutBlocks(blocks[1..], p))
  }

  function ExtendBlocks(blocks: seq<BlockData>, hist: seq<Byte>): (r: seq<Byte>)
    requires |hist| >= MAX_DISTANCE
    ensures |r| >= |hist|
    decreases |blocks|
  {
    if blocks == [] then hist else ExtendBlocks(blocks[1..], ExtendBlock(blocks[0], hist))
  }

  /** Reading undoes writing, for every sequence of blocks. */
  lemma {:induction false} BlocksRead(blocks: seq<BlockData>, p: Tail, hist: seq<Byte>)
    requires BlocksOk(blocks, p) && |hist| >= MAX_DISTANCE
    ensures var r := PutBlocks(blocks, p); Blocks(r.stream, r.avail, hist) == Done(p.stream, p.avail, ExtendBlocks(blocks, hist))
    decreases |blocks|
  {
    hide Block, PutBlock, ExtendBlock, Blocks, BlockOk, Low;
    var r := PutBlocks(blocks, p);
    BlocksStep(r.stream, r.avail, hist);
    if |blocks| == 1 {
      BlockRead(true, blocks[0], p, hist);
      assert blocks[1..] == [];
    } else {
      BlockRead(false, blocks[0], PutBlocks(blocks[1..], p), hist);
      BlocksRead(blocks[1..], p, ExtendBlock(blocks[0], hist));
    }
  }
}
