/** Where the decoder looks at more bits than the input has left, although the code itself is
    there. It then fails where the reference decoder goes on. */
module InflateLookahead {
  import opened Bits
  import opened HuffmanCode
  import opened HuffmanLengths
  import opened HuftTables
  import opened HuftBuild
  import opened Deflate
  import opened DeflateTables
  import opened DeflateSteps

  /** With this many bits left after the data, no lookahead runs past the input. */
  const LOOKAHEAD: nat := 16

  ghost predicate Ample(r: Outcome) {
    r.Done? && r.avail >= LOOKAHEAD
  }

  /** A distance code is looked up with fewer bits left than its tables look at. */
  ghost predicate MatchStarves(dd: seq<nat>, wd: nat, t: Decoded, stream: nat, avail: nat)
    requires Coded(dd) && t.Symbol?
  {
    var u := t.used + t.e;
    u <= avail && avail - u < LookBits(dd, wd, Shr(stream, u))
  }

  /** Some code of a block with lengths ll and dd is looked up with fewer bits left than the
      tables of wl and wd bits look at. */
  ghost predicate Starves(ll: seq<nat>, wl: nat, dd: seq<nat>, wd: nat, stream: nat, avail: nat)
    requires LiteralCode(ll) && DistanceCode(dd) && Coded(ll) && Coded(dd)
    decreases avail
  {
    || avail < LookBits(ll, wl, stream)
    || (LiteralFacts(ll, stream);
        var t := LiteralAt(ll, stream);
        && t.Symbol? && t.used <= avail && t.e != END_OF_BLOCK
        && if t.e == LITERAL then Starves(ll, wl, dd, wd, Shr(stream, t.used), avail - t.used)
           else
             || MatchStarves(dd, wd, t, stream, avail)
             || (var m := Match(t, dd, stream, avail);
                 m.Copy? && Starves(ll, wl, dd, wd, Shr(stream, m.used), avail - m.used)))
  }

  lemma StarvesStep(ll: seq<nat>, wl: nat, dd: seq<nat>, wd: nat, stream: nat, avail: nat, t: Decoded)
    requires LiteralCode(ll) && DistanceCode(dd) && Coded(ll) && Coded(dd) && t == LiteralAt(ll, stream) && SymbolFacts(t)
    ensures avail < LookBits(ll, wl, stream) ==> Starves(ll, wl, dd, wd, stream, avail)
    ensures avail >= LookBits(ll, wl, stream) && !t.Symbol? ==> !Starves(ll, wl, dd, wd, stream, avail)
    ensures avail >= LookBits(ll, wl, stream) && t.Symbol? && t.used <= avail ==>
              var all := Starves(ll, wl, dd, wd, stream, avail);
              && (t.e == END_OF_BLOCK ==> !all)
              && (t.e == LITERAL ==> (all <==> Starves(ll, wl, dd, wd, Shr(stream, t.used), avail - t.used)))
              && (t.e < 15 ==>
                    var m := Match(t, dd, stream, avail);
                    && (MatchStarves(dd, wd, t, stream, avail) ==> all)
                    && (!MatchStarves(dd, wd, t, stream, avail) && !m.Copy? ==> !all)
                    && (!MatchStarves(dd, wd, t, stream, avail) && m.Copy? ==>
                          (all <==> Starves(ll, wl, dd, wd, Shr(stream, m.used), avail - m.used))))
  {
    hide LiteralAt, Match, MatchStarves, Shr, LiteralCode, DistanceCode, LookBits, Coded;
  }

  lemma LooksHere(b: seq<nat>, want: nat, tables: Tables, l: nat, stream: nat)
    requires Coded(b) && |tables| > 0 && LooksAs(b, want, tables, l)
    ensures Looks(tables, 0, l, stream) == LookBits(b, want, stream)
  {}

  /** The tables never look further than n bits past a code. */
  ghost predicate Within(b: seq<nat>, want: nat, n: nat)
    requires Coded(b)
  {
    forall stream: nat, sym: nat :: Matches(b, sym, stream) ==> LookBits(b, want, stream) <= b[sym] + n
  }

  lemma AlwaysWithin(b: seq<nat>, want: nat)
    requires Coded(b)
    ensures Within(b, want, LOOKAHEAD)
  {
    hide LookBits, Matches, KraftSum, Coded;
    WidthOf(b, want);
    forall stream: nat, sym: nat | Matches(b, sym, stream) ensures sym < |b| && LookBits(b, want, stream) <= b[sym] + LOOKAHEAD {
      LookBitsBound(b, want, stream, sym);
    }
  }

  lemma WidthOf(b: seq<nat>, want: nat)
    requires Coded(b)
    ensures TableWidth(b, want) <= LOOKAHEAD
  {
    WidthPositive(b, want);
  }

  /** With as many bits behind the block as the tables look past a code, no lookup starves. */
  lemma {:induction false} Fed(ll: seq<nat>, wl: nat, dd: seq<nat>, wd: nat, n: nat, stream: nat, avail: nat, hist: seq<Byte>)
    requires LiteralCode(ll) && DistanceCode(dd) && Coded(ll) && Coded(dd) && |hist| >= MAX_DISTANCE
    requires Within(ll, wl, n) && Within(dd, wd, n)
    ensures var r := Codes(ll, dd, stream, avail, hist); r.Done? && r.avail >= n ==> !Starves(ll, wl, dd, wd, stream, avail)
    decreases avail
  {
    hide Shr, LiteralCode, DistanceCode, LiteralAt, Match, CopyMatch, Codes, Starves, LookBits, MatchStarves, Coded, Within;
    LiteralFacts(ll, stream);
    var t := LiteralAt(ll, stream);
    CodesStep(ll, dd, stream, avail, hist, t);
    StarvesStep(ll, wl, dd, wd, stream, avail, t);
    if t.Symbol? && t.used <= avail {
      FedCode(ll, wl, n, stream, t);
      if t.e == LITERAL {
        CodesLeave(ll, dd, Shr(stream, t.used), avail - t.used, hist + [t.n]);
        Fed(ll, wl, dd, wd, n, Shr(stream, t.used), avail - t.used, hist + [t.n]);
      } else if t.e < 15 {
        var m := Match(t, dd, stream, avail);
        MatchFacts(t, dd, stream, avail);
        CodesMatch(ll, dd, stream, avail, hist, t, m);
        if m.Copy? {
          FedMatch(dd, wd, n, stream, avail, t, m);
          CodesLeave(ll, dd, Shr(stream, m.used), avail - m.used, CopyMatch(hist, m.dist, m.len));
          Fed(ll, wl, dd, wd, n, Shr(stream, m.used), avail - m.used, CopyMatch(hist, m.dist, m.len));
        }
      }
    }
  }

  lemma FedCode(ll: seq<nat>, wl: nat, n: nat, stream: nat, t: Decoded)
    requires LiteralCode(ll) && Coded(ll) && Within(ll, wl, n) && t == LiteralAt(ll, stream) && t.Symbol?
    ensures LookBits(ll, wl, stream) <= t.used + n
  {
    hide LookBits, Rev, Code, LengthBase, LengthExtra, Coded;
    LiteralLists(ll);
    var sym: nat :| Matches(ll, sym, stream) && t == Meaning(sym, ll[sym], LITERALS, LengthBase(), LengthExtra());
  }

  lemma FedMatch(dd: seq<nat>, wd: nat, n: nat, stream: nat, avail: nat, t: Decoded, m: Reference)
    requires DistanceCode(dd) && Coded(dd) && Within(dd, wd, n) && t.Symbol? && 1 <= t.n && m == Match(t, dd, stream, avail) && m.Copy?
    ensures m.used + n <= avail ==> !MatchStarves(dd, wd, t, stream, avail)
  {
    hide LookBits, Rev, Code, DistanceBase, DistanceExtra, Shr, Low, Coded;
    DistanceLists(dd);
    var s1 := Shr(stream, t.used + t.e);
    var d := DistanceAt(dd, s1);
    var sym: nat :| Matches(dd, sym, s1) && d == Meaning(sym, dd[sym], 0, DistanceBase(), DistanceExtra());
  }

  /** A code length is looked up with fewer bits left than the longest code has. */
  ghost predicate LengthsStarve(cl: seq<nat>, n: nat, stream: nat, avail: nat, acc: seq<nat>)
    requires LengthsOk(cl) && Usable(cl) && |cl| == 19 && |acc| <= n
    decreases avail
  {
    |acc| < n &&
    (|| avail < MaxLen(cl)
     || (var (sym, used) := LengthSymbolAt(cl, stream);
         && used <= avail
         && if sym < 16 then LengthsStarve(cl, n, Shr(stream, used), avail - used, acc + [sym])
            else
              var u := used + RepeatBits(sym);
              var count := RepeatBase(sym) + Low(Shr(stream, used), RepeatBits(sym));
              && u <= avail && |acc| + count <= n
              && LengthsStarve(cl, n, Shr(stream, u), avail - u, acc + Repeat(RepeatedLength(sym, acc), count))))
  }

  lemma LengthsStarveStep(cl: seq<nat>, n: nat, stream: nat, avail: nat, acc: seq<nat>)
    requires LengthsOk(cl) && Usable(cl) && |cl| == 19 && |acc| <= n
    ensures var r := LengthsStarve(cl, n, stream, avail, acc);
            var (sym, used) := LengthSymbolAt(cl, stream);
            var u, x := used + RepeatBits(sym), RepeatBits(sym);
            var count := RepeatBase(sym) + Low(Shr(stream, used), x);
            && (|acc| == n ==> !r) && (|acc| < n && avail < MaxLen(cl) ==> r)
            && (|acc| < n && MaxLen(cl) <= avail && used <= avail ==>
                  && (sym < 16 ==> (r <==> LengthsStarve(cl, n, Shr(stream, used), avail - used, acc + [sym])))
                  && (sym >= 16 && u <= avail && |acc| + count <= n ==>
                        (r <==> LengthsStarve(cl, n, Shr(stream, u), avail - u, acc + Repeat(RepeatedLength(sym, acc), count))))
                  && (sym >= 16 && (u > avail || |acc| + count > n) ==> !r))
  {
    hide Low, Shr, Pow2, LengthsOk, Usable, LengthSymbolAt, MaxLen;
  }

  lemma {:induction false} LengthsFed(cl: seq<nat>, n: nat, stream: nat, avail: nat, acc: seq<nat>)
    requires LengthsOk(cl) && Usable(cl) && |cl| == 19 && |acc| <= n && MaxLen(cl) <= LOOKAHEAD
    requires forall s :: 0 <= s < |acc| ==> acc[s] < 16
    ensures var r := ReadLengths(cl, n, stream, avail, acc); r.Lengths? && r.avail >= LOOKAHEAD ==> !LengthsStarve(cl, n, stream, avail, acc)
    decreases avail
  {
    hide Low, Shr, Pow2, LengthsOk, Usable, MaxLen, ReadLengths, LengthsStarve, Repeat;
    ReadLengthsStep(cl, n, stream, avail, acc);
    LengthsStarveStep(cl, n, stream, avail, acc);
    var (sym, used) := LengthSymbolAt(cl, stream);
    if |acc| < n && used <= avail {
      if sym < 16 {
        LengthsFed(cl, n, Shr(stream, used), avail - used, acc + [sym]);
      } else {
        var u := used + RepeatBits(sym);
        var count := RepeatBase(sym) + Low(Shr(stream, used), RepeatBits(sym));
        if u <= avail && |acc| + count <= n {
          RepeatSmall(sym, acc, count);
          LengthsFed(cl, n, Shr(stream, u), avail - u, acc + Repeat(RepeatedLength(sym, acc), count));
        }
      }
    }
  }

  // Whole blocks

  ghost predicate BodyStarves(lens: seq<nat>, nl: nat, stream: nat, avail: nat)
    requires LITERALS <= nl <= 286 && 1 <= |lens| - nl <= 30 && forall s :: 0 <= s < |lens| ==> lens[s] < 16
  {
    var ll, dd := lens[..nl], lens[nl..];
    Usable(ll) && Usable(dd) && Starves(ll, 9, dd, 6, stream, avail)
  }

  /** The lists of code lengths, and the data behind them. */
  ghost predicate LengthBodyStarves(cl: seq<nat>, nl: nat, nd: nat, stream: nat, avail: nat)
    requires |cl| == 19 && (forall s :: 0 <= s < 19 ==> cl[s] < 8) && LITERALS <= nl <= 286 && 1 <= nd <= 30
  {
    Usable(cl) &&
    (|| LengthsStarve(cl, nl + nd, stream, avail, [])
     || (var r := ReadLengths(cl, nl + nd, stream, avail, []);
         r.Lengths? && BodyStarves(r.lens, nl, r.stream, r.avail)))
  }

  ghost predicate DynamicStarves(stream: nat, avail: nat) {
    var nl, nd, nb := LITERALS + Low(stream, 5), 1 + Low(Shr(stream, 5), 5), LengthCodes(stream);
    && avail >= 14 && nl <= 286 && nd <= 30 && avail - 14 >= 3 * nb
    && LengthBodyStarves(HeaderLengths(Shr(stream, 14), nb), nl, nd, Shr(stream, 14 + 3 * nb), avail - 14 - 3 * nb)
  }

  lemma DynamicStarvesStep(stream: nat, avail: nat)
    ensures var nl, nd, nb := LITERALS + Low(stream, 5), 1 + Low(Shr(stream, 5), 5), 4 + Low(Shr(stream, 10), 4);
            && nb <= 19
            && (avail >= 14 && nl <= 286 && nd <= 30 && avail - 14 >= 3 * nb ==>
                  var cl := CodeLengths(Shr(stream, 14), 0, nb, Repeat(0, 19));
                  && (forall s :: 0 <= s < 19 ==> cl[s] < 8)
                  && (DynamicStarves(stream, avail) <==>
                      LengthBodyStarves(cl, nl, nd, Shr(stream, 14 + 3 * nb), avail - 14 - 3 * nb)))
  {
    hide Low, Shr, LengthBodyStarves, CodeLengths;
    FourBits();
  }

  /** Only a block with its own codes can starve. */
  ghost predicate BlockStarves(stream: nat, avail: nat) {
    avail >= 3 && Low(Shr(stream, 1), 2) == 2 && DynamicStarves(Shr(stream, 3), avail - 3)
  }

  ghost predicate BlocksStarve(stream: nat, avail: nat, hist: seq<Byte>)
    requires |hist| >= MAX_DISTANCE
    decreases avail
  {
    || BlockStarves(stream, avail)
    || (var r := Block(stream, avail, hist);
        r.Done? && Low(stream, 1) != 1 && BlocksStarve(r.stream, r.avail, r.hist))
  }

  lemma BlocksStarveStep(stream: nat, avail: nat, hist: seq<Byte>)
    requires |hist| >= MAX_DISTANCE
    ensures var r, all := Block(stream, avail, hist), BlocksStarve(stream, avail, hist);
            && (BlockStarves(stream, avail) ==> all)
            && (!BlockStarves(stream, avail) && r.Done? ==>
                  |r.hist| >= MAX_DISTANCE && (all <==> Low(stream, 1) != 1 && BlocksStarve(r.stream, r.avail, r.hist)))
  {
    hide Block, Low, BlockStarves;
  }

  // What is reported as missing input: all but the data in Huffman codes

  ghost predicate LengthBodyShort(cl: seq<nat>, nl: nat, nd: nat, stream: nat, avail: nat)
    requires |cl| == 19 && (forall s :: 0 <= s < 19 ==> cl[s] < 8) && LITERALS <= nl <= 286 && 1 <= nd <= 30
  {
    Usable(cl) && (ReadLengths(cl, nl + nd, stream, avail, []).NoLengths? || LengthsStarve(cl, nl + nd, stream, avail, []))
  }

  ghost predicate DynamicShort(stream: nat, avail: nat) {
    var nl, nd, nb := LITERALS + Low(stream, 5), 1 + Low(Shr(stream, 5), 5), LengthCodes(stream);
    || avail < 14
    || (nl <= 286 && nd <= 30 &&
        (|| avail - 14 < 3 * nb
         || LengthBodyShort(HeaderLengths(Shr(stream, 14), nb), nl, nd, Shr(stream, 14 + 3 * nb), avail - 14 - 3 * nb)))
  }

  lemma DynamicShortStep(stream: nat, avail: nat)
    ensures var nl, nd, nb := LITERALS + Low(stream, 5), 1 + Low(Shr(stream, 5), 5), 4 + Low(Shr(stream, 10), 4);
            && nb <= 19
            && (avail < 14 ==> DynamicShort(stream, avail))
            && (avail >= 14 && (nl > 286 || nd > 30) ==> !DynamicShort(stream, avail))
            && (avail >= 14 && nl <= 286 && nd <= 30 && avail - 14 < 3 * nb ==> DynamicShort(stream, avail))
            && (avail >= 14 && nl <= 286 && nd <= 30 && avail - 14 >= 3 * nb ==>
                  var cl := CodeLengths(Shr(stream, 14), 0, nb, Repeat(0, 19));
                  && (forall s :: 0 <= s < 19 ==> cl[s] < 8)
                  && (DynamicShort(stream, avail) <==>
                      LengthBodyShort(cl, nl, nd, Shr(stream, 14 + 3 * nb), avail - 14 - 3 * nb)))
  {
    hide Low, Shr, LengthBodyShort, CodeLengths;
    FourBits();
  }

  ghost predicate BlockShort(stream: nat, avail: nat, hist: seq<Byte>) {
    var t := Low(Shr(stream, 1), 2);
    avail < 3 || (t == 2 && DynamicShort(Shr(stream, 3), avail - 3)) || (t == 0 && Stored(Shr(stream, 3), avail - 3, hist) == Underrun)
  }

  ghost predicate BlocksShort(stream: nat, avail: nat, hist: seq<Byte>)
    requires |hist| >= MAX_DISTANCE
    decreases avail
  {
    || BlockShort(stream, avail, hist)
    || (var r := Block(stream, avail, hist);
        r.Done? && !BlockStarves(stream, avail) && Low(stream, 1) != 1 && BlocksShort(r.stream, r.avail, r.hist))
  }

  lemma BlocksShortStep(stream: nat, avail: nat, hist: seq<Byte>)
    requires |hist| >= MAX_DISTANCE
    ensures var r, all := Block(stream, avail, hist), BlocksShort(stream, avail, hist);
            && (BlockShort(stream, avail, hist) ==> all)
            && (!BlockShort(stream, avail, hist) && (!r.Done? || BlockStarves(stream, avail)) ==> !all)
            && (!BlockShort(stream, avail, hist) && r.Done? && !BlockStarves(stream, avail) ==>
                  |r.hist| >= MAX_DISTANCE && (all <==> Low(stream, 1) != 1 && BlocksShort(r.stream, r.avail, r.hist)))
  {
    hide Block, Low, BlockStarves, BlockShort;
  }

  // What is reported as a bad code: none at all, or too many codes, or a block of no known type

  ghost predicate Over(b: seq<nat>)
    requires LengthsOk(b)
  {
    AllZero(b) || KraftSum(b) > Pow2(MAX_LEN)
  }

  ghost predicate BodyOver(lens: seq<nat>, nl: nat)
    requires LITERALS <= nl <= 286 && 1 <= |lens| - nl <= 30 && forall s :: 0 <= s < |lens| ==> lens[s] < 16
  {
    Over(lens[..nl]) || (Usable(lens[..nl]) && Over(lens[nl..]))
  }

  ghost predicate LengthBodyOver(cl: seq<nat>, nl: nat, nd: nat, stream: nat, avail: nat)
    requires |cl| == 19 && (forall s :: 0 <= s < 19 ==> cl[s] < 8) && LITERALS <= nl <= 286 && 1 <= nd <= 30
  {
    || Over(cl)
    || (Usable(cl) && !LengthsStarve(cl, nl + nd, stream, avail, []) &&
        var r := ReadLengths(cl, nl + nd, stream, avail, []);
        r.Lengths? && BodyOver(r.lens, nl))
  }

  ghost predicate DynamicOver(stream: nat, avail: nat) {
    var nl, nd, nb := LITERALS + Low(stream, 5), 1 + Low(Shr(stream, 5), 5), LengthCodes(stream);
    && avail >= 14 && nl <= 286 && nd <= 30 && avail - 14 >= 3 * nb
    && LengthBodyOver(HeaderLengths(Shr(stream, 14), nb), nl, nd, Shr(stream, 14 + 3 * nb), avail - 14 - 3 * nb)
  }

  lemma DynamicOverStep(stream: nat, avail: nat)
    ensures var nl, nd, nb := LITERALS + Low(stream, 5), 1 + Low(Shr(stream, 5), 5), 4 + Low(Shr(stream, 10), 4);
            && nb <= 19
            && (avail < 14 || nl > 286 || nd > 30 || avail - 14 < 3 * nb ==> !DynamicOver(stream, avail))
            && (avail >= 14 && nl <= 286 && nd <= 30 && avail - 14 >= 3 * nb ==>
                  var cl := CodeLengths(Shr(stream, 14), 0, nb, Repeat(0, 19));
                  && (forall s :: 0 <= s < 19 ==> cl[s] < 8)
                  && (DynamicOver(stream, avail) <==>
                      LengthBodyOver(cl, nl, nd, Shr(stream, 14 + 3 * nb), avail - 14 - 3 * nb)))
  {
    hide Low, Shr, LengthBodyOver, CodeLengths;
    FourBits();
  }

  ghost predicate BlockOver(stream: nat, avail: nat) {
    var t := Low(Shr(stream, 1), 2);
    avail >= 3 && (t > 2 || (t == 2 && DynamicOver(Shr(stream, 3), avail - 3)))
  }

  ghost predicate BlocksOver(stream: nat, avail: nat, hist: seq<Byte>)
    requires |hist| >= MAX_DISTANCE
    decreases avail
  {
    || BlockOver(stream, avail)
    || (var r := Block(stream, avail, hist);
        r.Done? && !BlockStarves(stream, avail) && Low(stream, 1) != 1 && BlocksOver(r.stream, r.avail, r.hist))
  }

  lemma BlocksOverStep(stream: nat, avail: nat, hist: seq<Byte>)
    requires |hist| >= MAX_DISTANCE
    ensures var r, all := Block(stream, avail, hist), BlocksOver(stream, avail, hist);
            && (BlockOver(stream, avail) ==> all)
            && (!BlockOver(stream, avail) && (!r.Done? || BlockStarves(stream, avail)) ==> !all)
            && (!BlockOver(stream, avail) && r.Done? && !BlockStarves(stream, avail) ==>
                  |r.hist| >= MAX_DISTANCE && (all <==> Low(stream, 1) != 1 && BlocksOver(r.stream, r.avail, r.hist)))
  {
    hide Block, Low, BlockStarves, BlockOver;
  }

  // Enough input

  lemma BodyFed(lens: seq<nat>, nl: nat, stream: nat, avail: nat, hist: seq<Byte>)
    requires LITERALS <= nl <= 286 && 1 <= |lens| - nl <= 30 && |hist| >= MAX_DISTANCE && forall s :: 0 <= s < |lens| ==> lens[s] < 16
    ensures Ample(BodyCodes(lens, nl, stream, avail, hist)) ==> !BodyStarves(lens, nl, stream, avail)
  {
    hide Codes, Starves, Within;
    var ll, dd := lens[..nl], lens[nl..];
    if Usable(ll) && Usable(dd) {
      AlwaysWithin(ll, 9);
      AlwaysWithin(dd, 6);
      Fed(ll, 9, dd, 6, LOOKAHEAD, stream, avail, hist);
    }
  }

  lemma LengthBodyFed(cl: seq<nat>, nl: nat, nd: nat, stream: nat, avail: nat, hist: seq<Byte>)
    requires |cl| == 19 && (forall s :: 0 <= s < 19 ==> cl[s] < 8) && LITERALS <= nl <= 286 && 1 <= nd <= 30 && |hist| >= MAX_DISTANCE
    ensures Ample(DynamicBody(cl, nl, nd, stream, avail, hist)) ==> !LengthBodyStarves(cl, nl, nd, stream, avail)
  {
    hide ReadLengths, LengthsStarve, BodyStarves, BodyCodes, MaxLen;
    if Usable(cl) {
      ShortCodes(cl);
      LengthsFed(cl, nl + nd, stream, avail, []);
      var r := ReadLengths(cl, nl + nd, stream, avail, []);
      if r.Lengths? {
        BodyLeaves(r.lens, nl, r.stream, r.avail, hist);
        BodyFed(r.lens, nl, r.stream, r.avail, hist);
      }
    }
  }

  lemma ShortCodes(cl: seq<nat>)
    requires forall s :: 0 <= s < |cl| ==> cl[s] < 8
    ensures MaxLen(cl) <= LOOKAHEAD
  {}

  lemma BodyLeaves(lens: seq<nat>, nl: nat, stream: nat, avail: nat, hist: seq<Byte>)
    requires LITERALS <= nl <= 286 && 1 <= |lens| - nl <= 30 && |hist| >= MAX_DISTANCE && forall s :: 0 <= s < |lens| ==> lens[s] < 16
    ensures BodyCodes(lens, nl, stream, avail, hist).Done? ==> BodyCodes(lens, nl, stream, avail, hist).avail <= avail
  {}

  lemma BlockFed(stream: nat, avail: nat, hist: seq<Byte>)
    requires |hist| >= MAX_DISTANCE
    ensures Ample(Block(stream, avail, hist)) ==> !BlockStarves(stream, avail)
  {
    hide Low, Shr, DynamicBody, LengthBodyStarves, HeaderLengths, Stored, Codes;
    if avail >= 3 && Low(Shr(stream, 1), 2) == 2 && DynamicStarves(Shr(stream, 3), avail - 3) {
      var s := Shr(stream, 3);
      var nl, nd, nb := LITERALS + Low(s, 5), 1 + Low(Shr(s, 5), 5), LengthCodes(s);
      LengthBodyFed(HeaderLengths(Shr(s, 14), nb), nl, nd, Shr(s, 14 + 3 * nb), avail - 17 - 3 * nb, hist);
    }
  }

  /** With 16 bits behind the last block the decoder does what the reference decoder does. */
  lemma {:induction false} AmpleFeeds(stream: nat, avail: nat, hist: seq<Byte>)
    requires |hist| >= MAX_DISTANCE
    ensures Ample(Blocks(stream, avail, hist)) ==> !BlocksStarve(stream, avail, hist)
    decreases avail
  {
    hide Low, Block, BlockStarves, Blocks, BlocksStarve;
    BlocksStep(stream, avail, hist);
    BlocksStarveStep(stream, avail, hist);
    BlockFed(stream, avail, hist);
    var r := Block(stream, avail, hist);
    if r.Done? && Low(stream, 1) != 1 { AmpleFeeds(r.stream, r.avail, r.hist); }
  }

  // The fixed codes

  /** Codes of 7 bits own the points below 96, codes of 8 bits those below 400. */
  lemma FixedStarts(c: seq<nat>)
    requires |c| == MAX_LEN + 1 && c[7] == 24 && c[8] == 152 && forall k :: 1 <= k < 7 ==> c[k] == 0
    ensures Start(c, 9, 7) == 0 && Start(c, 9, 8) == 96 && Start(c, 9, 9) == 400
  {
    StartOfNone(c, 9, 7);
    assert Shl(24, 2) == 96 && Shl(152, 1) == 304;
  }

  /** Behind seven bits all codes of 8 bits are among themselves, so no table is too long. */
  lemma FixedLook(c: seq<nat>, x: nat)
    requires Full(c, 9) && x < Pow2(9) && |c| == MAX_LEN + 1 && c[7] == 24 && c[8] == 152 && forall k :: 1 <= k < 7 ==> c[k] == 0
    ensures Lookahead(c, 9, 7, 0, x) == LenAt(c, 9, x)
  {
    hide Full, Start, Pow2;
    FixedStarts(c);
    var k := LenAt(c, 9, x);
    if k < 7 { ShortStart(c, k); }
    if k >= 8 {
      var last := LastAlike(9, 7, x);
      LastOfFour(x);
      if k == 8 { LenUnique(c, 9, last, 8); } else { LenMono(c, 9, x, last); }
    } else {
      LookaheadBound(c, 9, 7, 0, x);
      assert Lookahead(c, 9, 7, 0, x) <= 7;
    }
  }

  lemma ShortStart(c: seq<nat>, k: nat)
    requires |c| == MAX_LEN + 1 && 1 <= k < 7 && forall i :: 1 <= i < 7 ==> c[i] == 0
    ensures Start(c, 9, k + 1) == 0
  {
    StartOfNone(c, 9, k + 1);
  }

  lemma LastOfFour(x: nat)
    requires x < Pow2(9)
    ensures LastAlike(9, 7, x) == x / 4 * 4 + 3
  {
    assert Pow2(2) == 4;
    hide Pow2;
    ShiftIsDivision(x, 2);
    ShiftIsDivision(x / 4, 2);
  }

  /** The tables of the fixed codes look at no more than the code. */
  lemma FixedTight()
    ensures Coded(FixedLiterals()) && Coded(FixedDistances())
    ensures Within(FixedLiterals(), 7, 0) && Within(FixedDistances(), 5, 0)
  {
    hide KraftSum, FixedLiterals, FixedDistances, Matches, LookBits, FilledCounts, Lookahead, Pow2, LenAt, MaxLen, MinLen;
    FixedCodesUsable();
    var ll, dd := FixedLiterals(), FixedDistances();
    forall stream: nat, sym: nat | Matches(ll, sym, stream) ensures sym < |ll| && LookBits(ll, 7, stream) <= ll[sym] {
      LiteralTight(stream, sym);
    }
    forall stream: nat, sym: nat | Matches(dd, sym, stream) ensures sym < |dd| && LookBits(dd, 5, stream) <= dd[sym] {
      LookBitsBound(dd, 5, stream, sym);
      DistanceLength(sym);
    }
  }

  lemma DistanceLength(sym: nat)
    requires sym < |FixedDistances()|
    ensures FixedDistances()[sym] == 5
  {}

  lemma LiteralTight(stream: nat, sym: nat)
    requires Coded(FixedLiterals()) && Matches(FixedLiterals(), sym, stream)
    requires MaxLen(FixedLiterals()) == 9 && TableWidth(FixedLiterals(), 7) == 7
    ensures sym < |FixedLiterals()| && LookBits(FixedLiterals(), 7, stream) == FixedLiterals()[sym]
  {
    hide KraftSum, FixedLiterals, Matches, FilledCounts, Lookahead, Pow2, LenAt, MaxLen, MinLen, Count, TableWidth, Full;
    var ll := FixedLiterals();
    MatchLength(ll, sym, stream);
    MatchIsRank(ll, sym, stream);
    FilledIsFull(ll);
    forall k | 1 <= k < 9 ensures FilledCounts(ll)[k] == if k == 7 then 24 else if k == 8 then 152 else 0 { FixedCounts(k); }
    FixedLook(FilledCounts(ll), Rev(9, stream));
  }

  /** A block in the fixed codes never starves. */
  lemma FixedFed(stream: nat, avail: nat, hist: seq<Byte>)
    requires |hist| >= MAX_DISTANCE
    ensures Coded(FixedLiterals()) && Coded(FixedDistances())
    ensures Codes(FixedLiterals(), FixedDistances(), stream, avail, hist).Done? ==>
              !Starves(FixedLiterals(), 7, FixedDistances(), 5, stream, avail)
  {
    hide Codes, Starves, Within, Coded, FixedLiterals, FixedDistances;
    FixedTight();
    Fed(FixedLiterals(), 7, FixedDistances(), 5, 0, stream, avail, hist);
  }

  // A block that starves

  /** The end of block has a code of one bit, two literals have codes of two. */
  function ShortLengths(): (ll: seq<nat>)
    ensures LiteralCode(ll)
  {
    seq(257, i => if i == 256 then 1 else if i < 2 then 2 else 0)
  }

  lemma ShortCounts(k: nat)
    ensures Count(ShortLengths(), k) == if k == 0 then 254 else if k == 1 then 1 else if k == 2 then 2 else 0
  {
    hide Count;
    var r1, r2, r3 := seq(2, _ => 2), seq(254, _ => 0), seq(1, _ => 1);
    CountNone(k);
    CountRun([], 2, 2, k);
    CountRun([] + r1, 254, 0, k);
    CountRun([] + r1 + r2, 1, 1, k);
    assert ShortLengths() == [] + r1 + r2 + r3;
  }

  lemma ShortIsCoded()
    ensures var ll := ShortLengths(); Coded(ll) && MaxLen(ll) == 2 && TableWidth(ll, 9) == 2 && FilledCounts(ll)[1] == 1
  {
    hide KraftSum, Count, MinLen, MaxLen;
    var ll := ShortLengths();
    assert ll[0] == 2 && ll[256] == 1;
    assert MaxLen(ll) == 2;
    ShortCounts(1);
    ShortCounts(2);
    var c := Counts(ll, MAX_LEN);
    assert Start(c, 2, 2) == Shl(1, 1) == 2;
    assert Start(c, 2, 3) == 2 + Shl(2, 0) == 4 == Pow2(2);
    KraftCompare(ll, 2);
    FilledIsFull(ll);
  }

  /** On a stream of zeros the tables look at two bits. */
  lemma ShortLook()
    requires Coded(ShortLengths())
    ensures LookBits(ShortLengths(), 9, 0) == 2
  {
    hide KraftSum, MinLen, MaxLen, FilledCounts, Lookahead, ShortLengths;
    var ll := ShortLengths();
    ShortIsCoded();
    FilledIsFull(ll);
    RevZero(2);
    TwoBitLook(FilledCounts(ll));
  }

  lemma TwoBitLook(c: seq<nat>)
    requires Full(c, 2) && c[1] == 1 && 0 < Pow2(2)
    ensures Lookahead(c, 2, 2, 0, 0) == 2
  {
    assert Start(c, 2, 2) == Shl(1, 1) == 2 && Pow2(2) == 4;
    LenUnique(c, 2, 0, 1);
    LenUnique(c, 2, 3, 2);
    assert Shr(0, 2) == 0;
    ShlZero(2);
    assert LastAlike(2, 0, 0) == 3;
  }

  /** A zero bit is the end of the block. */
  lemma ShortDecodes()
    ensures LiteralAt(ShortLengths(), 0) == Symbol(END_OF_BLOCK, 256, 1)
  {
    hide LengthBase, LengthExtra, Count;
    var ll := ShortLengths();
    LiteralLists(ll);
    ShortCounts(1);
    assert Count(ll[..256], 1) == 0 by { LastCounts(ll); }
    assert Rev(1, 0) == 0;
    assert Matches(ll, 256, 0);
    RevZero(2);
    assert NextCode(Counts(ll, 2), 2) == 2;
    assert forall sym: nat :: Matches(ll, sym, 0) ==> sym == 256;
  }

  lemma LastCounts(ll: seq<nat>)
    requires |ll| == 257 && ll[256] == 1 && Count(ll, 1) == 1
    ensures Count(ll[..256], 1) == 0
  {}

  /** One bit, the code of the end of block, is all that is left: the reference decoder is
      done with it, and the decoder looks for a second one. */
  lemma EndsTooEarly(dd: seq<nat>, wd: nat, hist: seq<Byte>)
    requires DistanceCode(dd) && Coded(dd) && |hist| >= MAX_DISTANCE
    ensures var ll := ShortLengths();
            && Coded(ll) && TableWidth(ll, 9) == 2
            && Codes(ll, dd, 0, 1, hist).Done? && Starves(ll, 9, dd, wd, 0, 1)
  {
    hide ShortLengths, LookBits, LiteralAt, Starves, Match, CopyMatch, Shr, MaxLen, MinLen, KraftSum, Codes;
    var ll := ShortLengths();
    ShortIsCoded();
    ShortLook();
    ShortDecodes();
    CodesStep(ll, dd, 0, 1, hist, LiteralAt(ll, 0));
    StarvesStep(ll, 9, dd, wd, 0, 1, LiteralAt(ll, 0));
  }
}
