/** inflate: the decoder with its bit buffer, sliding window and lookup tables. */
module Inflate {
  import opened Bits
  import opened HuffmanCode
  import opened HuffmanLengths
  import opened HuftTables
  import opened HuftBuild
  import opened HuftCorrect
  import opened HuftUses
  import opened Deflate
  import opened DeflateTables
  import opened DeflateSteps
  import opened InflateLookahead
  import opened InflateState

  /** The tables decode lengths ll as the reference decoder does. */
  lemma WalkIsDecode(b: seq<nat>, simple: nat, base: seq<nat>, extra: seq<nat>, tables: Tables, l: nat, stream: nat)
    requires ListsOk(b, simple, base, extra) && |tables| > 0
    requires DecodesCanonically(b, simple, base, extra, tables, l)
    ensures Walk(tables, 0, l, stream) == Decode(b, simple, base, extra, stream)
    ensures !Walk(tables, 0, l, stream).Undefined?
  {
    hide Walk, Pow2, Low, Shr;
    assert Decoding(b, simple, base, extra, stream, Walk(tables, 0, l, stream));
  }

  class Inflater {
    const input: seq<Byte>
    const wbits: nat             // the window has 2^wbits bytes
    const slide: array<Byte>     // the window
    ghost const before: seq<Byte> // what the window held at the start
    var inptr: nat
    var bb: nat                  // bit buffer
    var bk: nat                  // bits in bit buffer
    var wp: nat                  // position in the window
    var flushed: seq<Byte>

    ghost predicate Valid()
      reads this, slide
    {
      && inptr <= |input| && bb < Pow2(bk)
      && 15 <= wbits <= 31 && slide.Length == |before| == Pow2(wbits) >= MAX_DISTANCE
      && wp < slide.Length && WindowOk(before + flushed, slide[..], wp)
    }

    /** Starts on the given input, with whatever the window memory happens to hold. */
    constructor (data: seq<Byte>, window: array<Byte>, bits: nat)
      requires 15 <= bits <= 31 && window.Length == Pow2(bits)
      ensures Valid() && input == data && slide == window && before == window[..]
      ensures bb == 0 && bk == 0 && wp == 0 && inptr == 0 && flushed == []
    {
      input, wbits, slide, before := data, bits, window, window[..];
      inptr, bb, bk, wp, flushed := 0, 0, 0, 0, [];
      new;
      WindowIsLarge(bits);
      assert before + flushed == before;
      assert before[|before| - |slide[..]|..] == slide[0..];
    }

    /** The remaining input as the reference decoder sees it. */
    ghost function Rest(): (r: nat)
      requires inptr <= |input|
      reads this
    {
      Stream(input, inptr, bb, bk)
    }

    ghost function Left(): (r: nat)
      requires inptr <= |input|
      reads this
    {
      Avail(input, inptr, bk)
    }

    /** All bytes a back reference may reach: the initial window, then the output. */
    ghost function Hist(w: nat): (r: seq<Byte>)
      requires w <= slide.Length
      reads this, slide
    {
      before + flushed + slide[..w]
    }

    /** NEEDBITS: fetch bytes until n bits are buffered. */
    method NeedBits(n: nat, b0: nat, k0: nat) returns (ok: bool, b: nat, k: nat)
      requires inptr <= |input| && b0 < Pow2(k0)
      modifies this`inptr
      ensures inptr <= |input| && b < Pow2(k)
      ensures Stream(input, inptr, b, k) == old(Stream(input, inptr, b0, k0))
      ensures Avail(input, inptr, k) == old(Avail(input, inptr, k0))
      ensures ok <==> n <= old(Avail(input, inptr, k0))
      ensures ok ==> n <= k && (k == k0 || k < n + 8)
    {
      hide *;
      b, k := b0, k0;
      AvailIs(input, inptr, k);
      while k < n
        invariant inptr <= |input| && b < Pow2(k) && (k == k0 || k < n + 8)
        invariant Stream(input, inptr, b, k) == old(Stream(input, inptr, b0, k0))
        invariant Avail(input, inptr, k) == old(Avail(input, inptr, k0))
        decreases |input| - inptr
      {
        AvailIs(input, inptr, k);
        if inptr == |input| {
          return false, b, k;
        }
        FetchByte(input, inptr, b, k);
        b := b + Shl(input[inptr], k);
        inptr := inptr + 1;
        k := k + 8;
        AvailIs(input, inptr, k);
      }
      AvailIs(input, inptr, k);
      ok := true;
    }

    /** Looks up the next code in the linked tables; the walk of inflate_codes. */
    method NextCode(tables: Tables, nb: nat, b0: nat, k0: nat)
      returns (status: nat, e: nat, n: nat, b: nat, k: nat, ghost used: nat)
      requires inptr <= |input| && b0 < Pow2(k0) && |tables| > 0 && nb <= 16
      requires !Walk(tables, 0, nb, Stream(input, inptr, b0, k0)).Undefined?
      modifies this`inptr
      ensures inptr <= |input| && b < Pow2(k)
      ensures status == 0 || status == 1 || status == 4
      ensures status == 0 ==>
                && old(Walk(tables, 0, nb, Stream(input, inptr, b0, k0))) == Symbol(e, n, used)
                && Stream(input, inptr, b, k) == Shr(old(Stream(input, inptr, b0, k0)), used)
                && Avail(input, inptr, k) + used == old(Avail(input, inptr, k0))
      ensures status == 1 ==> old(Walk(tables, 0, nb, Stream(input, inptr, b0, k0))) == Invalid
      ensures status == 4 <==> old(Avail(input, inptr, k0)) < old(Looks(tables, 0, nb, Stream(input, inptr, b0, k0)))
    {
      hide Pow2, Low, Shr, Shl, Stream, Avail, Walk, Looks;
      ghost var s0, a0 := Stream(input, inptr, b0, k0), Avail(input, inptr, k0);
      e, n, used := 0, 0, 0;
      var t: nat, bits: nat := 0, nb;
      var ok;
      ok, b, k := NeedBits(bits, b0, k0);
      ShrNone(s0);
      if !ok { return 4, e, n, b, k, 0; }
      PeekBits(input, inptr, b, k, bits);
      WalkTurn(tables, t, bits, s0);
      var ent := tables[t][Low(b, bits)];
      e := ent.e;
      while e > 16
        invariant inptr <= |input| && b < Pow2(k) && bits <= k && bits <= Avail(input, inptr, k) && t < |tables|
        invariant Stream(input, inptr, b, k) == Shr(s0, used)
        invariant Avail(input, inptr, k) + used == a0
        invariant Walk(tables, 0, nb, s0) == Walk(tables, t, bits, Shr(s0, used)).Shift(used)
        invariant !Walk(tables, t, bits, Shr(s0, used)).Undefined?
        invariant a0 < Looks(tables, 0, nb, s0) <==> Avail(input, inptr, k) < Looks(tables, t, bits, Shr(s0, used))
        invariant Low(b, bits) == Low(Shr(s0, used), bits) < |tables[t]| && ent == tables[t][Low(b, bits)] && ent.Huft? && e == ent.e
        decreases |tables| - t
      {
        WalkTurn(tables, t, bits, Shr(s0, used));
        if e == UNUSED { return 1, e, n, b, k, used; }
        PeekBits(input, inptr, b, k, ent.b);
        DumpAvail(input, inptr, k, ent.b);
        ShrShr(s0, used, ent.b);
        b := Shr(b, ent.b);
        k := k - ent.b;
        used := used + ent.b;
        e := e - 16;
        t, bits := ent.v.t, e;
        ok, b, k := NeedBits(bits, b, k);
        if !ok { return 4, e, n, b, k, used; }
        PeekBits(input, inptr, b, k, bits);
        WalkTurn(tables, t, bits, Shr(s0, used));
        ent := tables[t][Low(b, bits)];
        e := ent.e;
      }
      WalkTurn(tables, t, bits, Shr(s0, used));
      PeekBits(input, inptr, b, k, ent.b);
      DumpAvail(input, inptr, k, ent.b);
      ShrShr(s0, used, ent.b);
      b := Shr(b, ent.b);
      k := k - ent.b;
      used := used + ent.b;
      n := ent.v.n;
      status := 0;
    }

    /** Flushes a full window. */
    method FlushFull(w0: nat) returns (w: nat)
      requires w0 <= slide.Length == |before| && WindowOk(before + flushed, slide[..], w0) && slide.Length > 0
      modifies this`flushed
      ensures w == if w0 == slide.Length then 0 else w0
      ensures WindowOk(before + flushed, slide[..], w) && Hist(w) == old(Hist(w0))
    {
      w := w0;
      if w == slide.Length {
        WindowFlush(before + flushed, slide[..]);
        assert before + (flushed + slide[..]) == before + flushed + slide[..];
        flushed := flushed + slide[..w];
        assert slide[..w] == slide[..];
        w := 0;
      }
    }

    /** Outputs one byte. */
    method PutByte(x: Byte, w0: nat) returns (w: nat)
      requires w0 < slide.Length == |before| && WindowOk(before + flushed, slide[..], w0)
      modifies this`flushed, slide
      ensures w < slide.Length && WindowOk(before + flushed, slide[..], w)
      ensures Hist(w) == old(Hist(w0)) + [x]
    {
      WindowPut(before + flushed, slide[..], w0, x);
      slide[w0] := x;
      assert slide[..] == old(slide[..])[w0 := x];
      w := FlushFull(w0 + 1);
    }

    /** memcpy as the decompressor defines it: ascending, byte by byte. */
    method Memcpy(dest: nat, src: nat, n: nat)
      requires dest + n <= slide.Length && src + n <= slide.Length
      modifies slide
      ensures slide[..] == CopyUp(old(slide[..]), dest, src, n)
    {
      for i := 0 to n
        invariant slide[..] == CopyUp(old(slide[..]), dest, src, i)
      {
        CopyUpStep(old(slide[..]), dest, src, i);
        slide[dest + i] := slide[src + i];
      }
    }

    /** The loop used when source and destination overlap. */
    method CopySlowly(w0: nat, d0: nat, e0: nat)
      requires w0 + e0 <= slide.Length && d0 + e0 <= slide.Length && e0 > 0
      modifies slide
      ensures slide[..] == CopyUp(old(slide[..]), w0, d0, e0)
    {
      var w, d, e := w0, d0, e0;
      while e > 0
        invariant 0 <= e <= e0 && w == w0 + (e0 - e) && d == d0 + (e0 - e)
        invariant slide[..] == CopyUp(old(slide[..]), w0, d0, e0 - e)
      {
        CopyUpStep(old(slide[..]), w0, d0, e0 - e);
        slide[w] := slide[d];
        w, d, e := w + 1, d + 1, e - 1;
      }
    }

    /** One chunk of a copy, up to the end of the window. */
    method CopyChunk(w0: nat, d: nat, e: nat, ghost dist: nat) returns (w: nat)
      requires slide.Length == |before| < 0x1_0000_0000 && e > 0
      requires w0 + e <= slide.Length && d + e <= slide.Length && WindowOk(before + flushed, slide[..], w0)
      requires 1 <= dist <= slide.Length && Lags(slide.Length, w0, d, dist)
      modifies this`flushed, slide
      ensures w == if w0 + e == slide.Length then 0 else w0 + e
      ensures WindowOk(before + flushed, slide[..], w)
      ensures dist <= |old(Hist(w0))| && Hist(w) == CopyMatch(old(Hist(w0)), dist, e)
    {
      hide CopyMatch, CopyUp, WindowOk;
      CopyUpIsMatch(before + flushed, slide[..], w0, d, e, dist);
      if Sub32(w0, d) >= e {
        Memcpy(w0, d, e);
      } else {
        CopySlowly(w0, d, e);
      }
      w := FlushFull(w0 + e);
    }

    /** The chunked copy of n bytes from `dist` bytes back. */
    method CopyString(n0: nat, dist: nat, w0: nat) returns (w: nat)
      requires 15 <= wbits <= 31 && slide.Length == |before| == Pow2(wbits) >= MAX_DISTANCE
      requires w0 < slide.Length && WindowOk(before + flushed, slide[..], w0)
      requires 1 <= n0 && 1 <= dist <= MAX_DISTANCE
      modifies this`flushed, slide
      ensures w < slide.Length && WindowOk(before + flushed, slide[..], w)
      ensures Hist(w) == CopyMatch(old(Hist(w0)), dist, n0)
    {
      hide Pow2, Low, WindowOk, CopyMatch, CopyUp, Lags;
      FirstSource(w0, dist, wbits);
      WindowWords(wbits);
      ghost var hist := Hist(w0);
      CopyMatchNone(hist, dist);
      var n := n0;
      w := w0;
      var d: nat := Sub32(w, dist);
      while n > 0
        invariant w < slide.Length && WindowOk(before + flushed, slide[..], w) && 0 <= n <= n0
        invariant Hist(w) == CopyMatch(hist, dist, n0 - n)
        invariant Lags(slide.Length, w, Low(d, wbits), dist)
      {
        d := Low(d, wbits);
        LagsBound(slide.Length, w, d, dist);
        var e := slide.Length - if d > w then d else w;
        if e > n { e := n; }
        CopyMatchSplit(hist, dist, n0 - n, e);
        NextSource(w, d, e, dist, wbits);
        n := n - e;
        w := CopyChunk(w, d, e, dist);
        d := d + e;
      }
    }

    /** Length and distance of a back reference after the length code (e0, n0). */
    method ReadMatch(td: Tables, bd: nat, e0: nat, n0: nat, b0: nat, k0: nat,
                     ghost dd: seq<nat>, ghost wd: nat, ghost t: Decoded, ghost s0: nat, ghost a0: nat)
      returns (status: nat, len: nat, dist: nat, b: nat, k: nat, ghost used: nat)
      requires inptr <= |input| && b0 < Pow2(k0) && |td| > 0 && bd <= 16 && DistanceCode(dd)
      requires ListsOk(dd, 0, DistanceBase(), DistanceExtra())
      requires DecodesCanonically(dd, 0, DistanceBase(), DistanceExtra(), td, bd) && Coded(dd) && LooksAs(dd, wd, td, bd)
      requires t.Symbol? && t == Symbol(e0, n0, t.used) && 1 <= n0 && e0 <= 5
      requires Stream(input, inptr, b0, k0) == Shr(s0, t.used) && Avail(input, inptr, k0) + t.used == a0
      modifies this`inptr
      ensures inptr <= |input| && b < Pow2(k) && (status == 0 || status == 1 || status == 4)
      ensures status == 0 ==>
                && Match(t, dd, s0, a0) == Copy(len, dist, used)
                && Stream(input, inptr, b, k) == Shr(s0, used) && Avail(input, inptr, k) + used == a0
      ensures status == 1 ==> Match(t, dd, s0, a0) == NoDistance
      ensures status == 4 <==> Match(t, dd, s0, a0) == NoBits || MatchStarves(dd, wd, t, s0, a0)
    {
      hide Pow2, Low, Shr, Shl, Stream, Avail, DecodesCanonically, Walk, ListsOk, DistanceBase, DistanceExtra, DistanceCode, Looks, LookBits, Coded;
      len, dist, used := 0, 0, t.used;
      var ok, st, e, n;
      ok, b, k := NeedBits(e0, b0, k0);
      if !ok { return 4, len, dist, b, k, used; }
      PeekBits(input, inptr, b, k, e0);
      DumpAvail(input, inptr, k, e0);
      ShrShr(s0, used, e0);
      len := n0 + Low(b, e0);
      b, k, used := Shr(b, e0), k - e0, used + e0;
      ghost var s1, u1 := Shr(s0, used), used;
      WalkIsDecode(dd, 0, DistanceBase(), DistanceExtra(), td, bd, s1);
      DistanceFacts(dd, s1);
      ghost var u2;
      st, e, n, b, k, u2 := NextCode(td, bd, b, k);
      if st != 0 { return st, len, dist, b, k, used; }
      ShrShr(s0, used, u2);
      used := used + u2;
      ok, b, k := NeedBits(e, b, k);
      if !ok { return 4, len, dist, b, k, used; }
      PeekBits(input, inptr, b, k, e);
      DumpAvail(input, inptr, k, e);
      ShrShr(s0, used, e);
      dist := n + Low(b, e);
      b, k, used := Shr(b, e), k - e, used + e;
      status := 0;
    }

    /** inflate_codes: the compressed data of a block, through the lookup tables. */
    method InflateCodes(tl: Tables, td: Tables, bl: nat, bd: nat, ghost ll: seq<nat>, ghost dd: seq<nat>, ghost wl: nat, ghost wd: nat)
      returns (ret: nat)
      requires Valid() && LiteralCode(ll) && DistanceCode(dd)
      requires |tl| > 0 && |td| > 0 && bl <= 16 && bd <= 16
      requires ListsOk(ll, LITERALS, LengthBase(), LengthExtra()) && ListsOk(dd, 0, DistanceBase(), DistanceExtra())
      requires DecodesCanonically(ll, LITERALS, LengthBase(), LengthExtra(), tl, bl)
      requires DecodesCanonically(dd, 0, DistanceBase(), DistanceExtra(), td, bd)
      requires Coded(ll) && Coded(dd) && LooksAs(ll, wl, tl, bl) && LooksAs(dd, wd, td, bd)
      modifies this, slide
      ensures ret == 0 ==> Valid() && old(Codes(ll, dd, Rest(), Left(), Hist(wp))) == Done(Rest(), Left(), Hist(wp))
      ensures ret == 0 <==> old(Codes(ll, dd, Rest(), Left(), Hist(wp)).Done? && !Starves(ll, wl, dd, wd, Rest(), Left()))
      ensures ret == 4 <==> old(Codes(ll, dd, Rest(), Left(), Hist(wp)) == Underrun || Starves(ll, wl, dd, wd, Rest(), Left()))
      ensures ret == 0 || ret == 1 || ret == 4
    {
      hide Starves, Looks, LookBits, Coded, LooksAs, Pow2, Low, Shr, Shl, Stream, Avail, DecodesCanonically, Walk, ListsOk, DistanceBase, DistanceExtra,
           LengthBase, LengthExtra, DistanceCode, LiteralCode, WindowOk, LiteralAt, Match, CopyMatch, Codes;
      ghost var goal := Codes(ll, dd, Rest(), Left(), Hist(wp));
      ghost var starves := Starves(ll, wl, dd, wd, Rest(), Left());
      var b: nat, k: nat, w: nat := bb, bk, wp;
      var st, e, n;
      ghost var used;
      while true
        invariant inptr <= |input| && b < Pow2(k) && w < slide.Length && WindowOk(before + flushed, slide[..], w)
        invariant goal == Codes(ll, dd, Stream(input, inptr, b, k), Avail(input, inptr, k), Hist(w))
        invariant starves == Starves(ll, wl, dd, wd, Stream(input, inptr, b, k), Avail(input, inptr, k))
        decreases Avail(input, inptr, k)
      {
        ghost var s0, a0, hist := Stream(input, inptr, b, k), Avail(input, inptr, k), Hist(w);
        WalkIsDecode(ll, LITERALS, LengthBase(), LengthExtra(), tl, bl, s0);
        LiteralIs(ll, s0);
        LiteralFacts(ll, s0);
        ghost var t := LiteralAt(ll, s0);
        CodesStep(ll, dd, s0, a0, hist, t);
        StarvesStep(ll, wl, dd, wd, s0, a0, t);
        LooksHere(ll, wl, tl, bl, s0);
        if t.Symbol? && t.used <= a0 && t.e < 15 { CodesMatch(ll, dd, s0, a0, hist, t, Match(t, dd, s0, a0)); }
        st, e, n, b, k, used := NextCode(tl, bl, b, k);
        if st != 0 { return st; }
        if e == 16 {
          w := PutByte(n, w);
        } else {
          if e == 15 { break; }
          var len, dist;
          st, len, dist, b, k, used := ReadMatch(td, bd, e, n, b, k, dd, wd, Symbol(e, n, used), s0, a0);
          if st != 0 { return st; }
          MatchFacts(Symbol(e, n, LiteralAt(ll, s0).used), dd, s0, a0);
          w := CopyString(len, dist, w);
        }
      }
      wp, bb, bk := w, b, k;
      ret := 0;
    }

    /** inflate_stored: a block of plain bytes. */
    method InflateStored() returns (ret: nat)
      requires Valid()
      modifies this, slide
      ensures ret == 0 ==> Valid() && old(Stored(Rest(), Left(), Hist(wp))) == Done(Rest(), Left(), Hist(wp))
      ensures ret == 4 <==> old(Stored(Rest(), Left(), Hist(wp))) == Underrun
      ensures ret == 1 <==> old(Stored(Rest(), Left(), Hist(wp))) == Bad
      ensures ret == 0 || ret == 1 || ret == 4
    {
      hide Pow2, Low, Shr, Shl, Stream, Avail, WindowOk, StoredBytes;
      ghost var s0, a0 := Rest(), Left();
      var b: nat, k: nat, w: nat := bb, bk, wp;
      var n: nat, ok := k % 8, true;
      ByteBoundary(input, inptr, k);
      PeekBits(input, inptr, b, k, n);
      DumpAvail(input, inptr, k, n);
      b, k := Shr(b, n), k - n;
      ghost var skip := n;
      ok, b, k := NeedBits(16, b, k);
      if !ok { return 4; }
      PeekBits(input, inptr, b, k, 16);
      DumpAvail(input, inptr, k, 16);
      ShrShr(s0, skip, 16);
      n := Low(b, 16);
      b, k := Shr(b, 16), k - 16;
      ok, b, k := NeedBits(16, b, k);
      if !ok { return 4; }
      PeekBits(input, inptr, b, k, 16);
      DumpAvail(input, inptr, k, 16);
      ShrShr(s0, skip + 16, 16);
      if n != 0xffff - Low(b, 16) { return 1; }
      b, k := Shr(b, 16), k - 16;
      ghost var goal := Stored(s0, a0, Hist(wp));
      while n > 0
        invariant inptr <= |input| && b < Pow2(k) && w < slide.Length && WindowOk(before + flushed, slide[..], w)
        invariant goal == StoredBytes(n, Stream(input, inptr, b, k), Avail(input, inptr, k), Hist(w))
      {
        StoredStep(n, Stream(input, inptr, b, k), Avail(input, inptr, k), Hist(w));
        ok, b, k := NeedBits(8, b, k);
        if !ok { return 4; }
        PeekBits(input, inptr, b, k, 8);
        DumpAvail(input, inptr, k, 8);
        EightBits();
        w := PutByte(Low(b, 8), w);
        b, k := Shr(b, 8), k - 8;
        n := n - 1;
      }
      StoredStep(0, Stream(input, inptr, b, k), Avail(input, inptr, k), Hist(w));
      wp, bb, bk := w, b, k;
      ret := 0;
    }

    /** inflate_fixed: a block with the fixed codes. */
    method InflateFixed() returns (ret: nat)
      requires Valid()
      modifies this, slide
      ensures ret == 0 ==>
                && Valid()
                && old(Codes(FixedLiterals(), FixedDistances(), Rest(), Left(), Hist(wp))) == Done(Rest(), Left(), Hist(wp))
      ensures ret == 0 <==> old(Codes(FixedLiterals(), FixedDistances(), Rest(), Left(), Hist(wp))).Done?
      ensures ret <= 1
    {
      hide Pow2, Low, Shr, Shl, Stream, Avail, WindowOk, Codes, DecodesCanonically, DirectLookup, ListsOk, FixedLiterals,
           FixedDistances, LengthBase, LengthExtra, DistanceBase, DistanceExtra, KraftSum, WideOpening, FilledCounts, LooksAs, Starves, Coded;
      FixedCodesUsable();
      var l := FixedLiterals();
      LiteralLists(l);
      var i, tl, bl := Build(l, LITERALS, LengthBase(), LengthExtra(), 7);
      if i != 0 { return i; }
      var d := FixedDistances();
      DistanceLists(d);
      var td, bd;
      i, td, bd := Build(d, 0, DistanceBase(), DistanceExtra(), 5);
      if i > 1 { return i; }
      FixedFed(Rest(), Left(), Hist(wp));
      i := InflateCodes(tl, td, bl, bd, l, d, 7, 5);
      ret := if i != 0 then 1 else 0;
    }

    /** Reads the lengths of the code length codes into ll, in their fixed order. */
    method ReadCodeLengths(nb: nat, ll: array<nat>, b0: nat, k0: nat) returns (ok: bool, b: nat, k: nat)
      requires inptr <= |input| && b0 < Pow2(k0) && nb <= 19 <= ll.Length
      modifies this`inptr, ll
      ensures inptr <= |input| && b < Pow2(k)
      ensures ok <==> 3 * nb <= old(Avail(input, inptr, k0))
      ensures ok ==>
                && ll[..19] == CodeLengths(old(Stream(input, inptr, b0, k0)), 0, nb, Repeat(0, 19))
                && Stream(input, inptr, b, k) == Shr(old(Stream(input, inptr, b0, k0)), 3 * nb)
                && Avail(input, inptr, k) + 3 * nb == old(Avail(input, inptr, k0))
    {
      hide Pow2, Low, Shr, Shl, Stream, Avail, CodeLengths, LengthOrder, Repeat;
      ghost var s0, a0 := Stream(input, inptr, b0, k0), Avail(input, inptr, k0);
      ghost var acc: seq<nat> := Repeat(0, 19);
      ghost var goal := CodeLengths(s0, 0, nb, acc);
      b, k := b0, k0;
      var j: nat := 0;
      ShrNone(s0);
      while j < nb
        invariant j <= nb && inptr <= |input| && b < Pow2(k) && |acc| == 19
        invariant Stream(input, inptr, b, k) == Shr(s0, 3 * j) && Avail(input, inptr, k) + 3 * j == a0
        invariant goal == CodeLengths(Shr(s0, 3 * j), j, nb, acc)
        invariant forall t :: 0 <= t < j ==> ll[LengthOrder()[t]] == acc[LengthOrder()[t]]
        invariant forall t :: j <= t < 19 ==> acc[LengthOrder()[t]] == 0
      {
        ok, b, k := NeedBits(3, b, k);
        if !ok { return false, b, k; }
        PeekBits(input, inptr, b, k, 3);
        DumpAvail(input, inptr, k, 3);
        ShrShr(s0, 3 * j, 3);
        CodeLengthsStep(Shr(s0, 3 * j), j, nb, acc);
        OrderDistinct(j);
        ll[LengthOrder()[j]] := Low(b, 3);
        acc := acc[LengthOrder()[j] := Low(b, 3)];
        b, k := Shr(b, 3), k - 3;
        j := j + 1;
      }
      CodeLengthsStep(Shr(s0, 3 * j), j, nb, acc);
      while j < 19
        modifies ll
        invariant nb <= j <= 19
        invariant forall t :: 0 <= t < j ==> ll[LengthOrder()[t]] == acc[LengthOrder()[t]]
      {
        OrderDistinct(j);
        ll[LengthOrder()[j]] := 0;
        j := j + 1;
      }
      forall i | 0 <= i < 19 ensures ll[i] == acc[i] { assert LengthOrder()[OrderOf(i)] == i; }
      ok := true;
    }

    /** The same code length, count times. */
    method FillLengths(ll: array<nat>, start: nat, count: nat, l: nat)
      requires start + count <= ll.Length
      modifies ll
      ensures ll[..start + count] == old(ll[..start]) + Repeat(l, count)
    {
      var i: nat, left := start, count;
      while left > 0
        invariant start <= i && i + left == start + count
        invariant ll[..start] == old(ll[..start]) && forall s :: start <= s < i ==> ll[s] == l
      {
        ll[i] := l;
        i, left := i + 1, left - 1;
      }
    }

    /** The code length symbols 16, 17 and 18: a length several times. */
    method RepeatLengths(j: nat, n: nat, ll: array<nat>, i0: nat, l0: nat, b0: nat, k0: nat)
      returns (status: nat, i: nat, l: nat, b: nat, k: nat)
      requires inptr <= |input| && b0 < Pow2(k0) && i0 < n <= ll.Length && 16 <= j < 19
      requires (forall s :: 0 <= s < i0 ==> ll[s] < 16) && l0 == RepeatedLength(16, ll[..i0])
      modifies this`inptr, ll
      ensures inptr <= |input| && b < Pow2(k) && (status == 0 || status == 1 || status == 4)
      ensures status == 4 <==> old(Avail(input, inptr, k0)) < RepeatBits(j)
      ensures status != 4 ==>
                var count := RepeatBase(j) + Low(old(Stream(input, inptr, b0, k0)), RepeatBits(j));
                && (status == 1 <==> i0 + count > n)
                && (status == 0 ==>
                      && i == i0 + count && ll[..i] == old(ll[..i0]) + Repeat(RepeatedLength(j, old(ll[..i0])), count)
                      && (forall s :: 0 <= s < i ==> ll[s] < 16) && l == RepeatedLength(16, ll[..i])
                      && Stream(input, inptr, b, k) == Shr(old(Stream(input, inptr, b0, k0)), RepeatBits(j))
                      && Avail(input, inptr, k) + RepeatBits(j) == old(Avail(input, inptr, k0)))
    {
      hide Pow2, Low, Shr, Shl, Stream, Avail;
      i, l := i0, l0;
      var ok;
      ok, b, k := NeedBits(RepeatBits(j), b0, k0);
      if !ok { return 4, i, l, b, k; }
      PeekBits(input, inptr, b, k, RepeatBits(j));
      DumpAvail(input, inptr, k, RepeatBits(j));
      var count := RepeatBase(j) + Low(b, RepeatBits(j));
      b, k := Shr(b, RepeatBits(j)), k - RepeatBits(j);
      if i + count > n { return 1, i, l, b, k; }
      if j != 16 { l := 0; }
      FillLengths(ll, i, count, l);
      ghost var all := ll[..i + count];
      RepeatSmall(j, old(ll[..i0]), count);
      assert forall s :: 0 <= s < i + count ==> ll[s] == all[s];
      i := i + count;
      status := 0;
    }

    /** Reads n code lengths into ll through the single table of the code length code. */
    method ReadLengthList(tl: Tables, bl: nat, n: nat, ll: array<nat>, b0: nat, k0: nat, ghost cl: seq<nat>)
      returns (status: nat, b: nat, k: nat)
      requires inptr <= |input| && b0 < Pow2(k0) && n <= ll.Length && bl <= LOOKAHEAD
      requires LengthsOk(cl) && |cl| == 19 && Usable(cl) && ListsOk(cl, 19, [], [])
      requires DirectLookup(cl, 19, [], [], tl, bl) && bl == MaxLen(cl)
      modifies this`inptr, ll
      ensures inptr <= |input| && b < Pow2(k) && (status == 0 || status == 1 || status == 4)
      ensures status == 0 ==>
                old(ReadLengths(cl, n, Stream(input, inptr, b0, k0), Avail(input, inptr, k0), []))
                == Lengths(ll[..n], Stream(input, inptr, b, k), Avail(input, inptr, k))
      ensures status == 1 ==> old(ReadLengths(cl, n, Stream(input, inptr, b0, k0), Avail(input, inptr, k0), [])).BadLengths?
      ensures status == 0 <==>
                && old(ReadLengths(cl, n, Stream(input, inptr, b0, k0), Avail(input, inptr, k0), [])).Lengths?
                && !old(LengthsStarve(cl, n, Stream(input, inptr, b0, k0), Avail(input, inptr, k0), []))
      ensures status == 4 <==>
                || old(ReadLengths(cl, n, Stream(input, inptr, b0, k0), Avail(input, inptr, k0), [])).NoLengths?
                || old(LengthsStarve(cl, n, Stream(input, inptr, b0, k0), Avail(input, inptr, k0), []))
    {
      hide LengthsStarve, Pow2, Low, Shr, Shl, Stream, Avail, ReadLengths, DirectLookup, Usable, LengthsOk, ListsOk, MaxLen, Repeat,
           LengthSymbolAt, RepeatBits, RepeatBase, RepeatedLength;
      ghost var goal := ReadLengths(cl, n, Stream(input, inptr, b0, k0), Avail(input, inptr, k0), []);
      ghost var starves := LengthsStarve(cl, n, Stream(input, inptr, b0, k0), Avail(input, inptr, k0), []);
      b, k := b0, k0;
      var i: nat, l: nat := 0, 0;
      assert ll[..0] == [];
      NoneRepeated();
      while i < n
        invariant i <= n && inptr <= |input| && b < Pow2(k)
        invariant forall s :: 0 <= s < i ==> ll[s] < 16
        invariant l == RepeatedLength(16, ll[..i])
        invariant goal == ReadLengths(cl, n, Stream(input, inptr, b, k), Avail(input, inptr, k), ll[..i])
        invariant starves == LengthsStarve(cl, n, Stream(input, inptr, b, k), Avail(input, inptr, k), ll[..i])
        decreases Avail(input, inptr, k)
      {
        ghost var s0, a0 := Stream(input, inptr, b, k), Avail(input, inptr, k);
        ghost var acc := ll[..i];
        ReadLengthsStep(cl, n, s0, a0, acc);
        LengthsStarveStep(cl, n, s0, a0, acc);
        var ok;
        ok, b, k := NeedBits(bl, b, k);
        if !ok { return 4, b, k; }
        PeekBits(input, inptr, b, k, bl);
        LengthLookup(cl, tl, bl, s0);
        var td := tl[0][Low(b, bl)];
        var used := td.b;
        PeekBits(input, inptr, b, k, used);
        DumpAvail(input, inptr, k, used);
        b, k := Shr(b, used), k - used;
        var j := td.v.n;
        if j < 16 {
          ll[i] := j;
          i, l := i + 1, j;
          assert ll[..i] == acc + [j];
          LastRepeated(acc, j);
        } else {
          ghost var used' := used;
          status, i, l, b, k := RepeatLengths(j, n, ll, i, l, b, k);
          if status != 0 { return; }
          ShrShr(s0, used', RepeatBits(j));
        }
      }
      ReadLengthsStep(cl, n, Stream(input, inptr, b, k), Avail(input, inptr, k), ll[..i]);
      LengthsStarveStep(cl, n, Stream(input, inptr, b, k), Avail(input, inptr, k), ll[..i]);
      status := 0;
    }

    /** inflate_dynamic: a block that brings its own codes. */
    method InflateDynamic() returns (ret: nat)
      requires Valid()
      modifies this, slide
      ensures ret == 0 ==> Valid() && old(Dynamic(Rest(), Left(), Hist(wp))) == Done(Rest(), Left(), Hist(wp))
      ensures ret == 0 <==> old(Dynamic(Rest(), Left(), Hist(wp)).Done? && !DynamicStarves(Rest(), Left()))
      ensures ret == 4 <==> old(DynamicShort(Rest(), Left()))
      ensures ret == 2 <==> old(DynamicOver(Rest(), Left()))
      ensures ret <= 2 || ret == 4
    {
      hide Pow2, Low, Shr, Shl, Stream, Avail, WindowOk, Codes, DynamicBody, CodeLengths, DynamicStarves, LengthBodyStarves, DynamicShort, LengthBodyShort, DynamicOver, LengthBodyOver;
      var ll := new nat[286 + 30](_ => 0);
      ghost var s0, a0, hist := Rest(), Left(), Hist(wp);
      DynamicStep(s0, a0, hist);
      DynamicStarvesStep(s0, a0);
      DynamicShortStep(s0, a0);
      DynamicOverStep(s0, a0);
      var b: nat, k: nat, ok := bb, bk, true;
      ok, b, k := NeedBits(5, b, k);
      if !ok { return 4; }
      PeekBits(input, inptr, b, k, 5);
      DumpAvail(input, inptr, k, 5);
      var nl := LITERALS + Low(b, 5);
      b, k := Shr(b, 5), k - 5;
      ok, b, k := NeedBits(5, b, k);
      if !ok { return 4; }
      PeekBits(input, inptr, b, k, 5);
      DumpAvail(input, inptr, k, 5);
      ShrShr(s0, 5, 5);
      var nd := 1 + Low(b, 5);
      b, k := Shr(b, 5), k - 5;
      ok, b, k := NeedBits(4, b, k);
      if !ok { return 4; }
      PeekBits(input, inptr, b, k, 4);
      DumpAvail(input, inptr, k, 4);
      ShrShr(s0, 10, 4);
      var nb := 4 + Low(b, 4);
      b, k := Shr(b, 4), k - 4;
      if nl > 286 || nd > 30 { return 1; }
      ok, b, k := ReadCodeLengths(nb, ll, b, k);
      if !ok { return 4; }
      ShrShr(s0, 14, 3 * nb);
      ret := DynamicCodes(ll, nl, nd, b, k, ll[..19]);
    }

    /** The second half of inflate_dynamic: build the code length table, read the lengths,
        build the two tables and decode. */
    method DynamicCodes(ll: array<nat>, nl: nat, nd: nat, b0: nat, k0: nat, cl: seq<nat>) returns (ret: nat)
      requires Valid() && b0 < Pow2(k0) && ll.Length == 316 && |cl| == 19 && forall s :: 0 <= s < 19 ==> cl[s] < 8
      requires LITERALS <= nl <= 286 && 1 <= nd <= 30
      modifies this, slide, ll
      ensures ret == 0 ==>
                && Valid()
                && old(DynamicBody(cl, nl, nd, Stream(input, inptr, b0, k0), Avail(input, inptr, k0), Hist(wp)))
                   == Done(Rest(), Left(), Hist(wp))
      ensures ret == 0 <==>
                && old(DynamicBody(cl, nl, nd, Stream(input, inptr, b0, k0), Avail(input, inptr, k0), Hist(wp))).Done?
                && !old(LengthBodyStarves(cl, nl, nd, Stream(input, inptr, b0, k0), Avail(input, inptr, k0)))
      ensures ret == 4 <==> old(LengthBodyShort(cl, nl, nd, Stream(input, inptr, b0, k0), Avail(input, inptr, k0)))
      ensures ret == 2 <==> old(LengthBodyOver(cl, nl, nd, Stream(input, inptr, b0, k0), Avail(input, inptr, k0)))
      ensures ret <= 2 || ret == 4
    {
      hide Pow2, Low, Shr, Shl, Stream, Avail, WindowOk, Codes, DecodesCanonically, DirectLookup, ListsOk, LengthBase,
           LengthExtra, DistanceBase, DistanceExtra, KraftSum, WideOpening, FilledCounts, ReadLengths, MaxLen, MinLen, BodyCodes, BodyStarves,
           LengthsStarve, LooksAs, Coded;
      ghost var goal := DynamicBody(cl, nl, nd, Stream(input, inptr, b0, k0), Avail(input, inptr, k0), Hist(wp));
      LengthCodeLists(cl);
      var i, tl, bl := Build(cl, 19, [], [], 7);
      if i != 0 { return i; }
      var status, b, k := ReadLengthList(tl, bl, nl + nd, ll, b0, k0, cl);
      if status != 0 { return status; }
      bb, bk := b, k;
      ret := BodyData(ll[..nl + nd], nl);
    }

    /** The two tables of a dynamic block, and the data behind them. */
    method BodyData(lens: seq<nat>, nl: nat) returns (ret: nat)
      requires Valid() && LITERALS <= nl <= 286 && 1 <= |lens| - nl <= 30 && forall s :: 0 <= s < |lens| ==> lens[s] < 16
      modifies this, slide
      ensures ret == 0 ==> Valid() && old(BodyCodes(lens, nl, Rest(), Left(), Hist(wp))) == Done(Rest(), Left(), Hist(wp))
      ensures ret == 0 <==> old(BodyCodes(lens, nl, Rest(), Left(), Hist(wp)).Done? && !BodyStarves(lens, nl, Rest(), Left()))
      ensures ret <= 2 && (ret == 2 <==> BodyOver(lens, nl))
    {
      hide Pow2, Low, Shr, Shl, Stream, Avail, WindowOk, Codes, DecodesCanonically, DirectLookup, ListsOk, LengthBase,
           LengthExtra, DistanceBase, DistanceExtra, KraftSum, WideOpening, FilledCounts, MaxLen, MinLen, LooksAs, Starves;
      var l, d := lens[..nl], lens[nl..];
      LiteralLists(l);
      DistanceLists(d);
      var i, tl, bl := Build(l, LITERALS, LengthBase(), LengthExtra(), 9);
      if i != 0 { return i; }
      var td, bd;
      i, td, bd := Build(d, 0, DistanceBase(), DistanceExtra(), 6);
      if i != 0 { return i; }
      UsableNotWide(l, 9);
      UsableNotWide(d, 6);
      i := InflateCodes(tl, td, bl, bd, l, d, 9, 6);
      ret := if i != 0 then 1 else 0;
    }

    /** inflate_block: the final flag, the block type, then the block. */
    method InflateBlock() returns (ret: nat, last: bool)
      requires Valid()
      modifies this, slide
      ensures ret == 0 ==> Valid() && old(Block(Rest(), Left(), Hist(wp))) == Done(Rest(), Left(), Hist(wp))
      ensures ret == 0 ==> (last <==> old(Low(Rest(), 1)) == 1)
      ensures ret == 0 <==> old(Block(Rest(), Left(), Hist(wp)).Done? && !BlockStarves(Rest(), Left()))
      ensures ret == 4 <==> old(BlockShort(Rest(), Left(), Hist(wp)))
      ensures ret == 2 <==> old(BlockOver(Rest(), Left()))
      ensures ret <= 2 || ret == 4
    {
      hide Pow2, Low, Shr, Shl, Stream, Avail, WindowOk, Codes, Dynamic, Stored, FixedLiterals, FixedDistances, DynamicStarves, DynamicShort, DynamicOver;
      ghost var s0, a0 := Rest(), Left();
      var b: nat, k: nat, ok := bb, bk, true;
      last := false;
      ok, b, k := NeedBits(1, b, k);
      if !ok { return 4, last; }
      PeekBits(input, inptr, b, k, 1);
      DumpAvail(input, inptr, k, 1);
      last := Low(b, 1) == 1;
      b, k := Shr(b, 1), k - 1;
      ok, b, k := NeedBits(2, b, k);
      if !ok { return 4, last; }
      PeekBits(input, inptr, b, k, 2);
      DumpAvail(input, inptr, k, 2);
      ShrShr(s0, 1, 2);
      var t := Low(b, 2);
      b, k := Shr(b, 2), k - 2;
      bb, bk := b, k;
      if t == 2 {
        ret := InflateDynamic();
      } else if t == 0 {
        ret := InflateStored();
      } else if t == 1 {
        ret := InflateFixed();
      } else {
        ret := 2;
      }
    }

    /** inflate: all blocks, then hand back unused lookahead and flush what is left. It succeeds
        exactly if the reference decoder does and no lookup runs past the end of the input, and
        the output is then that of the reference decoder. */
    method Run() returns (ret: nat)
      requires Valid() && bb == 0 && bk == 0 && wp == 0 && inptr == 0 && flushed == []
      modifies this, slide
      ensures ret == 0 ==>
                && old(Blocks(Rest(), Left(), before)).Done?
                && old(Blocks(Rest(), Left(), before)).hist == before + flushed
                && inptr <= |input| && |input| - inptr == old(Blocks(Rest(), Left(), before)).avail / 8
      ensures ret == 0 <==> old(Blocks(Rest(), Left(), before).Done? && !BlocksStarve(Rest(), Left(), before))
      ensures ret == 4 <==> old(BlocksShort(Rest(), Left(), before))
      ensures ret == 2 <==> old(BlocksOver(Rest(), Left(), before))
      ensures ret <= 2 || ret == 4
    {
      hide Pow2, Low, Shr, Shl, Stream, WindowOk, Block, Blocks, BlockStarves, BlocksStarve, BlockShort, BlocksShort, BlockOver, BlocksOver;
      ghost var short, over := BlocksShort(Rest(), Left(), before), BlocksOver(Rest(), Left(), before);
      ghost var goal, starves := Blocks(Rest(), Left(), before), BlocksStarve(Rest(), Left(), before);
      assert Hist(0) == before;
      var last := false;
      while !last
        invariant !last ==> Valid() && goal == Blocks(Rest(), Left(), Hist(wp)) && starves == BlocksStarve(Rest(), Left(), Hist(wp))
        invariant !last ==> short == BlocksShort(Rest(), Left(), Hist(wp)) && over == BlocksOver(Rest(), Left(), Hist(wp))
        invariant last ==> Valid() && goal == Done(Rest(), Left(), Hist(wp)) && !starves && !short && !over
        decreases !last, if last then 0 else Left()
      {
        BlocksStep(Rest(), Left(), Hist(wp));
        BlocksStarveStep(Rest(), Left(), Hist(wp));
        BlocksShortStep(Rest(), Left(), Hist(wp));
        BlocksOverStep(Rest(), Left(), Hist(wp));
        ret, last := InflateBlock();
        if ret != 0 { return ret; }
      }
      while bk >= 8
        invariant 0 <= bk && inptr <= |input| && Left() == goal.avail && goal.hist == before + flushed + slide[..wp] && wp <= slide.Length
        modifies this`bk, this`inptr
        decreases bk
      {
        bk := bk - 8;
        inptr := inptr - 1;
      }
      flushed := flushed + slide[..wp];
      assert before + flushed == goal.hist;
      ret := 0;
    }
  }

  lemma NoneRepeated()
    ensures RepeatedLength(16, []) == 0
  {}

  lemma LastRepeated(acc: seq<nat>, x: nat)
    ensures RepeatedLength(16, acc + [x]) == x
  {}

  /** Subtraction of unsigned 32-bit words. */
  function Sub32(a: nat, b: nat): (r: nat)
    requires a < 0x1_0000_0000 && b < 0x1_0000_0000
  {
    if a >= b then a - b else a + 0x1_0000_0000 - b
  }

  lemma WordSize()
    ensures Pow2(32) == 0x1_0000_0000
  {
    assert Pow2(8) == 256 by { EightBits(); }
    ShlPow2(8, 8);
    ShlPow2(16, 16);
    ShlIsProduct(256, 8);
    ShlIsProduct(65536, 16);
  }

  /** Masking the difference of two words finds the window position `dist` back. */
  lemma FirstSource(w: nat, dist: nat, wbits: nat)
    requires wbits <= 31 && w < Pow2(wbits) && 1 <= dist <= Pow2(wbits)
    ensures w < 0x1_0000_0000 && dist < 0x1_0000_0000
    ensures Lags(Pow2(wbits), w, Low(Sub32(w, dist), wbits), dist)
  {
    hide Pow2, Low, Shl, Shr;
    WordSize();
    Pow2Mono(wbits, 32);
    if w >= dist {
      ShrSmall(w - dist, wbits);
    } else {
      var r := w + Pow2(wbits) - dist;
      ShlPow2(32 - wbits, wbits);
      Pow2Mono(0, 32 - wbits);
      var q := Pow2(32 - wbits) - 1;
      ShlAdd(q, 1, wbits);
      ShlPow2(0, wbits);
      Pow2AtZero();
      Recompose(q, r, wbits);
    }
  }

  lemma WindowWords(wbits: nat)
    requires wbits <= 31
    ensures Pow2(wbits) < 0x1_0000_0000
  {
    hide Pow2;
    WordSize();
    Pow2Mono(wbits, 32);
    Pow2Mono(0, wbits);
    Pow2AtZero();
  }

  lemma CopyMatchNone(hist: seq<Byte>, dist: nat)
    requires 1 <= dist <= |hist|
    ensures CopyMatch(hist, dist, 0) == hist
  {}

  lemma LagsBound(n: nat, w: nat, d: nat, dist: nat)
    requires Lags(n, w, d, dist)
    ensures d < n
  {}

  lemma WindowIsLarge(bits: nat)
    requires bits >= 15
    ensures Pow2(bits) >= MAX_DISTANCE
  {
    Pow2Mono(15, bits);
    assert Pow2(4) == 16;
    assert Pow2(8) == 16 * Pow2(4);
    assert Pow2(12) == 16 * Pow2(8);
    assert Pow2(15) == 8 * Pow2(12);
  }

  /** Source and destination keep their distance, also where one of them wraps. */
  lemma NextSource(w: nat, d: nat, e: nat, dist: nat, wbits: nat)
    requires w < Pow2(wbits) && w + e <= Pow2(wbits) && d + e <= Pow2(wbits) && e > 0
    requires 1 <= dist <= Pow2(wbits) && Lags(Pow2(wbits), w, d, dist)
    ensures var w' := if w + e == Pow2(wbits) then 0 else w + e;
            Lags(Pow2(wbits), w', Low(d + e, wbits), dist)
  {
    hide Pow2, Low;
    if d + e < Pow2(wbits) {
      ShrSmall(d + e, wbits);
    } else {
      Pow2Aligned(wbits, wbits);
    }
  }

  /** The fast copy is used on overlapping regions exactly when the source is ahead of the
      destination by less than the chunk, that is for distances close to the window size. */
  lemma FastCopyOverlap(n: nat, w: nat, d: nat, e: nat, dist: nat)
    requires w < n <= 0x8000_0000 && Lags(n, w, d, dist) && 1 <= dist <= n && 0 < e && w + e <= n && d + e <= n
    ensures d < 0x1_0000_0000
    ensures (Sub32(w, d) >= e && w < d + e && d < w + e) <==> n - e < dist < n
  {}

  /** With distances of at most 32768 and chunks of at most 258 bytes this needs a window of
      fewer than 33026 bytes; the decompressor's own window has 2^31. */
  lemma FastCopyWindows(n: nat)
    requires MAX_DISTANCE <= n <= 0x8000_0000
    ensures n < MAX_DISTANCE + 258 <==>
            exists w: nat, d: nat, e: nat, dist: nat :: Chunk(n, w, d, e, dist) && Sub32(w, d) >= e && w < d + e && d < w + e
  {
    forall w: nat, d: nat, e: nat, dist: nat | Chunk(n, w, d, e, dist)
      ensures Sub32(w, d) >= e && w < d + e && d < w + e ==> n < MAX_DISTANCE + 258
    {
      FastCopyOverlap(n, w, d, e, dist);
    }
    if n < MAX_DISTANCE + 258 {
      var dist := if n > MAX_DISTANCE then MAX_DISTANCE else MAX_DISTANCE - 1;
      var e := n - dist + 1;
      assert Chunk(n, 0, n - dist, e, dist);
    }
  }

  /** One step of a copy that inflate_codes can make with a window of n bytes. */
  predicate Chunk(n: nat, w: nat, d: nat, e: nat, dist: nat) {
    w < n <= 0x8000_0000 && Lags(n, w, d, dist) && 1 <= dist <= MAX_DISTANCE && 0 < e <= 258 && w + e <= n && d + e <= n
  }

  /** The decompressor's fast copies never overlap. */
  lemma FastCopyApart(w: nat, d: nat, e: nat, dist: nat)
    requires Chunk(0x8000_0000, w, d, e, dist)
    ensures Sub32(w, d) >= e ==> d + e <= w || w + e <= d
  {
    FastCopyOverlap(0x8000_0000, w, d, e, dist);
  }

  lemma LiteralIs(ll: seq<nat>, stream: nat)
    requires LiteralCode(ll) && ListsOk(ll, LITERALS, LengthBase(), LengthExtra())
    ensures LiteralAt(ll, stream) == Decode(ll, LITERALS, LengthBase(), LengthExtra(), stream)
  {
    hide LengthBase, LengthExtra, Decode;
  }

  lemma StoredStep(n: nat, stream: nat, avail: nat, hist: seq<Byte>)
    ensures var r := StoredBytes(n, stream, avail, hist);
            && (n == 0 ==> r == Done(stream, avail, hist))
            && (n > 0 && avail < 8 ==> r == Underrun)
            && (n > 0 && avail >= 8 ==> Low(stream, 8) < 256 && r == StoredBytes(n - 1, Shr(stream, 8), avail - 8, hist + [Low(stream, 8)]))
  {
    hide Low, Shr, Pow2;
    EightBits();
  }

  lemma ByteBoundary(input: seq<Byte>, p: nat, k: nat)
    requires p <= |input|
    ensures Avail(input, p, k) % 8 == k % 8
  {}

  lemma CodeLengthsStep(stream: nat, j: nat, nb: nat, acc: seq<nat>)
    requires j <= nb <= 19 && |acc| == 19
    ensures CodeLengths(stream, j, nb, acc) ==
            if j == nb then acc else CodeLengths(Shr(stream, 3), j + 1, nb, acc[LengthOrder()[j] := Low(stream, 3)])
  {
    hide Shr, Low;
  }

  lemma OrderDistinct(j: nat)
    requires j < 19
    ensures forall t :: 0 <= t < 19 && t != j ==> LengthOrder()[t] != LengthOrder()[j]
  {
    forall t: nat | t < 19 && LengthOrder()[t] == LengthOrder()[j] ensures t == j { OrderUnique(t, j); }
  }

  /** The direct lookup finds the code length symbol. */
  lemma LengthLookup(cl: seq<nat>, tl: Tables, bl: nat, stream: nat)
    requires LengthsOk(cl) && |cl| == 19 && Usable(cl) && ListsOk(cl, 19, [], [])
    requires DirectLookup(cl, 19, [], [], tl, bl) && bl == MaxLen(cl)
    ensures |tl| > 0 && Low(stream, bl) < |tl[0]|
    ensures var ent := tl[0][Low(stream, bl)];
            ent.Huft? && ent.v.Num? && (ent.v.n, ent.b) == LengthSymbolAt(cl, stream) && ent.b <= bl && ent.v.n < 19
  {
    hide Low, Pow2, Matches, Usable, KraftSum;
    var ent := tl[0][Low(stream, bl)];
    assert DirectEntry(cl, 19, [], [], bl, stream, ent);
    var (sym, used) := LengthSymbolAt(cl, stream);
    if Matches(cl, sym, stream) {
    } else {
      var s: nat :| s < |cl| && cl[s] == bl && ent.v.n == s;
      OnlyCode(cl, stream, s, sym);
    }
  }

  /** When some stream matches no code, there is just one longest code. */
  lemma OnlyCode(cl: seq<nat>, stream: nat, s: nat, s': nat)
    requires LengthsOk(cl) && Usable(cl) && forall t: nat :: !Matches(cl, t, stream)
    requires s < |cl| && s' < |cl| && cl[s] == cl[s'] == MaxLen(cl)
    ensures s == s'
  {
    hide Pow2, Matches;
    if KraftSum(cl) == Pow2(MAX_LEN) {
      var t := CompleteMatches(cl, stream);
    } else if s != s' {
      KraftPair(cl, if s < s' then s else s', if s < s' then s' else s);
    }
  }

  lemma {:induction false} KraftPair(lens: seq<nat>, s: nat, s': nat)
    requires Bounded(lens) && s < s' < |lens| && lens[s] == lens[s'] == 1
    ensures KraftSum(lens) >= Pow2(MAX_LEN)
  {
    hide Pow2;
    var init := lens[..|lens| - 1];
    if s' < |init| {
      KraftPair(init, s, s');
    } else {
      KraftOne(init, s);
      TwoHalves();
    }
  }

  lemma {:induction false} KraftOne(lens: seq<nat>, s: nat)
    requires Bounded(lens) && s < |lens| && lens[s] == 1
    ensures KraftSum(lens) >= Pow2(MAX_LEN - 1)
  {
    hide Pow2;
    var init := lens[..|lens| - 1];
    if s < |init| { KraftOne(init, s); }
  }

  lemma TwoHalves()
    ensures Pow2(MAX_LEN) == 2 * Pow2(MAX_LEN - 1)
  {}

  lemma LengthCodeLists(cl: seq<nat>)
    requires |cl| == 19 && forall s :: 0 <= s < 19 ==> cl[s] < 8
    ensures LengthsOk(cl) && ListsOk(cl, 19, [], []) && TableWidth(cl, 7) == MaxLen(cl) <= 7
  {}

  /** Codes that inflate_dynamic accepts never need a wide table. */
  lemma UsableNotWide(lens: seq<nat>, want: nat)
    requires LengthsOk(lens) && Usable(lens)
    requires (want == 9 && |lens| <= 286) || (want == 6 && |lens| <= 30)
    ensures 1 <= TableWidth(lens, want) <= MaxLen(lens) <= MAX_LEN
    ensures !WideOpening(FilledCounts(lens), MaxLen(lens), TableWidth(lens, want))
  {
    hide KraftSum, WideOpening, FilledCounts;
    var s :| 0 <= s < |lens| && lens[s] != 0;
    if KraftSum(lens) == Pow2(MAX_LEN) {
      CallSites(lens);
    } else {
      TwoLevelsNotWide(FilledCounts(lens), 1, 1);
    }
  }

  lemma AvailIs(input: seq<Byte>, p: nat, k: nat)
    requires p <= |input|
    ensures Avail(input, p, k) == k + 8 * (|input| - p)
  {}

  lemma DumpAvail(input: seq<Byte>, p: nat, k: nat, n: nat)
    requires p <= |input| && n <= k
    ensures Avail(input, p, k - n) + n == Avail(input, p, k)
  {}
}
