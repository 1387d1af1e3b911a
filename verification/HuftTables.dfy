/** The lookup tables that huft_build links together, and what it means for them to
    decode a canonical Huffman code. */
module HuftTables {
  import opened Bits
  import opened HuffmanCode

  /** The union inside struct huft: a value, or a pointer to another table. Tables
      are numbered in the order they are allocated. */
  datatype Value = Num(n: nat) | Ptr(t: nat)

  /** struct huft. `Junk` is a slot of a fresh table that nothing has written yet. */
  datatype Huft = Junk | Huft(e: nat, b: nat, v: Value)

  type Tables = seq<seq<Huft>>

  const LITERAL: nat := 16
  const END_OF_BLOCK: nat := 15
  const UNUSED: nat := 99

  datatype Decoded =
    | Symbol(e: nat, n: nat, used: nat)  // operation or extra bits, value, bits consumed
    | Invalid                            // an unused code: error in the data
    | Undefined                          // an unwritten slot or a wild pointer was read
  {
    function Shift(k: nat): (r: Decoded) {
      if Symbol? then Symbol(e, n, used + k) else this
    }
  }

  /** Walking the linked tables on the next bits of the stream. An entry that would dump
      more bits than were looked at, or ask for more than 15, counts as undefined. */
  function Walk(tables: Tables, t: nat, nb: nat, bits: nat): (r: Decoded)
    requires t < |tables|
    decreases |tables| - t
  {
    var q := Low(bits, nb);
    if q >= |tables[t]| || tables[t][q].Junk? then Undefined
    else
      var ent := tables[t][q];
      if ent.e == UNUSED then Invalid
      else if ent.b > nb then Undefined
      else if ent.e > LITERAL then
        if ent.e <= 31 && ent.v.Ptr? && t < ent.v.t < |tables|
        then Walk(tables, ent.v.t, ent.e - 16, Shr(bits, ent.b)).Shift(ent.b)
        else Undefined
      else if ent.v.Num? then Symbol(ent.e, ent.v.n, ent.b)
      else Undefined
  }

  /** How many bits have to be there for the walk to look at them. */
  function Looks(tables: Tables, t: nat, nb: nat, bits: nat): (r: nat)
    requires t < |tables|
    ensures r >= nb
    decreases |tables| - t
  {
    var q := Low(bits, nb);
    if q >= |tables[t]| || tables[t][q].Junk? then nb
    else
      var ent := tables[t][q];
      if ent.e != UNUSED && LITERAL < ent.e <= 31 && ent.v.Ptr? && t < ent.v.t < |tables|
      then
        var n := ent.b + Looks(tables, ent.v.t, ent.e - 16, Shr(bits, ent.b));
        if n > nb then n else nb
      else nb
  }

  /** One turn of a walk that is defined: an unused code, a symbol, or a link. */
  lemma WalkTurn(tables: Tables, t: nat, nb: nat, bits: nat)
    requires t < |tables| && !Walk(tables, t, nb, bits).Undefined?
    ensures var q := Low(bits, nb); q < |tables[t]| && tables[t][q].Huft?
    ensures var ent, walk, looks := tables[t][Low(bits, nb)], Walk(tables, t, nb, bits), Looks(tables, t, nb, bits);
            if ent.e == UNUSED then walk == Invalid && looks == nb
            else if ent.e <= LITERAL then ent.b <= nb && ent.v.Num? && walk == Symbol(ent.e, ent.v.n, ent.b) && looks == nb
            else
              && ent.b <= nb && ent.e <= 31 && ent.v.Ptr? && t < ent.v.t < |tables|
              && var sub, n := Walk(tables, ent.v.t, ent.e - 16, Shr(bits, ent.b)), Looks(tables, ent.v.t, ent.e - 16, Shr(bits, ent.b));
              !sub.Undefined? && walk == sub.Shift(ent.b) && looks == if ent.b + n > nb then ent.b + n else nb
  {
    hide Low, Shr;
  }

  /** The walk looks at no less than the code, and at most 16 bits beyond it. */
  lemma {:induction false} LooksBound(tables: Tables, t: nat, nb: nat, bits: nat)
    requires t < |tables| && nb <= 16 && Walk(tables, t, nb, bits).Symbol?
    ensures var r := Walk(tables, t, nb, bits); r.used <= Looks(tables, t, nb, bits) <= r.used + 16
    decreases |tables| - t
  {
    hide Low, Shr;
    var ent := tables[t][Low(bits, nb)];
    if ent.e > LITERAL { LooksBound(tables, ent.v.t, ent.e - 16, Shr(bits, ent.b)); }
  }

  /** What a code stands for: the e and v.n fields of its entries. */
  datatype Leaf = Leaf(e: nat, n: nat)

  /** The code to be decoded: counts c of each length (dummy codes included), greatest
      length g, bits per table l, and the meaning of each real code in canonical order. */
  datatype Shape = Shape(c: seq<nat>, g: nat, l: nat, leaves: seq<Leaf>)

  ghost predicate ShapeOk(sh: Shape) {
    && Full(sh.c, sh.g)
    && 1 <= sh.l <= sh.g <= 16
    && forall r :: 0 <= r < |sh.leaves| ==> sh.leaves[r].e <= 16 || sh.leaves[r].e == UNUSED
  }

  /** The reference decoder: the code that owns point x of the code space. */
  ghost function Expected(sh: Shape, x: nat): (r: Decoded)
    requires ShapeOk(sh) && x < Pow2(sh.g)
  {
    var rank := RankAt(sh.c, sh.g, x);
    if rank < |sh.leaves| && sh.leaves[rank].e != UNUSED
    then Symbol(sh.leaves[rank].e, sh.leaves[rank].n, LenAt(sh.c, sh.g, x))
    else Invalid
  }

  /** Where a table belongs: it is reached after w bits, is indexed by j more, and
      serves the points [start, start + 2^(g-w)). */
  datatype Info = Info(w: nat, j: nat, start: nat)

  /** Bits of the index that distinguish written entries. */
  function Eff(sh: Shape, inf: Info): (r: nat)
    ensures r <= inf.j && r <= sh.l
  {
    if inf.j <= sh.l then inf.j else sh.l
  }

  /** A table wider than l bits was opened: only its first 2^l entries get links. */
  ghost predicate Wide(sh: Shape, inf: Info) {
    inf.j > sh.l
  }

  /** w is a multiple of l. */
  predicate IsLevel(l: nat, w: nat)
    requires l > 0
  {
    w == 0 || (w >= l && IsLevel(l, w - l))
  }

  ghost predicate InfoOk(sh: Shape, inf: Info)
    requires ShapeOk(sh)
  {
    && 1 <= inf.j && inf.w + inf.j <= sh.g
    && Aligned(inf.start, sh.g - inf.w) && inf.start + Pow2(sh.g - inf.w) <= Pow2(sh.g)
    && (inf.j < sh.l ==> Start(sh.c, sh.g, inf.w + inf.j + 1) >= inf.start + Pow2(sh.g - inf.w))
    && Start(sh.c, sh.g, inf.w + inf.j) < inf.start + Pow2(sh.g - inf.w)
    && (Wide(sh, inf) <==> LenAt(sh.c, sh.g, inf.start) > inf.w + sh.l)
    && IsLevel(sh.l, inf.w)
  }

  /** The first point of the cell that entry q of a table serves. */
  ghost function CellStart(sh: Shape, inf: Info, q: nat): (r: nat)
    requires ShapeOk(sh) && InfoOk(sh, inf)
  {
    inf.start + Shl(Rev(Eff(sh, inf), q), sh.g - inf.w - Eff(sh, inf))
  }

  ghost function CellSize(sh: Shape, inf: Info): (r: nat)
    requires ShapeOk(sh) && InfoOk(sh, inf)
    ensures r > 0
  {
    Pow2(sh.g - inf.w - Eff(sh, inf))
  }

  /** Cells are aligned and tile the table's range. */
  lemma CellBounds(sh: Shape, inf: Info, q: nat)
    requires ShapeOk(sh) && InfoOk(sh, inf)
    ensures Aligned(CellStart(sh, inf, q), sh.g - inf.w - Eff(sh, inf))
    ensures inf.start <= CellStart(sh, inf, q)
    ensures CellStart(sh, inf, q) + CellSize(sh, inf) <= inf.start + Pow2(sh.g - inf.w)
    ensures CellStart(sh, inf, q) < Pow2(sh.g)
  {
    hide Low, Shl, Shr, Pow2, Rev;
    var j := Eff(sh, inf);
    var n := sh.g - inf.w - j;
    AlignedDown(inf.start, n, sh.g - inf.w);
    ShlAligned(Rev(j, q), n);
    AlignedAdd(inf.start, Shl(Rev(j, q), n), n);
    ShlMono(Rev(j, q), Pow2(j), n);
    ShlPow2(j, n);
  }

  /** The entry of a real code carries its meaning. The entry of a dummy code is marked
      unused; its value is left over from the last real code when nothing was linked. */
  ghost predicate LeafMatches(sh: Shape, ent: Huft, rank: nat) {
    && ent.Huft?
    && if rank < |sh.leaves| then ent.e == sh.leaves[rank].e && ent.v == Num(sh.leaves[rank].n)
       else ent.e == UNUSED && (sh.l == sh.g ==> LeftOver(sh, ent.v))
  }

  ghost predicate LeftOver(sh: Shape, v: Value) {
    |sh.leaves| > 0 ==> v == Num(sh.leaves[|sh.leaves| - 1].n)
  }

  /** An entry is right when it names the code that owns its cell, or, when that code
      is too long for this table, links to the table that serves exactly the cell. */
  ghost predicate EntryOk(sh: Shape, tables: Tables, info: seq<Info>, t: nat, q: nat)
    requires ShapeOk(sh) && |tables| == |info| && t < |info| && InfoOk(sh, info[t])
  {
    var inf := info[t];
    CellBounds(sh, inf, q);
    var x := CellStart(sh, inf, q);
    var k := LenAt(sh.c, sh.g, x);
    && q < |tables[t]| && tables[t][q].Huft?
    && var ent := tables[t][q];
       if k <= inf.w + Eff(sh, inf) then
         inf.w < k && ent.b == k - inf.w && LeafMatches(sh, ent, RankAt(sh.c, sh.g, x))
       else
         && inf.j >= sh.l && ent.b == sh.l && ent.v.Ptr? && t < ent.v.t < |tables|
         && info[ent.v.t].w == inf.w + sh.l && info[ent.v.t].start == x
         && ent.e == 16 + info[ent.v.t].j
  }

  ghost predicate LayoutOk(sh: Shape, tables: Tables, info: seq<Info>)
    requires ShapeOk(sh)
  {
    && |tables| == |info|
    && forall t :: 0 <= t < |info| ==> InfoOk(sh, info[t]) && |tables[t]| == Pow2(info[t].j)
  }

  /** Every table is finished. */
  ghost predicate Complete(sh: Shape, tables: Tables, info: seq<Info>)
    requires ShapeOk(sh) && LayoutOk(sh, tables, info)
  {
    forall t, q :: 0 <= t < |info| && 0 <= q < Pow2(Eff(sh, info[t])) ==> EntryOk(sh, tables, info, t, q)
  }

  /** The entries of a wide table past the first 2^l are never written. */
  ghost predicate WideUnwritten(sh: Shape, tables: Tables, info: seq<Info>)
    requires ShapeOk(sh) && LayoutOk(sh, tables, info)
  {
    forall t, q :: 0 <= t < |info| && Pow2(sh.l) <= q < |tables[t]| && Wide(sh, info[t]) ==>
      tables[t][q] == Junk
  }

  /** The cell found by the next bits of the stream holds the stream's own point. */
  lemma LookupCell(sh: Shape, inf: Info, stream: nat)
    requires ShapeOk(sh) && InfoOk(sh, inf)
    requires inf.start == Shl(Rev(inf.w, stream), sh.g - inf.w)
    ensures var q := Low(Shr(stream, inf.w), Eff(sh, inf));
            CellStart(sh, inf, q) <= Rev(sh.g, stream) < CellStart(sh, inf, q) + CellSize(sh, inf)
    ensures var q := Low(Shr(stream, inf.w), Eff(sh, inf));
            CellStart(sh, inf, q) == Shl(Rev(inf.w + Eff(sh, inf), stream), sh.g - inf.w - Eff(sh, inf))
  {
    hide Low, Shl, Shr, Pow2, Rev;
    var j := Eff(sh, inf);
    var n := sh.g - inf.w - j;
    RevLow(j, Shr(stream, inf.w));
    RevSplit(inf.w, j, stream);
    RevSplit(inf.w + j, n, stream);
    ShlAdd(Shl(Rev(inf.w, stream), j), Rev(j, Shr(stream, inf.w)), n);
    ShlShl(Rev(inf.w, stream), j, n);
  }

  /** All points of a cell no longer than its code decode alike. */
  lemma CellUniform(sh: Shape, x: nat, n: nat, y: nat)
    requires ShapeOk(sh) && n <= sh.g && Aligned(x, n) && x <= y < x + Pow2(n) && x < Pow2(sh.g)
    requires LenAt(sh.c, sh.g, x) <= sh.g - n
    ensures y < Pow2(sh.g) && Expected(sh, y) == Expected(sh, x)
    ensures LenAt(sh.c, sh.g, y) == LenAt(sh.c, sh.g, x)
  {
    hide Low, Shl, Shr, Pow2, Rev;
    var k, m := CodeOf(sh.c, sh.g, x);
    CodeStartAligned(sh.c, sh.g, k, m);
    ShlAligned(NextCode(sh.c, k) + m, sh.g - k);
    AlignedNested(x, n, CodeStart(sh.c, sh.g, k, m), sh.g - k);
    CodeInterval(sh.c, sh.g, k, m, x);
    CodeInterval(sh.c, sh.g, k, m, y);
  }

  /** Finished tables, none of them wide, decode exactly the canonical code. */
  lemma {:induction false} WalkDecodes(sh: Shape, tables: Tables, info: seq<Info>, t: nat, stream: nat)
    requires ShapeOk(sh) && LayoutOk(sh, tables, info) && Complete(sh, tables, info)
    requires forall t' :: 0 <= t' < |info| ==> !Wide(sh, info[t'])
    requires t < |tables| && info[t].start == Shl(Rev(info[t].w, stream), sh.g - info[t].w)
    ensures Walk(tables, t, info[t].j, Shr(stream, info[t].w)).Shift(info[t].w)
            == Expected(sh, Rev(sh.g, stream))
    decreases |tables| - t
  {
    hide Low, Shl, Shr, Pow2, Rev, Start, Offset, CellStart, RankAt;
    var inf := info[t];
    var rest := Shr(stream, inf.w);
    var q := Low(rest, inf.j);
    LookupCell(sh, inf, stream);
    CellBounds(sh, inf, q);
    var x := CellStart(sh, inf, q);
    assert EntryOk(sh, tables, info, t, q);
    var ent := tables[t][q];
    if LenAt(sh.c, sh.g, x) <= inf.w + inf.j {
      CellUniform(sh, x, sh.g - inf.w - inf.j, Rev(sh.g, stream));
    } else {
      WalkDecodes(sh, tables, info, ent.v.t, stream);
      ShrShr(stream, inf.w, sh.l);
    }
  }

  // What a walk looks at

  lemma LenMono(c: seq<nat>, g: nat, x: nat, y: nat)
    requires Full(c, g) && x <= y < Pow2(g)
    ensures LenAt(c, g, x) <= LenAt(c, g, y)
  {
    var k, k' := LenAt(c, g, x), LenAt(c, g, y);
    if k' < k { StartMono(c, g, k' + 1, k); }
  }

  /** The last point that shares its first w bits with x. */
  ghost function LastAlike(g: nat, w: nat, x: nat): (r: nat)
    requires w <= g && x < Pow2(g)
    ensures x <= r < Pow2(g)
  {
    Decompose(x, g - w);
    ShrBound(x, g - w, w);
    ShlMono(Shr(x, g - w) + 1, Pow2(w), g - w);
    ShlMono(Shr(x, g - w), Shr(x, g - w) + 1, g - w);
    ShlPow2(w, g - w);
    Shl(Shr(x, g - w), g - w) + Pow2(g - w) - 1
  }

  /** How many bits are looked at for point x from bit w on, with l-bit tables: a table ends
      with the longest code that shares the bits in front of it, or after l bits. */
  ghost function Lookahead(c: seq<nat>, g: nat, l: nat, w: nat, x: nat): (r: nat)
    requires Full(c, g) && x < Pow2(g) && l >= 1 && w <= g
    decreases g - w
  {
    if LenAt(c, g, x) > w + l then Lookahead(c, g, l, w + l, x)
    else
      var longest := LenAt(c, g, LastAlike(g, w, x));
      if longest < w + l then longest else w + l
  }

  /** No less than the code, and less than a table beyond it. */
  lemma {:induction false} LookaheadBound(c: seq<nat>, g: nat, l: nat, w: nat, x: nat)
    requires Full(c, g) && x < Pow2(g) && l >= 1 && w <= g && w < LenAt(c, g, x)
    ensures LenAt(c, g, x) <= Lookahead(c, g, l, w, x) < LenAt(c, g, x) + l && Lookahead(c, g, l, w, x) <= g
    decreases g - w
  {
    hide LenAt, LastAlike;
    if LenAt(c, g, x) > w + l {
      LookaheadBound(c, g, l, w + l, x);
    } else {
      LenMono(c, g, x, LastAlike(g, w, x));
    }
  }

  /** The last point of a table's range. */
  lemma TableEnd(sh: Shape, inf: Info, stream: nat)
    requires ShapeOk(sh) && InfoOk(sh, inf) && inf.start == Shl(Rev(inf.w, stream), sh.g - inf.w)
    ensures LastAlike(sh.g, inf.w, Rev(sh.g, stream)) == inf.start + Pow2(sh.g - inf.w) - 1
  {
    hide Low, Shl, Shr, Pow2, Rev, Start, LenAt;
    RevSplit(inf.w, sh.g - inf.w, stream);
    Recompose(Rev(inf.w, stream), Rev(sh.g - inf.w, Shr(stream, inf.w)), sh.g - inf.w);
  }

  /** A table that is not wide is as wide as its longest code needs, but at most l bits. */
  lemma TableWidthIs(sh: Shape, inf: Info)
    requires ShapeOk(sh) && InfoOk(sh, inf) && !Wide(sh, inf)
    ensures var longest := LenAt(sh.c, sh.g, inf.start + Pow2(sh.g - inf.w) - 1);
            inf.w + inf.j == if longest < inf.w + sh.l then longest else inf.w + sh.l
  {
    hide Low, Shl, Shr, Pow2, Rev, Start;
    var last := inf.start + Pow2(sh.g - inf.w) - 1;
    var longest := LenAt(sh.c, sh.g, last);
    if longest < inf.w + inf.j { StartMono(sh.c, sh.g, longest + 1, inf.w + inf.j); }
    if inf.j < sh.l && longest > inf.w + inf.j { StartMono(sh.c, sh.g, inf.w + inf.j + 1, longest); }
  }

  /** Finished tables, none of them wide, look at as many bits as their code asks for. */
  lemma {:induction false} WalkLooks(sh: Shape, tables: Tables, info: seq<Info>, t: nat, stream: nat)
    requires ShapeOk(sh) && LayoutOk(sh, tables, info) && Complete(sh, tables, info)
    requires forall t' :: 0 <= t' < |info| ==> !Wide(sh, info[t'])
    requires t < |tables| && info[t].start == Shl(Rev(info[t].w, stream), sh.g - info[t].w)
    ensures Looks(tables, t, info[t].j, Shr(stream, info[t].w)) + info[t].w
            == Lookahead(sh.c, sh.g, sh.l, info[t].w, Rev(sh.g, stream))
    decreases |tables| - t
  {
    hide Low, Shl, Shr, Pow2, Rev, Start, Offset, CellStart, RankAt, LastAlike, LenAt;
    var inf := info[t];
    var rest := Shr(stream, inf.w);
    var q := Low(rest, inf.j);
    LookupCell(sh, inf, stream);
    CellBounds(sh, inf, q);
    var x, y := CellStart(sh, inf, q), Rev(sh.g, stream);
    assert EntryOk(sh, tables, info, t, q);
    var ent := tables[t][q];
    if LenAt(sh.c, sh.g, x) <= inf.w + inf.j {
      CellUniform(sh, x, sh.g - inf.w - inf.j, y);
      TableEnd(sh, inf, stream);
      TableWidthIs(sh, inf);
    } else {
      LenMono(sh.c, sh.g, x, y);
      WalkLooks(sh, tables, info, ent.v.t, stream);
      ShrShr(stream, inf.w, sh.l);
    }
  }
}
