/** Exactly when the tables of huft_build decode the canonical code. */
module HuftCorrect {
  import opened Bits
  import opened HuffmanCode
  import opened HuftTables

  /** Some code starts a new table at bit w, a multiple of l, and is more than l bits
      longer than w: huft_build then opens a table that is too wide to be linked. */
  ghost predicate WideOpening(c: seq<nat>, g: nat, l: nat)
    requires 1 <= l <= g < |c|
  {
    exists k: nat, m: nat, w: nat :: WideCode(c, g, l, k, m, w)
  }

  ghost predicate WideCode(c: seq<nat>, g: nat, l: nat, k: nat, m: nat, w: nat)
    requires 1 <= l <= g < |c|
  {
    && 1 <= k <= g && m < c[k] && l <= w && w + l < k && IsLevel(l, w)
    && Aligned(CodeStart(c, g, k, m), g - w)
  }

  /** The tables are as BuildTables leaves them. */
  ghost predicate Built(sh: Shape, tables: Tables, info: seq<Info>) {
    && ShapeOk(sh) && LayoutOk(sh, tables, info) && Complete(sh, tables, info)
    && WideUnwritten(sh, tables, info)
    && |tables| > 0 && info[0] == Info(0, sh.l, 0)
  }

  /** The code that starts a table's range. */
  lemma FirstCode(sh: Shape, inf: Info) returns (k: nat, m: nat)
    requires ShapeOk(sh) && InfoOk(sh, inf) && LenAt(sh.c, sh.g, inf.start) > inf.w
    ensures 1 <= k <= sh.g && m < sh.c[k] && k == LenAt(sh.c, sh.g, inf.start)
    ensures CodeStart(sh.c, sh.g, k, m) == inf.start
  {
    hide Low, Shl, Shr, Pow2, Rev, Start;
    k, m := CodeOf(sh.c, sh.g, inf.start);
    CodeStartAligned(sh.c, sh.g, k, m);
    ShlAligned(NextCode(sh.c, k) + m, sh.g - k);
    AlignedDown(inf.start, sh.g - k, sh.g - inf.w);
    if CodeStart(sh.c, sh.g, k, m) < inf.start {
      AlignedGap(CodeStart(sh.c, sh.g, k, m), inf.start, sh.g - k);
    }
  }

  lemma RootNotWide(sh: Shape, inf: Info, root: Info)
    requires ShapeOk(sh) && InfoOk(sh, inf) && InfoOk(sh, root) && inf.w == 0 && root == Info(0, sh.l, 0)
    ensures !Wide(sh, inf)
  {}

  /** A wide table comes from a wide code. */
  lemma WideTableMeansWideCode(sh: Shape, tables: Tables, info: seq<Info>, t: nat)
    requires Built(sh, tables, info) && t < |info| && Wide(sh, info[t])
    ensures WideOpening(sh.c, sh.g, sh.l)
  {
    hide Low, Shl, Shr, Pow2, Rev, Start, EntryOk;
    var inf := info[t];
    var k, m := FirstCode(sh, inf);
    if inf.w == 0 { RootNotWide(sh, inf, info[0]); }
    assert WideCode(sh.c, sh.g, sh.l, k, m, inf.w);
  }

  /** The pattern that leads to a table. */
  lemma TablePattern(sh: Shape, inf: Info) returns (i: nat)
    requires ShapeOk(sh) && InfoOk(sh, inf)
    ensures i < Pow2(inf.w) && inf.start == Shl(Rev(inf.w, i), sh.g - inf.w)
  {
    hide Low, Shl, Shr, Pow2, Rev, Start;
    var p := Shr(inf.start, sh.g - inf.w);
    Pow2Positive(sh.g - inf.w);
    Decompose(inf.start, sh.g - inf.w);
    if Pow2(inf.w) <= p {
      ShlMono(Pow2(inf.w), p, sh.g - inf.w);
      ShlPow2(inf.w, sh.g - inf.w);
    }
    i := Rev(inf.w, p);
    RevRev(inf.w, p);
  }

  /** Extending the pattern of a wide table by l zeros and a one reads an unwritten entry. */
  lemma WideFails(sh: Shape, tables: Tables, info: seq<Info>, t: nat) returns (stream: nat)
    requires Built(sh, tables, info) && t < |info| && Wide(sh, info[t])
    ensures info[t].start == Shl(Rev(info[t].w, stream), sh.g - info[t].w)
    ensures Walk(tables, t, info[t].j, Shr(stream, info[t].w)) == Undefined
  {
    hide Low, Shl, Shr, Pow2, Rev, Start, EntryOk;
    var inf := info[t];
    var i := TablePattern(sh, inf);
    stream := Shl(Pow2(sh.l), inf.w) + i;
    Recompose(Pow2(sh.l), i, inf.w);
    RevLow(inf.w, stream);
    Pow2Mono(sh.l, inf.j);
    Pow2Positive(sh.l);
    ShrSmall(Pow2(sh.l), inf.j);
  }

  /** Following the pattern of a point that belongs to a longer code leads through links. */
  lemma LinkToward(sh: Shape, tables: Tables, info: seq<Info>, t: nat, x: nat, w: nat) returns (q: nat)
    requires Built(sh, tables, info) && t < |info| && x < Pow2(sh.g) && w <= sh.g
    requires Aligned(x, sh.g - w) && LenAt(sh.c, sh.g, x) > w
    requires info[t].start <= x < info[t].start + Pow2(sh.g - info[t].w) && info[t].w + sh.l <= w
    ensures q < Pow2(sh.l) && q < |tables[t]| && info[t].j >= sh.l
    ensures tables[t][q].Huft? && tables[t][q].v.Ptr? && tables[t][q].b == sh.l
    ensures var t' := tables[t][q].v.t;
            && t < t' < |info| && info[t'].w == info[t].w + sh.l && tables[t][q].e == 16 + info[t'].j
            && info[t'].start == CellStart(sh, info[t], q)
            && info[t'].start <= x < info[t'].start + Pow2(sh.g - info[t'].w)
  {
    hide Low, Shl, Shr, Pow2, Rev, Start, LayoutOk, WideUnwritten;
    var inf := info[t];
    LayoutAt(sh, tables, info, t);
    q := CellFor(sh, inf, x);
    CellBounds(sh, inf, q);
    var y := CellStart(sh, inf, q);
    assert EntryOk(sh, tables, info, t, q);
    if LenAt(sh.c, sh.g, y) <= inf.w + Eff(sh, inf) {
      CellUniform(sh, y, sh.g - inf.w - Eff(sh, inf), x);
    }
  }

  lemma LayoutAt(sh: Shape, tables: Tables, info: seq<Info>, t: nat)
    requires ShapeOk(sh) && LayoutOk(sh, tables, info) && t < |info|
    ensures |tables| == |info| && InfoOk(sh, info[t]) && |tables[t]| == Pow2(info[t].j)
  {}

  /** The entry whose cell holds x. */
  lemma CellFor(sh: Shape, inf: Info, x: nat) returns (q: nat)
    requires ShapeOk(sh) && InfoOk(sh, inf) && inf.start <= x < inf.start + Pow2(sh.g - inf.w)
    ensures q < Pow2(Eff(sh, inf)) && CellStart(sh, inf, q) <= x < CellStart(sh, inf, q) + CellSize(sh, inf)
  {
    hide Low, Shl, Shr, Pow2, Rev, Start;
    var j := Eff(sh, inf);
    var n := sh.g - inf.w - j;
    var p := Shr(x - inf.start, n);
    Decompose(x - inf.start, n);
    ShrBound(x - inf.start, n, j);
    q := Rev(j, p);
    RevRev(j, p);
  }

  /** Below a wide table some stream reads an unwritten entry. */
  lemma {:induction false} WideReachable(sh: Shape, tables: Tables, info: seq<Info>, t: nat, k: nat, m: nat, w: nat)
    returns (stream: nat)
    requires Built(sh, tables, info) && t < |info| && WideCode(sh.c, sh.g, sh.l, k, m, w)
    requires var x := CodeStart(sh.c, sh.g, k, m);
             info[t].start <= x < info[t].start + Pow2(sh.g - info[t].w)
    requires info[t].w <= w && IsLevel(sh.l, w - info[t].w)
    ensures info[t].start == Shl(Rev(info[t].w, stream), sh.g - info[t].w)
    ensures Walk(tables, t, info[t].j, Shr(stream, info[t].w)) == Undefined
    decreases |tables| - t
  {
    hide Low, Shl, Shr, Pow2, Rev, Start, EntryOk, WideUnwritten;
    var inf := info[t];
    var x := CodeStart(sh.c, sh.g, k, m);
    Pow2Positive(sh.g - k);
    CodeInterval(sh.c, sh.g, k, m, x);
    if Wide(sh, inf) {
      stream := WideFails(sh, tables, info, t);
    } else if inf.w == w {
      if inf.start < x { AlignedGap(inf.start, x, sh.g - w); }
      assert false;
    } else {
      var q := LinkToward(sh, tables, info, t, x, w);
      var t' := tables[t][q].v.t;
      stream := WideReachable(sh, tables, info, t', k, m, w);
      WalkLink(sh, tables, info, t, q, stream);
    }
  }

  /** A stream that agrees with a link's cell is passed on to the linked table. */
  lemma WalkLink(sh: Shape, tables: Tables, info: seq<Info>, t: nat, q: nat, stream: nat)
    requires Built(sh, tables, info) && t < |info| && q < |tables[t]| && q < Pow2(sh.l)
    requires info[t].j == sh.l
    requires tables[t][q].Huft? && tables[t][q].v.Ptr? && tables[t][q].b == sh.l
    requires var t' := tables[t][q].v.t;
             && t < t' < |info| && info[t'].w == info[t].w + sh.l && tables[t][q].e == 16 + info[t'].j
             && info[t'].start == CellStart(sh, info[t], q)
             && info[t'].start == Shl(Rev(info[t'].w, stream), sh.g - info[t'].w)
    ensures info[t].start == Shl(Rev(info[t].w, stream), sh.g - info[t].w)
    ensures Walk(tables, t, info[t].j, Shr(stream, info[t].w))
            == Walk(tables, tables[t][q].v.t, info[tables[t][q].v.t].j,
                    Shr(stream, info[tables[t][q].v.t].w)).Shift(sh.l)
  {
    hide Low, Shl, Shr, Pow2, Rev, Start, EntryOk, WideUnwritten;
    var inf := info[t];
    var n := sh.g - inf.w - sh.l;
    var i := TablePattern(sh, inf);
    LinkBits(sh.g, inf.w, sh.l, i, q, stream);
    ShrShr(stream, inf.w, sh.l);
  }

  /** The bits of a stream that lies in a given cell of a given table. */
  lemma LinkBits(g: nat, w: nat, l: nat, i: nat, q: nat, stream: nat)
    requires w + l <= g && i < Pow2(w) && q < Pow2(l)
    requires Shl(Rev(w, i), g - w) + Shl(Rev(l, q), g - w - l) == Shl(Rev(w + l, stream), g - w - l)
    ensures Rev(w, stream) == Rev(w, i) && Low(Shr(stream, w), l) == q
  {
    hide Low, Shl, Shr, Pow2, Rev;
    RevSplit(w, l, stream);
    ShlShl(Rev(w, i), l, g - w - l);
    ShlAdd(Shl(Rev(w, i), l), Rev(l, q), g - w - l);
    ShlInjective(Shl(Rev(w, i), l) + Rev(l, q), Rev(w + l, stream), g - w - l);
    Recompose(Rev(w, i), Rev(l, q), l);
    Recompose(Rev(w, stream), Rev(l, Shr(stream, w)), l);
    RevLow(l, Shr(stream, w));
    RevInjective(l, Low(Shr(stream, w), l), q);
  }

  lemma ShlInjective(x: nat, y: nat, n: nat)
    requires Shl(x, n) == Shl(y, n)
    ensures x == y
  {
    if x < y { ShlMono(x, y, n); }
    if y < x { ShlMono(y, x, n); }
  }

  /** Walking the tables finds, on every stream, the code that owns the stream's point. */
  ghost predicate WalksAsExpected(sh: Shape, tables: Tables)
    requires ShapeOk(sh) && |tables| > 0
  {
    forall stream: nat :: Walk(tables, 0, sh.l, stream) == Expected(sh, Rev(sh.g, stream))
  }

  /** The tables decode every stream correctly exactly when no table is opened too wide. */
  lemma DecodesIffNotWide(sh: Shape, tables: Tables, info: seq<Info>)
    requires Built(sh, tables, info)
    ensures WalksAsExpected(sh, tables) <==> !WideOpening(sh.c, sh.g, sh.l)
  {
    hide Low, Shl, Shr, Pow2, Rev, Start, EntryOk, WideUnwritten;
    if WideOpening(sh.c, sh.g, sh.l) {
      var k: nat, m: nat, w: nat :| WideCode(sh.c, sh.g, sh.l, k, m, w);
      var x := CodeStart(sh.c, sh.g, k, m);
      Pow2Positive(sh.g - k);
      CodeInterval(sh.c, sh.g, k, m, x);
      var stream := WideReachable(sh, tables, info, 0, k, m, w);
      ShrNone(stream);
      assert Walk(tables, 0, sh.l, stream) != Expected(sh, Rev(sh.g, stream));
    } else {
      forall stream: nat ensures Walk(tables, 0, sh.l, stream) == Expected(sh, Rev(sh.g, stream)) {
        forall t | 0 <= t < |info| ensures !Wide(sh, info[t]) {
          if Wide(sh, info[t]) { WideTableMeansWideCode(sh, tables, info, t); }
        }
        ShrNone(stream);
        ShlZero(sh.g);
        RevNone(stream);
        WalkDecodes(sh, tables, info, 0, stream);
      }
    }
  }

  lemma RevNone(x: nat)
    ensures Rev(0, x) == 0
  {}
}
