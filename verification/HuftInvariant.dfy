/** What huft_build keeps true while it hands out codes in canonical order: all cells
    before the current point `pos` are written, and the tables that still have work to
    do are exactly those on its stack. */
module HuftInvariant {
  import opened Bits
  import opened HuffmanCode
  import opened HuftTables

  const BMAX := 16

  /** The tables so far, where they belong, and the stack: table numbers u[0..h], the
      bit patterns x[0..h] that lead to them, and w bits before the top table. */
  datatype State = State(tables: Tables, info: seq<Info>, h: int, w: int, u: seq<nat>, x: seq<nat>)

  ghost function End(sh: Shape, inf: Info): (r: nat)
    requires ShapeOk(sh) && inf.w <= sh.g
  {
    inf.start + Pow2(sh.g - inf.w)
  }

  ghost function Top(s: State): (r: Info)
    requires 0 <= s.h < |s.u| && s.u[s.h] < |s.info|
  {
    s.info[s.u[s.h]]
  }

  /** Table t is on the stack at level i. */
  ghost predicate StackSlot(sh: Shape, s: State, i: nat)
    requires ShapeOk(sh) && i < |s.u| && i < |s.x|
  {
    && s.u[i] < |s.info|
    && var inf := s.info[s.u[i]];
       && i <= inf.w <= sh.g
       && s.x[i] < Pow2(inf.w)
       && inf.start == Shl(Rev(inf.w, s.x[i]), sh.g - inf.w)
  }

  /** A table further down the stack: full width, and its range holds the other's. */
  ghost predicate Below(sh: Shape, lower: Info, upper: Info)
    requires ShapeOk(sh)
  {
    && lower.w + sh.l <= upper.w <= sh.g && lower.j >= sh.l
    && lower.start <= upper.start && End(sh, upper) <= End(sh, lower)
  }

  ghost predicate StackOk(sh: Shape, s: State)
    requires ShapeOk(sh)
  {
    && |s.u| == BMAX && |s.x| == BMAX + 1
    && -1 <= s.h < BMAX
    && (s.h == -1 ==> s.w + sh.l == 0 && s.tables == [])
    && (forall i :: 0 <= i <= s.h ==> s.u[i] < |s.info| && StackSlot(sh, s, i))
    && (s.h >= 0 ==> s.u[0] == 0 && s.info[0].w == 0 && s.w == Top(s).w)
    && (forall i, i' :: 0 <= i < i' <= s.h ==>
          Below(sh, s.info[s.u[i]], s.info[s.u[i']]))
    && (forall i :: 0 <= i < s.h ==> s.info[s.u[i + 1]].w == s.info[s.u[i]].w + sh.l)
  }

  ghost predicate OnStack(s: State, t: nat)
    requires s.h < |s.u|
  {
    exists i :: 0 <= i <= s.h && s.u[i] == t
  }

  /** A table with points from `pos` on is on the stack. */
  ghost predicate Covered(sh: Shape, s: State, pos: nat)
    requires ShapeOk(sh) && LayoutOk(sh, s.tables, s.info) && s.h < |s.u|
  {
    forall t :: 0 <= t < |s.info| ==> End(sh, s.info[t]) <= pos || OnStack(s, t)
  }

  /** All cells before `pos`, and those at `pos` in tables above bit w, are written. */
  ghost predicate Written(sh: Shape, s: State, pos: nat, w: int)
    requires ShapeOk(sh) && LayoutOk(sh, s.tables, s.info)
  {
    forall t, q :: 0 <= t < |s.info| && 0 <= q < Pow2(Eff(sh, s.info[t])) ==>
      (CellStart(sh, s.info[t], q) < pos || (CellStart(sh, s.info[t], q) == pos && s.info[t].w < w))
      ==> EntryOk(sh, s.tables, s.info, t, q)
  }

  ghost predicate Basic(sh: Shape, s: State, pos: nat)
  {
    && ShapeOk(sh) && LayoutOk(sh, s.tables, s.info) && StackOk(sh, s)
    && Covered(sh, s, pos) && WideUnwritten(sh, s.tables, s.info)
    && (s.w + sh.l <= sh.g ==> Aligned(pos, sh.g - (s.w + sh.l)))
  }

  /** Between two codes; the next one starts at pos, inside the top table. */
  ghost predicate Ready(sh: Shape, s: State, pos: nat)
  {
    && Basic(sh, s, pos) && Written(sh, s, pos, 0)
    && (s.h >= 0 ==> Top(s).start < pos < End(sh, Top(s)))
  }

  /** Tables for the code at pos are being opened. */
  ghost predicate Opening(sh: Shape, s: State, pos: nat)
  {
    && Basic(sh, s, pos) && Written(sh, s, pos, s.w)
    && (s.h >= 0 ==> Top(s).start <= pos < End(sh, Top(s)))
  }

  /** The code before pos has been written; finished tables are still on the stack. */
  ghost predicate Closing(sh: Shape, s: State, pos: nat)
  {
    && Basic(sh, s, pos) && Written(sh, s, pos, 0)
    && s.h >= 0 && Top(s).start < pos <= End(sh, Top(s))
  }

  /** A cell that reaches past pos belongs to a table on the stack, and if that is not
      the top table then the cell is not inside the top table's range. */
  lemma LowerCell(sh: Shape, s: State, pos: nat, t: nat, q: nat)
    requires Basic(sh, s, pos) && s.h >= 0 && Top(s).start <= pos
    requires t < |s.info| && q < Pow2(Eff(sh, s.info[t])) && t != s.u[s.h]
    requires pos <= CellStart(sh, s.info[t], q) < End(sh, Top(s))
    ensures CellStart(sh, s.info[t], q) == pos == Top(s).start && s.info[t].w < s.w
  {
    hide Low, Shl, Shr, Pow2, Rev;
    var inf, top := s.info[t], Top(s);
    CellBounds(sh, inf, q);
    assert End(sh, inf) > pos;
    assert OnStack(s, t);
    var i :| 0 <= i <= s.h && s.u[i] == t;
    assert Below(sh, inf, top);
    var x := CellStart(sh, inf, q);
    assert Aligned(x, sh.g - inf.w - sh.l);
    AlignedDown(x, sh.g - top.w, sh.g - inf.w - sh.l);
    if top.start < x {
      AlignedGap(top.start, x, sh.g - top.w);
    }
  }

  /** When the next code arrives, no unwritten cell starts at pos below the top. */
  lemma StartOpening(sh: Shape, s: State, pos: nat)
    requires Ready(sh, s, pos) && pos < Pow2(sh.g)
    ensures Opening(sh, s, pos)
  {
    hide Low, Shl, Shr, Pow2, Rev;
    forall t, q | 0 <= t < |s.info| && 0 <= q < Pow2(Eff(sh, s.info[t])) && s.info[t].w < s.w
      ensures CellStart(sh, s.info[t], q) != pos
    {
      if s.h >= 0 && CellStart(sh, s.info[t], q) == pos {
        LowerCell(sh, s, pos, t, q);
      }
    }
  }

  /** The pattern i of the code at pos, and how it continues the top table's pattern. */
  ghost predicate PatternOf(sh: Shape, i: nat, k: nat, pos: nat) {
    ShapeOk(sh) && k <= sh.g && i < Pow2(k) && Rev(sh.g, i) == pos
  }

  lemma TopPrefix(sh: Shape, s: State, pos: nat, i: nat, k: nat)
    requires Basic(sh, s, pos) && s.h >= 0 && Top(s).start <= pos < End(sh, Top(s))
    requires PatternOf(sh, i, k, pos)
    ensures Low(i, Top(s).w) == s.x[s.h]
    ensures Top(s).start == Shl(Rev(Top(s).w, i), sh.g - Top(s).w)
  {
    hide Low, Shl, Shr, Pow2, Rev;
    assert StackSlot(sh, s, s.h);
    RevPrefixTest(sh.g, Top(s).w, i, s.x[s.h]);
    RevLow(Top(s).w, i);
  }

  /** The state after a new table of j bits is allocated and linked into the top one. */
  ghost function Opened(sh: Shape, s: State, pos: nat, i: nat, j: nat): (s': State)
    requires ShapeOk(sh) && StackOk(sh, s) && s.h + 1 < BMAX && s.w + sh.l <= sh.g
    requires |s.tables| == |s.info|
    requires s.h >= 0 ==> Shr(i, s.w) < |s.tables[s.u[s.h]]|
  {
    var t := |s.tables|;
    var w := s.w + sh.l;
    var linked :=
      if s.h >= 0
      then s.tables[s.u[s.h] := s.tables[s.u[s.h]][Shr(i, s.w) := Huft(16 + j, sh.l, Ptr(t))]]
      else s.tables;
    State(linked + [seq(Pow2(j), _ => Junk)], s.info + [Info(w, j, pos)],
          s.h + 1, w, s.u[s.h + 1 := t], s.x[s.h + 1 := i])
  }

  /** The entry of the top table that leads on to the code at pos. */
  lemma LinkCell(sh: Shape, s: State, pos: nat, i: nat, k: nat)
    requires Opening(sh, s, pos) && s.h >= 0 && PatternOf(sh, i, k, pos)
    requires LenAt(sh.c, sh.g, pos) == k && k > s.w + sh.l
    ensures Top(s).j >= sh.l && i < Pow2(s.w + sh.l) && Shr(i, s.w) < Pow2(sh.l) <= Pow2(Top(s).j)
    ensures CellStart(sh, Top(s), Shr(i, s.w)) == pos
  {
    hide Low, Shl, Shr, Pow2, Rev, Start, EntryOk, Written, Covered, WideUnwritten, StackSlot, Below;
    var top := Top(s);
    if top.j < sh.l { StartMono(sh.c, sh.g, top.w + top.j + 1, k); }
    Pow2Mono(k, sh.g);
    RevAlignedShort(sh.g, s.w + sh.l, i);
    ShrBound(i, s.w, sh.l);
    ShrSmall(Shr(i, s.w), sh.l);
    Pow2Mono(sh.l, top.j);
    TopPrefix(sh, s, pos, i, k);
    LookupCell(sh, top, i);
    RevPad(s.w + sh.l, sh.g, i);
  }

  /** The conditions under which the next table may be opened for a code of length k. */
  ghost predicate CanOpen(sh: Shape, s: State, pos: nat, i: nat, k: nat, j: nat) {
    && Opening(sh, s, pos) && PatternOf(sh, i, k, pos) && pos < Pow2(sh.g)
    && LenAt(sh.c, sh.g, pos) == k && k > s.w + sh.l
    && InfoOk(sh, Info(s.w + sh.l, j, pos))
    && (s.h == -1 ==> pos == 0)
  }

  lemma OpenDefined(sh: Shape, s: State, pos: nat, i: nat, k: nat, j: nat)
    requires CanOpen(sh, s, pos, i, k, j)
    ensures s.h + 1 < BMAX && s.w + sh.l <= sh.g && i < Pow2(s.w + sh.l)
    ensures s.h >= 0 ==> Shr(i, s.w) < |s.tables[s.u[s.h]]|
  {
    hide Low, Shl, Shr, Pow2, Rev;
    if s.h >= 0 {
      LinkCell(sh, s, pos, i, k);
      assert StackSlot(sh, s, s.h);
    } else {
      Pow2Mono(k, sh.g);
      RevAlignedShort(sh.g, 0, i);
    }
  }

  lemma OpenKeepsSlots(sh: Shape, s: State, pos: nat, i: nat, k: nat, j: nat)
    requires CanOpen(sh, s, pos, i, k, j)
    requires s.h + 1 < BMAX && s.w + sh.l <= sh.g && i < Pow2(s.w + sh.l)
    requires s.h >= 0 ==> Shr(i, s.w) < |s.tables[s.u[s.h]]|
    ensures var s' := Opened(sh, s, pos, i, j);
            && LayoutOk(sh, s'.tables, s'.info)
            && forall n :: 0 <= n <= s'.h ==> s'.u[n] < |s'.info| && StackSlot(sh, s', n)
  {
    hide Low, Shl, Shr, Pow2, Rev, Start, Offset, EntryOk, Written, Covered, WideUnwritten, LenAt, CellStart;
    var s' := Opened(sh, s, pos, i, j);
    RevPad(s'.w, sh.g, i);
    forall n | 0 <= n <= s'.h ensures s'.u[n] < |s'.info| && StackSlot(sh, s', n) {
      if n <= s.h { assert StackSlot(sh, s, n); }
      if n == s'.h && s.h >= 0 { assert StackSlot(sh, s, s.h); }
    }
  }

  lemma OpenKeepsNesting(sh: Shape, s: State, pos: nat, i: nat, k: nat, j: nat)
    requires CanOpen(sh, s, pos, i, k, j)
    requires s.h + 1 < BMAX && s.w + sh.l <= sh.g && i < Pow2(s.w + sh.l)
    requires s.h >= 0 ==> Shr(i, s.w) < |s.tables[s.u[s.h]]|
    ensures var s' := Opened(sh, s, pos, i, j);
            forall n :: 0 <= n < s'.h ==> Below(sh, s'.info[s'.u[n]], s'.info[s'.u[s'.h]])
  {
    hide Low, Shl, Shr, Pow2, Rev, Start, Offset, EntryOk, Written, Covered, WideUnwritten, LenAt, CellStart;
    var s' := Opened(sh, s, pos, i, j);
    if s.h >= 0 {
      LinkCell(sh, s, pos, i, k);
      AlignedNested(pos, sh.g - s'.w, Top(s).start, sh.g - s.w);
    }
    forall n | 0 <= n < s'.h ensures Below(sh, s'.info[s'.u[n]], s'.info[s'.u[s'.h]]) {
      assert n < s.h ==> Below(sh, s.info[s.u[n]], Top(s));
    }
  }

  lemma OpenKeepsStack(sh: Shape, s: State, pos: nat, i: nat, k: nat, j: nat)
    requires CanOpen(sh, s, pos, i, k, j)
    ensures s.h + 1 < BMAX && s.w + sh.l <= sh.g
    ensures s.h >= 0 ==> Shr(i, s.w) < |s.tables[s.u[s.h]]|
    ensures var s' := Opened(sh, s, pos, i, j);
            LayoutOk(sh, s'.tables, s'.info) && StackOk(sh, s')
  {
    hide Low, Shl, Shr, Pow2, Rev, Start, Offset, EntryOk, Written, Covered, WideUnwritten, LenAt, CellStart, StackSlot, Below, InfoOk;
    OpenDefined(sh, s, pos, i, k, j);
    OpenKeepsSlots(sh, s, pos, i, k, j);
    OpenKeepsNesting(sh, s, pos, i, k, j);
  }

  lemma OpenKeepsCovered(sh: Shape, s: State, pos: nat, i: nat, j: nat)
    requires ShapeOk(sh) && StackOk(sh, s) && s.h + 1 < BMAX && s.w + sh.l <= sh.g && LayoutOk(sh, s.tables, s.info)
    requires s.h >= 0 ==> Shr(i, s.w) < |s.tables[s.u[s.h]]|
    requires var s' := Opened(sh, s, pos, i, j); LayoutOk(sh, s'.tables, s'.info) && StackOk(sh, s')
    requires Covered(sh, s, pos)
    ensures Covered(sh, Opened(sh, s, pos, i, j), pos)
  {
    hide Low, Shl, Shr, Pow2, Rev, Start, Offset, StackSlot, Below;
    var s' := Opened(sh, s, pos, i, j);
    forall t | 0 <= t < |s'.info| ensures End(sh, s'.info[t]) <= pos || OnStack(s', t) {
      if t == |s.info| {
        assert s'.u[s'.h] == t;
      } else if OnStack(s, t) {
        var n :| 0 <= n <= s.h && s.u[n] == t;
        assert s'.u[n] == t;
      }
    }
  }

  lemma OpenKeepsCover(sh: Shape, s: State, pos: nat, i: nat, k: nat, j: nat)
    requires CanOpen(sh, s, pos, i, k, j)
    ensures s.h + 1 < BMAX && s.w + sh.l <= sh.g
    ensures s.h >= 0 ==> Shr(i, s.w) < |s.tables[s.u[s.h]]|
    ensures Basic(sh, Opened(sh, s, pos, i, j), pos)
  {
    hide Low, Shl, Shr, Pow2, Rev, Start, Offset, EntryOk, Written, StackSlot, Below, LenAt, CellStart;
    OpenKeepsStack(sh, s, pos, i, k, j);
    var s' := Opened(sh, s, pos, i, j);
    OpenKeepsCovered(sh, s, pos, i, j);
    hide Covered;
    if s.h >= 0 { LinkCell(sh, s, pos, i, k); }
    if s'.w + sh.l <= sh.g { AlignedDown(pos, sh.g - (s'.w + sh.l), sh.g - s'.w); }
  }

  /** Opening a table writes the one link that leads to it. */
  lemma OpenTable(sh: Shape, s: State, pos: nat, i: nat, k: nat, j: nat)
    requires CanOpen(sh, s, pos, i, k, j)
    ensures s.h + 1 < BMAX && s.w + sh.l <= sh.g
    ensures s.h >= 0 ==> Shr(i, s.w) < |s.tables[s.u[s.h]]|
    ensures Opening(sh, Opened(sh, s, pos, i, j), pos)
  {
    hide Low, Shl, Shr, Pow2, Rev;
    OpenKeepsCover(sh, s, pos, i, k, j);
    var s' := Opened(sh, s, pos, i, j);
    forall t, q | 0 <= t < |s'.info| && 0 <= q < Pow2(Eff(sh, s'.info[t])) &&
                  (CellStart(sh, s'.info[t], q) < pos || (CellStart(sh, s'.info[t], q) == pos && s'.info[t].w < s'.w))
      ensures EntryOk(sh, s'.tables, s'.info, t, q)
    {
      OpenKeepsEntry(sh, s, pos, i, k, j, t, q);
    }
  }

  lemma OpenKeepsEntry(sh: Shape, s: State, pos: nat, i: nat, k: nat, j: nat, t: nat, q: nat)
    requires CanOpen(sh, s, pos, i, k, j)
    requires s.h + 1 < BMAX && s.w + sh.l <= sh.g
    requires s.h >= 0 ==> Shr(i, s.w) < |s.tables[s.u[s.h]]|
    requires Basic(sh, Opened(sh, s, pos, i, j), pos)
    requires t <= |s.info| && q < Pow2(Eff(sh, Opened(sh, s, pos, i, j).info[t]))
    requires var s' := Opened(sh, s, pos, i, j);
             CellStart(sh, s'.info[t], q) < pos ||
             (CellStart(sh, s'.info[t], q) == pos && s'.info[t].w < s'.w)
    ensures var s' := Opened(sh, s, pos, i, j); EntryOk(sh, s'.tables, s'.info, t, q)
  {
    hide Low, Shl, Shr, Pow2, Rev, LeafMatches, Start, Offset, StackSlot, Below, WideUnwritten;
    var s' := Opened(sh, s, pos, i, j);
    CellBounds(sh, s'.info[t], q);
    assert t < |s.info|;
    var inf := s.info[t];
    var top := s.u[s.h];
    LinkCell(sh, s, pos, i, k);
    if t == top && CellStart(sh, inf, q) == pos {
      SameCell(sh, inf, q, Shr(i, s.w));
    } else {
      if CellStart(sh, inf, q) == pos { LowerCell(sh, s, pos, t, q); }
      assert EntryOk(sh, s.tables, s.info, t, q);
      assert s'.tables[t][q] == s.tables[t][q];
      EntryExtends(sh, s.tables, s.info, s'.tables, s'.info, t, q);
    }
  }

  /** An entry stays right when tables are added. */
  lemma EntryExtends(sh: Shape, tables: Tables, info: seq<Info>, tables': Tables, info': seq<Info>, t: nat, q: nat)
    requires ShapeOk(sh) && |tables| == |info| && t < |info| && InfoOk(sh, info[t]) && EntryOk(sh, tables, info, t, q)
    requires |tables'| == |info'| >= |info| && info'[..|info|] == info
    requires |tables'[t]| == |tables[t]| && tables'[t][q] == tables[t][q]
    ensures info'[t] == info[t] && EntryOk(sh, tables', info', t, q)
  {
    hide LenAt, RankAt, CellStart, LeafMatches, InfoOk, ShapeOk;
    forall n | 0 <= n < |info| ensures info'[n] == info[n] { assert info'[..|info|][n] == info[n]; }
  }

  /** Different entries serve different cells. */
  lemma SameCell(sh: Shape, inf: Info, q: nat, q': nat)
    requires ShapeOk(sh) && InfoOk(sh, inf) && q < Pow2(Eff(sh, inf)) && q' < Pow2(Eff(sh, inf))
    requires CellStart(sh, inf, q) == CellStart(sh, inf, q')
    ensures q == q'
  {
    hide Low, Shl, Shr, Pow2, Rev;
    var j := Eff(sh, inf);
    if Rev(j, q) < Rev(j, q') { ShlMono(Rev(j, q), Rev(j, q'), sh.g - inf.w - j); }
    if Rev(j, q') < Rev(j, q) { ShlMono(Rev(j, q'), Rev(j, q), sh.g - inf.w - j); }
    RevInjective(j, q, q');
  }

  /** Scaling an interval test by a power of two. */
  lemma ScaledInterval(a: nat, b: nat, n: nat, e: nat)
    ensures a <= b < a + Pow2(n) <==> Shl(a, e) <= Shl(b, e) < Shl(a, e) + Pow2(n + e)
  {
    hide *;
    ShlAdd(a, Pow2(n), e);
    ShlPow2(n, e);
    if a <= b { ShlMono(a, b, e); } else { ShlMono(b, a, e); Pow2Positive(e); }
    if b < a + Pow2(n) { ShlMono(b, a + Pow2(n), e); Pow2Positive(e); } else { ShlMono(a + Pow2(n), b, e); }
  }

  /** The point of a code, seen from the table that holds it. */
  lemma CodePoint(sh: Shape, inf: Info, i: nat, k: nat, pos: nat)
    requires PatternOf(sh, i, k, pos) && inf.w < k
    requires inf.start == Shl(Rev(inf.w, i), sh.g - inf.w)
    ensures Shr(i, inf.w) < Pow2(k - inf.w)
    ensures pos == inf.start + Shl(Rev(k - inf.w, Shr(i, inf.w)), sh.g - k)
  {
    hide Low, Shl, Shr, Pow2, Rev;
    ShrBound(i, inf.w, k - inf.w);
    RevPad(k, sh.g, i);
    RevSplit(inf.w, k - inf.w, i);
    ShlAdd(Shl(Rev(inf.w, i), k - inf.w), Rev(k - inf.w, Shr(i, inf.w)), sh.g - k);
    ShlShl(Rev(inf.w, i), k - inf.w, sh.g - k);
  }

  /** The entries that the fill loop writes are those whose cells lie in the code's interval. */
  lemma FilledCells(sh: Shape, inf: Info, i: nat, k: nat, pos: nat, q: nat)
    requires PatternOf(sh, i, k, pos) && InfoOk(sh, inf) && !Wide(sh, inf)
    requires inf.w < k <= inf.w + inf.j
    requires inf.start == Shl(Rev(inf.w, i), sh.g - inf.w)
    ensures Low(q, k - inf.w) == Shr(i, inf.w)
            <==> pos <= CellStart(sh, inf, q) < pos + Pow2(sh.g - k)
  {
    hide Low, Shl, Shr, Pow2, Rev;
    var d := k - inf.w;
    var first := Shr(i, inf.w);
    CodePoint(sh, inf, i, k, pos);
    RevPrefixTest(inf.j, d, q, first);
    ScaledInterval(Shl(Rev(d, first), inf.j - d), Rev(inf.j, q), inf.j - d, sh.g - inf.w - inf.j);
    ShlShl(Rev(d, first), inf.j - d, sh.g - inf.w - inf.j);
  }

  /** The state after the entries of one code are filled in the top table. */
  ghost predicate Fills(s: State, s': State, i: nat, k: nat, r: Huft)
    requires 0 <= s.h < |s.u| && s.u[s.h] < |s.tables| && s.w >= 0 && s.w < k
  {
    var t := s.u[s.h];
    && |s'.tables| == |s.tables| && s'.tables == s.tables[t := s'.tables[t]]
    && s' == s.(tables := s'.tables)
    && |s'.tables[t]| == |s.tables[t]|
    && forall q :: 0 <= q < |s.tables[t]| ==>
         s'.tables[t][q] == if Low(q, k - s.w) == Shr(i, s.w) then r else s.tables[t][q]
  }

  /** What is known when the code at pos, number m of length k, goes into the top table. */
  ghost predicate CanWrite(sh: Shape, s: State, pos: nat, i: nat, k: nat, m: nat, r: Huft) {
    && Opening(sh, s, pos) && s.h >= 0 && PatternOf(sh, i, k, pos)
    && s.w < k <= s.w + sh.l && m < sh.c[k] && pos == CodeStart(sh.c, sh.g, k, m)
    && r.Huft? && r.b == k - s.w && LeafMatches(sh, r, Offset(sh.c, k) + m)
  }

  /** The top table is wide enough for the code, and not a wide one. */
  lemma TopFits(sh: Shape, s: State, pos: nat, i: nat, k: nat, m: nat, r: Huft)
    requires CanWrite(sh, s, pos, i, k, m, r)
    ensures !Wide(sh, Top(s)) && k <= s.w + Top(s).j
    ensures pos + Pow2(sh.g - k) <= End(sh, Top(s)) && Aligned(pos, sh.g - k)
  {
    hide Low, Shl, Shr, Pow2, Rev, Written, Covered, WideUnwritten, StackSlot, Below, LeafMatches, Offset;
    var top := Top(s);
    CodeInterval(sh.c, sh.g, k, m, pos);
    if top.j < sh.l && k > s.w + top.j { StartMono(sh.c, sh.g, s.w + top.j + 1, k); }
    if Wide(sh, top) { StartMono(sh.c, sh.g, k + 1, LenAt(sh.c, sh.g, top.start)); }
    TopHolds(sh, s, pos, i, k, m, r);
  }

  lemma TopHolds(sh: Shape, s: State, pos: nat, i: nat, k: nat, m: nat, r: Huft)
    requires CanWrite(sh, s, pos, i, k, m, r)
    ensures pos + Pow2(sh.g - k) <= End(sh, Top(s)) && Aligned(pos, sh.g - k)
  {
    hide Low, Shl, Shr, Pow2, Rev, Written, Covered, WideUnwritten, StackSlot, Below, LeafMatches, Offset, LenAt;
    var top := Top(s);
    CodeInterval(sh.c, sh.g, k, m, pos);
    CodeStartAligned(sh.c, sh.g, k, m);
    ShlAligned(NextCode(sh.c, k) + m, sh.g - k);
    AlignedNested(pos, sh.g - k, top.start, sh.g - top.w);
  }

  lemma WriteKeepsEntry(sh: Shape, s: State, s': State, pos: nat, i: nat, k: nat, m: nat, r: Huft, t: nat, q: nat)
    requires CanWrite(sh, s, pos, i, k, m, r) && Fills(s, s', i, k, r) && LayoutOk(sh, s'.tables, s'.info)
    requires t < |s.info| && q < Pow2(Eff(sh, s.info[t]))
    requires CellStart(sh, s.info[t], q) < pos + Pow2(sh.g - k)
    ensures EntryOk(sh, s'.tables, s'.info, t, q)
  {
    hide Low, Shl, Shr, Pow2, Rev, StackSlot, Below, Covered, RankAt, LenAt, WideUnwritten;
    TopFits(sh, s, pos, i, k, m, r);
    var x := CellStart(sh, s.info[t], q);
    if t == s.u[s.h] {
      TopPrefix(sh, s, pos, i, k);
      FilledCells(sh, Top(s), i, k, pos, q);
      if pos <= x {
        WriteNewEntry(sh, s, s', pos, i, k, m, r, q);
      } else {
        assert EntryOk(sh, s.tables, s.info, t, q);
      }
    } else {
      if pos <= x { LowerCell(sh, s, pos, t, q); }
      assert EntryOk(sh, s.tables, s.info, t, q);
    }
  }

  lemma WriteNewEntry(sh: Shape, s: State, s': State, pos: nat, i: nat, k: nat, m: nat, r: Huft, q: nat)
    requires CanWrite(sh, s, pos, i, k, m, r) && Fills(s, s', i, k, r) && LayoutOk(sh, s'.tables, s'.info)
    requires !Wide(sh, Top(s)) && k <= s.w + Top(s).j && q < Pow2(Eff(sh, Top(s)))
    requires pos <= CellStart(sh, Top(s), q) < pos + Pow2(sh.g - k)
    requires Low(q, k - s.w) == Shr(i, s.w)
    ensures EntryOk(sh, s'.tables, s'.info, s.u[s.h], q)
  {
    hide Low, Shl, Shr, Pow2, Rev, Covered, Written, WideUnwritten;
    CodeInterval(sh.c, sh.g, k, m, CellStart(sh, Top(s), q));
    assert s'.tables[s.u[s.h]][q] == r;
  }

  lemma WriteKeepsBasic(sh: Shape, s: State, s': State, pos: nat, i: nat, k: nat, m: nat, r: Huft)
    requires CanWrite(sh, s, pos, i, k, m, r) && Fills(s, s', i, k, r)
    ensures Basic(sh, s', pos + Pow2(sh.g - k))
  {
    hide Low, Shl, Shr, Pow2, Rev, Start, EntryOk, CellStart, StackSlot, Below, LenAt, LeafMatches, Written, Covered, OnStack;
    TopFits(sh, s, pos, i, k, m, r);
    var pos' := pos + Pow2(sh.g - k);
    Pow2Aligned(sh.g - k, sh.g - k);
    AlignedAdd(pos, Pow2(sh.g - k), sh.g - k);
    if s.w + sh.l <= sh.g { AlignedDown(pos', sh.g - (s.w + sh.l), sh.g - k); }
    SameStack(sh, s, s');
    SameCover(sh, s, s', pos, pos');
  }

  lemma SameCover(sh: Shape, s: State, s': State, pos: nat, pos': nat)
    requires ShapeOk(sh) && LayoutOk(sh, s.tables, s.info) && LayoutOk(sh, s'.tables, s'.info)
    requires s.h < |s.u| && s'.u == s.u && s'.h == s.h && s'.info == s.info
    requires Covered(sh, s, pos) && pos <= pos'
    ensures Covered(sh, s', pos')
  {
    hide Low, Shl, Shr, Pow2, Rev, Start;
    forall t | 0 <= t < |s'.info| ensures End(sh, s'.info[t]) <= pos' || OnStack(s', t) {
      if OnStack(s, t) {
        var n :| 0 <= n <= s.h && s.u[n] == t;
        assert s'.u[n] == t;
      }
    }
  }

  lemma SameStack(sh: Shape, s: State, s': State)
    requires ShapeOk(sh) && StackOk(sh, s) && s.h >= 0 && s' == s.(tables := s'.tables)
    ensures StackOk(sh, s')
  {
    hide Low, Shl, Shr, Pow2, Rev, Below;
    forall n | 0 <= n <= s'.h ensures s'.u[n] < |s'.info| && StackSlot(sh, s', n) {
      assert StackSlot(sh, s, n);
    }
  }

  /** Writing a code completes every cell of its interval. */
  lemma WriteCode(sh: Shape, s: State, s': State, pos: nat, i: nat, k: nat, m: nat, r: Huft)
    requires CanWrite(sh, s, pos, i, k, m, r) && Fills(s, s', i, k, r)
    ensures Closing(sh, s', pos + Pow2(sh.g - k))
  {
    hide Low, Shl, Shr, Pow2, Rev;
    TopFits(sh, s, pos, i, k, m, r);
    WriteKeepsBasic(sh, s, s', pos, i, k, m, r);
    var pos' := pos + Pow2(sh.g - k);
    forall t, q | 0 <= t < |s'.info| && 0 <= q < Pow2(Eff(sh, s'.info[t])) && CellStart(sh, s'.info[t], q) < pos'
      ensures EntryOk(sh, s'.tables, s'.info, t, q)
    {
      WriteKeepsEntry(sh, s, s', pos, i, k, m, r, t, q);
    }
  }

  ghost function Popped(sh: Shape, s: State): (s': State) {
    s.(h := s.h - 1, w := s.w - sh.l)
  }

  lemma PopKeepsStack(sh: Shape, s: State)
    requires ShapeOk(sh) && StackOk(sh, s) && s.h >= 1
    ensures StackOk(sh, Popped(sh, s)) && Below(sh, Top(Popped(sh, s)), Top(s))
  {
    hide Low, Shl, Shr, Pow2, Rev, ShapeOk;
    var s' := Popped(sh, s);
    forall n | 0 <= n <= s'.h ensures s'.u[n] < |s'.info| && StackSlot(sh, s', n) {
      assert StackSlot(sh, s, n);
    }
  }

  lemma PopKeepsCover(sh: Shape, s: State, pos: nat)
    requires ShapeOk(sh) && LayoutOk(sh, s.tables, s.info) && 1 <= s.h < |s.u| && s.u[s.h] < |s.info|
    requires Covered(sh, s, pos) && pos == End(sh, Top(s))
    ensures Covered(sh, Popped(sh, s), pos)
  {
    hide Low, Shl, Shr, Pow2, Rev, Start;
    var s' := Popped(sh, s);
    forall t | 0 <= t < |s'.info| ensures End(sh, s'.info[t]) <= pos || OnStack(s', t) {
      if OnStack(s, t) && t != s.u[s.h] {
        var n :| 0 <= n <= s.h && s.u[n] == t;
        assert s'.u[n] == t;
      }
    }
  }

  /** A finished top table comes off the stack. */
  lemma PopTable(sh: Shape, s: State, pos: nat)
    requires Closing(sh, s, pos) && pos == End(sh, Top(s)) && s.h >= 1
    ensures Closing(sh, Popped(sh, s), pos)
  {
    hide Low, Shl, Shr, Pow2, Rev, EntryOk, CellStart, Start, Covered, StackSlot;
    var top := Top(s);
    PopKeepsStack(sh, s);
    PopKeepsCover(sh, s, pos);
    Pow2Aligned(sh.g - top.w, sh.g - top.w);
    AlignedAdd(top.start, Pow2(sh.g - top.w), sh.g - top.w);
  }

  /** The backup test: the next pattern leaves the top table exactly when it is finished. */
  lemma BackupTest(sh: Shape, s: State, pos: nat, i: nat, k: nat)
    requires Closing(sh, s, pos)
    requires if pos < Pow2(sh.g) then PatternOf(sh, i, k, pos) else i == 0
    ensures Low(i, s.w) != s.x[s.h] ==> s.h >= 1 && pos == End(sh, Top(s))
    ensures Low(i, s.w) == s.x[s.h] && pos < Pow2(sh.g) ==> Ready(sh, s, pos)
  {
    hide Low, Shl, Shr, Pow2, Rev, EntryOk, CellStart, Start;
    assert StackSlot(sh, s, s.h);
    if s.h == 0 { WidthZero(i, s.x[0]); }
    RevPrefixTest(sh.g, s.w, i, s.x[s.h]);
  }

  lemma WidthZero(i: nat, x: nat)
    requires x < Pow2(0)
    ensures Low(i, 0) == x
  {}
}
