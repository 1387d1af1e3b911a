/** The main loop of huft_build: generate the codes in canonical order and make the
    table entries for each. */
module HuftPlacement {
  import opened Bits
  import opened HuffmanCode
  import opened HuftTables
  import opened HuftInvariant

  /** The number of index bits for the table opened at bit w for a code of length k, of
      which a more follow: the smallest that all codes below this prefix fit into, but
      at most l, unless already the first code needs more. */
  method TableBits(c: seq<nat>, g: nat, l: nat, k: nat, w: nat, a: nat, ghost sh: Shape, ghost m: nat)
    returns (j: nat)
    requires ShapeOk(sh) && c == sh.c && g == sh.g && l == sh.l
    requires w < k <= g && m + a + 1 == c[k]
    requires Aligned(CodeStart(c, g, k, m), g - w)
    ensures k - w <= j && w + j <= g && (j <= l || j == k - w)
    ensures j < l ==> Start(c, g, w + j + 1) >= CodeStart(c, g, k, m) + Pow2(g - w)
    ensures Start(c, g, w + j) < CodeStart(c, g, k, m) + Pow2(g - w)
  {
    hide Low, Shl, Shr, Pow2, Rev, CodeStart, LenAt, Start;
    ghost var end := CodeStart(c, g, k, m) + Pow2(g - w);
    CodesLeft(sh, k, m, a, w);
    StartBelow(c, g, k, m, w);
    var z := if g - w > l then l else g - w;
    j := k - w;
    var f := Pow2(j);
    if f > a + 1 {
      ShlAdd(f - (a + 1), a + 1, g - k);
      f := f - (a + 1);
      ShlGrows(f, g - k);
      var xp := k;
      if j < z {
        j := j + 1;
        while j < z
          invariant k - w < j <= z && xp == w + j - 1
          invariant f > 0 && Shl(f, g - xp) + Start(c, g, xp + 1) == end && Start(c, g, xp + 1) < end
        {
          NextWidth(c, g, xp, f, end);
          f := 2 * f;
          xp := xp + 1;
          if f <= c[xp] { break; }
          f := f - c[xp];
          j := j + 1;
        }
      }
    } else {
      ShlMono(f, a + 1, g - k);
    }
  }

  /** One bit more: the codes of that length fill what is left, or leave some of it. */
  lemma NextWidth(c: seq<nat>, g: nat, k: nat, f: nat, end: nat)
    requires 1 <= k < g < |c| && Shl(f, g - k) + Start(c, g, k + 1) == end
    ensures 2 * f <= c[k + 1] ==> Start(c, g, k + 2) >= end
    ensures 2 * f > c[k + 1] ==> Shl(2 * f - c[k + 1], g - (k + 1)) + Start(c, g, k + 2) == end && Start(c, g, k + 2) < end
  {
    hide Shl;
    Doubled(f, g - (k + 1));
    if 2 * f <= c[k + 1] {
      ShlMono(2 * f, c[k + 1], g - (k + 1));
    } else {
      ShlAdd(2 * f - c[k + 1], c[k + 1], g - (k + 1));
      ShlGrows(2 * f - c[k + 1], g - (k + 1));
    }
  }

  lemma StartBelow(c: seq<nat>, g: nat, k: nat, m: nat, w: nat)
    requires 1 <= k <= g < |c| && w < k
    ensures Start(c, g, k) < CodeStart(c, g, k, m) + Pow2(g - w)
  {}

  lemma ShlGrows(x: nat, n: nat)
    requires x > 0
    ensures Shl(x, n) > 0
  {
    ShlMono(0, x, n);
  }

  /** A table of the chosen size is what its place in the code space asks for. */
  lemma TableInfo(sh: Shape, k: nat, m: nat, w: nat, j: nat)
    requires ShapeOk(sh) && w < k <= sh.g && m < sh.c[k] && IsLevel(sh.l, w)
    requires Aligned(CodeStart(sh.c, sh.g, k, m), sh.g - w)
    requires k - w <= j && w + j <= sh.g && (j <= sh.l || j == k - w)
    requires j < sh.l ==> Start(sh.c, sh.g, w + j + 1) >= CodeStart(sh.c, sh.g, k, m) + Pow2(sh.g - w)
    requires Start(sh.c, sh.g, w + j) < CodeStart(sh.c, sh.g, k, m) + Pow2(sh.g - w)
    ensures InfoOk(sh, Info(w, j, CodeStart(sh.c, sh.g, k, m)))
    ensures LenAt(sh.c, sh.g, CodeStart(sh.c, sh.g, k, m)) == k
  {
    hide Low, Shl, Shr, Pow2, Rev;
    Pow2Positive(sh.g - k);
    CodeInterval(sh.c, sh.g, k, m, CodeStart(sh.c, sh.g, k, m));
    TableRange(sh.g, w, CodeStart(sh.c, sh.g, k, m));
  }

  lemma Doubled(f: nat, n: nat)
    ensures Shl(2 * f, n) == Shl(f, n + 1)
  {
    ShlTwice(f, n);
  }

  lemma TableRange(g: nat, w: nat, pos: nat)
    requires w <= g && pos < Pow2(g) && Aligned(pos, g - w)
    ensures pos + Pow2(g - w) <= Pow2(g)
  {
    hide Low, Pow2;
    Pow2Aligned(g, g - w);
    AlignedGap(pos, Pow2(g), g - w);
  }

  /** After code m of length k, a more codes of that length remain. */
  lemma CodesLeft(sh: Shape, k: nat, m: nat, a: nat, w: nat)
    requires ShapeOk(sh) && 1 <= k <= sh.g && m + a + 1 == sh.c[k] && w < k
    requires Aligned(CodeStart(sh.c, sh.g, k, m), sh.g - w)
    ensures CodeStart(sh.c, sh.g, k, m) + Shl(a + 1, sh.g - k) == Start(sh.c, sh.g, k + 1)
    ensures Shl(Pow2(k - w), sh.g - k) == Pow2(sh.g - w)
    ensures CodeStart(sh.c, sh.g, k, m) + Pow2(sh.g - w) <= Start(sh.c, sh.g, sh.g + 1)
  {
    hide Low, Shl, Shr, Pow2, Rev;
    Pow2Positive(sh.g - k);
    ShlAdd(m, a + 1, sh.g - k);
    ShlPow2(k - w, sh.g - k);
    CodeInterval(sh.c, sh.g, k, m, CodeStart(sh.c, sh.g, k, m));
    TableRange(sh.g, w, CodeStart(sh.c, sh.g, k, m));
  }

  /** Between two consecutive numbers with low part r there is no third. */
  lemma BetweenMultiples(n: nat, r: nat, d: nat, q: nat)
    requires Shl(n, d) + r < q < Shl(n + 1, d) + r
    ensures Low(q, d) != r
  {
    hide *;
    Decompose(q, d);
    if Low(q, d) == r {
      var h := Shr(q, d);
      if h <= n { ShlMono(h, n, d); } else { ShlMono(n + 1, h, d); }
    }
  }

  lemma NextMultiple(n: nat, d: nat)
    ensures Shl(n + 1, d) == Shl(n, d) + Pow2(d)
  {
    ShlAdd(n, 1, d);
    ShlPow2(0, d);
  }

  /** Every 2^d-th entry from `first` on receives r. */
  method FillEntries(table: seq<Huft>, z: nat, first: nat, d: nat, r: Huft) returns (table': seq<Huft>)
    requires first < Pow2(d) && z == |table|
    ensures |table'| == |table|
    ensures forall q :: 0 <= q < |table| ==> table'[q] == if Low(q, d) == first then r else table[q]
  {
    hide Low, Shl, Pow2;
    table' := table;
    ghost var n := 0;
    var j := first;
    ShlZero(d);
    forall q | 0 <= q < first ensures Low(q, d) != first { ShrSmall(q, d); }
    while j < z
      invariant |table'| == |table| && j == Shl(n, d) + first
      invariant forall q :: 0 <= q < |table| ==>
                  table'[q] == if Low(q, d) == first && q < j then r else table[q]
      decreases z - j
    {
      Recompose(n, first, d);
      NextMultiple(n, d);
      forall q | j < q < j + Pow2(d) ensures Low(q, d) != first {
        BetweenMultiples(n, first, d, q);
      }
      table' := table'[j := r];
      n := n + 1;
      j := j + Pow2(d);
    }
  }

  /** Adding one to a k-bit code whose first bit is the most significant: clear ones from
      the last bit backwards, then set the first zero found. All ones wrap to zero. */
  method BackIncrement(k: nat, i0: nat) returns (i: nat)
    requires 1 <= k && i0 < Pow2(k)
    ensures i < Pow2(k)
    ensures Rev(k, i0) < Pow2(k) - 1 ==> Rev(k, i) == Rev(k, i0) + 1
    ensures Rev(k, i0) == Pow2(k) - 1 ==> i == 0
  {
    hide Low, Shl, Shr, Pow2, Rev;
    i := i0;
    // j == 1 << t while t >= 0, and j == 0 once t == -1
    var t := k - 1;
    Pow2AtZero();
    while t >= 0 && Shr(i, t) % 2 == 1
      invariant -1 <= t < k && i < Pow2(t + 1)
      invariant Rev(k, i0) + 1 == Rev(k, i) + Pow2(k - 1 - t)
    {
      TopBit(i, t);
      i := i - Pow2(t);
      RevSetBit(k, t, i);
      Pow2Step(k - 1 - t);
      t := t - 1;
    }
    if t >= 0 {
      TopBit(i, t);
      RevSetBit(k, t, i);
      i := i + Pow2(t);
      Pow2Mono(t + 1, k);
    } else {
      RevZero(k);
    }
  }

  lemma Pow2Step(n: nat)
    ensures Pow2(n + 1) == 2 * Pow2(n)
  {}

  lemma TopBit(i: nat, t: nat)
    requires i < Pow2(t + 1)
    ensures Shr(i, t) % 2 == 1 ==> i >= Pow2(t) && i - Pow2(t) < Pow2(t)
    ensures Shr(i, t) % 2 == 0 ==> i < Pow2(t)
  {
    ShrBound(i, t, 1);
    Decompose(i, t);
    ShlPow2(0, t);
    ShlZero(t);
  }

  /** q and z describe the top table, unless the next code is going to open a new one. */
  ghost predicate Current(sh: Shape, s: State, q: nat, z: nat, k: nat) {
    && ShapeOk(sh) && LayoutOk(sh, s.tables, s.info) && StackOk(sh, s)
    && (k > s.w + sh.l || (s.h >= 0 && q == s.u[s.h] && z == Pow2(Top(s).j)))
    && (s.h >= 0 ==> s.w < k)
  }

  /** The code to be placed: number m of length k, pattern i, a codes of length k after it. */
  ghost predicate CodeHere(sh: Shape, pos: nat, i: nat, k: nat, m: nat, a: nat) {
    && PatternOf(sh, i, k, pos) && 1 <= k && m + a + 1 == sh.c[k] && pos == CodeStart(sh.c, sh.g, k, m)
    && pos < Pow2(sh.g) && LenAt(sh.c, sh.g, pos) == k
  }

  /** Opens and links tables until the code fits into the top one. */
  method OpenTables(c: seq<nat>, g: nat, l: nat, k: nat, a: nat, i: nat,
                    tables0: Tables, u0: seq<nat>, x0: seq<nat>, h0: int, w0: int, q0: nat, z0: nat, rv0: Value,
                    ghost sh: Shape, ghost info0: seq<Info>, ghost pos: nat, ghost m: nat)
    returns (tables: Tables, u: seq<nat>, x: seq<nat>, h: int, w: int, q: nat, z: nat, rv: Value, ghost info: seq<Info>)
    requires ShapeOk(sh) && c == sh.c && g == sh.g && l == sh.l && CodeHere(sh, pos, i, k, m, a)
    requires Opening(sh, State(tables0, info0, h0, w0, u0, x0), pos)
    requires Current(sh, State(tables0, info0, h0, w0, u0, x0), q0, z0, k)
    requires h0 == -1 ==> pos == 0 && i == 0 && x0[0] == 0
    ensures Opening(sh, State(tables, info, h, w, u, x), pos) && h >= 0
    ensures Current(sh, State(tables, info, h, w, u, x), q, z, k) && w < k <= w + l
    ensures l == g ==> rv == rv0
  {
    hide Low, Shl, Shr, Pow2, Rev, CodeStart, LenAt, Start, Opening, InfoOk, StackSlot, Below;
    tables, u, x, h, w, q, z, rv, info := tables0, u0, x0, h0, w0, q0, z0, rv0, info0;
    while k > w + l
      invariant Opening(sh, State(tables, info, h, w, u, x), pos)
      invariant Current(sh, State(tables, info, h, w, u, x), q, z, k)
      invariant h == -1 ==> pos == 0 && i == 0 && x[0] == 0
      invariant l == g ==> rv == rv0
      decreases k - w
    {
      ghost var s := State(tables, info, h, w, u, x);
      h := h + 1;
      w := w + l;
      OpenAligned(sh, s, pos);
      var j := TableBits(c, g, l, k, w, a, sh, m);
      OpenStep(sh, s, pos, i, k, m, a, j);
      tables, u, x, q, z, rv := AddTable(l, j, i, tables, u, x, h, w, rv, sh, s, pos);
      info := info + [Info(w, j, pos)];
    }
  }

  /** A new table, on the stack and linked from the table above it. */
  method AddTable(l: nat, j: nat, i: nat, tables0: Tables, u0: seq<nat>, x0: seq<nat>, h: nat, w: nat, rv0: Value,
                  ghost sh: Shape, ghost s: State, ghost pos: nat)
    returns (tables: Tables, u: seq<nat>, x: seq<nat>, q: nat, z: nat, rv: Value)
    requires ShapeOk(sh) && StackOk(sh, s) && l == sh.l && s.h + 1 == h < BMAX && s.w + l == w <= sh.g && |s.tables| == |s.info|
    requires s.h >= 0 ==> Shr(i, s.w) < |s.tables[s.u[s.h]]|
    requires s == State(tables0, s.info, s.h, s.w, u0, x0) && (h == 0 ==> x0[0] == i)
    ensures State(tables, s.info + [Info(w, j, pos)], h, w, u, x) == Opened(sh, s, pos, i, j)
    ensures q == |tables0| && z == Pow2(j) && rv == if h == 0 then rv0 else Ptr(q)
  {
    hide Low, Shl, Shr, Pow2, Rev, StackSlot, Below;
    tables, u, x, rv := tables0, u0, x0, rv0;
    z := Pow2(j);
    q := |tables|;
    if h != 0 {
      x := x[h := i];
      rv := Ptr(q);
      var n := Shr(i, w - l);
      tables := tables[u[h - 1] := tables[u[h - 1]][n := Huft(16 + j, l, rv)]];
    }
    u := u[h := q];
    tables := tables + [seq(z, _ => Junk)];
  }

  lemma OpenAligned(sh: Shape, s: State, pos: nat)
    requires Opening(sh, s, pos)
    ensures s.w + sh.l <= sh.g ==> s.w + sh.l >= 0 && Aligned(pos, sh.g - (s.w + sh.l))
  {
    hide Low, Pow2, Written, Covered, WideUnwritten, LayoutOk;
    assert s.h >= 0 ==> StackSlot(sh, s, s.h);
  }

  /** One more table for the code at pos. */
  lemma OpenStep(sh: Shape, s: State, pos: nat, i: nat, k: nat, m: nat, a: nat, j: nat)
    requires Opening(sh, s, pos) && CodeHere(sh, pos, i, k, m, a) && s.w + sh.l < k
    requires s.h == -1 ==> pos == 0
    requires 0 <= s.w + sh.l && Aligned(pos, sh.g - (s.w + sh.l))
    requires k - (s.w + sh.l) <= j && s.w + sh.l + j <= sh.g && (j <= sh.l || j == k - (s.w + sh.l))
    requires j < sh.l ==> Start(sh.c, sh.g, s.w + sh.l + j + 1) >= CodeStart(sh.c, sh.g, k, m) + Pow2(sh.g - (s.w + sh.l))
    requires Start(sh.c, sh.g, s.w + sh.l + j) < CodeStart(sh.c, sh.g, k, m) + Pow2(sh.g - (s.w + sh.l))
    ensures s.h + 1 < BMAX && s.w + sh.l <= sh.g && StackOk(sh, s) && |s.tables| == |s.info|
    ensures s.h >= 0 ==> Shr(i, s.w) < |s.tables[s.u[s.h]]|
    ensures var s' := Opened(sh, s, pos, i, j);
            && Opening(sh, s', pos) && LayoutOk(sh, s'.tables, s'.info) && StackOk(sh, s')
            && Top(s') == Info(s'.w, j, pos)
  {
    hide Low, Shl, Shr, Pow2, Rev, CodeStart, LenAt, Start, Written, Covered, WideUnwritten, InfoOk, Below;
    LevelAbove(sh, s);
    TableInfo(sh, k, m, s.w + sh.l, j);
    OpenTable(sh, s, pos, i, k, j);
  }

  lemma LevelAbove(sh: Shape, s: State)
    requires ShapeOk(sh) && LayoutOk(sh, s.tables, s.info) && StackOk(sh, s)
    ensures s.w + sh.l >= 0 && IsLevel(sh.l, s.w + sh.l)
  {}

  /** What e and v.n an entry for symbol `sym` carries. */
  function LeafOf(sym: nat, simple: nat, base: seq<nat>, extra: seq<nat>): (r: Leaf)
    requires sym < simple || (sym - simple < |base| && sym - simple < |extra|)
  {
    if sym < simple then Leaf(if sym < 256 then LITERAL else END_OF_BLOCK, sym)
    else Leaf(extra[sym - simple], base[sym - simple])
  }

  ghost predicate SymbolsOk(v: seq<nat>, simple: nat, base: seq<nat>, extra: seq<nat>) {
    && |base| == |extra|
    && (forall r :: 0 <= r < |v| ==> v[r] < simple + |base|)
    && (forall n :: 0 <= n < |extra| ==> extra[n] <= 16 || extra[n] == UNUSED)
  }

  ghost function Leaves(v: seq<nat>, simple: nat, base: seq<nat>, extra: seq<nat>): (r: seq<Leaf>)
    requires SymbolsOk(v, simple, base, extra)
    ensures |r| == |v|
  {
    seq(|v|, n requires 0 <= n < |v| => LeafOf(v[n], simple, base, extra))
  }

  /** Backs up over finished tables. */
  method BackUp(l: nat, i: nat, x: seq<nat>, h0: int, w0: int, ghost sh: Shape, ghost s0: State, ghost pos: nat, ghost k: nat)
    returns (h: int, w: int)
    requires Closing(sh, s0, pos) && l == sh.l && x == s0.x && h0 == s0.h && w0 == s0.w
    requires if pos < Pow2(sh.g) then PatternOf(sh, i, k, pos) else i == 0
    ensures 0 <= h <= h0 && (h == h0 ==> w == w0) && (h < h0 ==> w + l <= w0)
    ensures var s := s0.(h := h, w := w);
            if pos < Pow2(sh.g) then Ready(sh, s, pos) else Closing(sh, s, pos)
  {
    hide *;
    h, w := h0, w0;
    ClosingBounds(sh, s0, pos);
    while Low(i, w) != x[h]
      invariant 0 <= h <= h0 && (h == h0 ==> w == w0) && (h < h0 ==> w + l <= w0)
      invariant 0 <= w && h < |x| && Closing(sh, s0.(h := h, w := w), pos)
      decreases h
    {
      ghost var s := s0.(h := h, w := w);
      BackUpStep(sh, s, pos, i, k);
      h := h - 1;
      w := w - l;
    }
    BackupTest(sh, s0.(h := h, w := w), pos, i, k);
  }

  lemma ClosingBounds(sh: Shape, s: State, pos: nat)
    requires Closing(sh, s, pos)
    ensures 0 <= s.h < |s.x| && s.h < |s.u| && 0 <= s.w && s.u[s.h] < |s.info| && s.w == Top(s).w
  {
    hide Low, Shl, Shr, Pow2, Rev, Start;
  }

  lemma BackUpStep(sh: Shape, s: State, pos: nat, i: nat, k: nat)
    requires Closing(sh, s, pos) && 0 <= s.h < |s.x| && 0 <= s.w && Low(i, s.w) != s.x[s.h]
    requires if pos < Pow2(sh.g) then PatternOf(sh, i, k, pos) else i == 0
    ensures 0 <= s.h - 1 < |s.x| && 0 <= s.w - sh.l
    ensures Closing(sh, s.(h := s.h - 1, w := s.w - sh.l), pos)
  {
    hide Low, Shl, Shr, Pow2, Rev, Start, Written, Covered, WideUnwritten, StackSlot, Below, PatternOf, LayoutOk;
    BackupTest(sh, s, pos, i, k);
    PopTable(sh, s, pos);
    ClosingBounds(sh, Popped(sh, s), pos);
  }

  /** The next pattern and the next point after the code of length k at pos. */
  lemma NextPattern(sh: Shape, i: nat, i': nat, k: nat, m: nat, pos: nat)
    requires PatternOf(sh, i, k, pos) && 1 <= k && m < sh.c[k] && pos == CodeStart(sh.c, sh.g, k, m)
    requires i' < Pow2(k)
    requires Rev(k, i) < Pow2(k) - 1 ==> Rev(k, i') == Rev(k, i) + 1
    requires Rev(k, i) == Pow2(k) - 1 ==> i' == 0
    ensures pos + Pow2(sh.g - k) == CodeStart(sh.c, sh.g, k, m + 1) <= Pow2(sh.g)
    ensures if pos + Pow2(sh.g - k) < Pow2(sh.g) then PatternOf(sh, i', k, pos + Pow2(sh.g - k)) else i' == 0
  {
    hide Low, Shl, Shr, Pow2, Rev;
    NextMultiple(m, sh.g - k);
    RevPad(k, sh.g, i);
    RevPad(k, sh.g, i');
    NextMultiple(Rev(k, i), sh.g - k);
    ShlPow2(k, sh.g - k);
    ShlMono(Rev(k, i) + 1, Pow2(k), sh.g - k);
    Pow2Positive(sh.g - k);
  }

  /** Between codes, for the next code of length at least k. */
  ghost predicate Between(sh: Shape, s: State, pos: nat, i: nat, q: nat, z: nat, k: nat) {
    && Current(sh, s, q, z, k) && 1 <= k <= sh.g && pos <= Pow2(sh.g)
    && (s.h == -1 ==> pos == 0 && i == 0 && s.x[0] == 0)
    && if pos < Pow2(sh.g) then Ready(sh, s, pos) && PatternOf(sh, i, k, pos)
       else Closing(sh, s, pos)
  }

  /** Places one code: opens the tables it needs, fills its entries, steps to the next
      pattern and backs up over finished tables. */
  method PlaceCode(c: seq<nat>, g: nat, l: nat, k: nat, a: nat, i0: nat, leaf: Leaf, rv0: Value,
                   tables0: Tables, u0: seq<nat>, x0: seq<nat>, h0: int, w0: int, q0: nat, z0: nat,
                   ghost sh: Shape, ghost info0: seq<Info>, ghost pos: nat, ghost m: nat, dummy: bool)
    returns (i: nat, tables: Tables, u: seq<nat>, x: seq<nat>, h: int, w: int, q: nat, z: nat, rv: Value, ghost info: seq<Info>)
    requires ShapeOk(sh) && c == sh.c && g == sh.g && l == sh.l && CodeHere(sh, pos, i0, k, m, a)
    requires Between(sh, State(tables0, info0, h0, w0, u0, x0), pos, i0, q0, z0, k)
    requires dummy <==> Offset(c, k) + m >= |sh.leaves|
    requires !dummy ==> leaf == sh.leaves[Offset(c, k) + m]
    requires dummy && l == g ==> LeftOver(sh, rv0)
    ensures Between(sh, State(tables, info, h, w, u, x), CodeStart(c, g, k, m + 1), i, q, z, k) && h >= 0
    ensures if dummy then l == g ==> rv == rv0 else rv == Num(leaf.n)
  {
    hide *;
    PlaceStart(sh, State(tables0, info0, h0, w0, u0, x0), pos, i0, q0, z0, k, m, a);
    tables, u, x, h, w, q, z, rv, info :=
      OpenTables(c, g, l, k, a, i0, tables0, u0, x0, h0, w0, q0, z0, rv0, sh, info0, pos, m);
    ghost var s := State(tables, info, h, w, u, x);
    var re := UNUSED;
    if !dummy {
      re := leaf.e;
      rv := Num(leaf.n);
    }
    var r := Huft(re, k - w, rv);
    PlaceLeaf(sh, r, Offset(c, k) + m);
    PlaceFill(sh, s, pos, i0, k, m, a, r, q, z);
    var filled := FillEntries(tables[q], z, Shr(i0, w), k - w, r);
    tables := tables[q := filled];
    ghost var s' := State(tables, info, h, w, u, x);
    PlaceWrite(sh, s, s', pos, i0, k, m, a, r, q, z);
    i := BackIncrement(k, i0);
    PlaceNext(sh, i0, i, k, m, a, pos);
    ghost var pos' := CodeStart(c, g, k, m + 1);
    h, w := BackUp(l, i, x, h, w, sh, s', pos', k);
    PlaceDone(sh, s', h, w, pos', i, q, z, k);
  }

  lemma PlaceLeaf(sh: Shape, r: Huft, rank: nat)
    requires r.Huft?
    requires rank < |sh.leaves| ==> r.e == sh.leaves[rank].e && r.v == Num(sh.leaves[rank].n)
    requires rank >= |sh.leaves| ==> r.e == UNUSED && (sh.l == sh.g ==> LeftOver(sh, r.v))
    ensures LeafMatches(sh, r, rank)
  {}

  lemma PlaceStart(sh: Shape, s: State, pos: nat, i: nat, q: nat, z: nat, k: nat, m: nat, a: nat)
    requires ShapeOk(sh) && CodeHere(sh, pos, i, k, m, a) && Between(sh, s, pos, i, q, z, k)
    ensures Opening(sh, s, pos) && Current(sh, s, q, z, k)
    ensures |s.x| > 0 && (s.h == -1 ==> pos == 0 && i == 0 && s.x[0] == 0)
    ensures 1 <= k <= sh.g < |sh.c| && i < Pow2(k)
  {
    hide Low, Shl, Shr, Pow2, Rev, Start, Written, Covered, WideUnwritten, StackSlot, Below, LayoutOk, LenAt;
    StartOpening(sh, s, pos);
  }

  lemma PlaceFill(sh: Shape, s: State, pos: nat, i: nat, k: nat, m: nat, a: nat, r: Huft, q: nat, z: nat)
    requires CodeHere(sh, pos, i, k, m, a)
    requires Opening(sh, s, pos) && s.h >= 0 && Current(sh, s, q, z, k) && s.w < k <= s.w + sh.l
    requires r.Huft? && r.b == k - s.w && LeafMatches(sh, r, Offset(sh.c, k) + m)
    ensures 0 <= s.w && s.h < |s.u| && q == s.u[s.h] < |s.tables| && z == |s.tables[q]|
    ensures Shr(i, s.w) < Pow2(k - s.w)
    ensures CanWrite(sh, s, pos, i, k, m, r)
  {
    hide Low, Shl, Shr, Pow2, Rev, Start, Written, Covered, WideUnwritten, Below, LenAt, LeafMatches;
    assert StackSlot(sh, s, s.h);
    ShrBound(i, s.w, k - s.w);
  }

  lemma PlaceWrite(sh: Shape, s: State, s': State, pos: nat, i: nat, k: nat, m: nat, a: nat, r: Huft, q: nat, z: nat)
    requires CodeHere(sh, pos, i, k, m, a) && CanWrite(sh, s, pos, i, k, m, r) && Current(sh, s, q, z, k)
    requires 0 <= s.w && s.h < |s.u| && q == s.u[s.h] < |s.tables|
    requires |s'.tables| == |s.tables| && s' == s.(tables := s.tables[q := s'.tables[q]])
    requires |s'.tables[q]| == |s.tables[q]|
    requires forall n :: 0 <= n < |s.tables[q]| ==>
               s'.tables[q][n] == if Low(n, k - s.w) == Shr(i, s.w) then r else s.tables[q][n]
    ensures Closing(sh, s', CodeStart(sh.c, sh.g, k, m + 1)) && Current(sh, s', q, z, k)
    ensures s'.h >= 0 && s'.w < k
  {
    hide Low, Shl, Shr, Pow2, Rev, Start, Written, Covered, WideUnwritten, Below, LenAt, LeafMatches, StackSlot, InfoOk, Opening;
    WriteCode(sh, s, s', pos, i, k, m, r);
    NextMultiple(m, sh.g - k);
  }

  lemma PlaceNext(sh: Shape, i: nat, i': nat, k: nat, m: nat, a: nat, pos: nat)
    requires CodeHere(sh, pos, i, k, m, a) && i' < Pow2(k)
    requires Rev(k, i) < Pow2(k) - 1 ==> Rev(k, i') == Rev(k, i) + 1
    requires Rev(k, i) == Pow2(k) - 1 ==> i' == 0
    ensures CodeStart(sh.c, sh.g, k, m + 1) <= Pow2(sh.g)
    ensures if CodeStart(sh.c, sh.g, k, m + 1) < Pow2(sh.g)
            then PatternOf(sh, i', k, CodeStart(sh.c, sh.g, k, m + 1)) else i' == 0
  {
    hide Low, Shl, Shr, Pow2, Rev, Start, LenAt, CodeStart;
    NextPattern(sh, i, i', k, m, pos);
  }

  lemma PlaceDone(sh: Shape, s: State, h: int, w: int, pos: nat, i: nat, q: nat, z: nat, k: nat)
    requires ShapeOk(sh) && 1 <= k <= sh.g && pos <= Pow2(sh.g)
    requires Current(sh, s, q, z, k) && s.h >= 0 && s.w < k && 0 <= h <= s.h
    requires (h == s.h ==> w == s.w) && (h < s.h ==> w + sh.l <= s.w)
    requires var s' := s.(h := h, w := w);
             if pos < Pow2(sh.g) then Ready(sh, s', pos) && PatternOf(sh, i, k, pos) else Closing(sh, s', pos)
    ensures Between(sh, s.(h := h, w := w), pos, i, q, z, k)
  {
    hide Low, Shl, Shr, Pow2, Rev, Start, Written, Covered, WideUnwritten, Below, StackSlot, InfoOk, PatternOf;
  }

  lemma BetweenStep(sh: Shape, s: State, pos: nat, i: nat, q: nat, z: nat, k: nat)
    requires Between(sh, s, pos, i, q, z, k) && k < sh.g
    ensures Between(sh, s, pos, i, q, z, k + 1)
  {
    hide Low, Shl, Shr, Pow2, Rev, Start, Written, Covered, WideUnwritten, Below, StackSlot, InfoOk;
    Pow2Mono(k, k + 1);
  }

  /** With some code of length k left, it starts at pos. */
  lemma CodeIsHere(sh: Shape, s: State, pos: nat, i: nat, q: nat, z: nat, k: nat, m: nat, a: nat)
    requires Between(sh, s, pos, i, q, z, k)
    requires m + a + 1 == sh.c[k] && pos == CodeStart(sh.c, sh.g, k, m)
    ensures CodeHere(sh, pos, i, k, m, a)
  {
    hide Low, Shl, Shr, Pow2, Rev, Start, Written, Covered, WideUnwritten, Below, StackSlot, InfoOk, CodeStart, Current;
    Pow2Positive(sh.g - k);
    CodeInterval(sh.c, sh.g, k, m, pos);
  }

  lemma Beginning(sh: Shape, x: seq<nat>, u: seq<nat>, k: nat)
    requires ShapeOk(sh) && 1 <= k <= sh.g && |u| == BMAX && |x| == BMAX + 1 && x[0] == 0
    requires Start(sh.c, sh.g, k) == 0
    ensures Between(sh, State([], [], -1, -(sh.l as int), u, x), 0, 0, 0, 0, k)
  {
    RevZero(sh.g);
    ShrSmall(0, sh.g);
  }

  /** At the end every cell is written, and the first table is the root. */
  lemma Finished(sh: Shape, s: State, i: nat, q: nat, z: nat, kmin: nat)
    requires Between(sh, s, Pow2(sh.g), i, q, z, sh.g)
    requires 1 <= kmin <= sh.l && Start(sh.c, sh.g, kmin) == 0 && sh.c[kmin] > 0
    ensures LayoutOk(sh, s.tables, s.info) && Complete(sh, s.tables, s.info) && WideUnwritten(sh, s.tables, s.info)
    ensures |s.tables| > 0 && s.info[0] == Info(0, sh.l, 0)
  {
    hide Low, Shl, Shr, Pow2, Rev, Covered, Below, StackSlot;
    forall t, q | 0 <= t < |s.info| && 0 <= q < Pow2(Eff(sh, s.info[t]))
      ensures EntryOk(sh, s.tables, s.info, t, q)
    {
      CellBounds(sh, s.info[t], q);
    }
    RootInfo(sh, s.info[0], kmin);
  }

  lemma RootInfo(sh: Shape, inf: Info, kmin: nat)
    requires ShapeOk(sh) && InfoOk(sh, inf) && inf.w == 0
    requires 1 <= kmin <= sh.l && Start(sh.c, sh.g, kmin) == 0 && sh.c[kmin] > 0
    ensures inf == Info(0, sh.l, 0)
  {
    hide Low, Shl, Shr, Pow2, Rev;
    ShlMono(0, sh.c[kmin], sh.g - kmin);
    ShlZero(sh.g - kmin);
    Pow2Positive(sh.g - kmin);
    LenUnique(sh.c, sh.g, 0, kmin);
    if inf.j < sh.l {
      StartMono(sh.c, sh.g, inf.j + 1, sh.g);
      ShlMono(0, sh.c[sh.g], 0);
      ShlZero(0);
      Pow2Positive(0);
    }
  }

  /** Generates the codes in canonical order and makes the table entries for each. */
  method BuildTables(c: seq<nat>, g: nat, l: nat, kmin: nat, v: seq<nat>, simple: nat, base: seq<nat>, extra: seq<nat>,
                     ghost sh: Shape)
    returns (tables: Tables, ghost info: seq<Info>)
    requires SymbolsOk(v, simple, base, extra)
    requires sh == Shape(c, g, l, Leaves(v, simple, base, extra)) && ShapeOk(sh)
    requires 1 <= kmin <= l && Start(c, g, kmin) == 0 && c[kmin] > 0 && Offset(c, kmin) == 0
    ensures LayoutOk(sh, tables, info) && Complete(sh, tables, info)
    ensures WideUnwritten(sh, tables, info)
    ensures |tables| > 0 && info[0] == Info(0, l, 0)
  {
    hide Low, Shl, Shr, Pow2, Rev, Start, Between, LayoutOk, Complete, WideUnwritten, CodeHere, ShapeOk, Full;
    ShapeBounds(sh);
    var i, p, h, w := 0, 0, -1, -(l as int);
    var x := seq(BMAX + 1, _ => 0);
    var u := seq(BMAX, _ => 0);
    var q, z, k := 0, 0, kmin;
    var rv: Value := *;
    tables, info := [], [];
    ghost var pos := 0;
    Beginning(sh, x, u, k);
    while k <= g
      invariant kmin <= k <= g + 1
      invariant Between(sh, State(tables, info, h, w, u, x), pos, i, q, z, if k <= g then k else g)
      invariant pos == Start(c, g, k)
      invariant p == if Offset(c, k) < |v| then Offset(c, k) else |v|
      invariant l == g && p > 0 ==> rv == Num(sh.leaves[p - 1].n)
    {
      var a := c[k];
      ghost var m := 0;
      ShlZero(g - k);
      while a > 0
        invariant m + a == c[k] && pos == CodeStart(c, g, k, m)
        invariant Between(sh, State(tables, info, h, w, u, x), pos, i, q, z, k)
        invariant p == if Offset(c, k) + m < |v| then Offset(c, k) + m else |v|
        invariant l == g && p > 0 ==> rv == Num(sh.leaves[p - 1].n)
      {
        a := a - 1;
        var dummy := p >= |v|;
        var leaf := Leaf(UNUSED, 0);
        if !dummy {
          leaf := if v[p] < simple then Leaf(if v[p] < 256 then LITERAL else END_OF_BLOCK, v[p])
                  else Leaf(extra[v[p] - simple], base[v[p] - simple]);
          p := p + 1;
        }
        CodeIsHere(sh, State(tables, info, h, w, u, x), pos, i, q, z, k, m, a);
        i, tables, u, x, h, w, q, z, rv, info :=
          PlaceCode(c, g, l, k, a, i, leaf, rv, tables, u, x, h, w, q, z, sh, info, pos, m, dummy);
        m := m + 1;
        pos := CodeStart(c, g, k, m);
      }
      StartStep(c, g, k);
      if k < g { BetweenStep(sh, State(tables, info, h, w, u, x), pos, i, q, z, k); }
      k := k + 1;
    }
    Finished(sh, State(tables, info, h, w, u, x), i, q, z, kmin);
  }

  lemma ShapeBounds(sh: Shape)
    requires ShapeOk(sh)
    ensures 1 <= sh.l <= sh.g < |sh.c| && Full(sh.c, sh.g) && Start(sh.c, sh.g, sh.g + 1) == Pow2(sh.g)
  {}

  lemma StartStep(c: seq<nat>, g: nat, k: nat)
    requires 1 <= k <= g < |c|
    ensures CodeStart(c, g, k, c[k]) == Start(c, g, k + 1)
  {}
}
