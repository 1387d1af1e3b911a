/** The tables that scripts/kallsyms writes and the kernel links in. */
module SymbolImage {
  import opened TokenTable
  import opened TokenRun

  datatype Image = Image(addresses: seq<nat>, names: seq<Code>, markers: seq<nat>, tokens: seq<Code>, index: seq<nat>)

  /** kallsyms_names: each symbol's length byte and its codes. */
  function Blob(syms: seq<seq<Code>>): (r: seq<Code>) {
    if syms == [] then []
    else var n := |syms| - 1; Blob(syms[..n]) + [|syms[n]| % 256] + syms[n]
  }

  /** Where symbol i starts in kallsyms_names. */
  function Offset(syms: seq<seq<Code>>, i: nat): (r: nat)
    requires i <= |syms|
  {
    |Blob(syms[..i])|
  }

  lemma OffsetNext(syms: seq<seq<Code>>, i: nat)
    requires i < |syms|
    ensures Blob(syms[..i + 1]) == Blob(syms[..i]) + [|syms[i]| % 256] + syms[i]
    ensures Offset(syms, i + 1) == Offset(syms, i) + 1 + |syms[i]|
  {
    assert syms[..i + 1][..i] == syms[..i];
  }

  lemma {:induction false} BlobPrefix(syms: seq<seq<Code>>, i: nat)
    requires i <= |syms|
    ensures Blob(syms[..i]) <= Blob(syms)
    decreases |syms| - i
  {
    if i == |syms| {
      assert syms[..i] == syms;
    } else {
      OffsetNext(syms, i);
      BlobPrefix(syms, i + 1);
    }
  }

  /** Symbol i can be read back at its offset. */
  lemma BlobAt(syms: seq<seq<Code>>, i: nat)
    requires i < |syms|
    ensures Offset(syms, i + 1) == Offset(syms, i) + 1 + |syms[i]| <= |Blob(syms)|
    ensures Blob(syms)[Offset(syms, i)] == |syms[i]| % 256
    ensures Blob(syms)[Offset(syms, i) + 1..Offset(syms, i + 1)] == syms[i]
  {
    hide Blob;
    OffsetNext(syms, i);
    BlobPrefix(syms, i + 1);
    var p, q := Blob(syms[..i + 1]), Blob(syms);
    var at := Offset(syms, i);
    assert q[..|p|] == p;
    assert q[at + 1..|p|] == p[at + 1..] == syms[i];
  }

  /** write_src, the names and the markers: one for each 256 symbols. */
  method WriteNames(syms: seq<seq<Code>>) returns (names: seq<Code>, markers: seq<nat>)
    ensures names == Blob(syms) && |markers| == (|syms| + 255) / 256
    ensures forall m :: 0 <= m < |markers| ==> markers[m] == Offset(syms, 256 * m)
  {
    hide Blob;
    names, markers := [], [];
    var off := 0;
    assert Blob(syms[..0]) == [] by { BlobEmpty(syms); }
    for i := 0 to |syms|
      invariant names == Blob(syms[..i]) && off == Offset(syms, i)
      invariant |markers| == (i + 255) / 256
      invariant forall m :: 0 <= m < |markers| ==> markers[m] == Offset(syms, 256 * m)
    {
      if i % 256 == 0 { markers := markers + [off]; }
      names := names + [|syms[i]| % 256] + syms[i];
      off := off + |syms[i]| + 1;
      OffsetNext(syms, i);
    }
    assert syms[..|syms|] == syms;
  }

  lemma BlobEmpty(syms: seq<seq<Code>>)
    ensures Blob(syms[..0]) == []
  {}

  ghost predicate AllCodesGood(t: Table) {
    forall c: Code :: Good(t, c)
  }

  /** kallsyms_token_table up to code n: expansions, each ended by a zero. */
  ghost function TokenBlob(t: Table, n: nat): (r: seq<Code>)
    requires n <= 256 && AllCodesGood(t)
  {
    if n == 0 then [] else TokenBlob(t, n - 1) + ExpandCode(t, n - 1) + [0]
  }

  lemma TokenBlobNext(t: Table, c: Code)
    requires AllCodesGood(t)
    ensures TokenBlob(t, 0) == []
    ensures TokenBlob(t, c + 1) == TokenBlob(t, c) + ExpandCode(t, c) + [0]
  {
    hide ExpandCode;
  }

  /** expand_symbol: replaces codes by the bodies of their slots, down to characters. */
  method ExpandSymbol(t: Table, data: seq<Code>, ghost lo: nat) returns (result: seq<Code>)
    requires lo <= 256 && AllGood(t, data)
    requires forall k :: 0 <= k < |data| ==> t[data[k]].Char? || data[k] >= lo
    ensures result == Expand(t, data)
    decreases 256 - lo
  {
    hide Expand, ExpandCode;
    result := [];
    assert data[..0] == [] && Expand(t, []) == [] by { ExpandNothing(t); }
    for i := 0 to |data|
      invariant result == Expand(t, data[..i])
    {
      var c := data[i];
      assert Good(t, c);
      if t[c].Char? {
        result := result + [c];
        ExpandChar(t, c);
      } else {
        ExpandBody(t, c);
        var part := ExpandSymbol(t, Body(t[c]), c as int + 1);
        result := result + part;
      }
      ExpandOne(t, c);
      ExpandAppend(t, data[..i], [c]);
      assert data[..i + 1] == data[..i] + [c];
    }
    assert data[..|data|] == data;
  }

  lemma ExpandNothing(t: Table)
    ensures Expand(t, []) == []
  {}

  lemma ExpandChar(t: Table, c: Code)
    requires t[c].Char?
    ensures Good(t, c) && ExpandCode(t, c) == [c]
  {}

  /** write_src, the token table and its index of 16-bit offsets. */
  method WriteTokens(t: Table) returns (tokens: seq<Code>, index: seq<nat>)
    requires AllCodesGood(t)
    ensures tokens == TokenBlob(t, 256) && |index| == 256
    ensures forall c: Code :: index[c] == |TokenBlob(t, c)| % 0x10000
  {
    hide Expand, ExpandCode, Good, TokenBlob;
    tokens, index := [], [];
    var off := 0;
    assert TokenBlob(t, 0) == [] by { TokenBlobNext(t, 0); }
    for i := 0 to 256
      invariant |index| == i && tokens == TokenBlob(t, i) && off == |tokens|
      invariant forall c: Code :: c < i ==> index[c] == |TokenBlob(t, c)| % 0x10000
    {
      index := index + [off % 0x10000];
      SlotExpands(t, i);
      TokenBlobNext(t, i);
      var buf := ExpandSymbol(t, if t[i].Char? then [i] else Body(t[i]), 0);
      tokens := tokens + buf + [0];
      off := off + |buf| + 1;
    }
  }

  lemma SlotExpands(t: Table, c: Code)
    requires Good(t, c)
    ensures var data := if t[c].Char? then [c] else Body(t[c]); AllGood(t, data) && Expand(t, data) == ExpandCode(t, c)
  {
    hide Expand;
    if t[c].Char? { ExpandOne(t, c); } else { ExpandBody(t, c); }
  }

  /** Expansions hold characters only, so no zero. */
  lemma {:induction false} CodeNonZero(t: Table, c: Code)
    requires Good(t, c) && !t[0].Char?
    ensures NonZero(ExpandCode(t, c))
    decreases 256 - c
  {
    if t[c].Pair? {
      var a, b := t[c].a, t[c].b;
      PartIsCode(t, c, a);
      PartIsCode(t, c, b);
      if !t[a].Char? { CodeNonZero(t, a); }
      if !t[b].Char? { CodeNonZero(t, b); }
    }
  }

  lemma {:induction false} TokenBlobPrefix(t: Table, n: nat, m: nat)
    requires n <= m <= 256 && AllCodesGood(t)
    ensures TokenBlob(t, n) <= TokenBlob(t, m)
    decreases m
  {
    hide Good, ExpandCode;
    if n < m { TokenBlobPrefix(t, n, m - 1); }
  }

  /** Code c's expansion and its final zero can be read back at its offset. */
  lemma TokenAt(t: Table, c: Code)
    requires AllCodesGood(t)
    ensures var at, e := |TokenBlob(t, c)|, ExpandCode(t, c);
            at + |e| < |TokenBlob(t, 256)| && TokenBlob(t, 256)[at..at + |e|] == e && TokenBlob(t, 256)[at + |e|] == 0
  {
    hide ExpandCode, Good;
    TokenBlobPrefix(t, c + 1, 256);
    var at, e := |TokenBlob(t, c)|, ExpandCode(t, c);
    var p, q := TokenBlob(t, c + 1), TokenBlob(t, 256);
    assert p == TokenBlob(t, c) + e + [0];
    assert q[..|p|] == p;
    assert q[at..at + |e|] == p[at..at + |e|] == e;
    assert q[at + |e|] == p[at + |e|];
  }

  /** Names of at most 255 characters keep the index within 16 bits. */
  lemma {:induction false} TokensFit(t: Table, n: nat)
    requires n <= 256 && AllCodesGood(t) && Filled(t, -1, 255)
    ensures |TokenBlob(t, n)| <= 256 * n
  {
    hide Good, ExpandCode;
    if n > 0 { TokensFit(t, n - 1); }
  }

  lemma {:induction false} ExpandAtLeast(t: Table, s: seq<Code>)
    requires AllGood(t, s)
    ensures |s| <= |Expand(t, s)|
  {
    hide Good, ExpandCode;
    if s != [] { ExpandAtLeast(t, s[1..]); }
  }

  /** The image holds these symbols in this table's codes, and nothing was cut off. */
  ghost predicate Encodes(img: Image, t: Table, syms: seq<seq<Code>>) {
    && AllCodesGood(t) && !t[0].Char? && |img.addresses| == |syms|
    && (forall i :: 0 <= i < |syms| ==> |syms[i]| < 256)
    && img.names == Blob(syms) && |img.markers| == (|syms| + 255) / 256
    && (forall m :: 0 <= m < |img.markers| ==> img.markers[m] == Offset(syms, 256 * m))
    && img.tokens == TokenBlob(t, 256) && |img.index| == 256
    && (forall c: Code :: img.index[c] == |TokenBlob(t, c)|)
  }

  /** write_src. Whenever the compressor did not run out of pairs and names have at
      most 255 characters, the image encodes the symbols. */
  method WriteSource(addresses: seq<nat>, ghost names: seq<seq<Code>>, t: Table, syms: seq<seq<Code>>) returns (img: Image)
    requires |addresses| == |syms| && Progress(names, 255, t, syms, -1) && SomeUses(syms, 0)
    ensures img.addresses == addresses && Encodes(img, t, syms)
  {
    hide Blob, Good, ExpandCode, TokenBlob, Offset, Dry;
    assert AllCodesGood(t);
    var blob, markers := WriteNames(syms);
    var tokens, index := WriteTokens(t);
    img := Image(addresses, blob, markers, tokens, index);
    forall i | 0 <= i < |syms| ensures |syms[i]| < 256 {
      assert Stands(t, syms[i], names[i]);
      ExpandAtLeast(t, syms[i]);
    }
    forall c: Code ensures index[c] == |TokenBlob(t, c)| { TokensFit(t, c); }
  }
}
