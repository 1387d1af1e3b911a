/** The kernel's reader of the compressed symbol table. */
module KernelSymbols {
  import opened TokenTable
  import opened TokenRun
  import opened SymbolImage

  /** A name without its type character. */
  function Tail(s: seq<Code>): (r: seq<Code>) {
    if s == [] then [] else s[1..]
  }

  /** What the kernel calls symbol i. */
  ghost function NameOf(t: Table, syms: seq<seq<Code>>, i: nat): (r: seq<Code>)
    requires AllCodesGood(t) && i < |syms|
  {
    Tail(Expand(t, syms[i]))
  }

  lemma TailGrows(done: seq<Code>, e: seq<Code>, m: nat)
    requires m < |e|
    ensures done + e[..m + 1] != []
    ensures var s := done + e[..m];
            Tail(done + e[..m + 1]) == if s == [] then Tail(s) else Tail(s) + [e[m]]
  {
    var s := done + e[..m];
    assert done + e[..m + 1] == s + [e[m]];
  }

  /** The copy of one token, with the very first character of the symbol left out. */
  method CopyToken(img: Image, c: Code, sofar: seq<Code>, ghost done: seq<Code>, skipped: bool, ghost t: Table, ghost syms: seq<seq<Code>>)
    returns (result: seq<Code>)
    requires Encodes(img, t, syms) && sofar == Tail(done) && skipped == (done != [])
    ensures result == Tail(done + ExpandCode(t, c)) && done + ExpandCode(t, c) != []
  {
    hide *;
    EncodesToken(img, t, syms, c);
    ghost var e := ExpandCode(t, c);
    TokenAt(t, c);
    CodeNonZero(t, c);
    result := sofar;
    var first := skipped;
    ghost var start := img.index[c];
    var tptr := img.index[c];
    assert done + e[..0] == done;
    assert img.tokens[start..start + |e|] == e;
    while img.tokens[tptr] != 0
      invariant start <= tptr <= start + |e|
      invariant result == Tail(done + e[..tptr - start])
      invariant first == (done + e[..tptr - start] != [])
      decreases start + |e| - tptr
    {
      ghost var m := tptr - start;
      assert tptr < start + |e|;
      assert e[m] == img.tokens[tptr];
      TailGrows(done, e, m);
      if first { result := result + [img.tokens[tptr]]; } else { first := true; }
      tptr := tptr + 1;
    }
    NonZeroAt(e, tptr - start, img.tokens, start);
    assert e[..tptr - start] == e;
  }

  lemma EncodesToken(img: Image, t: Table, syms: seq<seq<Code>>, c: Code)
    requires Encodes(img, t, syms)
    ensures |img.index| == 256 && img.index[c] == |TokenBlob(t, c)| && img.tokens == TokenBlob(t, 256)
    ensures AllCodesGood(t) && Good(t, c) && !t[0].Char?
  {
    hide TokenBlob, Blob;
  }

  lemma NonZeroAt(e: seq<Code>, m: int, tokens: seq<Code>, start: nat)
    requires NonZero(e) && 0 <= m <= |e| && start + |e| < |tokens| && tokens[start..start + |e|] == e && tokens[start + m] == 0
    ensures m == |e|
  {}

  /** kallsyms_expand_symbol, at the start of symbol i: its name, and where the next one starts. */
  method ExpandAt(img: Image, off: nat, ghost t: Table, ghost syms: seq<seq<Code>>, ghost i: nat)
    returns (next: nat, result: seq<Code>)
    requires Encodes(img, t, syms) && i < |syms| && off == Offset(syms, i)
    ensures next == Offset(syms, i + 1) && result == NameOf(t, syms, i)
  {
    hide *;
    EncodesSymbol(img, t, syms, i);
    BlobAt(syms, i);
    ghost var s := syms[i];
    var data, len: nat := off + 1, img.names[off];
    next := off + len + 1;
    result := [];
    var skipped := false;
    ghost var k: nat := 0;
    GoodPrefix(t, s, 0);
    while len > 0
      invariant k <= |s| && len == |s| - k && data == off + 1 + k
      invariant AllGood(t, s[..k]) && result == Tail(Expand(t, s[..k])) && skipped == (Expand(t, s[..k]) != [])
    {
      assert img.names[off + 1..off + 1 + |s|][k] == s[k];
      result := CopyToken(img, img.names[data], result, Expand(t, s[..k]), skipped, t, syms);
      GoodPrefix(t, s, k);
      skipped := true;
      data, len := data + 1, len - 1;
      k := k + 1;
    }
    assert s[..k] == s;
    assert NameOf(t, syms, i) == Tail(Expand(t, s)) by { NameIs(t, syms, i); }
  }

  lemma NameIs(t: Table, syms: seq<seq<Code>>, i: nat)
    requires AllCodesGood(t) && i < |syms|
    ensures AllGood(t, syms[i]) && NameOf(t, syms, i) == Tail(Expand(t, syms[i]))
  {}

  lemma EncodesSymbol(img: Image, t: Table, syms: seq<seq<Code>>, i: nat)
    requires Encodes(img, t, syms) && i < |syms|
    ensures |syms[i]| < 256 && img.names == Blob(syms) && AllCodesGood(t) && AllGood(t, syms[i])
  {
    hide TokenBlob, Blob, Offset;
  }

  lemma GoodPrefix(t: Table, s: seq<Code>, k: nat)
    requires AllCodesGood(t) && k <= |s|
    ensures AllGood(t, s[..0]) && s[..0] == [] && Expand(t, s[..0]) == [] && Tail([]) == []
    ensures k < |s| ==> AllGood(t, s[..k]) && AllGood(t, s[..k + 1]) && Good(t, s[k])
                        && Expand(t, s[..k + 1]) == Expand(t, s[..k]) + ExpandCode(t, s[k])
  {
    hide Good, ExpandCode;
    if k < |s| {
      assert s[..k + 1] == s[..k] + [s[k]];
      ExpandAppend(t, s[..k], [s[k]]);
      ExpandOne(t, s[k]);
    }
  }

  /** Compressing, writing and reading back: symbol i's name without its type. */
  lemma NameRead(names: seq<seq<Code>>, t: Table, syms: seq<seq<Code>>, i: nat)
    requires AllCodesGood(t) && AllStand(t, syms, names) && i < |names| && names[i] != []
    ensures NameOf(t, syms, i) == names[i][1..]
  {
    assert Stands(t, syms[i], names[i]);
  }

  /** get_symbol_offset: from the nearest marker, symbol by symbol. */
  method GetSymbolOffset(img: Image, pos: nat, ghost t: Table, ghost syms: seq<seq<Code>>) returns (off: nat)
    requires Encodes(img, t, syms) && pos < |syms|
    ensures off == Offset(syms, pos)
  {
    hide *;
    EncodesMarker(img, t, syms, pos);
    off := img.markers[pos / 256];
    for i := 0 to pos % 256
      invariant off == Offset(syms, pos / 256 * 256 + i)
    {
      ghost var at: nat := pos / 256 * 256 + i;
      EncodesSymbol(img, t, syms, at);
      BlobAt(syms, at);
      off := off + img.names[off] + 1;
    }
  }

  lemma EncodesMarker(img: Image, t: Table, syms: seq<seq<Code>>, pos: nat)
    requires Encodes(img, t, syms) && pos < |syms|
    ensures pos / 256 < |img.markers| && img.markers[pos / 256] == Offset(syms, pos / 256 * 256)
  {
    hide TokenBlob, Blob, Offset;
  }

  ghost predicate IsFirstNamed(t: Table, syms: seq<seq<Code>>, name: seq<Code>, i: nat)
    requires AllCodesGood(t)
  {
    i < |syms| && NameOf(t, syms, i) == name && forall j: nat :: j < i ==> NameOf(t, syms, j) != name
  }

  /** kallsyms_lookup_name: the address of the first symbol with that name, or 0. */
  method LookupName(img: Image, name: seq<Code>, ghost t: Table, ghost syms: seq<seq<Code>>) returns (addr: nat)
    requires Encodes(img, t, syms)
    ensures AllCodesGood(t) && |img.addresses| == |syms|
    ensures forall i: nat :: IsFirstNamed(t, syms, name, i) ==> addr == img.addresses[i]
    ensures (forall i: nat :: i < |syms| ==> NameOf(t, syms, i) != name) ==> addr == 0
  {
    hide NameOf, Blob, TokenBlob, Good, Offset;
    var off := 0;
    assert Offset(syms, 0) == 0 by { OffsetZero(syms); }
    for i := 0 to |img.addresses|
      invariant off == Offset(syms, i)
      invariant forall j: nat :: j < i ==> NameOf(t, syms, j) != name
    {
      var next, namebuf := ExpandAt(img, off, t, syms, i);
      if namebuf == name {
        assert IsFirstNamed(t, syms, name, i);
        return img.addresses[i];
      }
      off := next;
    }
    addr := 0;
  }

  lemma OffsetZero(syms: seq<seq<Code>>)
    ensures Offset(syms, 0) == 0
  {}

  // Looking up an address

  /** The linker's section bounds, and whether all symbols are in the table. */
  datatype Sections = Sections(stext: nat, etext: nat, sinittext: nat, einittext: nat,
                               sextratext: nat, eextratext: nat, end: nat, allVar: bool)

  predicate InKernel(sec: Sections, addr: nat) {
    if sec.allVar then sec.stext <= addr <= sec.end
    else sec.stext <= addr <= sec.etext || sec.sinittext <= addr <= sec.einittext || sec.sextratext <= addr <= sec.eextratext
  }

  function SectionEnd(sec: Sections, addr: nat): (r: nat) {
    if sec.sinittext <= addr <= sec.einittext then sec.einittext
    else if sec.allVar then sec.end else sec.etext
  }

  predicate Sorted(addresses: seq<nat>) {
    forall i, j :: 0 <= i <= j < |addresses| ==> addresses[i] <= addresses[j]
  }

  /** The symbol of an address: the first of those at the greatest address not above it. */
  predicate SymbolOf(addresses: seq<nat>, addr: nat, at: nat) {
    && at < |addresses| && addresses[at] <= addr
    && (forall j :: 0 <= j < |addresses| && addresses[j] <= addr ==> addresses[j] <= addresses[at])
    && (forall j :: 0 <= j < at ==> addresses[j] < addresses[at])
  }

  predicate IsNext(addresses: seq<nat>, at: nat, end: nat)
    requires at < |addresses|
  {
    && end > addresses[at] && end in addresses
    && (forall j :: 0 <= j < |addresses| && addresses[j] > addresses[at] ==> addresses[j] >= end)
  }

  predicate IsLast(addresses: seq<nat>, at: nat)
    requires at < |addresses|
  {
    forall j :: 0 <= j < |addresses| ==> addresses[j] <= addresses[at]
  }

  /** Unsigned subtraction of 64-bit values. */
  function Sub64(a: nat, b: nat): (r: nat)
    ensures b <= a < b + 0x1_0000_0000_0000_0000 ==> r == a - b
  {
    (a - b) % 0x1_0000_0000_0000_0000
  }

  /** kallsyms_lookup's binary search, then back to the first alias. */
  method FindSymbol(addresses: seq<nat>, addr: nat) returns (low: nat)
    requires addresses != [] && Sorted(addresses)
    ensures low < |addresses|
    ensures addresses[0] <= addr ==> SymbolOf(addresses, addr, low)
    ensures addr < addresses[0] ==> low == 0
  {
    low := 0;
    var high := |addresses|;
    while high - low > 1
      invariant low < high <= |addresses|
      invariant low == 0 || addresses[low] <= addr
      invariant high < |addresses| ==> addresses[high] > addr
    {
      var mid := (low + high) / 2;
      if addresses[mid] <= addr { low := mid; } else { high := mid; }
    }
    while low > 0 && addresses[low - 1] == addresses[low]
      invariant low < high && addresses[low] == addresses[high - 1]
    {
      low := low - 1;
    }
  }

  /** kallsyms_lookup's search for the end of a symbol: the next greater address. */
  method FindEnd(addresses: seq<nat>, low: nat) returns (end: nat)
    requires low < |addresses| && Sorted(addresses)
    ensures if end == 0 then IsLast(addresses, low) else IsNext(addresses, low, end)
  {
    for i := low + 1 to |addresses|
      invariant forall j :: 0 <= j < i ==> addresses[j] <= addresses[low]
    {
      if addresses[i] > addresses[low] { return addresses[i]; }
    }
    end := 0;
  }

  /** kallsyms_lookup. */
  method Lookup(img: Image, sec: Sections, addr: nat, ghost t: Table, ghost syms: seq<seq<Code>>)
    returns (found: bool, name: seq<Code>, size: nat, offset: nat, at: nat)
    requires Encodes(img, t, syms) && syms != [] && Sorted(img.addresses)
    ensures AllCodesGood(t) && |img.addresses| == |syms|
    ensures sec.allVar ==> (found <==> sec.stext <= addr <= sec.end)
    ensures !sec.allVar ==> (found <==> sec.stext <= addr <= sec.etext || sec.sinittext <= addr <= sec.einittext || sec.sextratext <= addr <= sec.eextratext)
    ensures found ==> at < |syms| && name == NameOf(t, syms, at) && offset == Sub64(addr, img.addresses[at])
    ensures found ==> if img.addresses[0] <= addr then SymbolOf(img.addresses, addr, at) else at == 0
    ensures found && !IsLast(img.addresses, at) ==>
              exists end :: IsNext(img.addresses, at, end) && size == Sub64(end, img.addresses[at])
    ensures found && IsLast(img.addresses, at) && sec.sinittext <= addr <= sec.einittext ==> size == Sub64(sec.einittext, img.addresses[at])
    ensures found && IsLast(img.addresses, at) && !(sec.sinittext <= addr <= sec.einittext) ==>
              size == Sub64(if sec.allVar then sec.end else sec.etext, img.addresses[at])
  {
    hide NameOf, Blob, TokenBlob, Good, Offset;
    found, name, size, offset, at := false, [], 0, 0, 0;
    if InKernel(sec, addr) {
      at := FindSymbol(img.addresses, addr);
      var off := GetSymbolOffset(img, at, t, syms);
      var _, namebuf := ExpandAt(img, off, t, syms, at);
      var end := FindEnd(img.addresses, at);
      size := Sub64(if end == 0 then SectionEnd(sec, addr) else end, img.addresses[at]);
      found, name, offset := true, namebuf, Sub64(addr, img.addresses[at]);
    }
  }

  /** An address between symbols is inside the one that lookup finds. */
  lemma LookupInside(addresses: seq<nat>, addr: nat, at: nat, end: nat)
    requires SymbolOf(addresses, addr, at) && IsNext(addresses, at, end) && end < 0x1_0000_0000_0000_0000
    ensures Sub64(addr, addresses[at]) < Sub64(end, addresses[at])
  {
    assert addr < end by {
      var j :| 0 <= j < |addresses| && addresses[j] == end;
    }
  }
}
