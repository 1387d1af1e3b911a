/** From the names that the build tool reads to the names that the kernel reports. */
module KallsymsRoundTrip {
  import opened TokenTable
  import opened TokenRun
  import opened SymbolCompressor
  import opened KallsymsTool
  import opened SymbolImage
  import opened KernelSymbols

  /** The compressed symbols in the tool's buffers. */
  method Symbols(tool: Compressor) returns (syms: seq<seq<Code>>)
    requires tool.Valid()
    ensures syms == tool.syms
  {
    hide Padded;
    syms := [];
    for i := 0 to |tool.sym|
      invariant syms == tool.syms[..i]
    {
      assert tool.Holds(i);
      PaddedBound(tool.sym[i][..], tool.len[i]);
      syms := syms + [tool.sym[i][..tool.len[i]]];
    }
  }

  lemma WrittenIff(names: seq<seq<Code>>, longest: nat, t: Table, syms: seq<seq<Code>>)
    requires Progress(names, longest, t, syms, -1)
    ensures t[0] != Pair(0, 0) <==> SomeUses(syms, 0)
    ensures SomeUses(syms, 0) ==> AllCodesGood(t) && AllStand(t, syms, names)
  {
    hide Dry, Spent, ExpandCode, Stands;
  }

  /** The tool compresses the names and writes the tables, unless writing would never end, and
      the kernel reads name i back: what it reports is the name without its type character. */
  method NameRoundTrip(tool: Compressor, addresses: seq<nat>, i: nat) returns (written: bool, name: seq<Code>)
    requires tool.Valid() && forall p :: 0 <= p < 0x10000 ==> tool.profit[p] == 0
    requires AllNonZero(tool.syms) && NoneAbove(tool.syms, 255) && |addresses| == |tool.sym|
    requires i < |tool.sym| && tool.syms[i] != []
    modifies tool`len, tool`syms, tool`table, tool.Buffers(), tool.profit
    ensures written <==> SomeUses(tool.syms, 0)
    ensures written ==> name == old(tool.syms)[i][1..]
    ensures ManyDifferent(old(tool.syms)) ==> written
    ensures FewLetters(old(tool.syms)) ==> !written
  {
    ghost var names := tool.syms;
    hide Progress, Padded, SomeUses, AllStand, AllCodesGood, Encodes, AllNonZero, NoneAbove, ManyDifferent, FewLetters;
    var ok := tool.OptimizeTokenTable(255);
    var t := tool.table;
    var syms := Symbols(tool);
    WrittenIff(names, 255, t, syms);
    Certain(names, t, syms);
    written, name := t[0] != Pair(0, 0), [];
    if written {
      var img := WriteSource(addresses, names, t, syms);
      var off := GetSymbolOffset(img, i, t, syms);
      var next;
      next, name := ExpandAt(img, off, t, syms, i);
      NameRead(names, t, syms, i);
    }
  }

  /** 256 different names, none of them empty. */
  ghost predicate ManyDifferent(names: seq<seq<Code>>) {
    (forall j :: 0 <= j < |names| ==> names[j] != []) && |set j | 0 <= j < |names| :: names[j]| >= 256
  }

  /** No more characters in all than codes which no name uses. */
  ghost predicate FewLetters(names: seq<seq<Code>>) {
    Length(names) + |Letters(names)| <= 256
  }

  lemma Certain(names: seq<seq<Code>>, t: Table, syms: seq<seq<Code>>)
    requires Progress(names, 255, t, syms, -1)
    ensures ManyDifferent(names) ==> SomeUses(syms, 0)
    ensures FewLetters(names) ==> !SomeUses(syms, 0)
  {
    hide Progress, SomeUses;
    if ManyDifferent(names) { ManyNames(names, 255, t, syms); }
    if FewLetters(names) { FewCharacters(names, 255, t, syms); }
  }

  lemma TwoLetters(names: seq<seq<Code>>)
    requires names == [[97, 98]]
    ensures Length(names) == 2 && Letters(names) == {97, 98}
  {
    assert names[1..] == [];
    forall c: Code ensures SomeUses(names, c) <==> c in {97, 98} {
      if c in {97, 98} { assert c in names[0]; }
    }
  }

  /** For the single name "ab" the tool ends with slot 0 standing for itself twice. */
  method OneNameRunsDry() returns (slot: Slot)
    ensures slot == Pair(0, 0)
  {
    var buf := new Code[3](k => if k == 0 then 97 else if k == 1 then 98 else 0);
    ghost var names := [[97, 98]];
    assert buf[..2] == [97, 98];
    var tool := new Compressor([buf], [2], names);
    TwoLetters(names);
    hide Progress, Length, Letters;
    var ok := tool.OptimizeTokenTable(2);
    FewCharacters(names, 2, tool.table, tool.syms);
    slot := tool.table[0];
  }
}
