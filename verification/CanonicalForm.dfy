/**
  The canonical form of a module stated by names alone, its recovery from the deck, and how far it
  depends on the order in which entries and externals are numbered.
 */
module CanonicalForm {
  import opened Basics
  import opened Wrappers
  import opened CardFormat
  import opened ObjectModule

  // ---------------------------------------------------------------- the form by names

  function SectionLines(csects: seq<Section>): seq<Line> {
    if csects == [] then []
    else
      var s := csects[|csects| - 1];
      SectionLines(csects[..|csects| - 1]) + [SdLine(Display(s.name), Mask(s.offset * 2), Mask(s.used))]
  }

  /** The item numbered 1, where an entry outside every control section is put down. */
  function FirstName(m: Module): string {
    if Csects(m.sections) != [] then Display(Csects(m.sections)[0].name)
    else if Known(m.entries, m.symtab) != [] then Known(m.entries, m.symtab)[0]
    else ""
  }

  function EntryLineOf(sections: seq<Section>, symtab: map<string, Symbol>, first: string, name: string): Option<Line> {
    if name !in symtab then None
    else
      var sym := symtab[name];
      Some(LdLine(name, Mask((sym.address + OffsetOf(sections, sym.section)) * 2),
                  if sym.section in Names(Csects(sections)) then Display(sym.section) else first))
  }

  function EntryLines(sections: seq<Section>, symtab: map<string, Symbol>, first: string,
                      entries: seq<string>): seq<Line> {
    if entries == [] then []
    else
      var line := EntryLineOf(sections, symtab, first, entries[|entries| - 1]);
      EntryLines(sections, symtab, first, entries[..|entries| - 1]) + if line.Some? then [line.value] else []
  }

  function ExternLines(extrns: seq<string>): seq<Line> {
    if extrns == [] then [] else ExternLines(extrns[..|extrns| - 1]) + [ErLine(extrns[|extrns| - 1])]
  }

  /** The bytes of a section, 56 to a line. */
  function Chunks(name: string, address: nat, data: seq<Byte>): seq<Line>
    decreases |data|
  {
    if data == [] then []
    else
      var n := Least(PER_TXT, |data|);
      [TxtLine(name, Mask(address), data[..n])] + Chunks(name, address + n, data[n..])
  }

  function SectionChunks(csects: seq<Section>, n: nat): seq<Line>
    requires n <= |csects|
  {
    if n == 0 then [] else SectionChunks(csects, n - 1) + Chunks(Display(csects[n - 1].name), 0, Memory(csects[n - 1]))
  }

  /** The symbol has a number. */
  predicate Defined(m: Module, symbol: string) {
    symbol in Names(Csects(m.sections)) || (symbol in m.entries && symbol in m.symtab) || symbol in m.extrns
  }

  function RelocationLines(m: Module, relocations: seq<Relocation>): seq<Line> {
    if relocations == [] then []
    else
      var r := relocations[|relocations| - 1];
      RelocationLines(m, relocations[..|relocations| - 1])
      + if Defined(m, r.symbol) && r.section in Names(Csects(m.sections))
        then [RldLine(Display(r.symbol), Display(r.section), Flags(r), Mask(r.address))] else []
  }

  /** The canonical form, up to order. */
  function Canonical(m: Module): seq<Line> {
    SectionLines(Csects(m.sections)) + EntryLines(m.sections, m.symtab, FirstName(m), m.entries) + ExternLines(m.extrns)
    + (if m.storeProtect then [NoEntryLine] else [])
    + SectionChunks(Csects(m.sections), |Csects(m.sections)|) + RelocationLines(m, m.relocations)
    + (if m.storeProtect then CtlLines(m.controls) else [])
  }

  // ---------------------------------------------------------------- the items

  ghost predicate NamesAll(esd: map<nat, string>, m: Module) {
    forall i :: 1 <= i <= |Keys(m)| ==> i in esd && esd[i] == Display(Keys(m)[i - 1])
  }

  function ItemLines(esd: map<nat, string>, items: seq<Item>): seq<Line> {
    if items == [] then [] else ItemLines(esd, items[..|items| - 1]) + [ItemLine(esd, Wrapped(items[|items| - 1]))]
  }

  lemma {:induction false} DescribedItems(esd: map<nat, string>, items: seq<Item>)
    ensures DescribedLines(esd, Describe(WrappedAll(items))) == ItemLines(esd, items)
  {
    if items != [] { DescribedItems(esd, items[..|items| - 1]); }
  }

  lemma {:induction false} ItemLinesJoin(esd: map<nat, string>, a: seq<Item>, b: seq<Item>)
    ensures ItemLines(esd, a + b) == ItemLines(esd, a) + ItemLines(esd, b)
    decreases |b|
  {
    if b == [] {
      assert a + b == a;
    } else {
      ItemLinesJoin(esd, a, b[..|b| - 1]);
      assert (a + b)[..|a + b| - 1] == a + b[..|b| - 1];
    }
  }

  lemma {:induction false} SectionItemLines(esd: map<nat, string>, csects: seq<Section>)
    ensures ItemLines(esd, SectionItems(csects)) == SectionLines(csects)
  {
    if csects != [] { SectionItemLines(esd, csects[..|csects| - 1]); }
  }

  lemma {:induction false} ExternItemLines(esd: map<nat, string>, extrns: seq<string>)
    ensures ItemLines(esd, ExternItems(extrns)) == ExternLines(extrns)
  {
    if extrns != [] { ExternItemLines(esd, extrns[..|extrns| - 1]); }
  }

  lemma {:induction false} NumberOfIn(keys: seq<string>, name: string)
    ensures NumberOf(keys, name).Some? <==> name in keys
  {
    if keys != [] && keys[|keys| - 1] != name {
      NumberOfIn(keys[..|keys| - 1], name);
      assert keys == keys[..|keys| - 1] + [keys[|keys| - 1]];
    }
  }

  /** A control section's number is its place among them all, and names it. */
  lemma {:induction false} SectionNamed(esd: map<nat, string>, m: Module, section: string)
    requires NamesAll(esd, m)
    ensures var id := NumberOf(Names(Csects(m.sections)), section);
            (id.Some? <==> section in Names(Csects(m.sections))) &&
                (id.Some? ==> Named(esd, id.value) == Display(section))
  {
    var id := NumberOf(Names(Csects(m.sections)), section);
    NumberOfIn(Names(Csects(m.sections)), section);
    if id.Some? {
      assert Keys(m)[id.value - 1] == section;
    }
  }

  lemma {:induction false} FirstNamed(esd: map<nat, string>, m: Module)
    requires NamesAll(esd, m) && Writable(m) && (Csects(m.sections) != [] || Known(m.entries, m.symtab) != [])
    ensures Named(esd, 1) == FirstName(m)
  {
    if Csects(m.sections) != [] {
      NamesAt(Csects(m.sections), 0);
      assert Keys(m)[0] == Names(Csects(m.sections))[0];
    } else {
      KnownAmong(m.entries, m.symtab, 0);
      assert Keys(m)[0] == Known(m.entries, m.symtab)[0];
    }
  }

  lemma {:induction false} EntryItemLine(esd: map<nat, string>, m: Module, name: string)
    requires NamesAll(esd, m) && Named(esd, 1) == FirstName(m) && name in m.symtab
    ensures Some(ItemLine(esd, Wrapped(EntryItem(m, name)))) == EntryLineOf(m.sections, m.symtab, FirstName(m), name)
  {
    SectionNamed(esd, m, m.symtab[name].section);
  }

  lemma {:induction false} EntryItemLines(esd: map<nat, string>, m: Module, known: seq<string>)
    requires NamesAll(esd, m) && Named(esd, 1) == FirstName(m)
    requires forall k :: 0 <= k < |known| ==> known[k] in m.symtab
    ensures ItemLines(esd, EntryItems(m, known)) == EntryLines(m.sections, m.symtab, FirstName(m), known)
  {
    if known != [] {
      EntryItemLines(esd, m, known[..|known| - 1]);
      EntryItemLine(esd, m, known[|known| - 1]);
    }
  }

  lemma {:induction false} EntryLinesKnown(sections: seq<Section>, symtab: map<string, Symbol>, first: string,
                                           entries: seq<string>)
    ensures EntryLines(sections, symtab, first, entries) == EntryLines(sections, symtab, first, Known(entries, symtab))
  {
    if entries != [] {
      var front, last := entries[..|entries| - 1], entries[|entries| - 1];
      EntryLinesKnown(sections, symtab, first, front);
      if last in symtab {
        assert Known(entries, symtab)[..|Known(front, symtab)|] == Known(front, symtab);
      } else {
        assert Known(entries, symtab) == Known(front, symtab);
      }
    }
  }

  lemma {:induction false} AllItemLines(esd: map<nat, string>, m: Module)
    requires NamesAll(esd, m) && Writable(m)
    ensures ItemLines(esd, Items(m))
            == SectionLines(Csects(m.sections)) + EntryLines(m.sections, m.symtab, FirstName(m), m.entries) +
                ExternLines(m.extrns)
  {
    KnownIn(m.entries, m.symtab);
    var a, b := SectionItems(Csects(m.sections)), EntryItems(m, Known(m.entries, m.symtab));
    ItemLinesJoin(esd, a + b, ExternItems(m.extrns));
    ItemLinesJoin(esd, a, b);
    SectionItemLines(esd, Csects(m.sections));
    if Known(m.entries, m.symtab) != [] {
      FirstNamed(esd, m);
      EntryItemLines(esd, m, Known(m.entries, m.symtab));
    }
    EntryLinesKnown(m.sections, m.symtab, FirstName(m), m.entries);
    ExternItemLines(esd, m.extrns);
  }

  // ---------------------------------------------------------------- text and relocations

  lemma {:induction false} TextLinesFirst(esd: map<nat, string>, t: Extent, rest: seq<Extent>)
    ensures TextLines(esd, [t] + rest) == [TxtLine(Named(esd, t.esdId), t.address, t.bytes)] + TextLines(esd, rest)
  {
    TextLinesJoin(esd, [t], rest);
    assert [t][..0] == [];
  }

  lemma {:induction false} TextLinesJoin(esd: map<nat, string>, a: seq<Extent>, b: seq<Extent>)
    ensures TextLines(esd, a + b) == TextLines(esd, a) + TextLines(esd, b)
    decreases |b|
  {
    if b == [] {
      assert a + b == a;
    } else {
      TextLinesJoin(esd, a, b[..|b| - 1]);
      assert (a + b)[..|a + b| - 1] == a + b[..|b| - 1];
    }
  }

  lemma {:induction false} FirstText(id: nat, address: nat, data: seq<Byte>, n: nat)
    requires data != [] && n == Least(PER_TXT, |data|)
    ensures Texts(id, address, data) == [Extent(id, Mask(address), data[..n])] + Texts(id, address + n, data[n..])
  {
  }

  lemma {:induction false} FirstChunk(name: string, address: nat, data: seq<Byte>, n: nat)
    requires data != [] && n == Least(PER_TXT, |data|)
    ensures Chunks(name, address, data) ==
            [TxtLine(name, Mask(address), data[..n])] + Chunks(name, address + n, data[n..])
  {
  }

  lemma {:induction false} SectionTextLines(esd: map<nat, string>, id: nat, address: nat, data: seq<Byte>)
    ensures TextLines(esd, Texts(id, address, data)) == Chunks(Named(esd, id), address, data)
    decreases |data|
  {
    if data != [] {
      hide *;
      var n := Least(PER_TXT, |data|);
      LeastIs(PER_TXT, |data|);
      FirstText(id, address, data, n);
      FirstChunk(Named(esd, id), address, data, n);
      SectionTextLines(esd, id, address + n, data[n..]);
      TextLinesFirst(esd, Extent(id, Mask(address), data[..n]), Texts(id, address + n, data[n..]));
    }
  }

  lemma {:induction false} LeastIs(a: nat, b: nat)
    ensures Least(a, b) == if a < b then a else b
  {
  }

  lemma {:induction false} CsectNamed(esd: map<nat, string>, m: Module, n: nat)
    requires NamesAll(esd, m) && 1 <= n <= |Csects(m.sections)|
    ensures Named(esd, n) == Display(Csects(m.sections)[n - 1].name)
  {
    NamesAt(Csects(m.sections), n - 1);
    assert Keys(m)[n - 1] == Names(Csects(m.sections))[n - 1];
  }

  lemma {:induction false} AllTextLines(esd: map<nat, string>, m: Module, n: nat)
    requires NamesAll(esd, m) && n <= |Csects(m.sections)|
    ensures TextLines(esd, AllTexts(Csects(m.sections), n)) == SectionChunks(Csects(m.sections), n)
  {
    if n > 0 {
      var csects := Csects(m.sections);
      AllTextLines(esd, m, n - 1);
      TextLinesJoin(esd, AllTexts(csects, n - 1), Texts(n, 0, Memory(csects[n - 1])));
      SectionTextLines(esd, n, 0, Memory(csects[n - 1]));
      CsectNamed(esd, m, n);
    }
  }

  lemma {:induction false} KnownContains(entries: seq<string>, symtab: map<string, Symbol>, name: string)
    ensures name in Known(entries, symtab) <==> name in entries && name in symtab
  {
    if entries != [] {
      KnownContains(entries[..|entries| - 1], symtab, name);
      assert entries == entries[..|entries| - 1] + [entries[|entries| - 1]];
    }
  }

  lemma {:induction false} SymbolNamed(esd: map<nat, string>, m: Module, symbol: string)
    requires NamesAll(esd, m)
    ensures var id := NumberOf(Keys(m), symbol);
            (id.Some? <==> Defined(m, symbol)) && (id.Some? ==> Named(esd, id.value) == Display(symbol))
  {
    NumberOfIn(Keys(m), symbol);
    KnownContains(m.entries, m.symtab, symbol);
  }

  lemma {:induction false} RldLinesMore(esd: map<nat, string>, rlds: seq<Rld>, r: Rld)
    ensures RldLines(esd, WrappedRlds(rlds + [r]))
            == RldLines(esd, WrappedRlds(rlds)) +
                [RldLine(Named(esd, r.rel), Named(esd, r.pos), r.flags, Mask(r.address))]
  {
    assert (rlds + [r])[..|rlds|] == rlds;
    assert (WrappedRlds(rlds) + [WrappedRld(r)])[..|rlds|] == WrappedRlds(rlds);
  }

  lemma {:induction false} AllRldLines(esd: map<nat, string>, m: Module, relocations: seq<Relocation>)
    requires NamesAll(esd, m)
    ensures RldLines(esd, WrappedRlds(Rlds(m, relocations))) == RelocationLines(m, relocations)
  {
    if relocations != [] {
      var front, r := relocations[..|relocations| - 1], relocations[|relocations| - 1];
      AllRldLines(esd, m, front);
      SymbolNamed(esd, m, r.symbol);
      SectionNamed(esd, m, r.section);
      if Defined(m, r.symbol) && r.section in Names(Csects(m.sections)) {
        var r' := Rlds(m, relocations)[|Rlds(m, front)|];
        assert Rlds(m, relocations) == Rlds(m, front) + [r'];
        RldLinesMore(esd, Rlds(m, front), r');
      } else {
        assert Rlds(m, relocations) == Rlds(m, front);
      }
    }
  }

  // ---------------------------------------------------------------- recovery

  lemma {:induction false} FoundName(m: Module, i: nat)
    requires Writable(m) && 1 <= i <= |Keys(m)|
    ensures i in Found(m).esd && Found(m).esd[i] == Display(Keys(m)[i - 1])
  {
    NumberAt(1, WrappedAll(Items(m)), i);
    WrappedAt(Items(m), i - 1);
    ItemAt(m, i - 1);
  }

  lemma {:induction false} FoundNames(m: Module)
    requires Writable(m)
    ensures NamesAll(Found(m).esd, m)
  {
    hide Found, Writable, Display;
    forall i | 1 <= i <= |Keys(m)| ensures i in Found(m).esd && Found(m).esd[i] == Display(Keys(m)[i - 1]) {
      FoundName(m, i);
    }
  }

  lemma {:induction false} EndLine(esd: map<nat, string>, sd: seq<Described>, end: bool)
    ensures DescribedLines(esd, sd + if end then [NoEntryPoint] else []) ==
            DescribedLines(esd, sd) + if end then [NoEntryLine] else []
  {
    NothingMore(sd);
    NothingMore(DescribedLines(esd, sd));
    assert (sd + [NoEntryPoint])[..|sd|] == sd;
  }

  lemma {:induction false} FoundLines(m: Module)
    requires Writable(m)
    ensures Lines(Found(m)) == Canonical(m)
  {
    var esd := Found(m).esd;
    FoundNames(m);
    DescribedItems(esd, Items(m));
    EndLine(esd, Describe(WrappedAll(Items(m))), m.storeProtect);
    AllItemLines(esd, m);
    AllTextLines(esd, m, |Csects(m.sections)|);
    AllRldLines(esd, m, m.relocations);
  }

  /** Reading the deck a module was written to, and naming what it numbers, gives the module's canonical
      form: sections, entries, externals, relocations, the text and the PROT cards. */
  lemma {:induction false} RoundTrip(m: Module)
    requires Writable(m)
    ensures AllEncodable(Contents(m))
    ensures var scan := ScanAll(NOTHING, Reads(EncodeAll(Contents(m))));
            scan.Some? && Lines(scan.value) == Canonical(m)
  {
    ContentsEncodable(m);
    DeckBack(Contents(m));
    ContentsFound(m);
    FoundLines(m);
  }

  // ---------------------------------------------------------------- the text of a section

  /** Line `k` of a section holds its bytes from `56 * k` on, 56 of them or what is left. */
  lemma {:induction false} ChunkAt(name: string, address: nat, data: seq<Byte>, k: nat)
    ensures k < |Chunks(name, address, data)| <==> PER_TXT * k < |data|
    ensures PER_TXT * k < |data| ==>
              var from, to := PER_TXT * k, Least(PER_TXT * k + PER_TXT, |data|);
              Chunks(name, address, data)[k] == TxtLine(name, Mask(address + from), data[from..to])
    decreases |data|
  {
    if data != [] {
      hide Mask;
      var n := Least(PER_TXT, |data|);
      FirstChunk(name, address, data, n);
      if k > 0 {
        hide Chunks;
        ChunkAt(name, address + n, data[n..], k - 1);
        if PER_TXT * k < |data| {
          SliceBehind(data, PER_TXT, PER_TXT * (k - 1), Least(PER_TXT * k, |data| - PER_TXT));
        }
      }
    }
  }

  // ---------------------------------------------------------------- order

  /** The same module with its entries and its externals in another order. */
  ghost predicate Reordered(m: Module, n: Module) {
    n == m.(entries := n.entries, extrns := n.extrns)
    && multiset(m.entries) == multiset(n.entries) && multiset(m.extrns) == multiset(n.extrns)
  }

  /** Where the last of `a` stands in `b`; what is left of both is again the same up to order. */
  lemma {:induction false} Removal(a: seq<string>, b: seq<string>) returns (i: nat)
    requires multiset(a) == multiset(b) && a != []
    ensures i < |b| && b[i] == a[|a| - 1] && multiset(a[..|a| - 1]) == multiset(b[..i] + b[i + 1..])
    ensures a == a[..|a| - 1] + [b[i]] && b == b[..i] + [b[i]] + b[i + 1..]
  {
    var n := |a| - 1;
    assert a == a[..n] + [a[n]];
    assert a[n] in multiset(a);
    i :| 0 <= i < |b| && b[i] == a[n];
    assert b == b[..i] + [b[i]] + b[i + 1..];
    assert multiset(a[..n]) == multiset(a) - multiset{a[n]};
    assert multiset(b[..i] + b[i + 1..]) == multiset(b) - multiset{a[n]};
  }

  lemma {:induction false} EntryLinesJoin(sections: seq<Section>, symtab: map<string, Symbol>, first: string,
                                          a: seq<string>, b: seq<string>)
    ensures EntryLines(sections, symtab, first, a + b)
            == EntryLines(sections, symtab, first, a) + EntryLines(sections, symtab, first, b)
    decreases |b|
  {
    if b == [] {
      assert a + b == a;
    } else {
      EntryLinesJoin(sections, symtab, first, a, b[..|b| - 1]);
      assert (a + b)[..|a + b| - 1] == a + b[..|b| - 1];
    }
  }

  lemma {:induction false} EntryLinesReordered(sections: seq<Section>, symtab: map<string, Symbol>, first: string,
                                               a: seq<string>, b: seq<string>)
    requires multiset(a) == multiset(b)
    ensures multiset(EntryLines(sections, symtab, first, a)) == multiset(EntryLines(sections, symtab, first, b))
    decreases |a|
  {
    if a == [] {
      assert b == [];
    } else {
      var i := Removal(a, b);
      var x, rest := b[i], b[..i] + b[i + 1..];
      EntryLinesReordered(sections, symtab, first, a[..|a| - 1], rest);
      EntryLinesJoin(sections, symtab, first, a[..|a| - 1], [x]);
      EntryLinesJoin(sections, symtab, first, b[..i], [x]);
      EntryLinesJoin(sections, symtab, first, b[..i] + [x], b[i + 1..]);
      EntryLinesJoin(sections, symtab, first, b[..i], b[i + 1..]);
    }
  }

  lemma {:induction false} ExternLinesJoin(a: seq<string>, b: seq<string>)
    ensures ExternLines(a + b) == ExternLines(a) + ExternLines(b)
    decreases |b|
  {
    if b == [] {
      assert a + b == a;
    } else {
      ExternLinesJoin(a, b[..|b| - 1]);
      assert (a + b)[..|a + b| - 1] == a + b[..|b| - 1];
    }
  }

  lemma {:induction false} ExternLinesReordered(a: seq<string>, b: seq<string>)
    requires multiset(a) == multiset(b)
    ensures multiset(ExternLines(a)) == multiset(ExternLines(b))
    decreases |a|
  {
    if a == [] {
      assert b == [];
    } else {
      var i := Removal(a, b);
      var x, rest := b[i], b[..i] + b[i + 1..];
      ExternLinesReordered(a[..|a| - 1], rest);
      ExternLinesJoin(a[..|a| - 1], [x]);
      ExternLinesJoin(b[..i], [x]);
      ExternLinesJoin(b[..i] + [x], b[i + 1..]);
      ExternLinesJoin(b[..i], b[i + 1..]);
    }
  }

  lemma {:induction false} RelocationsReordered(m: Module, n: Module, relocations: seq<Relocation>)
    requires Reordered(m, n)
    ensures RelocationLines(m, relocations) == RelocationLines(n, relocations)
  {
    if relocations != [] {
      RelocationsReordered(m, n, relocations[..|relocations| - 1]);
      var symbol := relocations[|relocations| - 1].symbol;
      assert symbol in m.entries <==> symbol in multiset(m.entries);
      assert symbol in n.entries <==> symbol in multiset(n.entries);
      assert symbol in m.extrns <==> symbol in multiset(m.extrns);
      assert symbol in n.extrns <==> symbol in multiset(n.extrns);
    }
  }

  /** As long as item 1 is the same, order does not show. */
  lemma {:induction false} OrderHidden(m: Module, n: Module)
    requires Reordered(m, n) && FirstName(m) == FirstName(n)
    ensures multiset(Canonical(m)) == multiset(Canonical(n))
  {
    EntryLinesReordered(m.sections, m.symtab, FirstName(m), m.entries, n.entries);
    ExternLinesReordered(m.extrns, n.extrns);
    RelocationsReordered(m, n, m.relocations);
  }

  // Lines of the other kinds.
  ghost predicate Other(lines: seq<Line>) {
    forall k :: 0 <= k < |lines| ==> !lines[k].LdLine? && !lines[k].NoEntryLine?
  }

  lemma {:induction false} SectionsOther(csects: seq<Section>)
    ensures Other(SectionLines(csects))
  {
    if csects != [] { SectionsOther(csects[..|csects| - 1]); }
  }

  lemma {:induction false} ExternsOther(extrns: seq<string>)
    ensures Other(ExternLines(extrns))
  {
    if extrns != [] { ExternsOther(extrns[..|extrns| - 1]); }
  }

  lemma {:induction false} ChunksOther(name: string, address: nat, data: seq<Byte>)
    ensures Other(Chunks(name, address, data))
    decreases |data|
  {
    if data != [] {
      var n := Least(PER_TXT, |data|);
      ChunksOther(name, address + n, data[n..]);
    }
  }

  lemma {:induction false} SectionChunksOther(csects: seq<Section>, n: nat)
    requires n <= |csects|
    ensures Other(SectionChunks(csects, n))
  {
    if n > 0 {
      SectionChunksOther(csects, n - 1);
      ChunksOther(Display(csects[n - 1].name), 0, Memory(csects[n - 1]));
    }
  }

  lemma {:induction false} RelocationsOther(m: Module, relocations: seq<Relocation>)
    ensures Other(RelocationLines(m, relocations))
  {
    if relocations != [] { RelocationsOther(m, relocations[..|relocations| - 1]); }
  }

  lemma {:induction false} CtlOther(ctl: seq<string>)
    ensures Other(CtlLines(ctl))
  {
    if ctl != [] { CtlOther(ctl[..|ctl| - 1]); }
  }

  lemma {:induction false} AllOther(m: Module)
    ensures Other(SectionLines(Csects(m.sections))) && Other(ExternLines(m.extrns))
    ensures Other(SectionChunks(Csects(m.sections), |Csects(m.sections)|) + RelocationLines(m, m.relocations)
                  + if m.storeProtect then CtlLines(m.controls) else [])
  {
    SectionsOther(Csects(m.sections));
    ExternsOther(m.extrns);
    SectionChunksOther(Csects(m.sections), |Csects(m.sections)|);
    RelocationsOther(m, m.relocations);
    CtlOther(m.controls);
  }

  lemma {:induction false} EntryLinesAre(sections: seq<Section>, symtab: map<string, Symbol>, first: string,
                                         entries: seq<string>, line: Line)
    ensures line in EntryLines(sections, symtab, first, entries)
            <==> exists name :: name in entries && Some(line) == EntryLineOf(sections, symtab, first, name)
  {
    if entries != [] {
      var front, last := entries[..|entries| - 1], entries[|entries| - 1];
      EntryLinesAre(sections, symtab, first, front, line);
      assert entries == front + [last];
      assert Some(line) == EntryLineOf(sections, symtab, first, last) ==> last in entries;
    }
  }

  lemma {:induction false} AmongFive(a: seq<Line>, b: seq<Line>, c: seq<Line>, d: seq<Line>, e: seq<Line>, line: Line)
    ensures line in a + b + c + d + e <==> line in a || line in b || line in c || line in d || line in e
  {
  }

  /** The LD lines of the canonical form are those of the entries; the END line is there exactly when
      store protection is not left out. */
  lemma {:induction false} CanonicalKinds(m: Module, line: Line)
    ensures line.LdLine? ==>
              (line in Canonical(m) <==> line in EntryLines(m.sections, m.symtab, FirstName(m), m.entries))
    ensures NoEntryLine in Canonical(m) <==> m.storeProtect
  {
    AllOther(m);
    var a, b, c := SectionLines(Csects(m.sections)), EntryLines(m.sections, m.symtab, FirstName(m), m.entries),
        ExternLines(m.extrns);
    var d := if m.storeProtect then [NoEntryLine] else [];
    var e := SectionChunks(Csects(m.sections), |Csects(m.sections)|) + RelocationLines(m, m.relocations)
             + if m.storeProtect then CtlLines(m.controls) else [];
    assert Canonical(m) == a + b + c + d + e;
    EntryLinesAre(m.sections, m.symtab, FirstName(m), m.entries, NoEntryLine);
    hide Canonical, SectionLines, EntryLines, ExternLines, SectionChunks, RelocationLines, CtlLines, FirstName;
    AmongFive(a, b, c, d, e, line);
    AmongFive(a, b, c, d, e, NoEntryLine);
  }

  lemma {:induction false} OrderShown(m: Module, n: Module)
    requires Reordered(m, n) && Csects(m.sections) == [] && Known(m.entries, m.symtab) != [] &&
             FirstName(m) != FirstName(n)
    ensures multiset(Canonical(m)) != multiset(Canonical(n))
  {
    var name := FirstName(m);
    KnownContains(m.entries, m.symtab, name);
    var line := EntryLineOf(m.sections, m.symtab, name, name).value;
    EntryLinesAre(m.sections, m.symtab, name, m.entries, line);
    EntryLinesAre(n.sections, n.symtab, FirstName(n), n.entries, line);
    CanonicalKinds(m, line);
    CanonicalKinds(n, line);
    assert line in multiset(Canonical(m)) && line !in multiset(Canonical(n));
  }

  lemma {:induction false} KnownSame(m: Module, n: Module, name: string)
    requires Reordered(m, n)
    ensures name in Known(m.entries, m.symtab) <==> name in Known(n.entries, n.symtab)
  {
    KnownContains(m.entries, m.symtab, name);
    KnownContains(n.entries, n.symtab, name);
    assert name in m.entries <==> name in multiset(m.entries);
    assert name in n.entries <==> name in multiset(n.entries);
  }

  /** Renumbering does not change the canonical form, except where no control section is there to be
      item 1: then it does exactly when another entry comes first. */
  lemma {:induction false} OrderIrrelevant(m: Module, n: Module)
    requires Reordered(m, n)
    ensures multiset(Canonical(m)) == multiset(Canonical(n)) <==>
            Csects(m.sections) != [] || FirstName(m) == FirstName(n)
  {
    if FirstName(m) == FirstName(n) {
      OrderHidden(m, n);
    } else {
      KnownSame(m, n, FirstName(n));
      OrderShown(m, n);
    }
  }
}
