/**
  The object module: the cards written for the sections, entries, externals and relocations of an
  assembly, and its canonical form, in which names stand for ESD numbers and order does not matter.
 */
module ObjectModule {
  import opened Basics
  import opened Wrappers
  import opened CardFormat

  /** A control section or DSECT; the offset in halfwords, `used` in bytes. */
  datatype Section = Section(name: string, dsect: bool, offset: int, used: nat, memory: seq<Byte>)

  datatype Symbol = Symbol(section: string, address: int)

  datatype Kind = Z(rldFlags: Option<Byte>) | Y | Standard

  datatype Relocation = Relocation(symbol: string, section: string, kind: Kind, negative: bool, address: int)

  /** What the assembly hands over; `controls` are the texts of its PROT cards. */
  datatype Module = Module(sections: seq<Section>, symtab: map<string, Symbol>, entries: seq<string>,
                           extrns: seq<string>, relocations: seq<Relocation>, storeProtect: bool, controls: seq<string>)

  // ---------------------------------------------------------------- items and numbers

  const UNNAMED := "#MAIN"

  function Display(name: string): string { if name == "" then UNNAMED else name }

  function Csects(sections: seq<Section>): seq<Section> {
    if sections == [] then []
    else
      var last := sections[|sections| - 1];
      Csects(sections[..|sections| - 1]) + if last.dsect then [] else [last]
  }

  function Names(sections: seq<Section>): (r: seq<string>)
    ensures |r| == |sections|
  {
    if sections == [] then [] else Names(sections[..|sections| - 1]) + [sections[|sections| - 1].name]
  }

  /** The number last given to a name, counting from 1. */
  function NumberOf(keys: seq<string>, name: string): (r: Option<nat>)
    ensures r.Some? ==> 1 <= r.value <= |keys| && keys[r.value - 1] == name
  {
    if keys == [] then None
    else if keys[|keys| - 1] == name then Some(|keys|) else NumberOf(keys[..|keys| - 1], name)
  }

  function OffsetOf(sections: seq<Section>, name: string): int {
    if sections == [] then 0
    else if sections[|sections| - 1].name == name then sections[|sections| - 1].offset
    else OffsetOf(sections[..|sections| - 1], name)
  }

  /** Entries the symbol table does not know are dropped. */
  function Known(entries: seq<string>, symtab: map<string, Symbol>): seq<string> {
    if entries == [] then []
    else
      var last := entries[|entries| - 1];
      Known(entries[..|entries| - 1], symtab) + if last in symtab then [last] else []
  }

  function SectionItems(csects: seq<Section>): (r: seq<Item>)
    ensures |r| == |csects|
  {
    if csects == [] then []
    else
      var s := csects[|csects| - 1];
      SectionItems(csects[..|csects| - 1]) + [Sd(Display(s.name), s.offset * 2, s.used)]
  }

  /** An entry belongs to its control section, or to item 1 if its section is not one. */
  function EntryItem(m: Module, name: string): Item
    requires name in m.symtab
  {
    var sym := m.symtab[name];
    var id := NumberOf(Names(Csects(m.sections)), sym.section);
    Ld(name, (sym.address + OffsetOf(m.sections, sym.section)) * 2, if id.Some? then id.value else 1)
  }

  function EntryItems(m: Module, known: seq<string>): (r: seq<Item>)
    requires forall k :: 0 <= k < |known| ==> known[k] in m.symtab
    ensures |r| == |known|
  {
    if known == [] then [] else EntryItems(m, known[..|known| - 1]) + [EntryItem(m, known[|known| - 1])]
  }

  function ExternItems(extrns: seq<string>): (r: seq<Item>)
    ensures |r| == |extrns|
  {
    if extrns == [] then [] else ExternItems(extrns[..|extrns| - 1]) + [Er(extrns[|extrns| - 1])]
  }

  lemma {:induction false} KnownIn(entries: seq<string>, symtab: map<string, Symbol>)
    ensures forall k :: 0 <= k < |Known(entries, symtab)| ==> Known(entries, symtab)[k] in symtab
  {
    if entries != [] { KnownIn(entries[..|entries| - 1], symtab); }
  }

  function Items(m: Module): (r: seq<Item>)
    ensures |r| == |Keys(m)|
  {
    KnownIn(m.entries, m.symtab);
    SectionItems(Csects(m.sections)) + EntryItems(m, Known(m.entries, m.symtab)) + ExternItems(m.extrns)
  }

  /** The name each item is filed under. */
  function Keys(m: Module): seq<string> {
    Names(Csects(m.sections)) + Known(m.entries, m.symtab) + m.extrns
  }

  function Flags(r: Relocation): Byte {
    match r.kind
    case Z(flags) => if flags.Some? then flags.value else 0x04
    case Y => if r.negative then 0x80 else 0x00
    case Standard => if r.negative then 0x9C else 0x1C
  }

  /** Relocations by unknown symbols or in unknown sections are dropped. */
  function Rlds(m: Module, relocations: seq<Relocation>): seq<Rld> {
    if relocations == [] then []
    else
      var r := relocations[|relocations| - 1];
      var rel, pos := NumberOf(Keys(m), r.symbol), NumberOf(Names(Csects(m.sections)), r.section);
      Rlds(m, relocations[..|relocations| - 1])
      + if rel.None? || pos.None? then [] else [Rld(rel.value, pos.value, Flags(r), r.address)]
  }

  // ---------------------------------------------------------------- writable modules

  /** Section names are distinct, being the keys of a dictionary, symbols have names, all of them fit
      their eight columns, and the control texts their cards. */
  ghost predicate NamesFit(m: Module) {
    && (forall i, j :: 0 <= i < j < |m.sections| ==> m.sections[i].name != m.sections[j].name)
    && (forall i :: 0 <= i < |m.sections| ==> Keepable(m.sections[i].name, 8))
    && (forall i :: 0 <= i < |m.entries| ==> Keepable(m.entries[i], 8) && m.entries[i] != "")
    && (forall i :: 0 <= i < |m.extrns| ==> Keepable(m.extrns[i], 8) && m.extrns[i] != "")
    && (forall k :: 0 <= k < |m.controls| ==> GoodControl(m.controls[k]))
  }

  /** And there are numbers enough. */
  ghost predicate Writable(m: Module) { NamesFit(m) && |Items(m)| < 0x1_0000 }

  lemma {:induction false} EntryItemsAt(m: Module, known: seq<string>, k: nat)
    requires (forall j :: 0 <= j < |known| ==> known[j] in m.symtab) && k < |known|
    ensures EntryItems(m, known)[k] == EntryItem(m, known[k])
  {
    if k < |known| - 1 { EntryItemsAt(m, known[..|known| - 1], k); }
  }

  lemma {:induction false} SectionItemsAt(csects: seq<Section>, k: nat)
    requires k < |csects|
    ensures SectionItems(csects)[k] == Sd(Display(csects[k].name), csects[k].offset * 2, csects[k].used)
  {
    if k < |csects| - 1 { SectionItemsAt(csects[..|csects| - 1], k); }
  }

  lemma {:induction false} ExternItemsAt(extrns: seq<string>, k: nat)
    requires k < |extrns|
    ensures ExternItems(extrns)[k] == Er(extrns[k])
  {
    if k < |extrns| - 1 { ExternItemsAt(extrns[..|extrns| - 1], k); }
  }

  lemma {:induction false} CsectsIn(sections: seq<Section>, k: nat)
    requires k < |Csects(sections)|
    ensures Csects(sections)[k] in sections && !Csects(sections)[k].dsect
  {
    if k < |Csects(sections[..|sections| - 1])| { CsectsIn(sections[..|sections| - 1], k); }
  }

  lemma {:induction false} KnownAmong(entries: seq<string>, symtab: map<string, Symbol>, k: nat)
    requires k < |Known(entries, symtab)|
    ensures Known(entries, symtab)[k] in entries
  {
    if k < |Known(entries[..|entries| - 1], symtab)| { KnownAmong(entries[..|entries| - 1], symtab, k); }
  }

  lemma {:induction false} NamesAt(sections: seq<Section>, k: nat)
    requires k < |sections|
    ensures Names(sections)[k] == sections[k].name
  {
    if k < |sections| - 1 { NamesAt(sections[..|sections| - 1], k); }
  }

  lemma {:induction false} DisplayKept(name: string)
    requires Keepable(name, 8)
    ensures Keepable(Display(name), 8)
  {
    if name == "" {
      var d := Display(name);
      assert d == ['#', 'M', 'A', 'I', 'N'];
      forall k | 0 <= k < |d| ensures Printable(d[k]) {}
    }
  }

  lemma {:induction false} SectionItemGood(m: Module, k: nat)
    requires Writable(m) && k < |Csects(m.sections)|
    ensures SectionItems(Csects(m.sections))[k].name == Display(Names(Csects(m.sections))[k])
    ensures GoodItem(SectionItems(Csects(m.sections))[k])
  {
    SectionItemsAt(Csects(m.sections), k);
    NamesAt(Csects(m.sections), k);
    CsectsIn(m.sections, k);
    DisplayKept(Csects(m.sections)[k].name);
  }

  lemma {:induction false} EntryItemGood(m: Module, k: nat)
    requires Writable(m) && k < |Known(m.entries, m.symtab)| && Known(m.entries, m.symtab)[k] in m.symtab
    ensures var name := Known(m.entries, m.symtab)[k];
            EntryItem(m, name).name == Display(name) && GoodItem(EntryItem(m, name))
  {
    KnownAmong(m.entries, m.symtab, k);
  }

  lemma {:induction false} ExternItemGood(m: Module, k: nat)
    requires Writable(m) && k < |m.extrns|
    ensures ExternItems(m.extrns)[k].name == Display(m.extrns[k]) && GoodItem(ExternItems(m.extrns)[k])
  {
    ExternItemsAt(m.extrns, k);
  }

  /** Each item carries the name it is filed under, and can be written and read back. */
  lemma {:induction false} ItemAt(m: Module, k: nat)
    requires Writable(m) && k < |Items(m)|
    ensures Items(m)[k].name == Display(Keys(m)[k]) && GoodItem(Items(m)[k])
  {
    var csects, known := Csects(m.sections), Known(m.entries, m.symtab);
    KnownIn(m.entries, m.symtab);
    hide Csects, Known, Writable, GoodItem, Display, EntryItem, SectionItems, EntryItems, ExternItems;
    if k < |csects| {
      SectionItemGood(m, k);
    } else if k < |csects| + |known| {
      EntryItemsAt(m, known, k - |csects|);
      EntryItemGood(m, k - |csects|);
    } else {
      ExternItemGood(m, k - |csects| - |known|);
    }
  }

  lemma {:induction false} RldsGood(m: Module, relocations: seq<Relocation>)
    requires |Items(m)| < 0x1_0000
    ensures GoodRlds(Rlds(m, relocations))
  {
    if relocations != [] { RldsGood(m, relocations[..|relocations| - 1]); }
  }

  // ---------------------------------------------------------------- reading the cards

  datatype Described = Of(item: Item) | NoEntryPoint | EntryAt(entry: nat, section: nat)

  datatype Extent = Extent(esdId: nat, address: nat, bytes: seq<Byte>)

  datatype Scan = Scan(esd: map<nat, string>, sd: seq<Described>, txt: seq<Extent>, rld: seq<Rld>, ctl: seq<string>)

  const NOTHING := Scan(map[], [], [], [], [])

  function Number(esd: map<nat, string>, first: nat, items: seq<Item>): map<nat, string> {
    if items == [] then esd
    else Number(esd, first, items[..|items| - 1])[first + |items| - 1 := items[|items| - 1].name]
  }

  function Describe(items: seq<Item>): (r: seq<Described>)
    ensures |r| == |items|
  {
    if items == [] then [] else Describe(items[..|items| - 1]) + [Of(items[|items| - 1])]
  }

  function Apply(s: Scan, c: Content): Scan {
    match c
    case Control(text) => s.(ctl := s.ctl + [text])
    case EsdCard(first, items) => s.(esd := Number(s.esd, first, items), sd := s.sd + Describe(items))
    case TxtCard(esdId, address, bytes) => s.(txt := s.txt + [Extent(esdId, address, bytes)])
    case RldCard(rlds) => s.(rld := s.rld + rlds)
    case BareEnd => s.(sd := s.sd + [NoEntryPoint])
    case EntryPoint(entry, section) => s.(sd := s.sd + [EntryAt(entry, section)])
    case Ignored => s
    case Crash => s
  }

  /** What a deck says; None if reading it runs off the end of a card. */
  function ScanAll(s: Scan, contents: seq<Content>): Option<Scan>
    decreases |contents|
  {
    if contents == [] then Some(s)
    else if contents[0].Crash? then None
    else ScanAll(Apply(s, contents[0]), contents[1..])
  }

  lemma {:induction false} ScanJoin(s: Scan, a: seq<Content>, b: seq<Content>)
    requires ScanAll(s, a).Some?
    ensures ScanAll(s, a + b) == ScanAll(ScanAll(s, a).value, b)
    decreases |a|
  {
    if a == [] {
      assert a + b == b;
    } else {
      ScanJoin(Apply(s, a[0]), a[1..], b);
      assert (a + b)[1..] == a[1..] + b;
    }
  }

  lemma {:induction false} ScanFirst(s: Scan, c: Content, rest: seq<Content>)
    requires !c.Crash?
    ensures ScanAll(s, [c] + rest) == ScanAll(Apply(s, c), rest)
  {
    assert ([c] + rest)[1..] == rest;
  }

  // ---------------------------------------------------------------- the items

  function Least(a: nat, b: nat): nat { if a < b then a else b }

  function EsdContents(items: seq<Item>, first: nat): seq<Content>
    decreases |items|
  {
    if items == [] then []
    else var n := Least(PER_ESD, |items|); [EsdCard(first, items[..n])] + EsdContents(items[n..], first + n)
  }

  lemma {:induction false} NumberJoin(esd: map<nat, string>, first: nat, a: seq<Item>, b: seq<Item>)
    ensures Number(Number(esd, first, a), first + |a|, b) == Number(esd, first, a + b)
    decreases |b|
  {
    if b == [] {
      assert a + b == a;
    } else {
      NumberJoin(esd, first, a, b[..|b| - 1]);
      assert (a + b)[..|a + b| - 1] == a + b[..|b| - 1];
    }
  }

  lemma {:induction false} NumberAt(first: nat, items: seq<Item>, i: nat)
    requires first <= i < first + |items|
    ensures i in Number(map[], first, items) && Number(map[], first, items)[i] == items[i - first].name
    decreases |items|
  {
    if i < first + |items| - 1 { NumberAt(first, items[..|items| - 1], i); }
  }

  lemma {:induction false} DescribeJoin(a: seq<Item>, b: seq<Item>)
    ensures Describe(a + b) == Describe(a) + Describe(b)
    decreases |b|
  {
    if b == [] {
      assert a + b == a;
    } else {
      DescribeJoin(a, b[..|b| - 1]);
      assert (a + b)[..|a + b| - 1] == a + b[..|b| - 1];
    }
  }

  lemma {:induction false} ScanEsd(s: Scan, items: seq<Item>, first: nat)
    ensures ScanAll(s, EsdContents(items, first)) ==
            Some(s.(esd := Number(s.esd, first, items), sd := s.sd + Describe(items)))
    decreases |items|
  {
    if items == [] {
      assert s.sd + Describe(items) == s.sd;
    } else {
      var n := Least(PER_ESD, |items|);
      var a, b := items[..n], items[n..];
      ScanFirst(s, EsdCard(first, a), EsdContents(b, first + n));
      ScanEsd(Apply(s, EsdCard(first, a)), b, first + n);
      assert a + b == items;
      NumberJoin(s.esd, first, a, b);
      DescribeJoin(a, b);
      Associate(s.sd, Describe(a), Describe(b));
    }
  }

  // ---------------------------------------------------------------- the text

  /** The text of a section as the reader sees it. */
  function Texts(esdId: nat, address: nat, data: seq<Byte>): seq<Extent>
    decreases |data|
  {
    if data == [] then []
    else
      var n := Least(PER_TXT, |data|);
      [Extent(esdId, Mask(address), data[..n])] + Texts(esdId, address + n, data[n..])
  }

  function TxtContents(texts: seq<Extent>): seq<Content>
    decreases |texts|
  {
    if texts == [] then [] else [TxtCard(texts[0].esdId, texts[0].address, texts[0].bytes)] + TxtContents(texts[1..])
  }

  function Memory(s: Section): seq<Byte> { s.memory[..Least(s.used, |s.memory|)] }

  /** The text of the first `n` control sections, numbered from 1. */
  function AllTexts(csects: seq<Section>, n: nat): seq<Extent>
    requires n <= |csects|
  {
    if n == 0 then [] else AllTexts(csects, n - 1) + Texts(n, 0, Memory(csects[n - 1]))
  }

  lemma {:induction false} TxtContentsJoin(a: seq<Extent>, b: seq<Extent>)
    ensures TxtContents(a + b) == TxtContents(a) + TxtContents(b)
    decreases |a|
  {
    if a == [] {
      assert a + b == b;
    } else {
      TxtContentsJoin(a[1..], b);
      assert (a + b)[1..] == a[1..] + b;
    }
  }

  lemma {:induction false} ScanText(s: Scan, texts: seq<Extent>)
    ensures ScanAll(s, TxtContents(texts)) == Some(s.(txt := s.txt + texts))
    decreases |texts|
  {
    if texts == [] {
      assert s.txt + texts == s.txt;
    } else {
      ScanFirst(s, TxtCard(texts[0].esdId, texts[0].address, texts[0].bytes), TxtContents(texts[1..]));
      ScanText(s.(txt := s.txt + [texts[0]]), texts[1..]);
      Associate(s.txt, [texts[0]], texts[1..]);
      assert [texts[0]] + texts[1..] == texts;
    }
  }

  // ---------------------------------------------------------------- relocations and the rest

  function RldContents(rlds: seq<Rld>): seq<Content>
    decreases |rlds|
  {
    if rlds == [] then [] else var n := Least(PER_RLD, |rlds|); [RldCard(rlds[..n])] + RldContents(rlds[n..])
  }

  lemma {:induction false} ScanRlds(s: Scan, rlds: seq<Rld>)
    ensures ScanAll(s, RldContents(rlds)) == Some(s.(rld := s.rld + rlds))
    decreases |rlds|
  {
    if rlds == [] {
      assert s.rld + rlds == s.rld;
    } else {
      var n := Least(PER_RLD, |rlds|);
      ScanFirst(s, RldCard(rlds[..n]), RldContents(rlds[n..]));
      ScanRlds(s.(rld := s.rld + rlds[..n]), rlds[n..]);
      Associate(s.rld, rlds[..n], rlds[n..]);
      assert rlds[..n] + rlds[n..] == rlds;
    }
  }

  function Controls(controls: seq<string>): seq<Content> {
    if controls == [] then [] else Controls(controls[..|controls| - 1]) + [Control(controls[|controls| - 1])]
  }

  lemma {:induction false} ScanControls(s: Scan, controls: seq<string>)
    ensures ScanAll(s, Controls(controls)) == Some(s.(ctl := s.ctl + controls))
  {
    if controls == [] {
      assert s.ctl + controls == s.ctl;
    } else {
      var n := |controls| - 1;
      ScanControls(s, controls[..n]);
      ScanJoin(s, Controls(controls[..n]), [Control(controls[n])]);
      Associate(s.ctl, controls[..n], [controls[n]]);
      assert controls[..n] + [controls[n]] == controls;
    }
  }

  lemma {:induction false} ScanTrailer(s: Scan, controls: seq<string>)
    ensures ScanAll(s, Controls(controls) + [BareEnd]) == Some(s.(ctl := s.ctl + controls, sd := s.sd + [NoEntryPoint]))
  {
    ScanControls(s, controls);
    ScanJoin(s, Controls(controls), [BareEnd]);
  }

  /** What the reader finds in a deck the writer wrote. */
  function Found(m: Module): Scan {
    var items := WrappedAll(Items(m));
    Scan(Number(map[], 1, items), Describe(items) + (if m.storeProtect then [NoEntryPoint] else []),
         AllTexts(Csects(m.sections), |Csects(m.sections)|), WrappedRlds(Rlds(m, m.relocations)),
         if m.storeProtect then m.controls else [])
  }

  /** The deck: items, text, relocations and, unless store protection is left out, the PROT cards and the
      END record. */
  function Contents(m: Module): seq<Content> {
    EsdContents(WrappedAll(Items(m)), 1) + TxtContents(AllTexts(Csects(m.sections), |Csects(m.sections)|))
    + RldContents(WrappedRlds(Rlds(m, m.relocations))) + if m.storeProtect then Controls(m.controls) + [BareEnd] else []
  }

  lemma {:induction false} ContentsFound(m: Module)
    ensures ScanAll(NOTHING, Contents(m)) == Some(Found(m))
  {
    var items, rlds := WrappedAll(Items(m)), WrappedRlds(Rlds(m, m.relocations));
    var texts := AllTexts(Csects(m.sections), |Csects(m.sections)|);
    var a, b, c := EsdContents(items, 1), TxtContents(texts), RldContents(rlds);
    var s := Scan(Number(map[], 1, items), [] + Describe(items), [], [], []);
    var t := s.(txt := [] + texts);
    var u := t.(rld := [] + rlds);
    ScanEsd(NOTHING, items, 1);
    ScanText(s, texts);
    ScanJoin(NOTHING, a, b);
    ScanRlds(t, rlds);
    ScanJoin(NOTHING, a + b, c);
    ScanTrailer(u, m.controls);
    ScanJoin(NOTHING, a + b + c, if m.storeProtect then Controls(m.controls) + [BareEnd] else []);
    NothingMore(Describe(items));
    NothingMore(texts);
    NothingMore(rlds);
    NothingMore(m.controls);
  }

  // ---------------------------------------------------------------- the deck can be encoded

  lemma {:induction false} EsdEncodable(items: seq<Item>, first: nat)
    requires Fitting(items) && first + |items| <= 0x1_0000
    ensures AllEncodable(EsdContents(items, first))
    decreases |items|
  {
    if items != [] {
      var n := Least(PER_ESD, |items|);
      EsdEncodable(items[n..], first + n);
      assert Fitting(items[..n]);
      EncodableFirst(EsdCard(first, items[..n]), EsdContents(items[n..], first + n));
    }
  }

  ghost predicate GoodText(t: Extent) { |t.bytes| <= PER_TXT && t.esdId < 0x1_0000 && t.address < TWO_TO_24 }

  ghost predicate GoodTexts(texts: seq<Extent>) { forall k :: 0 <= k < |texts| ==> GoodText(texts[k]) }

  lemma {:induction false} TextsGood(esdId: nat, address: nat, data: seq<Byte>)
    requires esdId < 0x1_0000
    ensures GoodTexts(Texts(esdId, address, data))
    decreases |data|
  {
    if data != [] {
      var n := Least(PER_TXT, |data|);
      TextsGood(esdId, address + n, data[n..]);
    }
  }

  lemma {:induction false} AllTextsGood(csects: seq<Section>, n: nat)
    requires n <= |csects| < 0x1_0000
    ensures GoodTexts(AllTexts(csects, n))
  {
    if n > 0 {
      AllTextsGood(csects, n - 1);
      TextsGood(n, 0, Memory(csects[n - 1]));
    }
  }

  lemma {:induction false} TextEncodable(texts: seq<Extent>)
    requires GoodTexts(texts)
    ensures AllEncodable(TxtContents(texts))
    decreases |texts|
  {
    if texts != [] {
      TextEncodable(texts[1..]);
      EncodableFirst(TxtCard(texts[0].esdId, texts[0].address, texts[0].bytes), TxtContents(texts[1..]));
    }
  }

  lemma {:induction false} RldsEncodable(rlds: seq<Rld>)
    requires FittingRlds(rlds)
    ensures AllEncodable(RldContents(rlds))
    decreases |rlds|
  {
    if rlds != [] {
      var n := Least(PER_RLD, |rlds|);
      RldsEncodable(rlds[n..]);
      assert FittingRlds(rlds[..n]);
      EncodableFirst(RldCard(rlds[..n]), RldContents(rlds[n..]));
    }
  }

  lemma {:induction false} ControlsEncodable(controls: seq<string>)
    requires forall k :: 0 <= k < |controls| ==> GoodControl(controls[k])
    ensures AllEncodable(Controls(controls))
  {
    if controls != [] { ControlsEncodable(controls[..|controls| - 1]); }
  }

  lemma {:induction false} TrailerEncodable(controls: seq<string>)
    requires forall k :: 0 <= k < |controls| ==> GoodControl(controls[k])
    ensures AllEncodable(Controls(controls) + [BareEnd])
  {
    ControlsEncodable(controls);
    assert (Controls(controls) + [BareEnd])[..|Controls(controls)|] == Controls(controls);
  }

  lemma {:induction false} EncodableAll(a: seq<Content>, b: seq<Content>, c: seq<Content>, d: seq<Content>)
    requires AllEncodable(a) && AllEncodable(b) && AllEncodable(c) && AllEncodable(d)
    ensures AllEncodable(a + b + c + d)
  {
    EncodableJoin(a, b);
    EncodableJoin(a + b, c);
    EncodableJoin(a + b + c, d);
  }

  lemma {:induction false} ContentsEncodable(m: Module)
    requires Writable(m)
    ensures AllEncodable(Contents(m))
  {
    var items, rlds := Items(m), Rlds(m, m.relocations);
    forall k | 0 <= k < |items| ensures GoodItem(items[k]) { ItemAt(m, k); }
    RldsGood(m, m.relocations);
    WrappedFits(items, rlds);
    EsdEncodable(WrappedAll(items), 1);
    AllTextsGood(Csects(m.sections), |Csects(m.sections)|);
    TextEncodable(AllTexts(Csects(m.sections), |Csects(m.sections)|));
    RldsEncodable(WrappedRlds(rlds));
    TrailerEncodable(m.controls);
    var a := EsdContents(WrappedAll(items), 1);
    var b := TxtContents(AllTexts(Csects(m.sections), |Csects(m.sections)|));
    var c := RldContents(WrappedRlds(rlds));
    EncodableAll(a, b, c, if m.storeProtect then Controls(m.controls) + [BareEnd] else []);
  }

  // ---------------------------------------------------------------- the canonical form

  datatype Line =
    | SdLine(name: string, address: int, length: int)
    | LdLine(name: string, address: int, within: string)
    | ErLine(name: string)
    | NoEntryLine
    | EntryLine(entry: nat, within: string)
    | TxtLine(within: string, address: int, bytes: seq<Byte>)
    | RldLine(rel: string, pos: string, flags: Byte, address: int)
    | CtlLine(text: string)

  function Named(esd: map<nat, string>, i: nat): string { if i in esd then esd[i] else "?" + Decimal(i) }

  function ItemLine(esd: map<nat, string>, item: Item): Line {
    match item
    case Sd(name, address, length) => SdLine(name, address, length)
    case Ld(name, address, ldid) => LdLine(name, address, Named(esd, ldid))
    case Er(name) => ErLine(name)
  }

  function DescribedLine(esd: map<nat, string>, d: Described): Line {
    match d
    case Of(item) => ItemLine(esd, item)
    case NoEntryPoint => NoEntryLine
    case EntryAt(entry, section) => EntryLine(entry, Named(esd, section))
  }

  function DescribedLines(esd: map<nat, string>, sd: seq<Described>): seq<Line> {
    if sd == [] then [] else DescribedLines(esd, sd[..|sd| - 1]) + [DescribedLine(esd, sd[|sd| - 1])]
  }

  function TextLines(esd: map<nat, string>, txt: seq<Extent>): seq<Line> {
    if txt == [] then []
    else
      var t := txt[|txt| - 1];
      TextLines(esd, txt[..|txt| - 1]) + [TxtLine(Named(esd, t.esdId), t.address, t.bytes)]
  }

  function RldLines(esd: map<nat, string>, rld: seq<Rld>): seq<Line> {
    if rld == [] then []
    else
      var r := rld[|rld| - 1];
      RldLines(esd, rld[..|rld| - 1]) + [RldLine(Named(esd, r.rel), Named(esd, r.pos), r.flags, r.address)]
  }

  function CtlLines(ctl: seq<string>): seq<Line> {
    if ctl == [] then [] else CtlLines(ctl[..|ctl| - 1]) + [CtlLine(ctl[|ctl| - 1])]
  }

  /** Everything found, re-expressed by name; the canonical form is these lines in whatever order. */
  function Lines(s: Scan): seq<Line> {
    DescribedLines(s.esd, s.sd) + TextLines(s.esd, s.txt) + RldLines(s.esd, s.rld) + CtlLines(s.ctl)
  }
}
