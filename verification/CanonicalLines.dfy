/**
  The lines of the canonical form, kind by kind, said of the module's own sections, entries, externals,
  relocations and memory: which lines there are, and no others.
 */
module CanonicalLines {
  import opened Basics
  import opened Wrappers
  import opened CardFormat
  import opened ObjectModule
  import opened CanonicalForm

  // ---------------------------------------------------------------- what the lines should be

  /** A number as three bytes hold it. */
  function Three(v: int): int { v % 0x100_0000 }

  function Shown(name: string): string { if name == "" then "#MAIN" else name }

  ghost predicate IsControl(s: Section) { !s.dsect }

  /** The control section of that name. */
  ghost predicate ControlAt(m: Module, i: int, name: string) {
    0 <= i < |m.sections| && m.sections[i].name == name && IsControl(m.sections[i])
  }

  ghost predicate NamesControl(m: Module, name: string) { exists i :: ControlAt(m, i, name) }

  ghost predicate SdOf(m: Module, line: Line) {
    exists i :: 0 <= i < |m.sections| && IsControl(m.sections[i]) &&
      line == SdLine(Shown(m.sections[i].name), Three(m.sections[i].offset * 2), Three(m.sections[i].used))
  }

  ghost predicate FirstControl(sections: seq<Section>, i: int) {
    0 <= i < |sections| && IsControl(sections[i]) && forall j :: 0 <= j < i ==> !IsControl(sections[j])
  }

  /** What item 1 is called: the first control section, or else the first entry with a symbol. */
  ghost predicate FirstItem(m: Module, name: string) {
    if exists i :: 0 <= i < |m.sections| && IsControl(m.sections[i]) then
      exists i :: FirstControl(m.sections, i) && name == Shown(m.sections[i].name)
    else
      exists k :: 0 <= k < |m.entries| && m.entries[k] in m.symtab && name == m.entries[k] &&
        forall j :: 0 <= j < k ==> m.entries[j] !in m.symtab
  }

  /** A symbol's section stands at `offset` halfwords; one that the module does not have counts as zero. */
  ghost predicate StandsAt(m: Module, section: string, offset: int) {
    && (forall i :: 0 <= i < |m.sections| && m.sections[i].name == section ==> offset == m.sections[i].offset)
    && ((forall i :: 0 <= i < |m.sections| ==> m.sections[i].name != section) ==> offset == 0)
  }

  ghost predicate BytesAt(m: Module, symbol: Symbol, address: int) {
    exists offset :: StandsAt(m, symbol.section, offset) && address == Three((symbol.address + offset) * 2)
  }

  /** An entry's line: its byte address in the module and its control section. */
  ghost predicate LdFor(m: Module, name: string, line: Line) {
    && line.LdLine? && line.name == name && name in m.symtab
    && BytesAt(m, m.symtab[name], line.address)
    && if NamesControl(m, m.symtab[name].section) then line.within == Shown(m.symtab[name].section)
       else FirstItem(m, line.within)
  }

  ghost predicate LdOf(m: Module, line: Line) {
    exists k :: 0 <= k < |m.entries| && LdFor(m, m.entries[k], line)
  }

  ghost predicate ErOf(m: Module, line: Line) {
    exists k :: 0 <= k < |m.extrns| && line == ErLine(m.extrns[k])
  }

  /** Line `k` of a control section. */
  ghost predicate TxtFor(s: Section, k: nat, line: Line) {
    var n := if s.used < |s.memory| then s.used else |s.memory|;
    56 * k < n &&
    line == TxtLine(Shown(s.name), Three(56 * k), s.memory[56 * k..if 56 * k + 56 < n then 56 * k + 56 else n])
  }

  ghost predicate TxtOf(m: Module, line: Line) {
    exists i, k: nat :: 0 <= i < |m.sections| && IsControl(m.sections[i]) && TxtFor(m.sections[i], k, line)
  }

  /** The flag byte tells the kinds apart; its first bit is the sign of the displacement. */
  ghost predicate FlagFor(r: Relocation, flags: int) {
    match r.kind
    case Z(Some(given)) => flags == given
    case Z(None) => flags == 0x04
    case Y => flags % 128 == 0 && (flags >= 128 <==> r.negative)
    case Standard => flags % 128 == 0x1C && (flags >= 128 <==> r.negative)
  }

  /** The symbol is a control section, an entry or an external. */
  ghost predicate HasItem(m: Module, symbol: string) {
    NamesControl(m, symbol) || (symbol in m.entries && symbol in m.symtab) || symbol in m.extrns
  }

  ghost predicate RldFor(m: Module, r: Relocation, line: Line) {
    && line.RldLine? && HasItem(m, r.symbol) && NamesControl(m, r.section)
    && line.rel == Shown(r.symbol) && line.pos == Shown(r.section)
    && FlagFor(r, line.flags) && line.address == Three(r.address)
  }

  ghost predicate RldOf(m: Module, line: Line) {
    exists k :: 0 <= k < |m.relocations| && RldFor(m, m.relocations[k], line)
  }

  ghost predicate CtlOf(m: Module, line: Line) {
    m.storeProtect && exists k :: 0 <= k < |m.controls| && line == CtlLine(m.controls[k])
  }

  // ---------------------------------------------------------------- sections

  lemma {:induction false} AmongCsects(sections: seq<Section>, s: Section)
    ensures s in Csects(sections) <==> s in sections && IsControl(s)
  {
    if sections != [] {
      AmongCsects(sections[..|sections| - 1], s);
      assert sections == sections[..|sections| - 1] + [sections[|sections| - 1]];
    }
  }

  lemma {:induction false} AmongNames(sections: seq<Section>, name: string)
    ensures name in Names(sections) <==> exists k :: 0 <= k < |sections| && sections[k].name == name
  {
    forall k | 0 <= k < |sections| ensures Names(sections)[k] == sections[k].name { NamesAt(sections, k); }
  }

  lemma {:induction false} ControlNames(m: Module, name: string)
    ensures name in Names(Csects(m.sections)) <==> NamesControl(m, name)
  {
    var csects := Csects(m.sections);
    AmongNames(csects, name);
    if name in Names(csects) {
      var k :| 0 <= k < |csects| && csects[k].name == name;
      assert csects[k] in csects;
      AmongCsects(m.sections, csects[k]);
      var i :| 0 <= i < |m.sections| && m.sections[i] == csects[k];
      assert ControlAt(m, i, name);
    }
    if i :| ControlAt(m, i, name) {
      AmongCsects(m.sections, m.sections[i]);
      var k :| 0 <= k < |csects| && csects[k] == m.sections[i];
    }
  }

  lemma {:induction false} SectionLinesAre(csects: seq<Section>, line: Line)
    ensures line in SectionLines(csects) <==>
            exists k :: 0 <= k < |csects| &&
              line == SdLine(Shown(csects[k].name), Three(csects[k].offset * 2), Three(csects[k].used))
  {
    if csects != [] {
      var front, last := csects[..|csects| - 1], csects[|csects| - 1];
      SectionLinesAre(front, line);
      MaskMeans(last.offset * 2);
      MaskMeans(last.used);
      assert forall k :: 0 <= k < |front| ==> front[k] == csects[k];
    }
  }

  lemma {:induction false} SdLinesAre(m: Module, line: Line)
    ensures line in SectionLines(Csects(m.sections)) <==> SdOf(m, line)
  {
    var csects := Csects(m.sections);
    SectionLinesAre(csects, line);
    forall k | 0 <= k < |csects| ensures csects[k] in m.sections && IsControl(csects[k]) {
      AmongCsects(m.sections, csects[k]);
    }
    forall i | 0 <= i < |m.sections| && IsControl(m.sections[i]) ensures m.sections[i] in csects {
      AmongCsects(m.sections, m.sections[i]);
    }
    hide Csects, SectionLines, Three, Shown, IsControl;
  }

  // ---------------------------------------------------------------- entries

  ghost predicate DistinctNames(m: Module) {
    forall i, j :: 0 <= i < j < |m.sections| ==> m.sections[i].name != m.sections[j].name
  }

  lemma {:induction false} OffsetFound(sections: seq<Section>, i: nat)
    requires i < |sections| && forall j :: i < j < |sections| ==> sections[j].name != sections[i].name
    ensures OffsetOf(sections, sections[i].name) == sections[i].offset
  {
    if i < |sections| - 1 {
      OffsetFound(sections[..|sections| - 1], i);
    }
  }

  lemma {:induction false} OffsetMissing(sections: seq<Section>, name: string)
    requires forall i :: 0 <= i < |sections| ==> sections[i].name != name
    ensures OffsetOf(sections, name) == 0
  {
    if sections != [] {
      OffsetMissing(sections[..|sections| - 1], name);
    }
  }

  lemma {:induction false} OffsetStands(m: Module, section: string, offset: int)
    requires DistinctNames(m)
    ensures StandsAt(m, section, offset) <==> offset == OffsetOf(m.sections, section)
  {
    if i :| 0 <= i < |m.sections| && m.sections[i].name == section {
      OffsetFound(m.sections, i);
    } else {
      OffsetMissing(m.sections, section);
    }
  }

  /** An entry's item has the entry's place in its section behind the section's own, in bytes. */
  lemma {:induction false} EntryAddress(m: Module, name: string, i: nat)
    requires DistinctNames(m) && name in m.symtab
    ensures i < |m.sections| && m.sections[i].name == m.symtab[name].section ==>
              EntryItem(m, name).address == (m.symtab[name].address + m.sections[i].offset) * 2
    ensures (forall j :: 0 <= j < |m.sections| ==> m.sections[j].name != m.symtab[name].section) ==>
              EntryItem(m, name).address == 2 * m.symtab[name].address
  {
    OffsetStands(m, m.symtab[name].section, OffsetOf(m.sections, m.symtab[name].section));
  }

  lemma {:induction false} CsectsBegin(sections: seq<Section>)
    ensures Csects(sections) == [] <==> forall i :: 0 <= i < |sections| ==> !IsControl(sections[i])
    ensures Csects(sections) != [] ==> exists i :: FirstControl(sections, i) && sections[i] == Csects(sections)[0]
  {
    if sections != [] {
      var n := |sections| - 1;
      var front := sections[..n];
      CsectsBegin(front);
      assert forall j :: 0 <= j < n ==> sections[j] == front[j];
      if Csects(front) != [] {
        var i :| FirstControl(front, i) && front[i] == Csects(front)[0];
        assert FirstControl(sections, i);
      } else if IsControl(sections[n]) {
        assert FirstControl(sections, n) && Csects(sections) == [sections[n]];
      }
    }
  }

  lemma {:induction false} KnownBegins(entries: seq<string>, symtab: map<string, Symbol>)
    ensures Known(entries, symtab) == [] <==> forall k :: 0 <= k < |entries| ==> entries[k] !in symtab
    ensures Known(entries, symtab) != [] ==>
              exists k :: 0 <= k < |entries| && entries[k] == Known(entries, symtab)[0] && entries[k] in symtab &&
                forall j :: 0 <= j < k ==> entries[j] !in symtab
  {
    if entries != [] {
      var n := |entries| - 1;
      var front := entries[..n];
      KnownBegins(front, symtab);
      if Known(front, symtab) != [] {
        var i :| 0 <= i < n && front[i] == Known(front, symtab)[0] && front[i] in symtab &&
                 forall j :: 0 <= j < i ==> front[j] !in symtab;
        assert Known(entries, symtab)[0] == Known(front, symtab)[0] && entries[i] == front[i];
        assert forall j :: 0 <= j < i ==> entries[j] == front[j];
      } else {
        assert forall j :: 0 <= j < n ==> entries[j] == front[j];
        assert entries[n] in symtab ==> Known(entries, symtab) == [entries[n]];
      }
    }
  }

  lemma {:induction false} FirstItemIs(m: Module, k: nat, name: string)
    requires k < |m.entries| && m.entries[k] in m.symtab
    ensures FirstItem(m, name) <==> name == FirstName(m)
  {
    CsectsBegin(m.sections);
    KnownBegins(m.entries, m.symtab);
  }

  lemma {:induction false} BytesAtIs(m: Module, symbol: Symbol, address: int)
    requires DistinctNames(m)
    ensures BytesAt(m, symbol, address) <==>
            address == Mask((symbol.address + OffsetOf(m.sections, symbol.section)) * 2)
  {
    var offset := OffsetOf(m.sections, symbol.section);
    MaskMeans((symbol.address + offset) * 2);
    OffsetStands(m, symbol.section, offset);
    forall o | StandsAt(m, symbol.section, o) ensures o == offset { OffsetStands(m, symbol.section, o); }
    hide OffsetOf, StandsAt, Mask;
  }

  lemma {:induction false} ShownIs(name: string)
    ensures Shown(name) == Display(name)
  {
  }

  lemma {:induction false} LdLineIs(sections: seq<Section>, symtab: map<string, Symbol>, first: string, name: string,
                                    line: Line)
    ensures Some(line) == EntryLineOf(sections, symtab, first, name) <==>
            && name in symtab && line.LdLine? && line.name == name
            && line.address == Mask((symtab[name].address + OffsetOf(sections, symtab[name].section)) * 2)
            && line.within == if symtab[name].section in Names(Csects(sections)) then Display(symtab[name].section)
                              else first
  {
    hide OffsetOf, Names, Csects, Mask, Display;
  }

  lemma {:induction false} LdLineFor(m: Module, k: nat, line: Line)
    requires DistinctNames(m) && k < |m.entries|
    ensures Some(line) == EntryLineOf(m.sections, m.symtab, FirstName(m), m.entries[k]) <==>
            LdFor(m, m.entries[k], line)
  {
    hide *;
    var name := m.entries[k];
    LdLineIs(m.sections, m.symtab, FirstName(m), name, line);
    LdForIs(m, name, line);
    if name in m.symtab && line.LdLine? {
      FirstItemIs(m, k, line.within);
      BytesAtIs(m, m.symtab[name], line.address);
      ControlNames(m, m.symtab[name].section);
      ShownIs(m.symtab[name].section);
    }
  }

  lemma {:induction false} LdForIs(m: Module, name: string, line: Line)
    ensures LdFor(m, name, line) <==>
            && name in m.symtab && line.LdLine? && line.name == name && BytesAt(m, m.symtab[name], line.address)
            && if NamesControl(m, m.symtab[name].section) then line.within == Shown(m.symtab[name].section)
               else FirstItem(m, line.within)
  {
  }

  lemma {:induction false} LdLinesAre(m: Module, line: Line)
    requires DistinctNames(m)
    ensures line in EntryLines(m.sections, m.symtab, FirstName(m), m.entries) <==> LdOf(m, line)
  {
    EntryLinesAre(m.sections, m.symtab, FirstName(m), m.entries, line);
    forall k | 0 <= k < |m.entries|
      ensures Some(line) == EntryLineOf(m.sections, m.symtab, FirstName(m), m.entries[k]) <==>
              LdFor(m, m.entries[k], line)
    {
      LdLineFor(m, k, line);
    }
    hide EntryLines, EntryLineOf, LdFor, FirstName;
  }

  // ---------------------------------------------------------------- externals, text, relocations, controls

  lemma {:induction false} ErLinesAre(extrns: seq<string>, line: Line)
    ensures line in ExternLines(extrns) <==> exists k :: 0 <= k < |extrns| && line == ErLine(extrns[k])
  {
    if extrns != [] {
      var front := extrns[..|extrns| - 1];
      ErLinesAre(front, line);
      assert forall k :: 0 <= k < |front| ==> front[k] == extrns[k];
    }
  }

  lemma {:induction false} CtlLinesAre(ctl: seq<string>, line: Line)
    ensures line in CtlLines(ctl) <==> exists k :: 0 <= k < |ctl| && line == CtlLine(ctl[k])
  {
    if ctl != [] {
      var front := ctl[..|ctl| - 1];
      CtlLinesAre(front, line);
      assert forall k :: 0 <= k < |front| ==> front[k] == ctl[k];
    }
  }

  lemma {:induction false} ChunkFor(s: Section, k: nat)
    ensures var chunks := Chunks(Display(s.name), 0, Memory(s));
            (k < |chunks| <==> exists line :: TxtFor(s, k, line)) && (k < |chunks| ==> TxtFor(s, k, chunks[k]))
  {
    ChunkAt(Display(s.name), 0, Memory(s), k);
    MaskMeans(56 * k);
    var n := if s.used < |s.memory| then s.used else |s.memory|;
    if 56 * k < n {
      var to := if 56 * k + 56 < n then 56 * k + 56 else n;
      SliceWithin(s.memory, n, 56 * k, to);
      assert TxtFor(s, k, TxtLine(Shown(s.name), Three(56 * k), s.memory[56 * k..to]));
    }
  }

  lemma {:induction false} ChunksAre(s: Section, line: Line)
    ensures line in Chunks(Display(s.name), 0, Memory(s)) <==> exists k: nat :: TxtFor(s, k, line)
  {
    var chunks := Chunks(Display(s.name), 0, Memory(s));
    forall k: nat
      ensures k < |chunks| ==> TxtFor(s, k, chunks[k])
      ensures TxtFor(s, k, line) ==> k < |chunks| && chunks[k] == line
    {
      ChunkFor(s, k);
    }
    hide Chunks, Memory, TxtFor;
  }

  lemma {:induction false} SectionChunksAre(csects: seq<Section>, n: nat, line: Line)
    requires n <= |csects|
    ensures line in SectionChunks(csects, n) <==> exists i, k: nat :: 0 <= i < n && TxtFor(csects[i], k, line)
  {
    if n > 0 {
      SectionChunksAre(csects, n - 1, line);
      ChunksAre(csects[n - 1], line);
      hide Chunks, Memory, TxtFor;
    }
  }

  lemma {:induction false} TxtLinesAre(m: Module, line: Line)
    ensures line in SectionChunks(Csects(m.sections), |Csects(m.sections)|) <==> TxtOf(m, line)
  {
    var csects := Csects(m.sections);
    SectionChunksAre(csects, |csects|, line);
    forall i | 0 <= i < |csects| ensures csects[i] in m.sections && IsControl(csects[i]) {
      AmongCsects(m.sections, csects[i]);
    }
    forall i | 0 <= i < |m.sections| && IsControl(m.sections[i]) ensures m.sections[i] in csects {
      AmongCsects(m.sections, m.sections[i]);
    }
    hide Csects, SectionChunks, TxtFor, IsControl;
  }

  lemma {:induction false} RldLineFor(m: Module, r: Relocation, line: Line)
    ensures RldFor(m, r, line) <==>
            && Defined(m, r.symbol) && r.section in Names(Csects(m.sections))
            && line == RldLine(Display(r.symbol), Display(r.section), Flags(r), Mask(r.address))
  {
    ControlNames(m, r.symbol);
    ControlNames(m, r.section);
    MaskMeans(r.address);
    hide Names, Csects, NamesControl, Mask;
  }

  lemma {:induction false} RldLinesAre(m: Module, relocations: seq<Relocation>, line: Line)
    ensures line in RelocationLines(m, relocations) <==>
            exists k :: 0 <= k < |relocations| && RldFor(m, relocations[k], line)
  {
    if relocations != [] {
      var front, r := relocations[..|relocations| - 1], relocations[|relocations| - 1];
      RldLinesAre(m, front, line);
      RldLineFor(m, r, line);
      assert forall k :: 0 <= k < |front| ==> front[k] == relocations[k];
      hide RldFor, Defined, Names, Csects, Flags, Mask;
    }
  }

  // ---------------------------------------------------------------- all of them

  ghost predicate LineOf(m: Module, line: Line) {
    SdOf(m, line) || LdOf(m, line) || ErOf(m, line) || (m.storeProtect && line == NoEntryLine) || TxtOf(m, line) ||
    RldOf(m, line) || CtlOf(m, line)
  }

  lemma {:induction false} AmongSeven(a: seq<Line>, b: seq<Line>, c: seq<Line>, d: seq<Line>, e: seq<Line>,
                                      f: seq<Line>, g: seq<Line>, line: Line)
    ensures line in a + b + c + d + e + f + g <==>
            line in a || line in b || line in c || line in d || line in e || line in f || line in g
  {
    AmongFive(a, b, c, d, e, line);
  }

  /** The canonical form has exactly these lines. */
  lemma {:induction false} CanonicalMeans(m: Module, line: Line)
    requires DistinctNames(m)
    ensures line in Canonical(m) <==> LineOf(m, line)
  {
    var csects := Csects(m.sections);
    SdLinesAre(m, line);
    LdLinesAre(m, line);
    ErLinesAre(m.extrns, line);
    TxtLinesAre(m, line);
    RldLinesAre(m, m.relocations, line);
    CtlLinesAre(m.controls, line);
    AmongSeven(SectionLines(csects), EntryLines(m.sections, m.symtab, FirstName(m), m.entries), ExternLines(m.extrns),
               if m.storeProtect then [NoEntryLine] else [], SectionChunks(csects, |csects|),
               RelocationLines(m, m.relocations), if m.storeProtect then CtlLines(m.controls) else [], line);
    hide SectionLines, EntryLines, ExternLines, SectionChunks, RelocationLines, CtlLines, Csects, FirstName;
    hide SdOf, LdOf, TxtOf, RldFor;
  }

  /** Every line read back from a deck that was written. */
  lemma {:induction false} LinesReadBack(m: Module, line: Line)
    requires Writable(m)
    ensures AllEncodable(Contents(m))
    ensures var scan := ScanAll(NOTHING, Reads(EncodeAll(Contents(m))));
            scan.Some? && (line in Lines(scan.value) <==> LineOf(m, line))
  {
    RoundTrip(m);
    CanonicalMeans(m, line);
  }

  /** A number is shown as the name filed under it, one without a name in decimal behind a question mark. */
  lemma {:induction false} NamedMeans(esd: map<nat, string>, i: nat)
    ensures i in esd ==> Named(esd, i) == esd[i]
    ensures i !in esd ==>
              exists digits :: Named(esd, i) == "?" + digits &&
                (forall k :: 0 <= k < |digits| ==> IsDigit(digits[k])) && ReadDecimal(digits) == i
  {
    DecimalBack(i);
    assert i !in esd ==> Named(esd, i) == "?" + Decimal(i);
  }

  /** An END record of another assembler that names an entry point has a line with its address and section. */
  lemma {:induction false} EntryPointLine(s: Scan, entry: nat, section: nat)
    ensures var t := ScanAll(s, [EntryPoint(entry, section)]);
            t.Some? && EntryLine(entry, Named(s.esd, section)) in Lines(t.value)
  {
    var more := s.sd + [EntryAt(entry, section)];
    assert more[..|s.sd|] == s.sd;
    assert [EntryPoint(entry, section)][1..] == [];
    assert ScanAll(s, [EntryPoint(entry, section)]) == Some(s.(sd := more));
    assert DescribedLines(s.esd, more)[|DescribedLines(s.esd, s.sd)|] == EntryLine(entry, Named(s.esd, section));
  }
}
