/**
  The object-module writer and the canonical reader, as loops over cards.
 */
module ObjectWriter {
  import opened Basics
  import opened Wrappers
  import opened CardFormat
  import opened CardWriter
  import opened ObjectModule

  // ---------------------------------------------------------------- batches

  ghost predicate AllGood(items: seq<Item>) { GoodLds(items) && forall k :: 0 <= k < |items| ==> GoodItem(items[k]) }

  lemma {:induction false} Halves<T>(a: seq<T>, b: seq<T>, n: nat)
    requires n == |a|
    ensures (a + b)[..n] == a && (a + b)[n..] == b
  {
  }

  /** The items left, cut into the next card's and the others. */
  lemma {:induction false} EsdCut(items: seq<Item>, first: nat, n: nat)
    requires items != [] && n == Least(PER_ESD, |items|)
    ensures EsdContents(WrappedAll(items), first)
            == [EsdCard(first, WrappedAll(items[..n]))] + EsdContents(WrappedAll(items[n..]), first + n)
  {
    WrappedJoin(items[..n], items[n..]);
    assert items[..n] + items[n..] == items;
    Halves(WrappedAll(items[..n]), WrappedAll(items[n..]), n);
  }

  lemma {:induction false} EsdStep(said: seq<Content>, items: seq<Item>, first: nat, n: nat)
    requires items != [] && n == Least(PER_ESD, |items|) && AllGood(items)
    ensures said + [EsdCard(first, WrappedAll(items[..n]))] + EsdContents(WrappedAll(items[n..]), first + n)
            == said + EsdContents(WrappedAll(items), first)
    ensures AllGood(items[..n]) && AllGood(items[n..])
  {
    EsdCut(items, first, n);
    Associate(said, [EsdCard(first, WrappedAll(items[..n]))], EsdContents(WrappedAll(items[n..]), first + n));
  }

  lemma {:induction false} RldCut(rlds: seq<Rld>, n: nat)
    requires rlds != [] && n == Least(PER_RLD, |rlds|)
    ensures RldContents(WrappedRlds(rlds)) == [RldCard(WrappedRlds(rlds[..n]))] + RldContents(WrappedRlds(rlds[n..]))
  {
    WrappedRldsJoin(rlds[..n], rlds[n..]);
    assert rlds[..n] + rlds[n..] == rlds;
    Halves(WrappedRlds(rlds[..n]), WrappedRlds(rlds[n..]), n);
  }

  lemma {:induction false} TxtCut(esdId: nat, address: nat, data: seq<Byte>, n: nat)
    requires data != [] && n == Least(PER_TXT, |data|)
    ensures TxtContents(Texts(esdId, address, data))
            == [TxtCard(esdId, Mask(address), data[..n])] + TxtContents(Texts(esdId, address + n, data[n..]))
  {
    var t, rest := Extent(esdId, Mask(address), data[..n]), Texts(esdId, address + n, data[n..]);
    assert ([t] + rest)[1..] == rest;
  }

  /** Items in batches of three, numbered from 1. */
  method WriteEsd(f: Deck, items: seq<Item>, seqNum: nat) returns (next: nat)
    requires f.Valid() && seqNum == |f.said| + 1 && AllGood(items) && |items| < 0x1_0000
    modifies f
    ensures f.Valid() && next == |f.said| + 1
    ensures f.said == old(f.said) + EsdContents(WrappedAll(items), 1)
  {
    next := seqNum;
    var rest, first := items, 1;
    while rest != []
      invariant f.Valid() && next == |f.said| + 1 && AllGood(rest) && first + |rest| <= 0x1_0000
      invariant f.said + EsdContents(WrappedAll(rest), first) == old(f.said) + EsdContents(WrappedAll(items), 1)
      decreases |rest|
    {
      var n := Least(PER_ESD, |rest|);
      EsdStep(f.said, rest, first, n);
      f.EmitEsd(first, rest[..n], next);
      rest, first, next := rest[n..], first + n, next + 1;
    }
    NothingMore(f.said);
  }

  /** The bytes of a section, 56 to a card. */
  lemma {:induction false} NothingWritten(esdId: nat, at: nat)
    ensures TxtContents(Texts(esdId, at, [])) == []
  {
  }

  method WriteTxt(f: Deck, esdId: nat, address: nat, data: seq<Byte>, seqNum: nat) returns (next: nat)
    requires f.Valid() && seqNum == |f.said| + 1 && esdId < 0x1_0000
    modifies f
    ensures f.Valid() && next == |f.said| + 1
    ensures f.said == old(f.said) + TxtContents(Texts(esdId, address, data))
  {
    hide *;
    next := seqNum;
    var rest, at := data, address;
    while rest != []
      invariant f.Valid() && next == |f.said| + 1
      invariant f.said + TxtContents(Texts(esdId, at, rest)) == old(f.said) + TxtContents(Texts(esdId, address, data))
      decreases |rest|
    {
      var n := Least(PER_TXT, |rest|);
      ChunkSize(|rest|);
      TxtCut(esdId, at, rest, n);
      Associate(f.said, [TxtCard(esdId, Mask(at), rest[..n])], TxtContents(Texts(esdId, at + n, rest[n..])));
      f.EmitTxt(esdId, at, rest[..n], next);
      rest, at, next := rest[n..], at + n, next + 1;
    }
    NothingWritten(esdId, at);
    NothingMore(f.said);
  }

  lemma {:induction false} ChunkSize(length: nat)
    requires length > 0
    ensures 0 < Least(PER_TXT, length) <= length && Least(PER_TXT, length) <= PER_TXT
  {
  }

  /** Relocations in batches of seven. */
  method WriteRld(f: Deck, rlds: seq<Rld>, seqNum: nat) returns (next: nat)
    requires f.Valid() && seqNum == |f.said| + 1 && GoodRlds(rlds)
    modifies f
    ensures f.Valid() && next == |f.said| + 1
    ensures f.said == old(f.said) + RldContents(WrappedRlds(rlds))
  {
    next := seqNum;
    var rest := rlds;
    while rest != []
      invariant f.Valid() && next == |f.said| + 1 && GoodRlds(rest)
      invariant f.said + RldContents(WrappedRlds(rest)) == old(f.said) + RldContents(WrappedRlds(rlds))
      decreases |rest|
    {
      var n := Least(PER_RLD, |rest|);
      RldCut(rest, n);
      Associate(f.said, [RldCard(WrappedRlds(rest[..n]))], RldContents(WrappedRlds(rest[n..])));
      f.EmitRld(rest[..n], next);
      rest, next := rest[n..], next + 1;
    }
    NothingMore(f.said);
  }

  // ---------------------------------------------------------------- items and numbers

  /** The dictionary gives each name the number last given to it. */
  ghost predicate Numbers(ids: map<string, nat>, keys: seq<string>) {
    forall name: string :: (name in ids <==> NumberOf(keys, name).Some?) &&
        (name in ids ==> NumberOf(keys, name) == Some(ids[name]))
  }

  lemma {:induction false} NumbersMore(ids: map<string, nat>, keys: seq<string>, name: string)
    requires Numbers(ids, keys)
    ensures Numbers(ids[name := |keys| + 1], keys + [name])
  {
    assert (keys + [name])[..|keys|] == keys;
  }

  lemma {:induction false} Upto<T>(s: seq<T>, i: nat)
    requires i < |s|
    ensures s[..i + 1][..i] == s[..i] && s[..i + 1] != [] && s[..i + 1][|s[..i + 1]| - 1] == s[i]
  {
  }

  /** SD items for the control sections. */
  method SectionIds(sections: seq<Section>) returns (items: seq<Item>, ids: map<string, nat>)
    ensures items == SectionItems(Csects(sections)) && Numbers(ids, Names(Csects(sections)))
  {
    items, ids := [], map[];
    var nextEsdId := 1;
    for i := 0 to |sections|
      invariant items == SectionItems(Csects(sections[..i])) && nextEsdId == |items| + 1
      invariant Numbers(ids, Names(Csects(sections[..i])))
    {
      var s := sections[i];
      Upto(sections, i);
      if !s.dsect {
        NumbersMore(ids, Names(Csects(sections[..i])), s.name);
        ids := ids[s.name := nextEsdId];
        items := items + [Sd(Display(s.name), s.offset * 2, s.used)];
        nextEsdId := nextEsdId + 1;
      } else {
        assert Csects(sections[..i + 1]) == Csects(sections[..i]);
      }
    }
    assert sections[..|sections|] == sections;
  }

  /** The entries looked at so far have their items and their numbers. */
  ghost predicate EntriesDone(m: Module, items: seq<Item>, all: map<string, nat>, known: seq<string>,
                              filed: seq<string>) {
    && (forall k :: 0 <= k < |known| ==> known[k] in m.symtab)
    && items == EntryItems(m, known) && Numbers(all, filed)
  }

  lemma {:induction false} EntriesNext(m: Module, items: seq<Item>, all: map<string, nat>, known: seq<string>,
                                       filed: seq<string>, name: string)
    requires name in m.symtab && EntriesDone(m, items, all, known, filed)
    ensures EntriesDone(m, items + [EntryItem(m, name)], all[name := |filed| + 1], known + [name], filed + [name])
  {
    assert (known + [name])[..|known|] == known;
    NumbersMore(all, filed, name);
  }

  /** An entry's item, by the numbers of the control sections. */
  method MakeEntry(m: Module, name: string, sectIds: map<string, nat>) returns (item: Item)
    requires name in m.symtab && Numbers(sectIds, Names(Csects(m.sections)))
    ensures item == EntryItem(m, name)
  {
    var sym := m.symtab[name];
    var ldid := if sym.section in sectIds then sectIds[sym.section] else 1;
    item := Ld(name, (sym.address + OffsetOf(m.sections, sym.section)) * 2, ldid);
  }

  lemma {:induction false} KnownMore(entries: seq<string>, symtab: map<string, Symbol>, i: nat)
    requires i < |entries|
    ensures Known(entries[..i + 1], symtab) ==
            Known(entries[..i], symtab) + if entries[i] in symtab then [entries[i]] else []
  {
    Upto(entries, i);
  }

  /** LD items for the entries that are defined, numbered on from `first`. */
  method EntryIds(m: Module, ids: map<string, nat>, sectIds: map<string, nat>, first: nat, ghost keys: seq<string>)
    returns (items: seq<Item>, all: map<string, nat>, nextEsdId: nat)
    requires first == |keys| + 1 && Numbers(ids, keys) && Numbers(sectIds, Names(Csects(m.sections)))
    ensures EntriesDone(m, items, all, Known(m.entries, m.symtab), keys + Known(m.entries, m.symtab))
    ensures nextEsdId == |keys + Known(m.entries, m.symtab)| + 1
  {
    items, all, nextEsdId := [], ids, first;
    ghost var known: seq<string> := [];
    ghost var filed := keys;
    NothingMore(keys);
    for i := 0 to |m.entries|
      invariant known == Known(m.entries[..i], m.symtab) && filed == keys + known
      invariant EntriesDone(m, items, all, known, filed) && nextEsdId == |filed| + 1
    {
      var name := m.entries[i];
      KnownMore(m.entries, m.symtab, i);
      if name in m.symtab {
        var item := MakeEntry(m, name, sectIds);
        EntriesNext(m, items, all, known, filed, name);
        Associate(keys, known, [name]);
        items, all, nextEsdId := items + [item], all[name := nextEsdId], nextEsdId + 1;
        known, filed := known + [name], filed + [name];
      }
    }
    assert m.entries[..|m.entries|] == m.entries;
  }

  /** ER items for the externals. */
  method ExternIds(extrns: seq<string>, ids: map<string, nat>, first: nat, ghost keys: seq<string>)
    returns (items: seq<Item>, all: map<string, nat>)
    requires first == |keys| + 1 && Numbers(ids, keys)
    ensures items == ExternItems(extrns) && Numbers(all, keys + extrns)
  {
    items, all := [], ids;
    var nextEsdId := first;
    ghost var filed := keys;
    NothingMore(keys);
    for i := 0 to |extrns|
      invariant items == ExternItems(extrns[..i]) && filed == keys + extrns[..i]
      invariant Numbers(all, filed) && nextEsdId == |filed| + 1
    {
      Upto(extrns, i);
      NumbersMore(all, filed, extrns[i]);
      Associate(keys, extrns[..i], [extrns[i]]);
      FrontAndLast(extrns[..i + 1]);
      items, all, nextEsdId := items + [Er(extrns[i])], all[extrns[i] := nextEsdId], nextEsdId + 1;
      filed := filed + [extrns[i]];
    }
    assert extrns[..|extrns|] == extrns;
  }

  method RelocationIds(m: Module, ids: map<string, nat>, sectIds: map<string, nat>) returns (rlds: seq<Rld>)
    requires Numbers(ids, Keys(m)) && Numbers(sectIds, Names(Csects(m.sections)))
    ensures rlds == Rlds(m, m.relocations)
  {
    rlds := [];
    for i := 0 to |m.relocations|
      invariant rlds == Rlds(m, m.relocations[..i])
    {
      var r := m.relocations[i];
      Upto(m.relocations, i);
      if r.symbol in ids && r.section in sectIds {
        var rldFlags: Byte;
        if r.kind.Z? {
          rldFlags := if r.kind.rldFlags.Some? then r.kind.rldFlags.value else 0x04;
        } else if r.kind.Y? {
          rldFlags := if r.negative then 0x80 else 0x00;
        } else {
          rldFlags := if r.negative then 0x9C else 0x1C;
        }
        rlds := rlds + [Rld(ids[r.symbol], sectIds[r.section], rldFlags, r.address)];
      }
    }
    assert m.relocations[..|m.relocations|] == m.relocations;
  }

  // ---------------------------------------------------------------- text

  ghost predicate Distinct(sections: seq<Section>) {
    forall i, j :: 0 <= i < j < |sections| ==> sections[i].name != sections[j].name
  }

  lemma {:induction false} CsectsDistinct(sections: seq<Section>)
    requires Distinct(sections)
    ensures Distinct(Csects(sections))
  {
    if sections != [] {
      var front := sections[..|sections| - 1];
      CsectsDistinct(front);
      forall k | 0 <= k < |Csects(front)| ensures Csects(front)[k] in front { CsectsIn(front, k); }
    }
  }

  lemma {:induction false} CsectsPrefix(sections: seq<Section>, i: nat)
    requires i <= |sections|
    ensures Csects(sections[..i]) <= Csects(sections)
  {
    if i < |sections| {
      CsectsPrefix(sections[..|sections| - 1], i);
      assert sections[..|sections| - 1][..i] == sections[..i];
    } else {
      assert sections[..i] == sections;
    }
  }

  /** In a list of distinct names a name's number is its place. */
  lemma {:induction false} PlaceNumber(csects: seq<Section>, k: nat)
    requires Distinct(csects) && k < |csects|
    ensures NumberOf(Names(csects), csects[k].name) == Some(k + 1)
  {
    if k < |csects| - 1 {
      PlaceNumber(csects[..|csects| - 1], k);
    }
  }

  lemma {:induction false} TextMore(csects: seq<Section>, k: nat, said: seq<Content>, now: seq<Content>)
    requires k < |csects| && now ==
             said + TxtContents(AllTexts(csects, k)) + TxtContents(Texts(k + 1, 0, Memory(csects[k])))
    ensures now == said + TxtContents(AllTexts(csects, k + 1))
  {
    TxtContentsJoin(AllTexts(csects, k), Texts(k + 1, 0, Memory(csects[k])));
    Associate(said, TxtContents(AllTexts(csects, k)), TxtContents(Texts(k + 1, 0, Memory(csects[k]))));
  }

  lemma {:induction false} SectionStep(sections: seq<Section>, i: nat)
    requires Distinct(sections) && i < |sections|
    ensures var k := |Csects(sections[..i])|;
            if sections[i].dsect then |Csects(sections[..i + 1])| == k
            else
              && |Csects(sections[..i + 1])| == k + 1 <= |Csects(sections)| && Csects(sections)[k] == sections[i]
              && NumberOf(Names(Csects(sections)), sections[i].name) == Some(k + 1)
  {
    Upto(sections, i);
    CsectsPrefix(sections, i + 1);
    if !sections[i].dsect {
      var k := |Csects(sections[..i])|;
      assert Csects(sections[..i + 1])[k] == sections[i];
      CsectsDistinct(sections);
      PlaceNumber(Csects(sections), k);
    }
  }

  method WriteSection(f: Deck, s: Section, id: nat, seqNum: nat) returns (next: nat)
    requires f.Valid() && seqNum == |f.said| + 1 && id < 0x1_0000
    modifies f
    ensures f.Valid() && next == |f.said| + 1
    ensures f.said == old(f.said) + TxtContents(Texts(id, 0, Memory(s)))
  {
    next := seqNum;
    if s.used > 0 {
      next := WriteTxt(f, id, 0, s.memory[..Least(s.used, |s.memory|)], next);
    } else {
      NothingMore(f.said);
    }
  }

  lemma {:induction false} NoText(sections: seq<Section>)
    ensures Csects(sections[..0]) == [] && TxtContents(AllTexts(Csects(sections), 0)) == []
  {
  }

  /** The used part of every control section. */
  method WriteText(f: Deck, sections: seq<Section>, sectIds: map<string, nat>, seqNum: nat) returns (next: nat)
    requires f.Valid() && seqNum == |f.said| + 1 && Distinct(sections) && |Csects(sections)| < 0x1_0000
    requires Numbers(sectIds, Names(Csects(sections)))
    modifies f
    ensures f.Valid() && next == |f.said| + 1
    ensures f.said == old(f.said) + TxtContents(AllTexts(Csects(sections), |Csects(sections)|))
  {
    hide *;
    next := seqNum;
    ghost var k := 0;
    NoText(sections);
    NothingMore(f.said);
    for i := 0 to |sections|
      invariant f.Valid() && next == |f.said| + 1 && k == |Csects(sections[..i])| <= |Csects(sections)|
      invariant f.said == old(f.said) + TxtContents(AllTexts(Csects(sections), k))
    {
      var s := sections[i];
      SectionStep(sections, i);
      if !s.dsect {
        Numbered(sectIds, sections, k);
        next := WriteSection(f, s, if s.name in sectIds then sectIds[s.name] else 1, next);
        TextMore(Csects(sections), k, old(f.said), f.said);
        k := k + 1;
      }
    }
    assert sections[..|sections|] == sections;
  }

  lemma {:induction false} Numbered(sectIds: map<string, nat>, sections: seq<Section>, k: nat)
    requires Numbers(sectIds, Names(Csects(sections))) && k < |Csects(sections)|
    requires NumberOf(Names(Csects(sections)), Csects(sections)[k].name) == Some(k + 1)
    ensures Csects(sections)[k].name in sectIds && sectIds[Csects(sections)[k].name] == k + 1
  {
  }

  // ---------------------------------------------------------------- the module

  method WriteControls(f: Deck, controls: seq<string>, seqNum: nat) returns (next: nat)
    requires f.Valid() && seqNum == |f.said| + 1 && forall k :: 0 <= k < |controls| ==> GoodControl(controls[k])
    modifies f
    ensures f.Valid() && next == |f.said| + 1 && f.said == old(f.said) + Controls(controls)
  {
    next := seqNum;
    assert controls[..0] == [];
    NothingMore(f.said);
    for i := 0 to |controls|
      invariant f.Valid() && next == |f.said| + 1 && f.said == old(f.said) + Controls(controls[..i])
    {
      Upto(controls, i);
      f.EmitControl(controls[i], next);
      Associate(old(f.said), Controls(controls[..i]), [Control(controls[i])]);
      next := next + 1;
    }
    assert controls[..|controls|] == controls;
  }

  method BuildItems(m: Module) returns (esdItems: seq<Item>, esdIdMap: map<string, nat>, sectIdMap: map<string, nat>)
    ensures esdItems == Items(m) && Numbers(esdIdMap, Keys(m)) && Numbers(sectIdMap, Names(Csects(m.sections)))
  {
    esdItems, sectIdMap := SectionIds(m.sections);
    var more, ids, nextEsdId := EntryIds(m, sectIdMap, sectIdMap, |esdItems| + 1, Names(Csects(m.sections)));
    esdItems := esdItems + more;
    more, esdIdMap := ExternIds(m.extrns, ids, nextEsdId, Names(Csects(m.sections)) + Known(m.entries, m.symtab));
    esdItems := esdItems + more;
  }

  lemma {:induction false} ItemsGood(m: Module)
    requires Writable(m)
    ensures AllGood(Items(m)) && |Csects(m.sections)| < 0x1_0000
  {
    forall k | 0 <= k < |Items(m)| ensures GoodItem(Items(m)[k]) { ItemAt(m, k); }
  }

  /** The object module, written unless there are more items than numbers. */
  method WriteObjectModule(m: Module) returns (f: Deck, ok: bool)
    requires NamesFit(m)
    ensures fresh(f) && (ok <==> |Items(m)| < 0x1_0000)
    ensures ok ==> f.Valid() && f.said == Contents(m)
  {
    f := new Deck();
    var esdItems, esdIdMap, sectIdMap := BuildItems(m);
    var rldEntries := RelocationIds(m, esdIdMap, sectIdMap);
    if |esdItems| >= 0x1_0000 { return f, false; }
    ok := true;
    ItemsGood(m);
    RldsGood(m, m.relocations);
    var seqNum := WriteEsd(f, esdItems, 1);
    NothingMore(EsdContents(WrappedAll(esdItems), 1));
    seqNum := WriteText(f, m.sections, sectIdMap, seqNum);
    seqNum := WriteRld(f, rldEntries, seqNum);
    ghost var body := f.said;
    NothingMore(body);
    if m.storeProtect {
      seqNum := WriteControls(f, m.controls, seqNum);
      f.EmitEnd(seqNum);
      Associate(body, Controls(m.controls), [BareEnd]);
    }
  }

  // ---------------------------------------------------------------- the canonical reader

  /** The items of one card, entered under their numbers. */
  method ReadNumbers(esd: map<nat, string>, sd: seq<Described>, first: nat, body: seq<Byte>, count: nat)
    returns (esd': map<nat, string>, sd': seq<Described>)
    requires 12 + 16 * count <= |body|
    ensures esd' == Number(esd, first, ReadItems(body, count)) && sd' == sd + Describe(ReadItems(body, count))
  {
    esd', sd' := esd, sd;
    NothingMore(sd);
    for j := 0 to count
      invariant Entered(esd, sd, first, body, j, esd', sd')
    {
      var item := ReadItem(Get(body, 12 + j * 16, 16));
      EnteredNext(esd, sd, first, body, j, esd', sd');
      esd' := esd'[first + j := item.name];
      sd' := sd' + [Of(item)];
    }
  }

  /** The first `j` items of the card are entered. */
  ghost predicate Entered(esd: map<nat, string>, sd: seq<Described>, first: nat, body: seq<Byte>, j: nat,
                          esd': map<nat, string>, sd': seq<Described>) {
    && 12 + 16 * j <= |body|
    && esd' == Number(esd, first, ReadItems(body, j)) && sd' == sd + Describe(ReadItems(body, j))
  }

  lemma {:induction false} EnteredNext(esd: map<nat, string>, sd: seq<Described>, first: nat, body: seq<Byte>, j: nat,
                                       esd': map<nat, string>, sd': seq<Described>)
    requires Entered(esd, sd, first, body, j, esd', sd') && 12 + 16 * (j + 1) <= |body|
    ensures var item := ReadItem(Get(body, 12 + j * 16, 16));
            Entered(esd, sd, first, body, j + 1, esd'[first + j := item.name], sd' + [Of(item)])
  {
    ReadItemsMore(body, j);
    NumberMore(esd, sd, first, ReadItems(body, j), ReadItem(Get(body, 12 + j * 16, 16)));
  }

  lemma {:induction false} ReadItemsMore(body: seq<Byte>, j: nat)
    requires 12 + 16 * (j + 1) <= |body|
    ensures ReadItems(body, j + 1) == ReadItems(body, j) + [ReadItem(Get(body, 12 + j * 16, 16))]
  {
  }

  lemma {:induction false} NumberMore(esd: map<nat, string>, sd: seq<Described>, first: nat, items: seq<Item>,
                                      item: Item)
    ensures Number(esd, first, items + [item]) == Number(esd, first, items)[first + |items| := item.name]
    ensures sd + Describe(items + [item]) == sd + Describe(items) + [Of(item)]
  {
    assert (items + [item])[..|items|] == items;
    Associate(sd, Describe(items), [Of(item)]);
  }

  method ReadRelocations(rld: seq<Rld>, body: seq<Byte>, count: nat) returns (rld': seq<Rld>)
    requires 12 + 8 * count <= |body|
    ensures rld' == rld + ReadRlds(body, count)
  {
    rld' := rld;
    NothingMore(rld);
    for j := 0 to count
      invariant rld' == rld + ReadRlds(body, j)
    {
      Associate(rld, ReadRlds(body, j), [ReadRld(Get(body, 12 + j * 8, 8))]);
      rld' := rld' + [ReadRld(Get(body, 12 + j * 8, 8))];
    }
  }

  /** One card of the deck. */
  method ReadOne(s: Scan, card: seq<Byte>) returns (r: Option<Scan>)
    requires |card| == 80
    ensures r == if Read(card).Crash? then None else Some(Apply(s, Read(card)))
  {
    if card[0] != OBJECT_RECORD {
      return Some(s.(ctl := s.ctl + [Name(card)]));
    }
    var typ, body := Name(Get(card, 1, 3)), Get(card, 4, 68);
    if typ == "ESD" {
      var count, first := Be(Get(body, 6, 2)) / 16, Be(Get(body, 10, 2));
      if count > PER_ESD { return None; }
      var esd, sd := ReadNumbers(s.esd, s.sd, first, body, count);
      return Some(s.(esd := esd, sd := sd));
    } else if typ == "TXT" {
      var n := Be(Get(body, 6, 2));
      var text := Extent(Be(Get(body, 10, 2)), Be(Get(body, 1, 3)), Get(body, 12, Least(n, PER_TXT)));
      return Some(s.(txt := s.txt + [text]));
    } else if typ == "RLD" {
      var count := Be(Get(body, 6, 2)) / 8;
      if count > PER_RLD { return None; }
      var rld := ReadRelocations(s.rld, body, count);
      return Some(s.(rld := rld));
    } else if typ == "END" {
      var addr, esdId := Be(Get(body, 1, 3)), Be(Get(body, 10, 2));
      if addr == 0x40_4040 && esdId == 0x4040 {
        return Some(s.(sd := s.sd + [NoEntryPoint]));
      } else {
        return Some(s.(sd := s.sd + [EntryAt(addr, esdId)]));
      }
    }
    return Some(s);
  }

  lemma {:induction false} ScanMore(s: Scan, contents: seq<Content>, c: Content)
    requires ScanAll(s, contents).Some?
    ensures ScanAll(s, contents + [c]) == if c.Crash? then None else Some(Apply(ScanAll(s, contents).value, c))
  {
    ScanJoin(s, contents, [c]);
    assert [c][1..] == [];
  }

  lemma {:induction false} ReadsUpto(deck: seq<seq<Byte>>, i: nat)
    requires i < |deck| && Cards(deck)
    ensures Reads(deck[..i + 1]) == Reads(deck[..i]) + [Read(deck[i])]
  {
    Upto(deck, i);
  }

  lemma {:induction false} ScanCrash(s: Scan, deck: seq<seq<Byte>>, i: nat)
    requires i <= |deck| && Cards(deck) && ScanAll(s, Reads(deck[..i])).None?
    ensures ScanAll(s, Reads(deck)).None?
    decreases |deck| - i
  {
    if i == |deck| {
      assert deck[..i] == deck;
    } else {
      ReadsUpto(deck, i);
      ScanNone(s, Reads(deck[..i]), [Read(deck[i])]);
      ScanCrash(s, deck, i + 1);
    }
  }

  lemma {:induction false} ScanNone(s: Scan, a: seq<Content>, b: seq<Content>)
    requires ScanAll(s, a).None?
    ensures ScanAll(s, a + b).None?
    decreases |a|
  {
    if a != [] && !a[0].Crash? {
      ScanNone(Apply(s, a[0]), a[1..], b);
      assert (a + b)[1..] == a[1..] + b;
    }
  }

  /** The canonical form of a deck: what it says, re-expressed by name, in whatever order; None if
      reading it runs off the end of a card. */
  method Canon(deck: seq<seq<Byte>>) returns (form: Option<multiset<Line>>)
    requires Cards(deck)
    ensures form == match ScanAll(NOTHING, Reads(deck)) case None => None case Some(s) => Some(multiset(Lines(s)))
  {
    var s := NOTHING;
    assert deck[..0] == [];
    for i := 0 to |deck|
      invariant ScanAll(NOTHING, Reads(deck[..i])) == Some(s)
    {
      ReadsUpto(deck, i);
      ScanMore(NOTHING, Reads(deck[..i]), Read(deck[i]));
      var next := ReadOne(s, deck[i]);
      if next.None? {
        ScanCrash(NOTHING, deck, i + 1);
        return None;
      }
      s := next.value;
    }
    assert deck[..|deck|] == deck;
    return Some(multiset(Lines(s)));
  }
}
