/**
  Writing cards: byte buffers filled by slice assignment, gathered into a deck.
 */
module CardWriter {
  import opened Basics
  import opened CardFormat

  // ---------------------------------------------------------------- buffers

  method BlankBuffer(n: nat) returns (data: array<Byte>)
    ensures fresh(data) && data[..] == Blanks(n)
  {
    data := new Byte[n](_ => BLANK);
  }

  /** `data[at:at + |bytes|] = bytes`. */
  method Lay(data: array<Byte>, at: nat, bytes: seq<Byte>)
    requires at + |bytes| <= data.Length
    modifies data
    ensures data[..] == Put(old(data[..]), at, bytes)
  {
    for k := 0 to |bytes|
      invariant forall j :: 0 <= j < data.Length ==> data[j] == if at <= j < at + k then bytes[j - at] else old(data[j])
    {
      data[at + k] := bytes[k];
    }
  }

  method LayTwo(data: array<Byte>, at: nat, a: seq<Byte>, b: seq<Byte>)
    requires at + |a| + |b| <= data.Length
    modifies data
    ensures data[..] == Put(old(data[..]), at, a + b)
  {
    Lay(data, at, a);
    Lay(data, at + |a|, b);
    PutTwice(old(data[..]), at, a, b);
  }

  method MakeCard(recType: string, data: array<Byte>, seqNum: nat) returns (card: seq<Byte>)
    requires data.Length == 68
    ensures card == Record(recType, data[..], seqNum)
  {
    var buffer := BlankBuffer(80);
    Lay(buffer, 0, [OBJECT_RECORD]);
    Lay(buffer, 1, Text(recType, 3));
    Lay(buffer, 4, data[..]);
    Lay(buffer, 72, Text(Digits(seqNum, 8), 8));
    card := buffer[..];
  }

  function Head(item: Item): (r: seq<Byte>)
    ensures |r| == 12
  {
    match item
    case Sd(name, address, length) => Text(name, 8) + [0x00] + Be24(address)
    case Ld(name, address, ldid) => Text(name, 8) + [0x01] + Be24(address)
    case Er(name) => Text(name, 8) + [0x02] + Be24(0)
  }

  function Tail(item: Item): (r: seq<Byte>)
    requires item.Ld? ==> item.ldid < 0x1_0000
    ensures |r| == 4
  {
    match item
    case Sd(name, address, length) => [0x00] + Be24(length)
    case Ld(name, address, ldid) => [BLANK] + [BLANK] + Be16(ldid)
    case Er(name) => [BLANK] + [BLANK, BLANK, BLANK]
  }

  lemma {:induction false} HeadAndTail(item: Item)
    requires item.Ld? ==> item.ldid < 0x1_0000
    ensures ItemBytes(item) == Head(item) + Tail(item)
  {
    assert Blanks(4) == [BLANK] + [BLANK, BLANK, BLANK];
  }

  /** The name, the type and the address of an ESD item. */
  method LayHead(data: array<Byte>, o: nat, item: Item)
    requires o + 12 <= data.Length
    modifies data
    ensures data[..] == Put(old(data[..]), o, Head(item))
  {
    ghost var was := data[..];
    var name := Text(item.name, 8);
    var code := match item { case Sd(_, _, _) => 0x00 case Ld(_, _, _) => 0x01 case Er(_) => 0x02 };
    var address := Be24(if item.Er? then 0 else item.address);
    Lay(data, o, name);
    Lay(data, o + 8, [code]);
    Lay(data, o + 9, address);
    PutTwice(was, o, name, [code]);
    PutTwice(was, o, name + [code], address);
  }

  /** Its flags and its length or the number of its section. */
  method LayTail(data: array<Byte>, o: nat, item: Item)
    requires o + 4 <= data.Length && (item.Ld? ==> item.ldid < 0x1_0000)
    modifies data
    ensures data[..] == Put(old(data[..]), o, Tail(item))
  {
    match item {
      case Ld(_, _, ldid) =>
        ghost var was := data[..];
        LayTwo(data, o, [BLANK], [BLANK]);
        Lay(data, o + 2, Be16(ldid));
        PutTwice(was, o, [BLANK] + [BLANK], Be16(ldid));
      case Er(_) => LayTwo(data, o, [BLANK], [BLANK, BLANK, BLANK]);
      case Sd(_, _, length) => LayTwo(data, o, [0x00], Be24(length));
    }
  }

  /** One ESD item, field by field. */
  method LayItem(data: array<Byte>, o: nat, item: Item)
    requires o + 16 <= data.Length && (item.Ld? ==> item.ldid < 0x1_0000)
    modifies data
    ensures data[..] == Put(old(data[..]), o, ItemBytes(item))
  {
    LayHead(data, o, item);
    LayTail(data, o + 12, item);
    PutTwice(old(data[..]), o, Head(item), Tail(item));
    HeadAndTail(item);
  }

  /** One relocation, field by field. */
  method LayRld(data: array<Byte>, o: nat, r: Rld)
    requires o + 8 <= data.Length && GoodRld(r)
    modifies data
    ensures data[..] == Put(old(data[..]), o, RldBytes(r))
  {
    ghost var was := data[..];
    Lay(data, o, Be16(r.rel));
    Lay(data, o + 2, Be16(r.pos));
    Lay(data, o + 4, [r.flags]);
    Lay(data, o + 5, Be24(r.address));
    PutTwice(was, o, Be16(r.rel), Be16(r.pos));
    PutTwice(was, o, Be16(r.rel) + Be16(r.pos), [r.flags]);
    PutTwice(was, o, Be16(r.rel) + Be16(r.pos) + [r.flags], Be24(r.address));
  }

  lemma {:induction false} ItemsBytesMore(a: seq<Item>, x: Item)
    requires GoodLds(a) && (x.Ld? ==> x.ldid < 0x1_0000)
    ensures GoodLds(a + [x]) && ItemsBytes(a + [x]) == ItemsBytes(a) + ItemBytes(x)
  {
    assert (a + [x])[..|a|] == a;
  }

  lemma {:induction false} RldsBytesMore(a: seq<Rld>, x: Rld)
    requires GoodRlds(a) && GoodRld(x)
    ensures GoodRlds(a + [x]) && RldsBytes(a + [x]) == RldsBytes(a) + RldBytes(x)
  {
    assert (a + [x])[..|a|] == a;
  }

  lemma {:induction false} ItemsMore(base: seq<Byte>, batch: seq<Item>, j: nat)
    requires j < |batch| && GoodLds(batch) && 12 + 16 * |batch| <= |base|
    ensures GoodLds(batch[..j]) && GoodLds(batch[..j + 1])
    ensures Put(Put(base, 12, ItemsBytes(batch[..j])), 12 + j * 16, ItemBytes(batch[j])) ==
            Put(base, 12, ItemsBytes(batch[..j + 1]))
  {
    hide Put, ItemBytes;
    PutTwice(base, 12, ItemsBytes(batch[..j]), ItemBytes(batch[j]));
    ItemsBytesMore(batch[..j], batch[j]);
    assert batch[..j + 1] == batch[..j] + [batch[j]];
  }

  lemma {:induction false} RldsMore(base: seq<Byte>, batch: seq<Rld>, j: nat)
    requires j < |batch| && GoodRlds(batch) && 12 + 8 * |batch| <= |base|
    ensures GoodRlds(batch[..j]) && GoodRlds(batch[..j + 1])
    ensures Put(Put(base, 12, RldsBytes(batch[..j])), 12 + j * 8, RldBytes(batch[j])) ==
            Put(base, 12, RldsBytes(batch[..j + 1]))
  {
    hide Put, RldBytes;
    PutTwice(base, 12, RldsBytes(batch[..j]), RldBytes(batch[j]));
    RldsBytesMore(batch[..j], batch[j]);
    assert batch[..j + 1] == batch[..j] + [batch[j]];
  }

  method LayItems(data: array<Byte>, batch: seq<Item>)
    requires GoodLds(batch) && 12 + 16 * |batch| <= data.Length
    modifies data
    ensures data[..] == Put(old(data[..]), 12, ItemsBytes(batch))
  {
    ghost var base := data[..];
    for j := 0 to |batch|
      invariant GoodLds(batch[..j]) && data[..] == Put(base, 12, ItemsBytes(batch[..j]))
    {
      LayItem(data, 12 + j * 16, batch[j]);
      ItemsMore(base, batch, j);
    }
    assert batch[..|batch|] == batch;
  }

  method LayRlds(data: array<Byte>, batch: seq<Rld>)
    requires GoodRlds(batch) && 12 + 8 * |batch| <= data.Length
    modifies data
    ensures data[..] == Put(old(data[..]), 12, RldsBytes(batch))
  {
    ghost var base := data[..];
    for j := 0 to |batch|
      invariant GoodRlds(batch[..j]) && data[..] == Put(base, 12, RldsBytes(batch[..j]))
    {
      LayRld(data, 12 + j * 8, batch[j]);
      RldsMore(base, batch, j);
    }
    assert batch[..|batch|] == batch;
  }

  /** The data of an ESD card. */
  method FillEsd(first: nat, batch: seq<Item>) returns (data: array<Byte>)
    requires GoodLds(batch) && |batch| <= PER_ESD && first < 0x1_0000
    ensures fresh(data) && data[..] == EsdData(first, batch)
  {
    data := BlankBuffer(68);
    Lay(data, 6, Be16(|batch| * 16));
    Lay(data, 10, Be16(first));
    LayItems(data, batch);
  }

  method FillTxt(esdId: nat, address: int, chunk: seq<Byte>) returns (data: array<Byte>)
    requires |chunk| <= PER_TXT && esdId < 0x1_0000
    ensures fresh(data) && data[..] == TxtData(esdId, address, chunk)
  {
    data := BlankBuffer(68);
    Lay(data, 1, Be24(address));
    Lay(data, 6, Be16(|chunk|));
    Lay(data, 10, Be16(esdId));
    Lay(data, 12, chunk);
  }

  method FillRld(batch: seq<Rld>) returns (data: array<Byte>)
    requires GoodRlds(batch) && |batch| <= PER_RLD
    ensures fresh(data) && data[..] == RldData(batch)
  {
    data := BlankBuffer(68);
    Lay(data, 6, Be16(|batch| * 8));
    LayRlds(data, batch);
  }

  method FillEnd() returns (data: array<Byte>)
    ensures fresh(data) && data[..] == EndData()
  {
    data := BlankBuffer(68);
    Lay(data, 33, Text("ASM101S 0.00", 19));
  }

  // ---------------------------------------------------------------- cards

  lemma {:induction false} ItemsBytesWrapped(batch: seq<Item>)
    requires GoodLds(batch)
    ensures GoodLds(WrappedAll(batch)) && ItemsBytes(WrappedAll(batch)) == ItemsBytes(batch)
  {
    if batch != [] {
      var n := |batch| - 1;
      ItemsBytesWrapped(batch[..n]);
      ItemBytesWrapped(batch[n]);
      ItemsBytesMore(WrappedAll(batch[..n]), Wrapped(batch[n]));
    }
  }

  lemma {:induction false} ItemBytesWrapped(item: Item)
    requires item.Ld? ==> item.ldid < 0x1_0000
    ensures ItemBytes(Wrapped(item)) == ItemBytes(item)
  {
  }

  lemma {:induction false} RldsBytesWrapped(batch: seq<Rld>)
    requires GoodRlds(batch)
    ensures GoodRlds(WrappedRlds(batch)) && RldsBytes(WrappedRlds(batch)) == RldsBytes(batch)
  {
    if batch != [] {
      var n := |batch| - 1;
      RldsBytesWrapped(batch[..n]);
      assert RldBytes(WrappedRld(batch[n])) == RldBytes(batch[n]);
      assert forall k :: 0 <= k < n ==> WrappedRlds(batch)[k] == WrappedRlds(batch[..n])[k];
    }
  }

  method MakeEsd(first: nat, batch: seq<Item>, seqNum: nat) returns (card: seq<Byte>)
    requires |batch| <= PER_ESD && first < 0x1_0000 && GoodLds(batch) && forall k :: 0 <= k < |batch| ==>
             GoodItem(batch[k])
    ensures Encodable(EsdCard(first, WrappedAll(batch))) && card == Encode(EsdCard(first, WrappedAll(batch)), seqNum)
  {
    var data := FillEsd(first, batch);
    card := MakeCard("ESD", data, seqNum);
    WrappedFits(batch, []);
    ItemsBytesWrapped(batch);
  }

  method MakeTxt(esdId: nat, address: int, chunk: seq<Byte>, seqNum: nat) returns (card: seq<Byte>)
    requires |chunk| <= PER_TXT && esdId < 0x1_0000
    ensures Encodable(TxtCard(esdId, Mask(address), chunk)) &&
            card == Encode(TxtCard(esdId, Mask(address), chunk), seqNum)
  {
    var data := FillTxt(esdId, address, chunk);
    card := MakeCard("TXT", data, seqNum);
    assert Be24(Mask(address)) == Be24(address);
  }

  method MakeRld(batch: seq<Rld>, seqNum: nat) returns (card: seq<Byte>)
    requires |batch| <= PER_RLD && GoodRlds(batch)
    ensures Encodable(RldCard(WrappedRlds(batch))) && card == Encode(RldCard(WrappedRlds(batch)), seqNum)
  {
    var data := FillRld(batch);
    card := MakeCard("RLD", data, seqNum);
    WrappedFits([], batch);
    RldsBytesWrapped(batch);
  }

  method MakeEnd(seqNum: nat) returns (card: seq<Byte>)
    ensures card == Encode(BareEnd, seqNum)
  {
    var data := FillEnd();
    card := MakeCard("END", data, seqNum);
  }

  /** A PROT card: the text in an otherwise blank card, without a number. */
  method MakeControl(text: string) returns (card: seq<Byte>)
    requires GoodControl(text)
    ensures forall seqNum :: card == Encode(Control(text), seqNum)
  {
    var buffer := BlankBuffer(80);
    Lay(buffer, 0, Text(text, |text|));
    card := buffer[..];
  }

  // ---------------------------------------------------------------- decks

  /** A file of cards and, as a ghost, what they say. */
  class Deck {
    var cards: seq<seq<Byte>>
    ghost var said: seq<Content>

    /** The file holds exactly what has been said, numbered from 1. */
    ghost predicate Valid()
      reads this
    {
      AllEncodable(said) && cards == EncodeAll(said)
    }

    constructor ()
      ensures Valid() && said == []
    {
      cards, said := [], [];
    }

    method Emit(card: seq<Byte>, ghost c: Content)
      requires Valid() && Encodable(c) && card == Encode(c, |said| + 1)
      modifies this
      ensures Valid() && said == old(said) + [c]
    {
      EncodeMore(said, c);
      cards, said := cards + [card], said + [c];
    }

    method EmitEsd(first: nat, batch: seq<Item>, seqNum: nat)
      requires Valid() && seqNum == |said| + 1
      requires |batch| <= PER_ESD && first < 0x1_0000 && GoodLds(batch) && forall k :: 0 <= k < |batch| ==>
               GoodItem(batch[k])
      modifies this
      ensures Valid() && said == old(said) + [EsdCard(first, WrappedAll(batch))]
    {
      var card := MakeEsd(first, batch, seqNum);
      Emit(card, EsdCard(first, WrappedAll(batch)));
    }

    method EmitTxt(esdId: nat, address: int, chunk: seq<Byte>, seqNum: nat)
      requires Valid() && seqNum == |said| + 1 && |chunk| <= PER_TXT && esdId < 0x1_0000
      modifies this
      ensures Valid() && said == old(said) + [TxtCard(esdId, Mask(address), chunk)]
    {
      var card := MakeTxt(esdId, address, chunk, seqNum);
      Emit(card, TxtCard(esdId, Mask(address), chunk));
    }

    method EmitRld(batch: seq<Rld>, seqNum: nat)
      requires Valid() && seqNum == |said| + 1 && |batch| <= PER_RLD && GoodRlds(batch)
      modifies this
      ensures Valid() && said == old(said) + [RldCard(WrappedRlds(batch))]
    {
      var card := MakeRld(batch, seqNum);
      Emit(card, RldCard(WrappedRlds(batch)));
    }

    method EmitControl(text: string, seqNum: nat)
      requires Valid() && seqNum == |said| + 1 && GoodControl(text)
      modifies this
      ensures Valid() && said == old(said) + [Control(text)]
    {
      var card := MakeControl(text);
      Emit(card, Control(text));
    }

    method EmitEnd(seqNum: nat)
      requires Valid() && seqNum == |said| + 1
      modifies this
      ensures Valid() && said == old(said) + [BareEnd]
    {
      var card := MakeEnd(seqNum);
      Emit(card, BareEnd);
    }
  }
}
