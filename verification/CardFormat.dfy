/**
  The 80-byte cards of an object module: EBCDIC names and big-endian numbers in fixed columns, written
  by slice assignment into a blank card and read back column by column.
 */
module CardFormat {
  import opened Basics

  const BLANK: Byte := 0x40
  const OBJECT_RECORD: Byte := 0x02
  const TWO_TO_24 := 0x100_0000

  // ---------------------------------------------------------------- columns

  function Blanks(n: nat): (r: seq<Byte>)
    ensures |r| == n && forall k :: 0 <= k < n ==> r[k] == BLANK
  {
    if n == 0 then [] else Blanks(n - 1) + [BLANK]
  }

  function Get(card: seq<Byte>, at: nat, n: nat): (r: seq<Byte>)
    requires at + n <= |card|
    ensures |r| == n
  {
    card[at..at + n]
  }

  lemma {:induction false} PutSame(card: seq<Byte>, at: nat, bytes: seq<Byte>)
    requires at + |bytes| <= |card|
    ensures Get(Put(card, at, bytes), at, |bytes|) == bytes
  {
  }

  lemma {:induction false} PutOther(card: seq<Byte>, at: nat, bytes: seq<Byte>, x: nat, n: nat)
    requires at + |bytes| <= |card| && x + n <= |card| && (x + n <= at || at + |bytes| <= x)
    ensures Get(Put(card, at, bytes), x, n) == Get(card, x, n)
  {
  }

  lemma {:induction false} PutTwice(card: seq<Byte>, at: nat, a: seq<Byte>, b: seq<Byte>)
    requires at + |a| + |b| <= |card|
    ensures Put(Put(card, at, a), at + |a|, b) == Put(card, at, a + b)
  {
  }

  lemma {:induction false} GetWithin(card: seq<Byte>, at: nat, n: nat, x: nat, m: nat)
    requires at + n <= |card| && x + m <= n
    ensures Get(Get(card, at, n), x, m) == Get(card, at + x, m)
  {
    var part := Get(card, at, n);
    assert forall k :: 0 <= k < m ==> Get(part, x, m)[k] == part[x + k] == card[at + x + k];
  }

  // ---------------------------------------------------------------- numbers

  function Be16(v: int): (r: seq<Byte>)
    requires 0 <= v < 0x1_0000
    ensures |r| == 2
  {
    [v / 256, v % 256]
  }

  /** The value modulo 2^24, as MaskMeans shows. */
  function Mask(v: int): (m: nat)
    ensures m < TWO_TO_24
    decreases if v < 0 then TWO_TO_24 - v else v
  {
    if v < 0 then Mask(v + TWO_TO_24) else if v >= TWO_TO_24 then Mask(v - TWO_TO_24) else v
  }

  lemma {:induction false} MaskMeans(v: int)
    ensures Mask(v) == v % TWO_TO_24
    decreases if v < 0 then TWO_TO_24 - v else v
  {
    if v < 0 { MaskMeans(v + TWO_TO_24); } else if v >= TWO_TO_24 { MaskMeans(v - TWO_TO_24); }
  }

  /** Three bytes, a negative value in two's complement. */
  function Be24(v: int): (r: seq<Byte>)
    ensures |r| == 3
  {
    var m := Mask(v);
    [m / 0x1_0000, m / 256 % 256, m % 256]
  }

  function Be(b: seq<Byte>): nat {
    if b == [] then 0 else 256 * Be(b[..|b| - 1]) + b[|b| - 1]
  }

  lemma {:induction false} BeTwo(x: Byte, y: Byte)
    ensures Be([x, y]) == 256 * x + y
  {
    assert [x, y][..1] == [x] && [x][..0] == [];
    assert Be([x]) == 256 * Be([]) + x;
  }

  lemma {:induction false} Be16Back(v: int)
    requires 0 <= v < 0x1_0000
    ensures Be(Be16(v)) == v
  {
    BeTwo(v / 256, v % 256);
  }

  lemma {:induction false} Be24Back(v: int)
    ensures Be(Be24(v)) == Mask(v)
  {
    var b, m := Be24(v), Mask(v);
    BeTwo(m / 0x1_0000, m / 256 % 256);
    assert b[..2] == [m / 0x1_0000, m / 256 % 256];
    Digits24(m);
  }

  lemma {:induction false} Digits24(m: nat)
    requires m < TWO_TO_24
    ensures 256 * (256 * (m / 0x1_0000) + m / 256 % 256) + m % 256 == m
  {
    assert m / 256 / 256 == m / 0x1_0000;
  }

  // ---------------------------------------------------------------- text

  /** The characters a symbol or a PROT card is made of. */
  predicate Printable(c: char) {
    || 'A' <= c <= 'Z' || '0' <= c <= '9' || c == '$' || c == '#' || c == '@' || c == '_'
    || c == ' ' || c == '-' || c == ',' || c == '.'
  }

  function ToEbcdic(c: char): Byte {
    if 'A' <= c <= 'I' then 0xC1 + (c - 'A') as int
    else if 'J' <= c <= 'R' then 0xD1 + (c - 'J') as int
    else if 'S' <= c <= 'Z' then 0xE2 + (c - 'S') as int
    else if '0' <= c <= '9' then 0xF0 + (c - '0') as int
    else if c == '$' then 0x5B else if c == '#' then 0x7B else if c == '@' then 0x7C
    else if c == '_' then 0x6D else if c == '-' then 0x60 else if c == ',' then 0x6B
    else if c == '.' then 0x4B else BLANK
  }

  function ToAscii(b: Byte): char {
    if 0xC1 <= b <= 0xC9 then 'A' + (b - 0xC1) as char
    else if 0xD1 <= b <= 0xD9 then 'J' + (b - 0xD1) as char
    else if 0xE2 <= b <= 0xE9 then 'S' + (b - 0xE2) as char
    else if 0xF0 <= b <= 0xF9 then '0' + (b - 0xF0) as char
    else if b == 0x5B then '$' else if b == 0x7B then '#' else if b == 0x7C then '@'
    else if b == 0x6D then '_' else if b == 0x60 then '-' else if b == 0x6B then ',' else if b == 0x4B then '.' else ' '
  }

  lemma {:induction false} EbcdicBack(c: char)
    requires Printable(c)
    ensures ToAscii(ToEbcdic(c)) == c
  {
  }

  /** The first `n` characters, blanks where there are none. */
  function Text(s: string, n: nat): (r: seq<Byte>)
    ensures |r| == n
  {
    if n == 0 then [] else Text(s, n - 1) + [if n - 1 < |s| then ToEbcdic(s[n - 1]) else BLANK]
  }

  /** The characters of the bytes, trailing blanks removed. */
  function Name(b: seq<Byte>): string {
    Trim(Chars(b))
  }

  function Chars(b: seq<Byte>): string {
    if b == [] then "" else Chars(b[..|b| - 1]) + [ToAscii(b[|b| - 1])]
  }

  ghost predicate AllPrintable(s: string) { forall k :: 0 <= k < |s| ==> Printable(s[k]) }

  function Cut(s: string, n: nat): string { if |s| <= n then s else s[..n] }

  /** Text that survives being put on a card of `n` columns and taken off again. */
  ghost predicate Keepable(s: string, n: nat) {
    |s| <= n && (s == "" || s[|s| - 1] != ' ') && forall k :: 0 <= k < |s| ==> Printable(s[k])
  }

  lemma {:induction false} CharsBack(s: string, n: nat)
    requires n <= |s| && forall k :: 0 <= k < |s| ==> Printable(s[k])
    ensures Chars(Text(s, n)) == s[..n]
  {
    if n > 0 {
      CharsBack(s, n - 1);
      EbcdicBack(s[n - 1]);
      assert Text(s, n)[..n - 1] == Text(s, n - 1);
    }
  }

  lemma {:induction false} StripBlank(b: seq<Byte>)
    ensures Name(b + [BLANK]) == Name(b)
  {
    assert (b + [BLANK])[..|b|] == b;
    assert (Chars(b) + [' '])[..|Chars(b)|] == Chars(b);
  }

  /** What is written in `n` columns, cut or blank-padded, is read without the blanks at its end. */
  lemma {:induction false} NameRead(s: string, n: nat)
    requires AllPrintable(s)
    ensures Name(Text(s, n)) == Trim(Cut(s, n))
    decreases n
  {
    if n <= |s| {
      CharsBack(s, n);
      assert n == |s| ==> s[..n] == s;
    } else {
      NameRead(s, n - 1);
      StripBlank(Text(s, n - 1));
    }
  }

  /** Names survive: what is written blank-padded in `n` columns is read as it was. */
  lemma {:induction false} NameBack(s: string, n: nat)
    requires Keepable(s, n)
    ensures Name(Text(s, n)) == s
  {
    NameRead(s, n);
  }

  /** The last `k` decimal digits. */
  function Digits(n: nat, k: nat): (s: string)
    ensures |s| == k
    decreases k
  {
    if k == 0 then "" else Digits(n / 10, k - 1) + ['0' + (n % 10) as char]
  }

  // ---------------------------------------------------------------- cards

  function Record(recType: string, data: seq<Byte>, seqNum: nat): (card: seq<Byte>)
    requires |data| == 68
    ensures |card| == 80
  {
    Put(Put(Put(Put(Blanks(80), 0, [OBJECT_RECORD]), 1, Text(recType, 3)), 4, data), 72, Text(Digits(seqNum, 8), 8))
  }

  lemma {:induction false} RecordFields(recType: string, data: seq<Byte>, seqNum: nat)
    requires |data| == 68
    ensures var card := Record(recType, data, seqNum);
            card[0] == OBJECT_RECORD && Get(card, 1, 3) == Text(recType, 3) && Get(card, 4, 68) == data
  {
    var digits := Text(Digits(seqNum, 8), 8);
    var c1 := Put(Blanks(80), 0, [OBJECT_RECORD]);
    var c2 := Put(c1, 1, Text(recType, 3));
    var c3 := Put(c2, 4, data);
    PutSame(c2, 4, data);
    PutOther(c3, 72, digits, 4, 68);
    PutSame(c1, 1, Text(recType, 3));
    PutOther(c2, 4, data, 1, 3);
    PutOther(c3, 72, digits, 1, 3);
  }

  // ---------------------------------------------------------------- ESD items

  datatype Item =
    | Sd(name: string, address: int, length: int)
    | Ld(name: string, address: int, ldid: nat)
    | Er(name: string)

  ghost predicate GoodItem(item: Item) {
    Keepable(item.name, 8) && (item.Ld? ==> item.ldid < 0x1_0000)
  }

  /** The 16 bytes of an item: name, type, address, flags and length or the number of the section. */
  function ItemBytes(item: Item): (r: seq<Byte>)
    requires item.Ld? ==> item.ldid < 0x1_0000
    ensures |r| == 16
  {
    match item
    case Sd(name, address, length) => Text(name, 8) + [0x00] + Be24(address) + [0x00] + Be24(length)
    case Ld(name, address, ldid) => Text(name, 8) + [0x01] + Be24(address) + [BLANK, BLANK] + Be16(ldid)
    case Er(name) => Text(name, 8) + [0x02] + Be24(0) + Blanks(4)
  }

  function ReadItem(b: seq<Byte>): Item
    requires |b| == 16
  {
    var name := Name(Get(b, 0, 8));
    if b[8] == 0x00 then Sd(name, Be(Get(b, 9, 3)), Be(Get(b, 13, 3)))
    else if b[8] == 0x01 then Ld(name, Be(Get(b, 9, 3)), Be(Get(b, 14, 2)))
    else Er(name)
  }

  /** The item as three bytes can hold it. */
  function Wrapped(item: Item): Item {
    match item
    case Sd(name, address, length) => Sd(name, Mask(address), Mask(length))
    case Ld(name, address, ldid) => Ld(name, Mask(address), ldid)
    case Er(name) => item
  }

  lemma {:induction false} ItemBack(item: Item)
    requires GoodItem(item)
    ensures ReadItem(ItemBytes(item)) == Wrapped(item)
  {
    var b := ItemBytes(item);
    NameBack(item.name, 8);
    assert Get(b, 0, 8) == Text(item.name, 8);
    match item {
      case Sd(_, address, length) =>
        assert Get(b, 9, 3) == Be24(address) && Get(b, 13, 3) == Be24(length);
        Be24Back(address);
        Be24Back(length);
      case Ld(_, address, ldid) =>
        assert Get(b, 9, 3) == Be24(address) && Get(b, 14, 2) == Be16(ldid);
        Be24Back(address);
        Be16Back(ldid);
      case Er(_) =>
    }
  }

  // ---------------------------------------------------------------- relocations

  datatype Rld = Rld(rel: nat, pos: nat, flags: Byte, address: int)

  predicate GoodRld(r: Rld) { r.rel < 0x1_0000 && r.pos < 0x1_0000 }

  function RldBytes(r: Rld): (b: seq<Byte>)
    requires GoodRld(r)
    ensures |b| == 8
  {
    Be16(r.rel) + Be16(r.pos) + [r.flags] + Be24(r.address)
  }

  function ReadRld(b: seq<Byte>): Rld
    requires |b| == 8
  {
    Rld(Be(Get(b, 0, 2)), Be(Get(b, 2, 2)), b[4], Be(Get(b, 5, 3)))
  }

  function WrappedRld(r: Rld): Rld { r.(address := Mask(r.address)) }

  lemma {:induction false} RldBack(r: Rld)
    requires GoodRld(r)
    ensures ReadRld(RldBytes(r)) == WrappedRld(r)
  {
    var b := RldBytes(r);
    assert Get(b, 0, 2) == Be16(r.rel) && Get(b, 2, 2) == Be16(r.pos) && Get(b, 5, 3) == Be24(r.address);
    Be16Back(r.rel);
    Be16Back(r.pos);
    Be24Back(r.address);
  }

  // ---------------------------------------------------------------- batches on one card

  predicate GoodLds(items: seq<Item>) { forall k :: 0 <= k < |items| ==> items[k].Ld? ==> items[k].ldid < 0x1_0000 }

  function ItemsBytes(batch: seq<Item>): (b: seq<Byte>)
    requires GoodLds(batch)
    ensures |b| == 16 * |batch|
  {
    if batch == [] then [] else ItemsBytes(batch[..|batch| - 1]) + ItemBytes(batch[|batch| - 1])
  }

  predicate GoodRlds(rlds: seq<Rld>) { forall k :: 0 <= k < |rlds| ==> GoodRld(rlds[k]) }

  function RldsBytes(batch: seq<Rld>): (b: seq<Byte>)
    requires GoodRlds(batch)
    ensures |b| == 8 * |batch|
  {
    if batch == [] then [] else RldsBytes(batch[..|batch| - 1]) + RldBytes(batch[|batch| - 1])
  }

  function ReadItems(body: seq<Byte>, n: nat): (items: seq<Item>)
    requires 12 + 16 * n <= |body|
    ensures |items| == n
  {
    if n == 0 then [] else ReadItems(body, n - 1) + [ReadItem(Get(body, 12 + 16 * (n - 1), 16))]
  }

  function ReadRlds(body: seq<Byte>, n: nat): (rlds: seq<Rld>)
    requires 12 + 8 * n <= |body|
    ensures |rlds| == n
  {
    if n == 0 then [] else ReadRlds(body, n - 1) + [ReadRld(Get(body, 12 + 8 * (n - 1), 8))]
  }

  function WrappedAll(items: seq<Item>): (r: seq<Item>)
    ensures |r| == |items|
  {
    if items == [] then [] else WrappedAll(items[..|items| - 1]) + [Wrapped(items[|items| - 1])]
  }

  function WrappedRlds(rlds: seq<Rld>): (r: seq<Rld>)
    ensures |r| == |rlds|
  {
    if rlds == [] then [] else WrappedRlds(rlds[..|rlds| - 1]) + [WrappedRld(rlds[|rlds| - 1])]
  }

  lemma {:induction false} ItemsSplit(body: seq<Byte>, batch: seq<Item>)
    requires batch != [] && GoodLds(batch) && 12 + 16 * |batch| <= |body| &&
             Get(body, 12, 16 * |batch|) == ItemsBytes(batch)
    ensures Get(body, 12, 16 * (|batch| - 1)) == ItemsBytes(batch[..|batch| - 1])
    ensures Get(body, 12 + 16 * (|batch| - 1), 16) == ItemBytes(batch[|batch| - 1])
  {
    var n := |batch| - 1;
    GetWithin(body, 12, 16 * |batch|, 0, 16 * n);
    GetWithin(body, 12, 16 * |batch|, 16 * n, 16);
  }

  lemma {:induction false} ItemsBack(body: seq<Byte>, batch: seq<Item>)
    requires GoodLds(batch) && 12 + 16 * |batch| <= |body| && Get(body, 12, 16 * |batch|) == ItemsBytes(batch)
    requires forall k :: 0 <= k < |batch| ==> GoodItem(batch[k])
    ensures ReadItems(body, |batch|) == WrappedAll(batch)
  {
    if batch != [] {
      ItemsSplit(body, batch);
      ItemsBack(body, batch[..|batch| - 1]);
      ItemBack(batch[|batch| - 1]);
    }
  }

  lemma {:induction false} RldsSplitOff(batch: seq<Rld>)
    requires GoodRlds(batch) && batch != []
    ensures var n, all := |batch| - 1, RldsBytes(batch);
            && GoodRlds(batch[..n]) && Get(all, 0, 8 * n) == RldsBytes(batch[..n])
            && Get(all, 8 * n, 8) == RldBytes(batch[n])
  {
  }

  lemma {:induction false} RldsBack(body: seq<Byte>, batch: seq<Rld>)
    requires GoodRlds(batch) && 12 + 8 * |batch| <= |body| && Get(body, 12, 8 * |batch|) == RldsBytes(batch)
    ensures ReadRlds(body, |batch|) == WrappedRlds(batch)
  {
    if batch != [] {
      var n := |batch| - 1;
      var front, all := batch[..n], Get(body, 12, 8 * |batch|);
      GetWithin(body, 12, 8 * |batch|, 0, 8 * n);
      GetWithin(body, 12, 8 * |batch|, 8 * n, 8);
      RldsSplitOff(batch);
      RldsBack(body, front);
      RldBack(batch[n]);
      hide Get, RldsBytes, RldBytes, ReadRld, WrappedRld;
    }
  }

  // ---------------------------------------------------------------- the cards written

  const PER_ESD: nat := 3
  const PER_TXT: nat := 56
  const PER_RLD: nat := 7

  function EsdData(first: nat, batch: seq<Item>): (data: seq<Byte>)
    requires GoodLds(batch) && |batch| <= PER_ESD && first < 0x1_0000
    ensures |data| == 68
  {
    Put(Put(Put(Blanks(68), 6, Be16(16 * |batch|)), 10, Be16(first)), 12, ItemsBytes(batch))
  }

  function TxtData(esdId: nat, address: int, chunk: seq<Byte>): (data: seq<Byte>)
    requires |chunk| <= PER_TXT && esdId < 0x1_0000
    ensures |data| == 68
  {
    Put(Put(Put(Put(Blanks(68), 1, Be24(address)), 6, Be16(|chunk|)), 10, Be16(esdId)), 12, chunk)
  }

  function RldData(batch: seq<Rld>): (data: seq<Byte>)
    requires GoodRlds(batch) && |batch| <= PER_RLD
    ensures |data| == 68
  {
    Put(Put(Blanks(68), 6, Be16(8 * |batch|)), 12, RldsBytes(batch))
  }

  /** An END record that names no entry point, only the assembler. */
  function EndData(): (data: seq<Byte>)
    ensures |data| == 68
  {
    Put(Blanks(68), 33, Text("ASM101S 0.00", 19))
  }

  function ControlCard(text: string): (card: seq<Byte>)
    requires |text| <= 80
    ensures |card| == 80
  {
    Put(Blanks(80), 0, Text(text, |text|))
  }

  // ---------------------------------------------------------------- the cards read

  /** What one card says; `Crash` where reading it runs off its end. */
  datatype Content =
    | Control(text: string)
    | EsdCard(first: nat, items: seq<Item>)
    | TxtCard(esdId: nat, address: nat, bytes: seq<Byte>)
    | RldCard(rlds: seq<Rld>)
    | BareEnd
    | EntryPoint(entry: nat, section: nat)
    | Ignored
    | Crash

  function Read(card: seq<Byte>): Content
    requires |card| == 80
  {
    if card[0] != OBJECT_RECORD then Control(Name(card)) else ReadRecord(Name(Get(card, 1, 3)), Get(card, 4, 68))
  }

  function ReadRecord(kind: string, body: seq<Byte>): Content
    requires |body| == 68
  {
    if kind == "ESD" then ReadEsd(body)
    else if kind == "TXT" then ReadTxt(body)
    else if kind == "RLD" then ReadRldCard(body)
    else if kind == "END" then ReadEnd(body)
    else Ignored
  }

  function ReadEsd(body: seq<Byte>): Content
    requires |body| == 68
  {
    var count := Be(Get(body, 6, 2)) / 16;
    if count > PER_ESD then Crash else EsdCard(Be(Get(body, 10, 2)), ReadItems(body, count))
  }

  function ReadTxt(body: seq<Byte>): Content
    requires |body| == 68
  {
    var n := Be(Get(body, 6, 2));
    TxtCard(Be(Get(body, 10, 2)), Be(Get(body, 1, 3)), Get(body, 12, if n < PER_TXT then n else PER_TXT))
  }

  function ReadRldCard(body: seq<Byte>): Content
    requires |body| == 68
  {
    var count := Be(Get(body, 6, 2)) / 8;
    if count > PER_RLD then Crash else RldCard(ReadRlds(body, count))
  }

  function ReadEnd(body: seq<Byte>): Content
    requires |body| == 68
  {
    if Be(Get(body, 1, 3)) == 0x40_4040 && Be(Get(body, 10, 2)) == 0x4040 then BareEnd
    else EntryPoint(Be(Get(body, 1, 3)), Be(Get(body, 10, 2)))
  }

  lemma {:induction false} KindsKeepable(kind: string)
    requires kind == "ESD" || kind == "TXT" || kind == "RLD" || kind == "END"
    ensures Keepable(kind, 3)
  {
  }

  lemma {:induction false} ReadBack(kind: string, data: seq<Byte>, seqNum: nat)
    requires |data| == 68 && (kind == "ESD" || kind == "TXT" || kind == "RLD" || kind == "END")
    ensures Read(Record(kind, data, seqNum)) == ReadRecord(kind, data)
  {
    RecordFields(kind, data, seqNum);
    KindsKeepable(kind);
    NameBack(kind, 3);
  }

  lemma {:induction false} ReadKinds(body: seq<Byte>)
    requires |body| == 68
    ensures ReadRecord("ESD", body) == ReadEsd(body) && ReadRecord("TXT", body) == ReadTxt(body)
    ensures ReadRecord("RLD", body) == ReadRldCard(body) && ReadRecord("END", body) == ReadEnd(body)
  {
  }

  lemma {:induction false} EsdFields(first: nat, batch: seq<Item>)
    requires GoodLds(batch) && |batch| <= PER_ESD && first < 0x1_0000
    ensures var data := EsdData(first, batch);
            Be(Get(data, 6, 2)) == 16 * |batch| && Be(Get(data, 10, 2)) == first &&
                Get(data, 12, 16 * |batch|) == ItemsBytes(batch)
  {
    var c1 := Put(Blanks(68), 6, Be16(16 * |batch|));
    var c2 := Put(c1, 10, Be16(first));
    PutSame(Blanks(68), 6, Be16(16 * |batch|));
    PutOther(c1, 10, Be16(first), 6, 2);
    PutOther(c2, 12, ItemsBytes(batch), 6, 2);
    PutSame(c1, 10, Be16(first));
    PutOther(c2, 12, ItemsBytes(batch), 10, 2);
    PutSame(c2, 12, ItemsBytes(batch));
    Be16Back(16 * |batch|);
    Be16Back(first);
  }

  lemma {:induction false} EsdBodyBack(body: seq<Byte>, first: nat, batch: seq<Item>)
    requires |body| == 68 && GoodLds(batch) && |batch| <= PER_ESD && forall k :: 0 <= k < |batch| ==> GoodItem(batch[k])
    requires Be(Get(body, 6, 2)) == 16 * |batch| && Be(Get(body, 10, 2)) == first &&
             Get(body, 12, 16 * |batch|) == ItemsBytes(batch)
    ensures ReadEsd(body) == EsdCard(first, WrappedAll(batch))
  {
    assert Be(Get(body, 6, 2)) / 16 == |batch|;
    ItemsBack(body, batch);
  }

  /** Reading an ESD card gives the number of its first item and the items, addresses modulo 2^24. */
  lemma {:induction false} EsdBack(first: nat, batch: seq<Item>, seqNum: nat)
    requires GoodLds(batch) && |batch| <= PER_ESD && first < 0x1_0000 && forall k :: 0 <= k < |batch| ==>
             GoodItem(batch[k])
    ensures Read(Record("ESD", EsdData(first, batch), seqNum)) == EsdCard(first, WrappedAll(batch))
  {
    ReadBack("ESD", EsdData(first, batch), seqNum);
    ReadKinds(EsdData(first, batch));
    EsdFields(first, batch);
    EsdBodyBack(EsdData(first, batch), first, batch);
  }

  lemma {:induction false} TxtFields(esdId: nat, address: int, chunk: seq<Byte>)
    requires |chunk| <= PER_TXT && esdId < 0x1_0000
    ensures var data := TxtData(esdId, address, chunk);
            && Be(Get(data, 1, 3)) == Mask(address) && Be(Get(data, 6, 2)) == |chunk| && Be(Get(data, 10, 2)) == esdId
            && Get(data, 12, |chunk|) == chunk
  {
    var c1 := Put(Blanks(68), 1, Be24(address));
    var c2 := Put(c1, 6, Be16(|chunk|));
    var c3 := Put(c2, 10, Be16(esdId));
    PutSame(Blanks(68), 1, Be24(address));
    PutOther(c1, 6, Be16(|chunk|), 1, 3);
    PutOther(c2, 10, Be16(esdId), 1, 3);
    PutOther(c3, 12, chunk, 1, 3);
    PutSame(c1, 6, Be16(|chunk|));
    PutOther(c2, 10, Be16(esdId), 6, 2);
    PutOther(c3, 12, chunk, 6, 2);
    PutSame(c2, 10, Be16(esdId));
    PutOther(c3, 12, chunk, 10, 2);
    PutSame(c3, 12, chunk);
    Be24Back(address);
    Be16Back(|chunk|);
    Be16Back(esdId);
  }

  /** Reading a TXT card gives its section, its address modulo 2^24 and exactly its bytes. */
  lemma {:induction false} TxtBack(esdId: nat, address: int, chunk: seq<Byte>, seqNum: nat)
    requires |chunk| <= PER_TXT && esdId < 0x1_0000
    ensures Read(Record("TXT", TxtData(esdId, address, chunk), seqNum)) == TxtCard(esdId, Mask(address), chunk)
  {
    ReadBack("TXT", TxtData(esdId, address, chunk), seqNum);
    ReadKinds(TxtData(esdId, address, chunk));
    TxtFields(esdId, address, chunk);
  }

  lemma {:induction false} RldFields(batch: seq<Rld>)
    requires GoodRlds(batch) && |batch| <= PER_RLD
    ensures Be(Get(RldData(batch), 6, 2)) == 8 * |batch| && Get(RldData(batch), 12, 8 * |batch|) == RldsBytes(batch)
  {
    var c1 := Put(Blanks(68), 6, Be16(8 * |batch|));
    PutSame(Blanks(68), 6, Be16(8 * |batch|));
    PutOther(c1, 12, RldsBytes(batch), 6, 2);
    PutSame(c1, 12, RldsBytes(batch));
    Be16Back(8 * |batch|);
  }

  lemma {:induction false} RldBodyBack(body: seq<Byte>, batch: seq<Rld>)
    requires |body| == 68 && GoodRlds(batch) && |batch| <= PER_RLD
    requires Be(Get(body, 6, 2)) == 8 * |batch| && Get(body, 12, 8 * |batch|) == RldsBytes(batch)
    ensures ReadRldCard(body) == RldCard(WrappedRlds(batch))
  {
    assert Be(Get(body, 6, 2)) / 8 == |batch|;
    RldsBack(body, batch);
  }

  /** Reading an RLD card gives its relocations, addresses modulo 2^24. */
  lemma {:induction false} RldCardBack(batch: seq<Rld>, seqNum: nat)
    requires GoodRlds(batch) && |batch| <= PER_RLD
    ensures Read(Record("RLD", RldData(batch), seqNum)) == RldCard(WrappedRlds(batch))
  {
    ReadBack("RLD", RldData(batch), seqNum);
    ReadKinds(RldData(batch));
    RldFields(batch);
    RldBodyBack(RldData(batch), batch);
  }

  lemma {:induction false} EndFields()
    ensures Be(Get(EndData(), 1, 3)) == 0x40_4040 && Be(Get(EndData(), 10, 2)) == 0x4040
  {
    var ident := Text("ASM101S 0.00", 19);
    PutOther(Blanks(68), 33, ident, 1, 3);
    PutOther(Blanks(68), 33, ident, 10, 2);
    assert Get(Blanks(68), 1, 3) == [BLANK, BLANK, BLANK] && Get(Blanks(68), 10, 2) == [BLANK, BLANK];
    BeTwo(BLANK, BLANK);
    assert [BLANK, BLANK, BLANK][..2] == [BLANK, BLANK];
  }

  /** The END record written is read as one that names no entry point. */
  lemma {:induction false} EndBack(seqNum: nat)
    ensures Read(Record("END", EndData(), seqNum)) == BareEnd
  {
    ReadBack("END", EndData(), seqNum);
    ReadKinds(EndData());
    EndFields();
  }

  /** A control card is read as its text without the blanks at its end. */
  lemma {:induction false} ControlRead(text: string)
    requires AllPrintable(text) && |text| <= 80 && text != "" && text[0] == ' '
    ensures Read(ControlCard(text)) == Control(Trim(text))
  {
    var card := ControlCard(text);
    PaddedText(text, 80);
    NameRead(text, 80);
    TextAt(text, 80, 0);
    NotObject(text[0]);
    hide ControlCard, Text, Name, Trim, ToEbcdic;
  }

  lemma {:induction false} NotObject(c: char)
    ensures ToEbcdic(c) != OBJECT_RECORD
  {
  }

  lemma {:induction false} ControlBack(text: string)
    requires Keepable(text, 80) && text != "" && text[0] == ' '
    ensures Read(ControlCard(text)) == Control(text)
  {
    ControlRead(text);
  }

  lemma {:induction false} TextAt(s: string, n: nat, k: nat)
    requires k < n
    ensures Text(s, n)[k] == if k < |s| then ToEbcdic(s[k]) else BLANK
  {
    if k < n - 1 { TextAt(s, n - 1, k); }
  }

  lemma {:induction false} PaddedText(s: string, n: nat)
    requires |s| <= n
    ensures Put(Blanks(n), 0, Text(s, |s|)) == Text(s, n)
  {
    forall k | 0 <= k < n ensures Put(Blanks(n), 0, Text(s, |s|))[k] == Text(s, n)[k] {
      TextAt(s, n, k);
      if k < |s| { TextAt(s, |s|, k); }
    }
  }

  // ---------------------------------------------------------------- decks

  ghost predicate Fitting(items: seq<Item>) {
    GoodLds(items) && forall k :: 0 <= k < |items| ==> GoodItem(items[k]) && Wrapped(items[k]) == items[k]
  }

  ghost predicate FittingRlds(rlds: seq<Rld>) {
    GoodRlds(rlds) && forall k :: 0 <= k < |rlds| ==> WrappedRld(rlds[k]) == rlds[k]
  }

  lemma {:induction false} WrappedSame(items: seq<Item>)
    requires forall k :: 0 <= k < |items| ==> Wrapped(items[k]) == items[k]
    ensures WrappedAll(items) == items
  {
    hide Wrapped;
    if items != [] { WrappedSame(items[..|items| - 1]); }
  }

  lemma {:induction false} WrappedRldsSame(rlds: seq<Rld>)
    requires forall k :: 0 <= k < |rlds| ==> WrappedRld(rlds[k]) == rlds[k]
    ensures WrappedRlds(rlds) == rlds
  {
    hide WrappedRld;
    if rlds != [] { WrappedRldsSame(rlds[..|rlds| - 1]); }
  }

  lemma {:induction false} WrappedAt(items: seq<Item>, k: nat)
    requires k < |items|
    ensures WrappedAll(items)[k] == Wrapped(items[k])
  {
    if k < |items| - 1 { WrappedAt(items[..|items| - 1], k); }
  }

  lemma {:induction false} WrappedRldAt(rlds: seq<Rld>, k: nat)
    requires k < |rlds|
    ensures WrappedRlds(rlds)[k] == WrappedRld(rlds[k])
  {
    if k < |rlds| - 1 { WrappedRldAt(rlds[..|rlds| - 1], k); }
  }

  lemma {:induction false} WrappedJoin(a: seq<Item>, b: seq<Item>)
    ensures WrappedAll(a + b) == WrappedAll(a) + WrappedAll(b)
    decreases |b|
  {
    if b == [] {
      assert a + b == a;
    } else {
      WrappedJoin(a, b[..|b| - 1]);
      assert (a + b)[..|a + b| - 1] == a + b[..|b| - 1];
    }
  }

  lemma {:induction false} WrappedRldsJoin(a: seq<Rld>, b: seq<Rld>)
    ensures WrappedRlds(a + b) == WrappedRlds(a) + WrappedRlds(b)
    decreases |b|
  {
    if b == [] {
      assert a + b == a;
    } else {
      WrappedRldsJoin(a, b[..|b| - 1]);
      assert (a + b)[..|a + b| - 1] == a + b[..|b| - 1];
    }
  }

  /** Items and relocations as three bytes hold their addresses can be written as they are. */
  lemma {:induction false} WrappedFits(items: seq<Item>, rlds: seq<Rld>)
    requires GoodLds(items) && (forall k :: 0 <= k < |items| ==> GoodItem(items[k])) && GoodRlds(rlds)
    ensures Fitting(WrappedAll(items)) && FittingRlds(WrappedRlds(rlds))
  {
    var a, b := WrappedAll(items), WrappedRlds(rlds);
    forall k | 0 <= k < |items| ensures GoodItem(a[k]) && Wrapped(a[k]) == a[k] { WrappedAt(items, k); }
    forall k | 0 <= k < |rlds| ensures GoodRld(b[k]) && WrappedRld(b[k]) == b[k] { WrappedRldAt(rlds, k); }
  }

  /** A text that a PROT card can carry. */
  ghost predicate GoodControl(text: string) {
    Keepable(text, 80) && text != "" && text[0] == ' '
  }

  /** What one card can say. */
  ghost predicate Encodable(c: Content) {
    match c
    case Control(text) => GoodControl(text)
    case EsdCard(first, items) => |items| <= PER_ESD && first < 0x1_0000 && Fitting(items)
    case TxtCard(esdId, address, bytes) => |bytes| <= PER_TXT && esdId < 0x1_0000 && address < TWO_TO_24
    case RldCard(rlds) => |rlds| <= PER_RLD && FittingRlds(rlds)
    case BareEnd => true
    case _ => false
  }

  ghost function Encode(c: Content, seqNum: nat): (card: seq<Byte>)
    requires Encodable(c)
    ensures |card| == 80
  {
    match c
    case Control(text) => ControlCard(text)
    case EsdCard(first, items) => Record("ESD", EsdData(first, items), seqNum)
    case TxtCard(esdId, address, bytes) => Record("TXT", TxtData(esdId, address, bytes), seqNum)
    case RldCard(rlds) => Record("RLD", RldData(rlds), seqNum)
    case BareEnd => Record("END", EndData(), seqNum)
  }

  /** A card is read as what it was written to say. */
  lemma {:induction false} EncodeBack(c: Content, seqNum: nat)
    requires Encodable(c)
    ensures Read(Encode(c, seqNum)) == c
  {
    match c {
      case Control(text) => ControlBack(text);
      case EsdCard(first, items) => EsdBack(first, items, seqNum); WrappedSame(items);
      case TxtCard(esdId, address, bytes) => TxtBack(esdId, address, bytes, seqNum);
      case RldCard(rlds) => RldCardBack(rlds, seqNum); WrappedRldsSame(rlds);
      case BareEnd => EndBack(seqNum);
    }
  }

  predicate Cards(deck: seq<seq<Byte>>) { forall k :: 0 <= k < |deck| ==> |deck[k]| == 80 }

  ghost predicate AllEncodable(contents: seq<Content>) {
    contents == [] || (AllEncodable(contents[..|contents| - 1]) && Encodable(contents[|contents| - 1]))
  }

  lemma {:induction false} EncodableJoin(a: seq<Content>, b: seq<Content>)
    requires AllEncodable(a) && AllEncodable(b)
    ensures AllEncodable(a + b)
    decreases |b|
  {
    if b == [] {
      assert a + b == a;
    } else {
      EncodableJoin(a, b[..|b| - 1]);
      assert (a + b)[..|a + b| - 1] == a + b[..|b| - 1];
    }
  }

  lemma {:induction false} EncodableFirst(c: Content, rest: seq<Content>)
    requires Encodable(c) && AllEncodable(rest)
    ensures AllEncodable([c] + rest)
  {
    assert [c][..0] == [];
    EncodableJoin([c], rest);
  }

  /** The deck of these cards, numbered from 1. */
  ghost function EncodeAll(contents: seq<Content>): (deck: seq<seq<Byte>>)
    requires AllEncodable(contents)
    ensures |deck| == |contents| && Cards(deck)
  {
    if contents == [] then []
    else EncodeAll(contents[..|contents| - 1]) + [Encode(contents[|contents| - 1], |contents|)]
  }

  function Reads(deck: seq<seq<Byte>>): (contents: seq<Content>)
    requires Cards(deck)
    ensures |contents| == |deck|
  {
    if deck == [] then [] else Reads(deck[..|deck| - 1]) + [Read(deck[|deck| - 1])]
  }

  lemma {:induction false} EncodeMore(contents: seq<Content>, c: Content)
    requires AllEncodable(contents) && Encodable(c)
    ensures AllEncodable(contents + [c])
    ensures EncodeAll(contents + [c]) == EncodeAll(contents) + [Encode(c, |contents + [c]|)]
  {
    assert (contents + [c])[..|contents|] == contents;
  }

  lemma {:induction false} DeckMore(contents: seq<Content>, c: Content)
    requires AllEncodable(contents) && Encodable(c) && Reads(EncodeAll(contents)) == contents
    ensures AllEncodable(contents + [c]) && Reads(EncodeAll(contents + [c])) == contents + [c]
  {
    EncodeMore(contents, c);
    EncodeBack(c, |contents + [c]|);
    ReadsLast(EncodeAll(contents), Encode(c, |contents + [c]|));
  }

  lemma {:induction false} FrontAndLast<T>(s: seq<T>)
    requires s != []
    ensures s[..|s| - 1] + [s[|s| - 1]] == s
  {
  }

  /** Writing a deck loses nothing that it says. */
  lemma {:induction false} DeckBack(contents: seq<Content>)
    requires AllEncodable(contents)
    ensures Reads(EncodeAll(contents)) == contents
  {
    if contents != [] {
      var front, last := contents[..|contents| - 1], contents[|contents| - 1];
      FrontAndLast(contents);
      DeckBack(front);
      DeckMore(front, last);
    }
  }

  lemma {:induction false} ReadsLast(deck: seq<seq<Byte>>, card: seq<Byte>)
    requires |card| == 80 && Cards(deck)
    ensures Cards(deck + [card]) && Reads(deck + [card]) == Reads(deck) + [Read(card)]
  {
    assert (deck + [card])[..|deck|] == deck;
  }
}
