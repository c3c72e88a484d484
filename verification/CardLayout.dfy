/**
  The cards of a deck column by column: the character codes, the first column, which tells object records
  from control cards, and the numbers in the last eight.
 */
module CardLayout {
  import opened Basics
  import opened Wrappers
  import opened CardFormat
  import opened ObjectModule

  /** The codes of letters and digits run in the four rows of the EBCDIC table. */
  lemma {:induction false} Codes(k: nat)
    ensures k < 9 ==> ToEbcdic("ABCDEFGHI"[k]) == 0xC1 + k && ToEbcdic("JKLMNOPQR"[k]) == 0xD1 + k
    ensures k < 8 ==> ToEbcdic("STUVWXYZ"[k]) == 0xE2 + k
  {
  }

  lemma {:induction false} OtherCodes(k: nat)
    ensures k < 10 ==> ToEbcdic("0123456789"[k]) == 0xF0 + k
    ensures k < 8 ==> ToEbcdic("$#@_-,. "[k]) == [0x5B, 0x7B, 0x7C, 0x6D, 0x60, 0x6B, 0x4B, 0x40][k]
  {
  }

  /** Names and control cards are made of the characters that have a code of their own. */
  lemma {:induction false} PrintableMeans(c: char)
    ensures Printable(c) <==> c == ' ' || ToEbcdic(c) != 0x40
  {
  }

  /** A byte is read as the character whose code it is, else as a blank. */
  lemma {:induction false} ReadAsCoded(b: Byte)
    ensures ToAscii(b) == ' ' || ToEbcdic(ToAscii(b)) == b
  {
  }

  lemma {:induction false} TextAt(s: string, n: nat, k: nat)
    requires k < n
    ensures Text(s, n)[k] == if k < |s| then ToEbcdic(s[k]) else 0x40
  {
    if k < n - 1 { TextAt(s, n - 1, k); }
  }

  function Power10(k: nat): nat { if k == 0 then 1 else 10 * Power10(k - 1) }

  lemma {:induction false} DigitsBack(n: nat, k: nat)
    ensures var s := Digits(n, k);
            && (forall i :: 0 <= i < |s| ==> IsDigit(s[i]))
            && ReadDecimal(s) < Power10(k) && exists q: nat :: n == q * Power10(k) + ReadDecimal(s)
    decreases k
  {
    if k == 0 {
      assert n == n * Power10(0) + 0;
    } else {
      DigitsBack(n / 10, k - 1);
      var s, front := Digits(n, k), Digits(n / 10, k - 1);
      assert s[..|s| - 1] == front;
      var q: nat :| n / 10 == q * Power10(k - 1) + ReadDecimal(front);
      TenTimes(n, q, Power10(k - 1), ReadDecimal(front));
      assert n == q * Power10(k) + ReadDecimal(s);
    }
  }

  lemma {:induction false} TenTimes(n: nat, q: nat, p: nat, r: nat)
    requires n / 10 == q * p + r
    ensures n == q * (10 * p) + (10 * r + n % 10)
  {
    assert q * (10 * p) == 10 * (q * p);
  }

  /** The number a card bears, in columns 73 to 80. */
  ghost predicate Numbered(card: seq<Byte>, n: nat) {
    |card| == 80 &&
    exists s: string :: |s| == 8 && (forall i :: 0 <= i < 8 ==> IsDigit(s[i])) && ReadDecimal(s) == n &&
      forall i :: 0 <= i < 8 ==> card[72 + i] == 0xF0 + (s[i] as int - '0' as int)
  }

  lemma {:induction false} DigitCode(c: char)
    requires IsDigit(c)
    ensures ToEbcdic(c) == 0xF0 + (c as int - '0' as int)
  {
  }

  lemma {:induction false} RecordNumber(recType: string, data: seq<Byte>, seqNum: nat)
    requires |data| == 68
    ensures var card := Record(recType, data, seqNum);
            card[0] == 0x02 && Numbered(card, seqNum % 100_000_000)
  {
    var s := Digits(seqNum, 8);
    LastEight(seqNum);
    RecordFields(recType, data, seqNum);
    forall i | 0 <= i < 8 ensures Record(recType, data, seqNum)[72 + i] == 0xF0 + (s[i] as int - '0' as int) {
      RecordEnd(recType, data, seqNum, i);
      DigitCode(s[i]);
    }
    hide Digits, Record, Text, ReadDecimal;
  }

  lemma {:induction false} LastEight(n: nat)
    ensures var s := Digits(n, 8);
            (forall i :: 0 <= i < 8 ==> IsDigit(s[i])) && ReadDecimal(s) == n % 100_000_000
  {
    DigitsBack(n, 8);
    TenToEight();
    hide Digits, ReadDecimal, Power10;
    var q: nat :| n == q * Power10(8) + ReadDecimal(Digits(n, 8));
    Rest(n, q, ReadDecimal(Digits(n, 8)));
  }

  lemma {:induction false} TenToEight()
    ensures Power10(8) == 100_000_000
  {
    assert Power10(4) == 10_000;
  }

  lemma {:induction false} Rest(n: nat, q: nat, r: nat)
    requires n == q * 100_000_000 + r && r < 100_000_000
    ensures n % 100_000_000 == r
  {
  }

  lemma {:induction false} RecordEnd(recType: string, data: seq<Byte>, seqNum: nat, i: nat)
    requires |data| == 68 && i < 8
    ensures Record(recType, data, seqNum)[72 + i] == ToEbcdic(Digits(seqNum, 8)[i])
  {
    TextAt(Digits(seqNum, 8), 8, i);
    hide Digits, Text;
  }

  /** Object records begin with 02 and bear their place in the deck, counted from 1, modulo 10^8; control cards
      begin with a blank and have the text column by column. */
  lemma {:induction false} DeckColumns(contents: seq<Content>, k: nat)
    requires AllEncodable(contents) && k < |contents|
    ensures var card := EncodeAll(contents)[k];
            && |card| == 80
            && (if contents[k].Control? then card == Text(contents[k].text, 80) && card[0] == 0x40
                else card[0] == 0x02 && Numbered(card, (k + 1) % 100_000_000))
  {
    if k < |contents| - 1 {
      DeckColumns(contents[..|contents| - 1], k);
    } else {
      CardColumns(contents[k], k + 1);
    }
  }

  lemma {:induction false} ControlColumns(text: string)
    requires 0 < |text| <= 80
    ensures ControlCard(text) == Text(text, 80) && (text[0] == ' ' ==> ControlCard(text)[0] == 0x40)
  {
    forall k | 0 <= k < 80 ensures ControlCard(text)[k] == Text(text, 80)[k] {
      TextAt(text, 80, k);
      if k < |text| { TextAt(text, |text|, k); }
    }
    TextAt(text, 80, 0);
  }

  lemma {:induction false} CardColumns(c: Content, n: nat)
    requires Encodable(c)
    ensures var card := Encode(c, n);
            if c.Control? then card == Text(c.text, 80) && card[0] == 0x40
            else card[0] == 0x02 && Numbered(card, n % 100_000_000)
  {
    hide ControlCard, Text, Record, EsdData, TxtData, RldData, EndData, Numbered;
    match c
    case Control(text) => ControlColumns(text);
    case EsdCard(first, items) => RecordNumber("ESD", EsdData(first, items), n);
    case TxtCard(esdId, address, bytes) => RecordNumber("TXT", TxtData(esdId, address, bytes), n);
    case RldCard(rlds) => RecordNumber("RLD", RldData(rlds), n);
    case BareEnd => RecordNumber("END", EndData(), n);
  }

  /** Records of other kinds are passed over. */
  lemma {:induction false} OthersIgnored(kind: string, body: seq<Byte>)
    requires |body| == 68 && kind != "ESD" && kind != "TXT" && kind != "RLD" && kind != "END"
    ensures ReadRecord(kind, body) == Ignored
  {
  }

  /** An END record is read as naming the entry point in its fields, unless both of them are blank. */
  lemma {:induction false} EntryPointRead(body: seq<Byte>, entry: nat, section: nat)
    requires |body| == 68 && entry < TWO_TO_24 && section < 0x1_0000
    requires Get(body, 1, 3) == Be24(entry) && Get(body, 10, 2) == Be16(section)
    ensures ReadEnd(body) == if entry == 0x40_4040 && section == 0x4040 then BareEnd else EntryPoint(entry, section)
  {
    Be24Back(entry);
    Be16Back(section);
    hide Be, Be24, Be16;
  }

  lemma {:induction false} FirstEsd(items: seq<Item>, first: nat, n: nat)
    requires items != [] && n == Least(3, |items|)
    ensures EsdContents(items, first) == [EsdCard(first, items[..n])] + EsdContents(items[n..], first + n)
  {
  }

  /** Items go three to a card, each card naming the number of its first. */
  lemma {:induction false} EsdCardAt(items: seq<Item>, first: nat, k: nat)
    ensures k < |EsdContents(items, first)| <==> 3 * k < |items|
    ensures 3 * k < |items| ==>
              EsdContents(items, first)[k] == EsdCard(first + 3 * k, items[3 * k..Least(3 * k + 3, |items|)])
    decreases |items|
  {
    if items != [] {
      var n := Least(3, |items|);
      FirstEsd(items, first, n);
      if k > 0 {
        EsdCardAt(items[n..], first + n, k - 1);
        hide EsdContents;
        if 3 * k < |items| {
          SliceBehind(items, 3, 3 * (k - 1), Least(3 * k, |items| - 3));
        }
      }
    }
  }

  lemma {:induction false} FirstRld(rlds: seq<Rld>, n: nat)
    requires rlds != [] && n == Least(7, |rlds|)
    ensures RldContents(rlds) == [RldCard(rlds[..n])] + RldContents(rlds[n..])
  {
  }

  /** Relocations go seven to a card. */
  lemma {:induction false} RldCardAt(rlds: seq<Rld>, k: nat)
    ensures k < |RldContents(rlds)| <==> 7 * k < |rlds|
    ensures 7 * k < |rlds| ==> RldContents(rlds)[k] == RldCard(rlds[7 * k..Least(7 * k + 7, |rlds|)])
    decreases |rlds|
  {
    if rlds != [] {
      var n := Least(7, |rlds|);
      FirstRld(rlds, n);
      if k > 0 {
        RldCardAt(rlds[n..], k - 1);
        hide RldContents;
        if 7 * k < |rlds| {
          SliceBehind(rlds, 7, 7 * (k - 1), Least(7 * k, |rlds| - 7));
        }
      }
    }
  }
}
