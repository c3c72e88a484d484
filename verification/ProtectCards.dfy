/**
  PROT cards as cards of the object module: made from the marks of the control sections, carried through
  writing and reading, and taken apart into ranges again as the linker does, which splits a card at its
  blanks and adds up the ranges of all cards that name a section.
 */
module ProtectCards {
  import opened Basics
  import opened Wrappers
  import opened CardFormat
  import opened CardWriter
  import opened ObjectModule
  import opened ObjectWriter
  import P = Protect

  // ---------------------------------------------------------------- pieces

  /** Characters of a piece: nothing the linker splits at. */
  ghost predicate Clean(s: string) {
    s != "" && AllPrintable(s) && ' ' !in s && ',' !in s
  }

  ghost predicate AllClean(pieces: seq<string>) {
    forall k :: 0 <= k < |pieces| ==> Clean(pieces[k])
  }

  ghost predicate Natural(ranges: seq<P.Range>) {
    forall k :: 0 <= k < |ranges| ==> ranges[k].0 >= 0 && ranges[k].1 >= 0
  }

  function Pieces(ranges: seq<P.Range>): (r: seq<string>)
    requires Natural(ranges)
    ensures |r| == |ranges|
    ensures forall k :: 0 <= k < |r| ==> r[k] == P.Piece(ranges[k])
  {
    if ranges == [] then [] else Pieces(ranges[..|ranges| - 1]) + [P.Piece(ranges[|ranges| - 1])]
  }

  lemma {:induction false} HexClean(n: nat)
    ensures Clean(P.Hex(n)) && '-' !in P.Hex(n)
  {
    P.HexRoundTrip(n);
    forall c | c in P.Hex(n) ensures Printable(c) && c != ' ' && c != ',' && c != '-' {
      assert c in P.DIGITS;
    }
  }

  lemma {:induction false} PieceClean(r: P.Range)
    requires r.0 >= 0 && r.1 >= 0
    ensures Clean(P.Piece(r))
  {
    HexClean(r.0);
    HexClean(r.1);
    forall c | c in P.Piece(r) ensures Printable(c) && c != ' ' && c != ',' {
      assert c in P.Hex(r.0) || c == '-' || c in P.Hex(r.1);
    }
  }

  lemma {:induction false} PiecesClean(ranges: seq<P.Range>)
    requires Natural(ranges)
    ensures AllClean(Pieces(ranges))
  {
    forall k | 0 <= k < |ranges| ensures Clean(Pieces(ranges)[k]) { PieceClean(ranges[k]); }
  }

  /** The place of the first hyphen. */
  function Hyphen(s: string): (n: nat)
    ensures n <= |s| && (n < |s| ==> s[n] == '-') && forall k :: 0 <= k < n ==> s[k] != '-'
  {
    if s == "" || s[0] == '-' then 0 else 1 + Hyphen(s[1..])
  }

  function RangeOf(s: string): P.Range {
    var n := Hyphen(s);
    if n == |s| then (0, 0) else (P.HexValue(s[..n]), P.HexValue(s[n + 1..]))
  }

  lemma {:induction false} RangeBack(r: P.Range)
    requires r.0 >= 0 && r.1 >= 0
    ensures RangeOf(P.Piece(r)) == r
  {
    assert P.Piece(r)[|P.Hex(r.0)|] == '-';
    P.PieceReadsBack(r, Hyphen(P.Piece(r)));
  }

  function RangesOf(pieces: seq<string>): (r: seq<P.Range>)
    ensures |r| == |pieces|
    ensures forall k :: 0 <= k < |r| ==> r[k] == RangeOf(pieces[k])
  {
    if pieces == [] then [] else RangesOf(pieces[..|pieces| - 1]) + [RangeOf(pieces[|pieces| - 1])]
  }

  lemma {:induction false} RangesBack(ranges: seq<P.Range>)
    requires Natural(ranges)
    ensures RangesOf(Pieces(ranges)) == ranges
  {
    forall k | 0 <= k < |ranges| ensures RangesOf(Pieces(ranges))[k] == ranges[k] { RangeBack(ranges[k]); }
  }

  // ---------------------------------------------------------------- taking a card apart

  /** The place of the first blank. */
  function WordEnd(s: string): (n: nat)
    ensures n <= |s| && (n < |s| ==> s[n] == ' ') && forall k :: 0 <= k < n ==> s[k] != ' '
  {
    if s == "" || s[0] == ' ' then 0 else 1 + WordEnd(s[1..])
  }

  function Words(s: string): seq<string>
    decreases |s|
  {
    if s == "" then []
    else if s[0] == ' ' then Words(s[1..])
    else [s[..WordEnd(s)]] + Words(s[WordEnd(s)..])
  }

  lemma {:induction false} BlankWords(s: string)
    ensures Words(" " + s) == Words(s)
  {
    assert (" " + s)[1..] == s;
  }

  lemma {:induction false} WordEndIs(w: string, rest: string)
    requires ' ' !in w && (rest == "" || rest[0] == ' ')
    ensures WordEnd(w + rest) == |w|
  {
    if w == "" {
      assert w + rest == rest;
    } else {
      WordEndIs(w[1..], rest);
      assert (w + rest)[1..] == w[1..] + rest;
    }
  }

  lemma {:induction false} FirstWord(w: string, rest: string)
    requires w != "" && ' ' !in w && (rest == "" || rest[0] == ' ')
    ensures Words(w + rest) == [w] + Words(rest)
  {
    WordEndIs(w, rest);
    assert (w + rest)[..|w|] == w && (w + rest)[|w|..] == rest;
  }

  lemma {:induction false} OneWord(w: string)
    requires w != "" && ' ' !in w
    ensures Words(w) == [w]
  {
    FirstWord(w, "");
    assert w + "" == w && [w] + Words("") == [w];
  }

  lemma {:induction false} AfterWord(w: string, s: string)
    requires w != "" && ' ' !in w
    ensures Words(w + " " + s) == [w] + Words(s)
  {
    FirstWord(w, " " + s);
    BlankWords(s);
    assert w + " " + s == w + (" " + s);
  }

  lemma {:induction false} HeadWords(s: string)
    ensures Words(" PROT " + s) == ["PROT"] + Words(s)
  {
    AfterWord("PROT", s);
    BlankWords("PROT" + " " + s);
    assert " PROT " + s == " " + ("PROT" + " " + s);
  }

  /** The place of the last comma, if there is one. */
  function LastComma(s: string): (n: Option<nat>)
    ensures n.None? <==> ',' !in s
    ensures n.Some? ==> n.value < |s| && s[n.value] == ',' && ',' !in s[n.value + 1..]
  {
    if s == "" then None
    else if s[|s| - 1] == ',' then Some(|s| - 1)
    else
      var n := LastComma(s[..|s| - 1]);
      assert n.Some? ==> s[n.value + 1..] == s[..|s| - 1][n.value + 1..] + [s[|s| - 1]];
      n
  }

  function Split(s: string): seq<string>
    decreases |s|
  {
    match LastComma(s)
    case None => [s]
    case Some(n) => Split(s[..n]) + [s[n + 1..]]
  }

  lemma {:induction false} LastCommaIs(a: string, b: string)
    requires ',' !in b
    ensures LastComma(a + "," + b) == Some(|a|)
    decreases |b|
  {
    var s := a + "," + b;
    if b != "" {
      LastCommaIs(a, b[..|b| - 1]);
      assert s[..|s| - 1] == a + "," + b[..|b| - 1];
      assert s[|s| - 1] == b[|b| - 1];
    }
  }

  lemma {:induction false} SplitMore(a: string, b: string)
    requires ',' !in b
    ensures Split(a + "," + b) == Split(a) + [b]
  {
    LastCommaIs(a, b);
    assert (a + "," + b)[..|a|] == a && (a + "," + b)[|a| + 1..] == b;
  }

  lemma {:induction false} SplitJoin(pieces: seq<string>)
    requires pieces != [] && AllClean(pieces)
    ensures Split(P.Join(pieces)) == pieces
  {
    if |pieces| > 1 {
      var front, last := pieces[..|pieces| - 1], pieces[|pieces| - 1];
      SplitJoin(front);
      SplitMore(P.Join(front), last);
    }
  }

  /** The list of ranges is one word. */
  ghost predicate Wordlike(s: string) { s != "" && ' ' !in s && AllPrintable(s) }

  lemma {:induction false} JoinWordlike(pieces: seq<string>)
    requires pieces != [] && AllClean(pieces)
    ensures Wordlike(P.Join(pieces))
  {
    if |pieces| > 1 {
      var front, last := pieces[..|pieces| - 1], pieces[|pieces| - 1];
      JoinWordlike(front);
      ListLonger(P.Join(front), last);
    }
  }

  lemma {:induction false} ListLonger(a: string, b: string)
    requires Wordlike(a) && Wordlike(b)
    ensures Wordlike(a + "," + b)
  {
  }

  /** The card is for the section. */
  predicate IsFor(section: string, text: string) {
    var w := Words(text);
    |w| >= 2 && w[0] == "PROT" && w[1] == section
  }

  /** Some card is: the linker then takes its protection from the cards alone. */
  ghost predicate Managed(section: string, texts: seq<string>) {
    exists k :: 0 <= k < |texts| && IsFor(section, texts[k])
  }

  /** The ranges a card gives a section. */
  function CardRanges(section: string, text: string): seq<P.Range> {
    if IsFor(section, text) && |Words(text)| > 2 then RangesOf(Split(Words(text)[2])) else []
  }

  /** The ranges all the cards give it. */
  function Ranges(section: string, texts: seq<string>): seq<P.Range> {
    if texts == [] then [] else Ranges(section, texts[..|texts| - 1]) + CardRanges(section, texts[|texts| - 1])
  }

  lemma {:induction false} RangesMore(section: string, texts: seq<string>, text: string)
    ensures Ranges(section, texts + [text]) == Ranges(section, texts) + CardRanges(section, text)
  {
    assert (texts + [text])[..|texts|] == texts;
  }

  lemma {:induction false} RangesJoin(section: string, a: seq<string>, b: seq<string>)
    ensures Ranges(section, a + b) == Ranges(section, a) + Ranges(section, b)
    decreases |b|
  {
    hide CardRanges;
    if b == [] {
      assert a + b == a && Ranges(section, a) + [] == Ranges(section, a);
    } else {
      var front, last := b[..|b| - 1], b[|b| - 1];
      RangesJoin(section, a, front);
      RangesMore(section, a + front, last);
      assert a + b == a + front + [last];
      Associate(Ranges(section, a), Ranges(section, front), CardRanges(section, last));
    }
  }

  lemma {:induction false} ManagedJoin(section: string, a: seq<string>, b: seq<string>)
    ensures Managed(section, a + b) <==> Managed(section, a) || Managed(section, b)
  {
    forall k | 0 <= k < |b| ensures (a + b)[|a| + k] == b[k] {
    }
    forall k | 0 <= k < |a| ensures (a + b)[k] == a[k] {
    }
  }

  lemma {:induction false} NoRanges(section: string, texts: seq<string>)
    requires !Managed(section, texts)
    ensures Ranges(section, texts) == []
  {
    if texts != [] {
      var front := texts[..|texts| - 1];
      assert forall k :: 0 <= k < |front| ==> front[k] == texts[k];
      NoRanges(section, front);
    }
  }

  /** A section that has a name: one word of capital letters, digits and `$ # @ _ - .`. */
  ghost predicate Named(section: string) { |section| <= 8 && Clean(section) }

  lemma {:induction false} TwoWords(section: string, list: string)
    requires Named(section) && list != "" && ' ' !in list
    ensures Words(" PROT " + section + " " + list) == ["PROT", section, list]
  {
    Associate(" PROT " + section, " ", list);
    Associate(" PROT ", section, " " + list);
    Associate(section, " ", list);
    HeadWords(section + " " + list);
    AfterWord(section, list);
    OneWord(list);
  }

  lemma {:induction false} TextWords(section: string, batch: seq<string>)
    requires Named(section) && AllClean(batch)
    ensures Words(P.Text(section, batch)) == if batch == [] then ["PROT", section] else ["PROT", section, P.Join(batch)]
  {
    hide P.Join, Words;
    if batch == [] {
      HeadWords(section);
      OneWord(section);
    } else {
      JoinWordlike(batch);
      TwoWords(section, P.Join(batch));
    }
  }

  /** The card of a section gives its ranges to that section and to no other. */
  lemma {:induction false} TextRanges(section: string, batch: seq<string>, other: string)
    requires Named(section) && AllClean(batch)
    ensures IsFor(other, P.Text(section, batch)) <==> other == section
    ensures CardRanges(other, P.Text(section, batch)) == if other == section then RangesOf(batch) else []
  {
    TextWords(section, batch);
    if batch != [] { SplitJoin(batch); }
  }

  /** The card of the unnamed section has its ranges where the name should be. */
  lemma {:induction false} UnnamedCard(ranges: seq<P.Range>)
    requires Natural(ranges)
    ensures Words(P.Text("", Pieces(ranges))) == ["PROT"] + (if ranges == [] then [] else [P.Join(Pieces(ranges))])
  {
    hide P.Join;
    var batch := Pieces(ranges);
    if ranges == [] {
      HeadWords("");
      assert P.Text("", batch) == " PROT " + "";
    } else {
      PiecesClean(ranges);
      JoinWordlike(batch);
      HeadWords(" " + P.Join(batch));
      BlankWords(P.Join(batch));
      OneWord(P.Join(batch));
      assert P.Text("", batch) == " PROT " + (" " + P.Join(batch));
    }
  }

  // ---------------------------------------------------------------- a card through writing and reading

  lemma {:induction false} TextPrintable(section: string, batch: seq<string>)
    requires Keepable(section, 8) && AllClean(batch)
    ensures AllPrintable(P.Text(section, batch))
    ensures section != "" || batch != [] ==> P.Text(section, batch)[|P.Text(section, batch)| - 1] != ' '
  {
    var head := " PROT ";
    assert head == [' ', 'P', 'R', 'O', 'T', ' '];
    assert AllPrintable(head + section);
    if batch != [] {
      JoinWordlike(batch);
      var s := P.Join(batch);
      assert P.Text(section, batch) == head + section + " " + s;
      assert s[|s| - 1] in s;
    }
  }

  /** The PROT card of any section, with whatever ranges fit it, is read as it was written, without the
      blank at the end that an unnamed section with nothing protected leaves there. */
  lemma {:induction false} ProtectCardBack(section: string, ranges: seq<P.Range>)
    requires Keepable(section, 8) && Natural(ranges) && P.Fits(section, Pieces(ranges))
    ensures var text := P.Text(section, Pieces(ranges));
            && |text| <= 80 && Read(ControlCard(text)) == Control(Trim(text))
            && (section != "" || ranges != [] ==> Trim(text) == text && GoodControl(text))
  {
    PiecesClean(ranges);
    TextPrintable(section, Pieces(ranges));
    ControlRead(P.Text(section, Pieces(ranges)));
  }

  // ---------------------------------------------------------------- the cards of a module

  /** A mark, and the section it was met in. */
  datatype Recorded = Recorded(section: string, mark: P.Mark)

  /** The marks of one section, in the order they were met. */
  function MarksOf(recorded: seq<Recorded>, section: string): seq<P.Mark> {
    if recorded == [] then []
    else
      var last := recorded[|recorded| - 1];
      MarksOf(recorded[..|recorded| - 1], section) + if last.section == section then [last.mark] else []
  }

  /** Each mark counts for its own section alone, in order. */
  lemma {:induction false} MarksApart(a: seq<Recorded>, r: Recorded, section: string)
    ensures MarksOf([], section) == []
    ensures r.section == section ==> MarksOf(a + [r], section) == MarksOf(a, section) + [r.mark]
    ensures r.section != section ==> MarksOf(a + [r], section) == MarksOf(a, section)
  {
    assert (a + [r])[..|a|] == a;
  }

  lemma {:induction false} MarksThere(recorded: seq<Recorded>, section: string)
    ensures MarksOf(recorded, section) != [] <==> exists k :: 0 <= k < |recorded| && recorded[k].section == section
  {
    if recorded != [] {
      var front := recorded[..|recorded| - 1];
      MarksThere(front, section);
      assert forall k :: 0 <= k < |front| ==> front[k] == recorded[k];
    }
  }

  /** The control sections that are not empty and in which a mark was met get cards. */
  lemma {:induction false} MarkedMeans(s: Section, recorded: seq<Recorded>)
    ensures Marked(s, recorded) <==>
            !s.dsect && s.used > 0 && exists k :: 0 <= k < |recorded| && recorded[k].section == s.name
  {
    MarksThere(recorded, s.name);
  }

  function Halfwords(s: Section): nat { (s.used + 1) / 2 }

  /** The halfwords that hold the section's bytes, the last one perhaps half. */
  lemma {:induction false} HalfwordsHold(s: Section)
    ensures s.used <= 2 * Halfwords(s) <= s.used + 1
  {
  }

  /** The section gets cards: a control section that is not empty and was marked. */
  predicate Marked(s: Section, recorded: seq<Recorded>) {
    !s.dsect && MarksOf(recorded, s.name) != [] && Halfwords(s) > 0
  }

  /** The ranges are tidy and hold exactly the halfwords the section's marks, else the default, protect. */
  ghost predicate Protects(ranges: seq<P.Range>, s: Section, recorded: seq<Recorded>, default: bool) {
    && P.Tidy(ranges, Halfwords(s))
    && forall h :: 0 <= h < Halfwords(s) ==>
         (P.Covered(ranges, h) <==> P.Verdict(MarksOf(recorded, s.name), default, h))
  }

  ghost predicate AllGoodControls(texts: seq<string>) {
    forall k :: 0 <= k < |texts| ==> GoodControl(texts[k])
  }

  /** The cards are for the section, hence for no other, and give it these ranges. */
  ghost predicate Gives(texts: seq<string>, section: string, ranges: seq<P.Range>) {
    && AllGoodControls(texts) && Ranges(section, texts) == ranges
    && forall k :: 0 <= k < |texts| ==> IsFor(section, texts[k])
  }

  function Power16(k: nat): nat { if k == 0 then 1 else 16 * Power16(k - 1) }

  lemma {:induction false} HexLength(n: nat, k: nat)
    requires n < Power16(k) && k > 0
    ensures |P.Hex(n)| <= k
  {
    if n >= 16 {
      assert k > 1 by { assert Power16(1) == 16; }
      HexLength(n / 16, k - 1);
    }
  }

  lemma {:induction false} PiecesFit(section: string, ranges: seq<P.Range>, size: nat)
    requires |section| <= 8 && size < 0x100_0000 && P.Tidy(ranges, size)
    ensures Natural(ranges) && P.Fits(section, []) && forall p :: p in Pieces(ranges) ==> P.Fits(section, [p])
  {
    assert Power16(6) == 0x100_0000 by { assert Power16(3) == 0x1000; }
    forall p | p in Pieces(ranges) ensures P.Fits(section, [p]) {
      var k :| 0 <= k < |ranges| && p == P.Piece(ranges[k]);
      HexLength(ranges[k].0, 6);
      HexLength(ranges[k].1, 6);
      assert P.Join([p]) == p;
    }
  }

  /** Every piece of a batch is one of those dealt out. */
  lemma {:induction false} BatchClean(batches: seq<seq<string>>, b: nat)
    requires b < |batches| && AllClean(P.Flatten(batches))
    ensures AllClean(batches[b])
  {
    var n := |batches| - 1;
    var front := P.Flatten(batches[..n]);
    var all := P.Flatten(batches);
    assert all == front + batches[n];
    if b < n {
      assert AllClean(front) by {
        forall k | 0 <= k < |front| ensures Clean(front[k]) { assert all[k] == front[k]; }
      }
      BatchClean(batches[..n], b);
    } else {
      forall k | 0 <= k < |batches[n]| ensures Clean(batches[n][k]) { assert all[|front| + k] == batches[n][k]; }
    }
  }

  lemma {:induction false} RangesOfJoin(a: seq<string>, b: seq<string>)
    ensures RangesOf(a + b) == RangesOf(a) + RangesOf(b)
  {
  }

  lemma {:induction false} CardGood(section: string, batch: seq<string>)
    requires Named(section) && AllClean(batch) && P.Fits(section, batch)
    ensures GoodControl(P.Text(section, batch))
  {
    assert section[|section| - 1] in section;
    TextPrintable(section, batch);
  }

  lemma {:induction false} GivesMore(texts: seq<string>, section: string, ranges: seq<P.Range>, text: string)
    requires Gives(texts, section, ranges) && GoodControl(text) && IsFor(section, text)
    ensures Gives(texts + [text], section, ranges + CardRanges(section, text))
  {
    hide IsFor, CardRanges, GoodControl;
    RangesMore(section, texts, text);
    hide Ranges;
  }

  lemma {:induction false} NothingGiven(section: string)
    ensures Gives([], section, RangesOf(P.Flatten([])))
  {
  }

  /** One more card. */
  lemma {:induction false} CardMore(texts: seq<string>, section: string, pieces: seq<string>, batch: seq<string>)
    requires Named(section) && AllClean(batch) && P.Fits(section, batch) && Gives(texts, section, RangesOf(pieces))
    ensures Gives(texts + [P.Text(section, batch)], section, RangesOf(pieces + batch))
  {
    hide *;
    CardGood(section, batch);
    RangesOfJoin(pieces, batch);
    TextRanges(section, batch, section);
    GivesMore(texts, section, RangesOf(pieces), P.Text(section, batch));
  }

  method BatchCards(section: string, batches: seq<seq<string>>) returns (texts: seq<string>)
    requires Named(section) && AllClean(P.Flatten(batches)) && forall b :: b in batches ==> P.Fits(section, b)
    ensures |texts| == |batches| && Gives(texts, section, RangesOf(P.Flatten(batches)))
  {
    hide *;
    texts := [];
    NothingGiven(section);
    for b := 0 to |batches|
      invariant |texts| == b && Gives(texts, section, RangesOf(P.Flatten(batches[..b])))
    {
      BatchClean(batches, b);
      CardMore(texts, section, P.Flatten(batches[..b]), batches[b]);
      P.FlattenMore(batches[..b], batches[b]);
      assert batches[..b + 1] == batches[..b] + [batches[b]];
      texts := texts + [P.Text(section, batches[b])];
    }
    assert batches[..|batches|] == batches;
  }

  /** The cards of one control section; there is always one. */
  method SectionCards(s: Section, marks: seq<P.Mark>, default: bool, ghost recorded: seq<Recorded>)
    returns (texts: seq<string>)
    requires Named(s.name) && Halfwords(s) < 0x100_0000 && marks == MarksOf(recorded, s.name)
    ensures texts != [] && Gives(texts, s.name, Ranges(s.name, texts))
    ensures Protects(Ranges(s.name, texts), s, recorded, default)
  {
    var found := P.ProtectRanges(marks, default, Halfwords(s));
    hide P.Fits, P.Covered, P.Verdict, P.Text;
    PiecesFit(s.name, found, Halfwords(s));
    PiecesClean(found);
    RangesBack(found);
    var batches := P.Batches(s.name, Pieces(found));
    texts := BatchCards(s.name, batches);
    assert Ranges(s.name, texts) == found;
  }

  /** The marks sorted by section. */
  method ByState(recorded: seq<Recorded>) returns (byState: map<string, seq<P.Mark>>)
    ensures forall x :: x in byState <==> MarksOf(recorded, x) != []
    ensures forall x :: x in byState ==> byState[x] == MarksOf(recorded, x)
  {
    byState := map[];
    for k := 0 to |recorded|
      invariant forall x :: x in byState <==> MarksOf(recorded[..k], x) != []
      invariant forall x :: x in byState ==> byState[x] == MarksOf(recorded[..k], x)
    {
      var r := recorded[k];
      var before := if r.section in byState then byState[r.section] else [];
      assert recorded[..k + 1][..k] == recorded[..k];
      byState := byState[r.section := before + [r.mark]];
    }
    assert recorded[..|recorded|] == recorded;
  }

  /** Every section that gets cards has a name and ranges that fit them. */
  ghost predicate Protectable(sections: seq<Section>, recorded: seq<Recorded>) {
    && (forall i, j :: 0 <= i < j < |sections| ==> sections[i].name != sections[j].name)
    && (forall i :: 0 <= i < |sections| && Marked(sections[i], recorded) ==>
          Named(sections[i].name) && Halfwords(sections[i]) < 0x100_0000)
  }

  ghost predicate AmongMarked(section: string, sections: seq<Section>, n: nat, recorded: seq<Recorded>) {
    exists i :: 0 <= i < n && i < |sections| && sections[i].name == section && Marked(sections[i], recorded)
  }

  /** The cards are for the marked ones of the first `n` sections and no others, and protect each as its
      marks say. */
  ghost predicate ProtectedTo(controls: seq<string>, sections: seq<Section>, n: nat, recorded: seq<Recorded>,
                              default: bool)
  {
    && AllGoodControls(controls) && n <= |sections|
    && (forall x :: Managed(x, controls) <==> AmongMarked(x, sections, n, recorded))
    && (forall i :: 0 <= i < n && Marked(sections[i], recorded) ==>
          Protects(Ranges(sections[i].name, controls), sections[i], recorded, default))
  }

  lemma {:induction false} UnmarkedMore(controls: seq<string>, sections: seq<Section>, n: nat, recorded: seq<Recorded>,
                                        default: bool)
    requires n < |sections| && !Marked(sections[n], recorded) && ProtectedTo(controls, sections, n, recorded, default)
    ensures ProtectedTo(controls, sections, n + 1, recorded, default)
  {
    hide Protects, Marked, Managed;
    forall x ensures AmongMarked(x, sections, n + 1, recorded) <==> AmongMarked(x, sections, n, recorded) {
    }
  }

  lemma {:induction false} ManagedOne(x: string, texts: seq<string>, section: string)
    requires texts != [] && forall k :: 0 <= k < |texts| ==> IsFor(section, texts[k])
    ensures Managed(x, texts) <==> x == section
  {
    assert IsFor(section, texts[0]);
  }

  /** Cards for other sections add nothing. */
  lemma {:induction false} RangesApart(x: string, a: seq<string>, b: seq<string>)
    ensures !Managed(x, a) ==> Ranges(x, a + b) == Ranges(x, b)
    ensures !Managed(x, b) ==> Ranges(x, a + b) == Ranges(x, a)
  {
    hide Managed;
    RangesJoin(x, a, b);
    NothingMore(Ranges(x, a));
    NothingMore(Ranges(x, b));
    if !Managed(x, a) { NoRanges(x, a); }
    if !Managed(x, b) { NoRanges(x, b); }
  }

  lemma {:induction false} MarkedMore(controls: seq<string>, sections: seq<Section>, n: nat, recorded: seq<Recorded>,
                                      default: bool, texts: seq<string>, ranges: seq<P.Range>)
    requires Protectable(sections, recorded) && n < |sections| && Marked(sections[n], recorded)
    requires ProtectedTo(controls, sections, n, recorded, default)
    requires texts != [] && Gives(texts, sections[n].name, ranges) && Protects(ranges, sections[n], recorded, default)
    ensures ProtectedTo(controls + texts, sections, n + 1, recorded, default)
  {
    hide Protects, Marked, Managed, Named, IsFor, Ranges;
    forall x ensures Managed(x, controls + texts) <==> AmongMarked(x, sections, n + 1, recorded) {
      ManagedJoin(x, controls, texts);
      ManagedOne(x, texts, sections[n].name);
    }
    forall i | 0 <= i <= n && Marked(sections[i], recorded)
      ensures Protects(Ranges(sections[i].name, controls + texts), sections[i], recorded, default)
    {
      RangesApart(sections[i].name, controls, texts);
      ManagedOne(sections[i].name, texts, sections[n].name);
    }
  }

  /** The PROT cards of the whole module. */
  method ProtectControls(sections: seq<Section>, recorded: seq<Recorded>, default: bool)
    returns (controls: seq<string>)
    requires Protectable(sections, recorded)
    ensures ProtectedTo(controls, sections, |sections|, recorded, default)
  {
    var byState := ByState(recorded);
    controls := [];
    for i := 0 to |sections|
      invariant ProtectedTo(controls, sections, i, recorded, default)
    {
      var s := sections[i];
      if s.name !in byState || s.dsect || Halfwords(s) == 0 {
        UnmarkedMore(controls, sections, i, recorded, default);
      } else {
        var texts := SectionCards(s, byState[s.name], default, recorded);
        MarkedMore(controls, sections, i, recorded, default, texts, Ranges(s.name, texts));
        controls := controls + texts;
      }
    }
  }

  /** The object module of an assembly with what marks were met in its sections. */
  method WriteProtectedModule(m: Module, recorded: seq<Recorded>, default: bool)
    returns (f: Deck, ok: bool, ghost controls: seq<string>)
    requires NamesFit(m) && Protectable(m.sections, recorded)
    ensures fresh(f) && (ok <==> |Items(m)| < 0x1_0000)
    ensures if m.storeProtect then ProtectedTo(controls, m.sections, |m.sections|, recorded, default)
            else controls == []
    ensures ok ==> f.Valid() && f.said == Contents(m.(controls := controls)) && Writable(m.(controls := controls))
  {
    var texts := [];
    if m.storeProtect {
      texts := ProtectControls(m.sections, recorded, default);
    }
    controls := texts;
    SameItems(m, controls);
    f, ok := WriteObjectModule(m.(controls := texts));
  }

  lemma {:induction false} SameItems(m: Module, controls: seq<string>)
    ensures Items(m.(controls := controls)) == Items(m)
  {
    KnownIn(m.entries, m.symtab);
    SameEntries(m, controls, Known(m.entries, m.symtab));
  }

  lemma {:induction false} SameEntries(m: Module, controls: seq<string>, known: seq<string>)
    requires forall k :: 0 <= k < |known| ==> known[k] in m.symtab
    ensures EntryItems(m.(controls := controls), known) == EntryItems(m, known)
  {
    if known != [] { SameEntries(m, controls, known[..|known| - 1]); }
  }

  /** What the reader collects from the deck protects every marked section as its marks say, and no other:
      a halfword lies in a range of the section's cards exactly when the governing mark, else the default,
      says protected. */
  lemma {:induction false} ProtectionReadBack(m: Module, recorded: seq<Recorded>, default: bool)
    requires Writable(m) && m.storeProtect
    requires ProtectedTo(m.controls, m.sections, |m.sections|, recorded, default)
    ensures AllEncodable(Contents(m))
    ensures var scan := ScanAll(NOTHING, Reads(EncodeAll(Contents(m))));
            scan.Some? && ProtectedTo(scan.value.ctl, m.sections, |m.sections|, recorded, default)
  {
    hide ProtectedTo;
    ContentsEncodable(m);
    DeckBack(Contents(m));
    ContentsFound(m);
  }
}
