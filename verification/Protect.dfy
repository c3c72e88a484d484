/**
  Store-protect ranges: the walk over the SPON/SPOFF marks of a section, and the PROT control cards
  that carry the ranges.
 */
module Protect {
  import opened Wrappers

  /** A mark: SPON (`protect`) or SPOFF at a byte offset of its section. */
  datatype Mark = Mark(offset: nat, protect: bool)

  type Range = (int, int)

  // ---------------------------------------------------------------- order of the marks

  ghost predicate Ascending(marks: seq<Mark>) {
    forall i, j :: 0 <= i < j < |marks| ==> marks[i].offset <= marks[j].offset
  }

  /** After the marks with an offset no greater than its own. */
  function Insert(sorted: seq<Mark>, m: Mark): seq<Mark> {
    if sorted == [] || sorted[|sorted| - 1].offset <= m.offset then sorted + [m]
    else Insert(sorted[..|sorted| - 1], m) + [sorted[|sorted| - 1]]
  }

  /** The marks sorted by offset, marks at the same offset keeping their order. */
  function Sorted(marks: seq<Mark>): seq<Mark> {
    if marks == [] then [] else Insert(Sorted(marks[..|marks| - 1]), marks[|marks| - 1])
  }

  /** The state at halfword `h` under marks in ascending order: the last one at or before it. */
  function StateAt(sorted: seq<Mark>, default: bool, h: int): bool {
    if sorted == [] then default
    else if sorted[|sorted| - 1].offset / 2 <= h then sorted[|sorted| - 1].protect
    else StateAt(sorted[..|sorted| - 1], default, h)
  }

  /** The mark that governs halfword `h`, whatever the order they were recorded in: of those at or
      before it the one with the greatest offset, and of several the one recorded last. */
  function Governing(marks: seq<Mark>, h: int): (r: Option<nat>)
    ensures r.Some? ==> r.value < |marks|
  {
    if marks == [] then None
    else
      var n := |marks| - 1;
      match Governing(marks[..n], h)
      case None => if marks[n].offset / 2 <= h then Some(n) else None
      case Some(g) => if marks[n].offset / 2 <= h && marks[g].offset <= marks[n].offset then Some(n) else Some(g)
  }

  /** What the recorded marks, else the default, say of halfword `h`. */
  function Verdict(marks: seq<Mark>, default: bool, h: int): bool {
    match Governing(marks, h) case None => default case Some(g) => marks[g].protect
  }

  lemma {:induction false} GoverningMeaning(marks: seq<Mark>, h: int)
    ensures match Governing(marks, h)
            case None => forall j :: 0 <= j < |marks| ==> marks[j].offset / 2 > h
            case Some(i) =>
              && marks[i].offset / 2 <= h
              && forall j :: 0 <= j < |marks| && marks[j].offset / 2 <= h ==>
                   marks[j].offset < marks[i].offset || (marks[j].offset == marks[i].offset && j <= i)
  {
    if marks != [] {
      var n := |marks| - 1;
      GoverningMeaning(marks[..n], h);
      assert forall j :: 0 <= j < n ==> marks[..n][j] == marks[j];
    }
  }

  /** The governing offset of an ascending list, or -1. */
  function Reach(sorted: seq<Mark>, h: int): int {
    if sorted == [] then -1
    else if sorted[|sorted| - 1].offset / 2 <= h then sorted[|sorted| - 1].offset
    else Reach(sorted[..|sorted| - 1], h)
  }

  lemma {:induction false} InsertAscending(sorted: seq<Mark>, m: Mark)
    requires Ascending(sorted)
    ensures Ascending(Insert(sorted, m))
    ensures forall x :: x in Insert(sorted, m) ==> x in sorted || x == m
  {
    if sorted != [] && sorted[|sorted| - 1].offset > m.offset {
      var n := |sorted| - 1;
      InsertAscending(sorted[..n], m);
      forall x | x in Insert(sorted[..n], m) ensures x.offset <= sorted[n].offset {
        if x in sorted[..n] {
          var k :| 0 <= k < n && sorted[k] == x;
        }
      }
    }
  }

  lemma {:induction false} InsertState(sorted: seq<Mark>, m: Mark, default: bool, h: int)
    requires Ascending(sorted)
    ensures var later := m.offset / 2 <= h && Reach(sorted, h) <= m.offset;
            && StateAt(Insert(sorted, m), default, h) == (if later then m.protect else StateAt(sorted, default, h))
            && Reach(Insert(sorted, m), h) == (if later then m.offset else Reach(sorted, h))
  {
    if sorted == [] || sorted[|sorted| - 1].offset <= m.offset {
      assert (sorted + [m])[..|sorted|] == sorted;
      ReachBelow(sorted, h);
    } else {
      var n := |sorted| - 1;
      InsertState(sorted[..n], m, default, h);
      assert Insert(sorted, m)[..|Insert(sorted, m)| - 1] == Insert(sorted[..n], m);
    }
  }

  lemma {:induction false} ReachBelow(sorted: seq<Mark>, h: int)
    requires Ascending(sorted)
    ensures sorted != [] ==> Reach(sorted, h) <= sorted[|sorted| - 1].offset
  {
    if sorted != [] {
      ReachBelow(sorted[..|sorted| - 1], h);
    }
  }

  /** Sorting does not change what governs a halfword. */
  lemma {:induction false} SortedState(marks: seq<Mark>, default: bool, h: int)
    ensures Ascending(Sorted(marks))
    ensures var g := Governing(marks, h);
            && StateAt(Sorted(marks), default, h) == Verdict(marks, default, h)
            && Reach(Sorted(marks), h) == (if g.Some? then marks[g.value].offset else -1)
  {
    if marks != [] {
      var front := marks[..|marks| - 1];
      SortedState(front, default, h);
      InsertAscending(Sorted(front), marks[|marks| - 1]);
      InsertState(Sorted(front), marks[|marks| - 1], default, h);
    }
  }

  // ---------------------------------------------------------------- the walk

  ghost predicate Covered(ranges: seq<Range>, h: int) {
    exists i :: 0 <= i < |ranges| && ranges[i].0 <= h < ranges[i].1
  }

  /** Nonempty, in order, without overlap, inside `[0, end)`. */
  ghost predicate Tidy(ranges: seq<Range>, end: int) {
    && (forall i :: 0 <= i < |ranges| ==> 0 <= ranges[i].0 < ranges[i].1 <= end)
    && (forall i, j :: 0 <= i < j < |ranges| ==> ranges[i].1 <= ranges[j].0)
  }

  lemma {:induction false} CoverMore(ranges: seq<Range>, r: Range, h: int)
    ensures Covered(ranges + [r], h) <==> Covered(ranges, h) || r.0 <= h < r.1
  {
    var more := ranges + [r];
    if Covered(ranges, h) {
      var i :| 0 <= i < |ranges| && ranges[i].0 <= h < ranges[i].1;
      assert more[i] == ranges[i];
    }
    if r.0 <= h < r.1 {
      assert more[|ranges|] == r;
    }
  }

  /** The halfword of a mark, held inside the section. */
  function Place(t: Mark, size: nat): nat {
    if t.offset / 2 < size then t.offset / 2 else size
  }

  /** Protected so far: inside a closed run, or beyond the start of the open one. */
  ghost predicate Current(ranges: seq<Range>, runStart: Option<int>, h: int) {
    Covered(ranges, h) || (runStart.Some? && runStart.value <= h)
  }

  /** Closed runs and the start of the open one lie before `last`. */
  ghost predicate Walked(ranges: seq<Range>, runStart: Option<int>, last: int) {
    && Tidy(ranges, last) && last >= 0
    && (runStart.Some? ==> 0 <= runStart.value <= last && forall i :: 0 <= i < |ranges| ==>
        ranges[i].1 <= runStart.value)
  }

  /** One mark of the walk. */
  function Walk(ranges: seq<Range>, runStart: Option<int>, protect: bool, hw: int): (seq<Range>, Option<int>) {
    if protect && runStart.None? then (ranges, Some(hw))
    else if !protect && runStart.Some? then
      (if hw > runStart.value then ranges + [(runStart.value, hw)] else ranges, None)
    else (ranges, runStart)
  }

  lemma {:induction false} WalkStep(ranges: seq<Range>, runStart: Option<int>, protect: bool, last: int, hw: int,
                                    h: int)
    requires Walked(ranges, runStart, last) && last <= hw
    ensures var (r, s) := Walk(ranges, runStart, protect, hw);
            && Walked(r, s, hw)
            && (Current(r, s, h) <==> if h >= hw then protect else Current(ranges, runStart, h))
  {
    if runStart.Some? {
      CoverMore(ranges, (runStart.value, hw), h);
    }
  }

  ghost predicate Agrees(ranges: seq<Range>, runStart: Option<int>, sorted: seq<Mark>, default: bool, size: nat) {
    forall h :: 0 <= h < size ==> (Current(ranges, runStart, h) <==> StateAt(sorted, default, h))
  }

  ghost predicate Ahead(marks: seq<Mark>, k: nat, last: int, size: nat) {
    forall j :: k <= j < |marks| ==> last <= Place(marks[j], size)
  }

  lemma {:induction false} WalkAgrees(ranges: seq<Range>, runStart: Option<int>, marks: seq<Mark>, k: nat,
                                      default: bool, last: int, size: nat)
    requires Ascending(marks) && k < |marks|
    requires Walked(ranges, runStart, last) && Ahead(marks, k, last, size) &&
             Agrees(ranges, runStart, marks[..k], default, size)
    ensures var hw := Place(marks[k], size);
            var (r, s) := Walk(ranges, runStart, marks[k].protect, hw);
            Walked(r, s, hw) && Ahead(marks, k + 1, hw, size) && Agrees(r, s, marks[..k + 1], default, size)
  {
    var hw := Place(marks[k], size);
    WalkStep(ranges, runStart, marks[k].protect, last, hw, 0);
    assert marks[..k + 1][..k] == marks[..k];
    var (r, s) := Walk(ranges, runStart, marks[k].protect, hw);
    forall h | 0 <= h < size ensures Current(r, s, h) <==> StateAt(marks[..k + 1], default, h) {
      WalkStep(ranges, runStart, marks[k].protect, last, hw, h);
    }
  }

  /** A mark opens a run or closes the open one, at halfword `hw`. */
  method PassMark(ranges: seq<Range>, runStart: Option<int>, protect: bool, hw: int)
    returns (ranges': seq<Range>, runStart': Option<int>)
    ensures (ranges', runStart') == Walk(ranges, runStart, protect, hw)
  {
    ranges', runStart' := ranges, runStart;
    if protect && runStart.None? {
      runStart' := Some(hw);
    } else if !protect && runStart.Some? {
      if hw > runStart.value {
        ranges' := ranges + [(runStart.value, hw)];
      }
      runStart' := None;
    }
  }

  /** The runs closed when all marks have been passed, and the start of the open one. */
  method WalkMarks(marks: seq<Mark>, default: bool, size: nat)
    returns (ranges: seq<Range>, runStart: Option<int>, ghost last: int)
    requires Ascending(marks)
    ensures Walked(ranges, runStart, last) && last <= size && Agrees(ranges, runStart, marks, default, size)
  {
    WalkBegins(marks, default, size);
    hide *;
    ranges := [];
    runStart := if default then Some(0) else None;
    last := 0;
    var k := 0;
    while k < |marks|
      invariant 0 <= k <= |marks| && last <= size && Walked(ranges, runStart, last)
      invariant Ahead(marks, k, last, size) && Agrees(ranges, runStart, marks[..k], default, size)
    {
      var t := marks[k];
      var hw := Place(t, size);
      PlaceWithin(t, size);
      WalkAgrees(ranges, runStart, marks, k, default, last, size);
      ranges, runStart := PassMark(ranges, runStart, t.protect, hw);
      last := hw;
      k := k + 1;
    }
    assert marks[..k] == marks;
  }

  lemma {:induction false} PlaceWithin(t: Mark, size: nat)
    ensures Place(t, size) <= size
  {
  }

  /** The protected runs of a section of `size` halfwords; a halfword lies in one of them exactly when
      the governing mark, else the default, says protected. */
  method ProtectRanges(recorded: seq<Mark>, default: bool, size: nat) returns (ranges: seq<Range>)
    ensures Tidy(ranges, size)
    ensures forall h :: 0 <= h < size ==> (Covered(ranges, h) <==> Verdict(recorded, default, h))
  {
    hide *;
    SortedAscending(recorded);
    var runStart: Option<int>;
    ghost var last: int;
    ranges, runStart, last := WalkMarks(Sorted(recorded), default, size);
    WalkEnds(ranges, runStart, recorded, default, last, size);
    if runStart.Some? && size > runStart.value {
      ranges := ranges + [(runStart.value, size)];
    }
  }

  lemma {:induction false} SortedAscending(recorded: seq<Mark>)
    ensures Ascending(Sorted(recorded))
  {
    SortedState(recorded, false, 0);
  }

  lemma {:induction false} WalkBegins(marks: seq<Mark>, default: bool, size: nat)
    requires Ascending(marks)
    ensures var runStart := if default then Some(0) else None;
            Walked([], runStart, 0) && Ahead(marks, 0, 0, size) && Agrees([], runStart, marks[..0], default, size)
  {
  }

  lemma {:induction false} WalkEnds(ranges: seq<Range>, runStart: Option<int>, recorded: seq<Mark>, default: bool,
                                    last: int, size: nat)
    requires Walked(ranges, runStart, last) && last <= size && Agrees(ranges, runStart, Sorted(recorded), default, size)
    ensures var r := if runStart.Some? && size > runStart.value then ranges + [(runStart.value, size)] else ranges;
            Tidy(r, size) && forall h :: 0 <= h < size ==> (Covered(r, h) <==> Verdict(recorded, default, h))
  {
    var r := if runStart.Some? && size > runStart.value then ranges + [(runStart.value, size)] else ranges;
    forall h | 0 <= h < size ensures Covered(r, h) <==> Verdict(recorded, default, h) {
      SortedState(recorded, default, h);
      if runStart.Some? {
        CoverMore(ranges, (runStart.value, size), h);
      }
    }
  }

  // ---------------------------------------------------------------- the cards

  const LAST_COLUMN := 71

  function Join(pieces: seq<string>): string {
    if pieces == [] then "" else if |pieces| == 1 then pieces[0]
    else Join(pieces[..|pieces| - 1]) + "," + pieces[|pieces| - 1]
  }

  /** The text of a PROT card. */
  function Text(section: string, batch: seq<string>): string {
    if batch == [] then " PROT " + section else " PROT " + section + " " + Join(batch)
  }

  function Flatten(batches: seq<seq<string>>): seq<string> {
    if batches == [] then [] else Flatten(batches[..|batches| - 1]) + batches[|batches| - 1]
  }

  predicate Fits(section: string, batch: seq<string>) {
    |Text(section, batch)| <= LAST_COLUMN
  }

  /** No batch is empty, and none could have taken the first piece of the next. */
  ghost predicate Packed(batches: seq<seq<string>>, fits: seq<string> -> bool) {
    && (forall b :: 0 < b < |batches| ==> batches[b] != [] && !fits(batches[b - 1] + [batches[b][0]]))
  }

  /** Pieces dealt out to batches in order, a new batch begun whenever the next piece does not fit. */
  method Deal(pieces: seq<string>, fits: seq<string> -> bool) returns (batches: seq<seq<string>>)
    ensures Flatten(batches) == pieces && |batches| >= 1 && Packed(batches, fits)
    ensures Roomy(pieces, fits) ==> AllFit(batches, fits) || (pieces == [] && batches == [[]])
  {
    batches := [];
    var cur: seq<string> := [];
    var i := 0;
    FlattenMore([], []);
    while i < |pieces|
      invariant 0 <= i <= |pieces| && Dealt(batches, cur, pieces, i, fits)
    {
      var piece := pieces[i];
      DealtNext(batches, cur, pieces, i, fits);
      if !fits(cur + [piece]) {
        batches := batches + [cur];
        cur := [piece];
      } else {
        cur := cur + [piece];
      }
      i := i + 1;
    }
    assert pieces[..i] == pieces;
    batches := batches + [cur];
  }

  /** The state of the dealing after `i` pieces. */
  ghost predicate Dealt(batches: seq<seq<string>>, cur: seq<string>, pieces: seq<string>, i: nat,
                        fits: seq<string> -> bool) {
    && i <= |pieces| && Flatten(batches + [cur]) == pieces[..i]
    && (cur == [] ==> i == 0 && batches == [])
    && (Roomy(pieces, fits) ==> fits(cur) && AllFit(batches, fits))
    && (Packed(batches + [cur], fits) || cur == [])
  }

  lemma {:induction false} DealtNext(batches: seq<seq<string>>, cur: seq<string>, pieces: seq<string>, i: nat,
                                     fits: seq<string> -> bool)
    requires i < |pieces| && Dealt(batches, cur, pieces, i, fits)
    ensures if fits(cur + [pieces[i]]) then Dealt(batches, cur + [pieces[i]], pieces, i + 1, fits)
            else Dealt(batches + [cur], [pieces[i]], pieces, i + 1, fits)
  {
    var piece := pieces[i];
    assert pieces[..i + 1] == pieces[..i] + [piece];
    FlattenPiece(batches, cur, piece);
    if fits(cur + [piece]) {
      PackedSame(batches, cur, piece, fits);
    } else {
      assert cur == [] ==> cur + [piece] == [piece];
      PackedNext(batches, cur, piece, fits);
    }
  }

  /** Every batch could be made of pieces that fit one by one. */
  ghost predicate Roomy(pieces: seq<string>, fits: seq<string> -> bool) {
    fits([]) && forall p :: p in pieces ==> fits([p])
  }

  ghost predicate AllFit(batches: seq<seq<string>>, fits: seq<string> -> bool) {
    forall b :: b in batches ==> fits(b) && b != []
  }

  lemma {:induction false} PackedNext(batches: seq<seq<string>>, cur: seq<string>, piece: string,
                                      fits: seq<string> -> bool)
    requires Packed(batches + [cur], fits) || (cur == [] && batches == [])
    requires !fits(cur + [piece])
    ensures Packed(batches + [cur] + [[piece]], fits)
  {
    var more := batches + [cur] + [[piece]];
    forall b | 0 < b < |more| ensures more[b] != [] && !fits(more[b - 1] + [more[b][0]]) {
      if b <= |batches| {
        assert more[b] == (batches + [cur])[b] && more[b - 1] == (batches + [cur])[b - 1];
      }
    }
  }

  lemma {:induction false} PackedSame(batches: seq<seq<string>>, cur: seq<string>, piece: string,
                                      fits: seq<string> -> bool)
    requires Packed(batches + [cur], fits) || (cur == [] && batches == [])
    ensures Packed(batches + [cur + [piece]], fits)
  {
    var more := batches + [cur + [piece]];
    forall b | 0 < b < |more| ensures more[b] != [] && !fits(more[b - 1] + [more[b][0]]) {
      assert more[b - 1] == (batches + [cur])[b - 1];
      assert more[b][0] == (batches + [cur])[b][0];
    }
  }

  /** The PROT cards of a section: the pieces concatenate back in order; every card fits its columns
      when each single piece does; no card could have taken the first piece of the next. */
  method Batches(section: string, pieces: seq<string>) returns (batches: seq<seq<string>>)
    ensures Flatten(batches) == pieces && |batches| >= 1 && Packed(batches, (b: seq<string>) => Fits(section, b))
    ensures Fits(section, []) && (forall p :: p in pieces ==> Fits(section, [p])) ==>
              forall b :: b in batches ==> Fits(section, b) && |Text(section, b)| <= 71 && (b == [] ==> pieces == [])
    ensures forall b :: 0 < b < |batches| ==>
              batches[b] != [] && |Text(section, batches[b - 1] + [batches[b][0]])| > 71
  {
    batches := Deal(pieces, (b: seq<string>) => Fits(section, b));
  }

  lemma {:induction false} FlattenPiece(batches: seq<seq<string>>, cur: seq<string>, piece: string)
    ensures Flatten(batches + [cur + [piece]]) == Flatten(batches + [cur]) + [piece]
    ensures Flatten(batches + [cur] + [[piece]]) == Flatten(batches + [cur]) + [piece]
  {
    FlattenMore(batches, cur);
    FlattenMore(batches, cur + [piece]);
    FlattenMore(batches + [cur], [piece]);
    assert Flatten(batches) + (cur + [piece]) == Flatten(batches) + cur + [piece];
  }

  lemma {:induction false} FlattenMore(batches: seq<seq<string>>, b: seq<string>)
    ensures Flatten(batches + [b]) == Flatten(batches) + b
  {
    assert (batches + [b])[..|batches|] == batches;
  }

  // ---------------------------------------------------------------- hexadecimal

  const DIGITS := "0123456789ABCDEF"

  function Hex(n: nat): string {
    if n < 16 then [DIGITS[n]] else Hex(n / 16) + [DIGITS[n % 16]]
  }

  function DigitValue(c: char): nat {
    if '0' <= c <= '9' then (c - '0') as nat else if 'A' <= c <= 'F' then (c - 'A') as nat + 10 else 0
  }

  function HexValue(s: string): nat {
    if s == [] then 0 else 16 * HexValue(s[..|s| - 1]) + DigitValue(s[|s| - 1])
  }

  function Piece(r: Range): string
    requires 0 <= r.0 && 0 <= r.1
  {
    Hex(r.0) + "-" + Hex(r.1)
  }

  lemma {:induction false} HexRoundTrip(n: nat)
    ensures HexValue(Hex(n)) == n && forall c :: c in Hex(n) ==> c in DIGITS
  {
    if n >= 16 {
      HexRoundTrip(n / 16);
    }
    DigitRoundTrip(n % 16);
  }

  lemma {:induction false} DigitRoundTrip(d: nat)
    requires d < 16
    ensures DigitValue(DIGITS[d]) == d
  {
  }

  /** A piece is read back as its range: what stands before its first hyphen, and what stands after. */
  lemma {:induction false} PieceReadsBack(r: Range, k: nat)
    requires 0 <= r.0 && 0 <= r.1
    requires k < |Piece(r)| && Piece(r)[k] == '-' && forall j :: 0 <= j < k ==> Piece(r)[j] != '-'
    ensures HexValue(Piece(r)[..k]) == r.0 && HexValue(Piece(r)[k + 1..]) == r.1
  {
    HexRoundTrip(r.0);
    HexRoundTrip(r.1);
    NoHyphen(r.0);
    hide Hex, HexValue;
    HyphenAt(Hex(r.0), Hex(r.1), k);
  }

  lemma {:induction false} NoHyphen(n: nat)
    ensures '-' !in Hex(n)
  {
    HexRoundTrip(n);
  }

  /** The first hyphen is the one put between. */
  lemma {:induction false} HyphenAt(a: string, b: string, k: nat)
    requires '-' !in a && k < |a + "-" + b|
    requires (a + "-" + b)[k] == '-' && forall j :: 0 <= j < k ==> (a + "-" + b)[j] != '-'
    ensures (a + "-" + b)[..k] == a && (a + "-" + b)[k + 1..] == b
  {
    assert (a + "-" + b)[|a|] == '-';
    forall j | 0 <= j < |a| ensures (a + "-" + b)[j] != '-' {
      assert a[j] in a;
    }
  }
}
