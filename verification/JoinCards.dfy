/**
  Joining the operand of a continued statement: where an operand field ends, whether text ends inside a
  quoted string, and the joining of cards for statements that are neither macro prototypes nor macro
  invocations.
 */
module JoinCards {
  import opened Basics
  import opened Wrappers

  // ---------------------------------------------------------------- quotes and parentheses

  /** Inside a quoted string or not, and how many parentheses are open. */
  datatype State = State(quoted: bool, depth: nat)

  const START := State(false, 0)

  /** One character: every quote changes sides, and parentheses count outside of strings. */
  function Step(s: State, c: char): State {
    if c == '\'' then s.(quoted := !s.quoted)
    else if s.quoted then s
    else if c == '(' then s.(depth := s.depth + 1)
    else if c == ')' && s.depth > 0 then s.(depth := s.depth - 1)
    else s
  }

  function Run(text: string): State {
    if text == "" then START else Step(Run(text[..|text| - 1]), text[|text| - 1])
  }

  /** The field ends at the first blank outside strings and parentheses, else at the end of the text. */
  ghost predicate EndsAt(text: string, n: nat) {
    && n <= |text|
    && (forall k :: 0 <= k < n ==> text[k] == ' ' ==> Run(text[..k]) != START)
    && (n < |text| ==> text[n] == ' ' && Run(text[..n]) == START)
  }

  lemma {:induction false} EndUnique(text: string, m: nat, n: nat)
    requires EndsAt(text, m) && EndsAt(text, n)
    ensures m == n
  {
  }

  function FieldEnd(text: string): (n: nat)
    ensures EndsAt(text, n)
  {
    if text == "" then 0
    else
      var last := |text| - 1;
      var before := FieldEnd(text[..last]);
      assert forall k :: 0 <= k <= last ==> text[..last][..k] == text[..k];
      if before < last then before
      else if text[last] == ' ' && Run(text[..last]) == START then last
      else |text|
  }

  lemma {:induction false} RunNext(text: string, i: nat)
    requires i < |text|
    ensures Run(text[..i + 1]) == Step(Run(text[..i]), text[i])
  {
    assert text[..i + 1][..i] == text[..i];
  }

  /** The scan of the original passes over a doubled quote inside a string in one go; a quote for a quote,
      that comes to the same. */
  method OperandFieldEnd(text: string) returns (n: nat)
    ensures n == FieldEnd(text)
  {
    var quoted, depth: nat, i := false, 0, 0;
    assert text[..0] == "";
    while i < |text|
      invariant 0 <= i <= |text| && Run(text[..i]) == State(quoted, depth)
      invariant forall k :: 0 <= k < i ==> text[k] == ' ' ==> Run(text[..k]) != START
    {
      var c := text[i];
      RunNext(text, i);
      if c == '\'' {
        if quoted && i + 1 < |text| && text[i + 1] == '\'' {
          RunNext(text, i + 1);
          i := i + 2;
          continue;
        }
        quoted := !quoted;
      } else if !quoted {
        if c == '(' {
          depth := depth + 1;
        } else if c == ')' {
          if depth > 0 { depth := depth - 1; }
        } else if c == ' ' && depth == 0 {
          EndUnique(text, i, FieldEnd(text));
          return i;
        }
      }
      i := i + 1;
    }
    EndUnique(text, i, FieldEnd(text));
    return |text|;
  }

  function Quotes(text: string): nat {
    if text == "" then 0 else Quotes(text[..|text| - 1]) + if text[|text| - 1] == '\'' then 1 else 0
  }

  /** Text ends inside a string exactly when it holds an odd number of quotes. */
  lemma {:induction false} QuotedIsOdd(text: string)
    ensures Run(text).quoted <==> Quotes(text) % 2 == 1
  {
    if text != "" { QuotedIsOdd(text[..|text| - 1]); }
  }

  method InsideQuote(text: string) returns (quoted: bool)
    ensures quoted <==> Quotes(text) % 2 == 1
    ensures quoted == Run(text).quoted
  {
    quoted := false;
    var i := 0;
    assert text[..0] == "";
    while i < |text|
      invariant 0 <= i <= |text| && Run(text[..i]).quoted == quoted
    {
      RunNext(text, i);
      if text[i] == '\'' {
        if quoted && i + 1 < |text| && text[i + 1] == '\'' {
          RunNext(text, i + 1);
          i := i + 2;
          continue;
        }
        quoted := !quoted;
      }
      i := i + 1;
    }
    assert text[..i] == text;
    QuotedIsOdd(text);
  }

  // ---------------------------------------------------------------- joining

  /** `line[from:to]` where either bound may lie beyond the end. */
  function Slice(line: string, from: nat, to: nat): string
    requires from <= to
  {
    if from >= |line| then "" else if to >= |line| then line[from..] else line[from..to]
  }

  /** Of the columns asked for those that the line has. */
  lemma {:induction false} SliceMeans(line: string, from: nat, to: nat)
    requires from <= to
    ensures var r, end := Slice(line, from, to), if to < |line| then to else |line|;
            && |r| == (if from < end then end - from else 0)
            && forall k :: from <= k < end ==> r[k - from] == line[k]
  {
  }

  /** A mark in column 72. */
  predicate Continued(line: string) { |line| >= 72 && line[71] != ' ' }

  predicate Digit(c: char) { '0' <= c <= '9' }

  /** A card made by macro expansion says so in columns 73 to 75. */
  predicate MacroStamped(line: string) {
    |line| >= 75 && Digit(line[72]) && Digit(line[73]) && line[74] == '-'
  }

  /** What a continuation is appended to: the operand so far if it was still running or broke off behind a
      comma, without the padding; None if it was complete and only its comment goes on. */
  function Extend(operand: string): Option<string> {
    var n := FieldEnd(operand);
    var field := operand[..n];
    if n >= |Trim(operand)| || (Trim(field) != "" && Trim(field)[|Trim(field)| - 1] == ',') then
      Some(if Run(field).quoted then field else Trim(field))
    else None
  }

  function JoinFrom(operand: string, continuation: bool, lines: seq<string>, index: nat, skipCount: nat): (string, nat)
    decreases |lines| - index
  {
    if !continuation || index >= |lines| then (operand, skipCount)
    else
      match Extend(operand)
      case Some(field) =>
        JoinFrom(field + Slice(lines[index], 15, 71), Continued(lines[index]), lines, index + 1, skipCount + 1)
      case None =>
        if MacroStamped(lines[index]) then (operand, skipCount)
        else JoinFrom(operand, Continued(lines[index]), lines, index + 1, skipCount + 1)
  }

  /** The joined operand and the number of continuation cards taken. */
  function Joined(lines: seq<string>, index: nat, column: nat): (string, nat)
    requires index < |lines| && column <= 71
  {
    JoinFrom(Slice(lines[index], column, 71), Continued(lines[index]), lines, index + 1, 0)
  }

  /** The operand so far as it is continued, if it is still running. */
  method RunningOn(operand: string) returns (r: Option<string>)
    ensures r == Extend(operand)
  {
    var n := OperandFieldEnd(operand);
    var field := operand[..n];
    var t := Trim(field);
    if n >= |Trim(operand)| || (t != "" && t[|t| - 1] == ',') {
      var quoted := InsideQuote(field);
      return Some(if quoted then field else Trim(field));
    }
    return None;
  }

  method JoinOperand(lines: seq<string>, start: nat, column: nat) returns (operand: string, skipCount: int)
    requires start < |lines| && column <= 71
    ensures (operand, skipCount) == Joined(lines, start, column)
  {
    hide Extend, Slice;
    operand, skipCount := "", -1;
    var index, continuation := start, false;
    while continuation || skipCount < 0
      invariant start <= index <= |lines| && -1 <= skipCount && (skipCount < 0 ==> index == start && !continuation)
      invariant skipCount >= 0 ==>
                  JoinFrom(operand, continuation, lines, index, skipCount) == Joined(lines, start, column)
      decreases |lines| - index, if skipCount < 0 then 1 else 0
    {
      if index >= |lines| { break; }
      skipCount := skipCount + 1;
      var line := lines[index];
      if continuation {
        var field := RunningOn(operand);
        if field.Some? {
          operand := field.value + Slice(line, 15, 71);
        } else if MacroStamped(line) {
          skipCount := skipCount - 1;
          break;
        }
      } else {
        operand := Slice(line, column, 71);
      }
      continuation := Continued(line);
      index := index + 1;
    }
  }

  // ---------------------------------------------------------------- splitting

  /** Text that no blank ends. */
  ghost predicate Whole(text: string) {
    forall k :: 0 <= k < |text| && text[k] == ' ' ==> Run(text[..k]) != START
  }

  predicate EndsIn(s: string, c: char) { s != "" && s[|s| - 1] == c }

  predicate Blank(s: string) { forall k :: 0 <= k < |s| ==> s[k] == ' ' }

  /** What may stand between a piece of the operand and column 72: nothing; padding, outside of strings;
      or, behind a comma outside of strings and parentheses, a blank and a comment. */
  predicate Filler(operand: string, junk: string) {
    || junk == ""
    || (Blank(junk) && !Run(operand).quoted)
    || (Run(operand) == START && EndsIn(operand, ',') && junk[0] == ' ')
  }

  /** The operand is not cut behind a blank outside of strings. */
  predicate CleanCut(operand: string) { EndsIn(operand, ' ') ==> Run(operand).quoted }

  lemma {:induction false} WholeEnd(text: string, junk: string)
    requires Whole(text)
    ensures Whole(text + junk) ==> FieldEnd(text + junk) == |text + junk|
    ensures junk != "" && junk[0] == ' ' && Run(text) == START ==> FieldEnd(text + junk) == |text|
  {
    var all := text + junk;
    assert forall k :: 0 <= k <= |text| ==> all[..k] == text[..k];
    assert text[..|text|] == text;
    if Whole(all) { EndUnique(all, FieldEnd(all), |all|); }
    if junk != "" && junk[0] == ' ' && Run(text) == START {
      assert all[|text|] == ' ';
      EndUnique(all, FieldEnd(all), |text|);
    }
  }

  lemma {:induction false} TrimBlank(s: string, junk: string)
    requires Blank(junk)
    ensures Trim(s + junk) == Trim(s)
    decreases |junk|
  {
    if junk == "" {
      assert s + junk == s;
    } else {
      assert (s + junk)[..|s + junk| - 1] == s + junk[..|junk| - 1];
      TrimBlank(s, junk[..|junk| - 1]);
    }
  }

  lemma {:induction false} TrimShort(s: string)
    ensures |Trim(s)| <= |s| && !EndsIn(Trim(s), ' ') && (!EndsIn(s, ' ') ==> Trim(s) == s)
    ensures |Trim(s)| == |s| ==> Trim(s) == s
  {
    if EndsIn(s, ' ') { TrimShort(s[..|s| - 1]); }
  }

  /** Padding does not change the state, outside of strings or in them. */
  lemma {:induction false} RunBlank(s: string, junk: string)
    requires Blank(junk)
    ensures Run(s + junk) == Run(s)
    decreases |junk|
  {
    if junk == "" {
      assert s + junk == s;
    } else {
      assert (s + junk)[..|s + junk| - 1] == s + junk[..|junk| - 1];
      RunBlank(s, junk[..|junk| - 1]);
    }
  }

  lemma {:induction false} WholeBlank(text: string, junk: string)
    requires Whole(text) && Blank(junk) && Run(text) != START
    ensures Whole(text + junk)
  {
    var all := text + junk;
    forall k | 0 <= k < |all| && all[k] == ' ' ensures Run(all[..k]) != START {
      if k < |text| {
        assert all[..k] == text[..k];
      } else {
        assert all[..k] == text + junk[..k - |text|];
        RunBlank(text, junk[..k - |text|]);
      }
    }
  }

  /** A piece of the operand is taken over as it is, and nothing else of its card, wherever it was cut and
      however the card was filled up. */
  lemma {:induction false} PieceKept(operand: string, junk: string)
    requires Whole(operand) && CleanCut(operand) && Filler(operand, junk)
    ensures Extend(operand + junk) == Some(operand)
  {
    var all := operand + junk;
    TrimShort(operand);
    TrimShort(all);
    WholeEnd(operand, junk);
    if junk == "" || (Blank(junk) && Run(operand) != START) {
      WholeBlankOrNone(operand, junk);
      TrimBlank(operand, junk);
      RunBlank(operand, junk);
      assert all[..|all|] == all;
    } else {
      assert all[..|operand|] == operand;
      if Blank(junk) { TrimBlank(operand, junk); }
    }
  }

  lemma {:induction false} WholeBlankOrNone(text: string, junk: string)
    requires Whole(text) && (junk == "" || (Blank(junk) && Run(text) != START))
    ensures Whole(text + junk) && Blank(junk)
  {
    if junk == "" {
      assert text + junk == text;
    } else {
      WholeBlank(text, junk);
    }
  }

  lemma {:induction false} TrimMeans(s: string)
    ensures Trim(s) <= s && Blank(s[|Trim(s)|..])
  {
    if EndsIn(s, ' ') {
      var front := s[..|s| - 1];
      TrimMeans(front);
      assert s[|Trim(s)|..] == front[|Trim(s)|..] + " ";
    }
  }

  lemma {:induction false} TrimLonger(operand: string, junk: string)
    requires !Blank(junk)
    ensures |Trim(operand + junk)| > |operand|
  {
    var all := operand + junk;
    TrimMeans(all);
    if |Trim(all)| <= |operand| {
      forall k | 0 <= k < |junk| ensures junk[k] == ' ' {
        assert all[|Trim(all)|..][|operand| - |Trim(all)| + k] == junk[k];
      }
    }
  }

  /** The card goes on: there is a mark in column 72. */
  ghost predicate GoesOn(line: string) { |line| > 71 && line[71] != ' ' }

  /** The card was made by macro expansion: `nn-` in columns 73 to 75. */
  ghost predicate Generated(line: string) {
    |line| > 74 && '0' <= line[72] <= '9' && '0' <= line[73] <= '9' && line[74] == '-'
  }

  /** The cards of a comment, from `index` up to `to`: typed ones, each but the last going on; and either the
      last does not, or what follows is generated or nothing. */
  ghost predicate CommentRun(lines: seq<string>, index: nat, to: nat) {
    && index <= to <= |lines|
    && (forall k :: index <= k < to ==> !Generated(lines[k]))
    && (forall k :: index <= k < to - 1 ==> GoesOn(lines[k]))
    && (index == to || GoesOn(lines[to - 1]) ==> to == |lines| || Generated(lines[to]))
  }

  /** The cards that continue the comment behind a complete operand are taken and leave it as it is; a card
      made by macro expansion is not taken. */
  lemma {:induction false} CommentTaken(operand: string, lines: seq<string>, index: nat, skipCount: nat, to: nat)
    requires Extend(operand).None? && CommentRun(lines, index, to)
    ensures JoinFrom(operand, true, lines, index, skipCount) == (operand, skipCount + (to - index))
    decreases |lines| - index
  {
    hide Extend;
    if index < to {
      assert !Generated(lines[index]);
      if GoesOn(lines[index]) {
        CommentTaken(operand, lines, index + 1, skipCount + 1, to);
      }
    }
  }

  /** A complete operand is not continued by its comment's card. */
  lemma {:induction false} CommentEnds(operand: string, comment: string)
    requires Whole(operand) && Run(operand) == START && !EndsIn(operand, ',') && !EndsIn(operand, ' ')
    requires !Blank(comment) && comment[0] == ' '
    ensures Extend(operand + comment) == None
  {
    var all := operand + comment;
    WholeEnd(operand, comment);
    assert all[..|operand|] == operand;
    TrimShort(operand);
    TrimLonger(operand, comment);
  }

  /** And the fillers are all that may stand there: with any other the joined text goes wrong. */
  lemma {:induction false} FillerExact(operand: string, junk: string)
    requires Whole(operand) && CleanCut(operand)
    ensures Extend(operand + junk) == Some(operand) <==> Filler(operand, junk)
  {
    if Filler(operand, junk) {
      PieceKept(operand, junk);
    } else if Blank(junk) {
      InsideString(operand, junk);
    } else if Run(operand) == START && junk[0] == ' ' {
      CommentEnds(operand, junk);
    } else {
      RunsOn(operand, junk);
    }
  }

  /** Padding inside a string is data. */
  lemma {:induction false} InsideString(operand: string, junk: string)
    requires Whole(operand) && Blank(junk) && Run(operand).quoted
    ensures Extend(operand + junk) == Some(operand + junk)
  {
    var all := operand + junk;
    WholeBlank(operand, junk);
    WholeEnd(operand, junk);
    RunBlank(operand, junk);
    TrimShort(all);
    assert all[..|all|] == all;
  }

  /** A field that goes on in blanks only goes on because the operand was still open. */
  lemma {:induction false} BlanksOpen(operand: string, junk: string, n: nat)
    requires |operand| < n <= |operand + junk| && EndsAt(operand + junk, n) && Blank((operand + junk)[|operand|..n])
    ensures junk[0] == ' ' && (Blank(junk) || Run(operand) == START)
  {
    var all := operand + junk;
    var blanks := all[|operand|..n];
    assert all[..n] == operand + blanks;
    RunBlank(operand, blanks);
    assert blanks[0] == junk[0];
    Behind(operand, junk);
  }

  lemma {:induction false} Behind(operand: string, junk: string)
    ensures (operand + junk)[|operand|..|operand + junk|] == junk
  {
  }

  /** A field ends behind the operand unless a blank follows it when it is complete. */
  lemma {:induction false} EndsPast(operand: string, junk: string)
    requires Whole(operand) && junk != ""
    ensures FieldEnd(operand + junk) > |operand| || (Run(operand) == START && junk[0] == ' ')
  {
    var all := operand + junk;
    assert forall k :: 0 <= k <= |operand| ==> all[..k] == operand[..k];
    assert operand[..|operand|] == operand;
  }

  /** Anything else that follows becomes part of the field. */
  lemma {:induction false} RunsOn(operand: string, junk: string)
    requires Whole(operand) && !Blank(junk) && (Run(operand) != START || junk[0] != ' ')
    ensures Extend(operand + junk) != Some(operand)
  {
    EndsPast(operand, junk);
    var n := FieldEnd(operand + junk);
    var field := (operand + junk)[..n];
    TrimMeans(field);
    assert field[|operand|..] == (operand + junk)[|operand|..n];
    if Blank((operand + junk)[|operand|..n]) { BlanksOpen(operand, junk, n); }
  }

  /** At a bare cut the condition is needed: a blank outside of strings that ends the piece is lost. */
  lemma {:induction false} CutKept(operand: string)
    requires Whole(operand)
    ensures Extend(operand) == Some(operand) <==> CleanCut(operand)
  {
    assert operand + "" == operand;
    if CleanCut(operand) {
      PieceKept(operand, "");
    } else {
      WholeEnd(operand, "");
      assert operand[..|operand|] == operand;
      TrimShort(operand);
    }
  }

  // ---------------------------------------------------------------- a statement on many cards

  /** A piece of the operand and the rest of its card up to column 71. */
  datatype Piece = Piece(text: string, junk: string)

  function Text(pieces: seq<Piece>): string {
    if pieces == [] then "" else Text(pieces[..|pieces| - 1]) + pieces[|pieces| - 1].text
  }

  /** The cards carry the pieces: the first from `column` on, the others from column 16. */
  ghost predicate OnCards(lines: seq<string>, start: nat, column: nat, pieces: seq<Piece>) {
    && column <= 71 && pieces != [] && start + |pieces| <= |lines|
    && forall i :: 0 <= i < |pieces| ==>
         && Slice(lines[start + i], if i == 0 then column else 15, 71) == pieces[i].text + pieces[i].junk
         && (Continued(lines[start + i]) <==> i < |pieces| - 1)
  }

  /** Every cut is clean and every card but the last filled up as it may be. */
  ghost predicate WellCut(pieces: seq<Piece>) {
    forall i :: 0 <= i < |pieces| - 1 ==>
        CleanCut(Text(pieces[..i + 1])) && Filler(Text(pieces[..i + 1]), pieces[i].junk)
  }

  lemma {:induction false} TextPrefix(pieces: seq<Piece>, i: nat)
    requires i <= |pieces|
    ensures Text(pieces[..i]) <= Text(pieces)
  {
    if i < |pieces| {
      TextPrefix(pieces[..|pieces| - 1], i);
      assert pieces[..|pieces| - 1][..i] == pieces[..i];
    } else {
      assert pieces[..i] == pieces;
    }
  }

  lemma {:induction false} WholePrefix(text: string, all: string)
    requires text <= all && Whole(all)
    ensures Whole(text)
  {
    forall k | 0 <= k < |text| && text[k] == ' ' ensures Run(text[..k]) != START {
      assert text[..k] == all[..k];
    }
  }

  /** The operand as it stands when card `i` has been read. */
  function AfterCard(pieces: seq<Piece>, i: nat): string
    requires i < |pieces|
  {
    Text(pieces[..i + 1]) + pieces[i].junk
  }

  lemma {:induction false} TextNext(pieces: seq<Piece>, i: nat)
    requires i < |pieces|
    ensures Text(pieces[..i + 1]) == Text(pieces[..i]) + pieces[i].text
  {
    assert pieces[..i + 1][..i] == pieces[..i];
  }

  lemma {:induction false} JoinCard(before: string, operand: string, next: Piece, lines: seq<string>, index: nat,
                                    skipCount: nat)
    requires index < |lines| && Extend(before) == Some(operand) && Slice(lines[index], 15, 71) == next.text + next.junk
    ensures JoinFrom(before, true, lines, index, skipCount)
            == JoinFrom(operand + next.text + next.junk, Continued(lines[index]), lines, index + 1, skipCount + 1)
  {
    assert operand + (next.text + next.junk) == operand + next.text + next.junk;
  }

  lemma {:induction false} CardStep(lines: seq<string>, index: nat, pieces: seq<Piece>, i: nat)
    requires Whole(Text(pieces)) && i + 1 < |pieces| && index < |lines|
    requires CleanCut(Text(pieces[..i + 1])) && Filler(Text(pieces[..i + 1]), pieces[i].junk)
    requires Slice(lines[index], 15, 71) == pieces[i + 1].text + pieces[i + 1].junk
    ensures JoinFrom(AfterCard(pieces, i), true, lines, index, i)
            == JoinFrom(AfterCard(pieces, i + 1), Continued(lines[index]), lines, index + 1, i + 1)
  {
    TextPrefix(pieces, i + 1);
    WholePrefix(Text(pieces[..i + 1]), Text(pieces));
    PieceKept(Text(pieces[..i + 1]), pieces[i].junk);
    TextNext(pieces, i + 1);
    JoinCard(AfterCard(pieces, i), Text(pieces[..i + 1]), pieces[i + 1], lines, index, i);
  }

  lemma {:induction false} JoinPieces(lines: seq<string>, start: nat, column: nat, pieces: seq<Piece>, i: nat)
    requires OnCards(lines, start, column, pieces) && WellCut(pieces) && Whole(Text(pieces)) && i < |pieces|
    ensures JoinFrom(AfterCard(pieces, i), Continued(lines[start + i]), lines, start + i + 1, i)
            == (AfterCard(pieces, |pieces| - 1), |pieces| - 1)
    decreases |pieces| - i
  {
    hide Whole, Extend, Slice, Run;
    if i < |pieces| - 1 {
      CardStep(lines, start + i + 1, pieces, i);
      JoinPieces(lines, start, column, pieces, i + 1);
    }
  }

  /** Joining inverts splitting: an operand cut over any number of cards comes back as the operand field of
      the joined text, and all its cards are taken. */
  lemma {:induction false} JoinInvertsSplit(lines: seq<string>, start: nat, column: nat, pieces: seq<Piece>)
    requires OnCards(lines, start, column, pieces) && WellCut(pieces) && Whole(Text(pieces))
    requires var last := pieces[|pieces| - 1].junk; last == "" || (last[0] == ' ' && Run(Text(pieces)) == START)
    ensures var (operand, skipCount) := Joined(lines, start, column);
            operand[..FieldEnd(operand)] == Text(pieces) && skipCount == |pieces| - 1
  {
    JoinedPieces(lines, start, column, pieces);
    FieldKept(Text(pieces), pieces[|pieces| - 1].junk);
  }

  lemma {:induction false} JoinedPieces(lines: seq<string>, start: nat, column: nat, pieces: seq<Piece>)
    requires OnCards(lines, start, column, pieces) && WellCut(pieces) && Whole(Text(pieces))
    ensures Joined(lines, start, column) == (Text(pieces) + pieces[|pieces| - 1].junk, |pieces| - 1)
  {
    FirstCard(pieces);
    LastCard(pieces);
    hide Whole, WellCut, JoinFrom, Text, AfterCard, Slice;
    JoinPieces(lines, start, column, pieces, 0);
  }

  lemma {:induction false} FirstCard(pieces: seq<Piece>)
    requires pieces != []
    ensures AfterCard(pieces, 0) == pieces[0].text + pieces[0].junk
  {
    TextNext(pieces, 0);
    assert pieces[..0] == [] && "" + pieces[0].text == pieces[0].text;
  }

  lemma {:induction false} LastCard(pieces: seq<Piece>)
    requires pieces != []
    ensures AfterCard(pieces, |pieces| - 1) == Text(pieces) + pieces[|pieces| - 1].junk
  {
    assert pieces[..|pieces| - 1 + 1] == pieces;
  }

  lemma {:induction false} FieldKept(operand: string, junk: string)
    requires Whole(operand) && (junk == "" || (junk[0] == ' ' && Run(operand) == START))
    ensures (operand + junk)[..FieldEnd(operand + junk)] == operand
  {
    WholeEnd(operand, junk);
    assert junk == "" ==> operand + junk == operand;
    assert (operand + junk)[..|operand|] == operand;
  }
}
