/**
  Macro arguments and sublists: rendering an argument as text, parsing text by the `list` rule of the
  grammar, and subscripting.
 */
module Sublists {
  /** A character string or a sublist of arguments; a null entry is the empty string. */
  datatype Arg = Atom(text: string) | List(entries: seq<Arg>)

  function Render(v: Arg): string
    decreases v
  {
    match v
    case Atom(text) => text
    case List(entries) => "(" + Join(entries) + ")"
  }

  /** The entries separated by commas. */
  function Join(entries: seq<Arg>): string
    decreases entries
  {
    if entries == [] then ""
    else if |entries| == 1 then Render(entries[0])
    else Render(entries[0]) + "," + Join(entries[1..])
  }

  // ---------------------------------------------------------------- the grammar

  predicate Bare(c: char) { c != ' ' && c != ',' && c != '(' && c != ')' }

  predicate Inner(c: char) { c != '(' && c != ')' }

  /** How much of the text matches `[^ ,()]*`. */
  function BareRun(s: string): (n: nat)
    ensures n <= |s| && (n < |s| ==> !Bare(s[n])) && forall k :: 0 <= k < n ==> Bare(s[k])
  {
    if s == "" || !Bare(s[0]) then 0 else 1 + BareRun(s[1..])
  }

  /** How much of the text matches `[^()]*`. */
  function InnerRun(s: string): (n: nat)
    ensures n <= |s| && (n < |s| ==> !Inner(s[n])) && forall k :: 0 <= k < n ==> Inner(s[k])
  {
    if s == "" || !Inner(s[0]) then 0 else 1 + InnerRun(s[1..])
  }

  /** The second and third alternatives of `listItem`. */
  function ParseFlat(s: string): (r: (Arg, string))
    ensures |r.1| <= |s|
  {
    var n := BareRun(s);
    if n < |s| && s[n] == '(' then
      var inside := s[n + 1..];
      var m := InnerRun(inside);
      if m < |inside| && inside[m] == ')' then (Atom(s[..n] + "(" + inside[..m] + ")"), inside[m + 1..])
      else (Atom(s[..n]), s[n..])
    else (Atom(s[..n]), s[n..])
  }

  /** `listItem`, alternatives tried in order: the entry and what is left of the text. */
  function ParseItem(s: string): (r: (Arg, string))
    ensures |r.1| <= |s|
    decreases |s|, 0
  {
    if s != "" && s[0] == '(' then
      var (entries, rest) := ParseList(s[1..]);
      if rest != "" && rest[0] == ')' then (List(entries), rest[1..]) else ParseFlat(s)
    else ParseFlat(s)
  }

  /** `list`: an entry and, behind commas, more of them. */
  function ParseList(s: string): (r: (seq<Arg>, string))
    ensures |r.1| <= |s| && r.0 != []
    decreases |s|, 1
  {
    var (entry, rest) := ParseItem(s);
    if rest != "" && rest[0] == ',' then
      var (more, left) := ParseList(rest[1..]);
      ([entry] + more, left)
    else ([entry], rest)
  }

  // ---------------------------------------------------------------- what survives

  /** An entry is plain text, or plain text with a parenthesised suffix; without text before it the
      suffix must hold a blank, or it would be a sublist. */
  predicate GoodAtom(a: string) {
    var n := BareRun(a);
    n == |a| || (a[n] == '(' && a[|a| - 1] == ')' && n + 1 < |a| && InnerRun(a[n + 1..]) == |a| - 1 - (n + 1)
                 && (n == 0 ==> ' ' in a))
  }

  /** Every sublist has entries. */
  predicate Good(v: Arg)
    decreases v
  {
    match v
    case Atom(text) => GoodAtom(text)
    case List(entries) => entries != [] && forall k :: 0 <= k < |entries| ==> Good(entries[k])
  }

  /** No blank, comma or parenthesis. */
  ghost predicate PlainText(a: string) {
    forall k :: 0 <= k < |a| ==> a[k] != ' ' && a[k] != ',' && a[k] != '(' && a[k] != ')'
  }

  /** No parenthesis. */
  ghost predicate FlatText(a: string) {
    forall k :: 0 <= k < |a| ==> a[k] != '(' && a[k] != ')'
  }

  lemma {:induction false} BareRunIs(s: string, n: nat)
    requires n <= |s| && PlainText(s[..n]) && (n < |s| ==> !Bare(s[n]))
    ensures BareRun(s) == n
  {
    if n > 0 {
      assert Bare(s[..n][0]);
      assert s[1..][..n - 1] == s[..n][1..];
      BareRunIs(s[1..], n - 1);
    }
  }

  lemma {:induction false} InnerRunIs(s: string, n: nat)
    requires n <= |s| && FlatText(s[..n]) && (n < |s| ==> !Inner(s[n]))
    ensures InnerRun(s) == n
  {
    if n > 0 {
      assert Inner(s[..n][0]);
      assert s[1..][..n - 1] == s[..n][1..];
      InnerRunIs(s[1..], n - 1);
    }
  }

  lemma {:induction false} PlainRun(a: string)
    ensures PlainText(a[..BareRun(a)])
    ensures PlainText(a) <==> BareRun(a) == |a|
  {
    if PlainText(a) {
      assert a[..|a|] == a;
      BareRunIs(a, |a|);
    }
    if BareRun(a) == |a| { assert a[..|a|] == a; }
  }

  /** The entry is plain text with a suffix in parentheses; without text before it the suffix holds a blank. */
  ghost predicate Suffixed(a: string, w: string, u: string) {
    a == w + "(" + u + ")" && PlainText(w) && FlatText(u) && (w != "" || ' ' in u)
  }

  /** Which entries survive: plain text, and plain text with such a suffix. */
  lemma {:induction false} GoodMeans(a: string)
    ensures GoodAtom(a) <==> PlainText(a) || exists w, u :: Suffixed(a, w, u)
  {
    PlainRun(a);
    if w, u :| Suffixed(a, w, u) {
      SuffixRuns(a, w, u);
    }
    if GoodAtom(a) && !PlainText(a) {
      SuffixOf(a);
    }
  }

  lemma {:induction false} SuffixRuns(a: string, w: string, u: string)
    requires Suffixed(a, w, u)
    ensures GoodAtom(a)
  {
    var inside := a[|w| + 1..];
    assert a[..|w|] == w && inside == u + ")" && inside[..|u|] == u;
    BareRunIs(a, |w|);
    InnerRunIs(inside, |u|);
    if w == "" {
      var k :| 0 <= k < |u| && u[k] == ' ';
      assert a[k + 1] == ' ';
    }
  }

  lemma {:induction false} SuffixOf(a: string)
    requires GoodAtom(a) && BareRun(a) < |a|
    ensures exists w, u :: Suffixed(a, w, u)
  {
    var n := BareRun(a);
    var w, u := a[..n], a[n + 1..|a| - 1];
    PlainRun(a);
    assert a == w + "(" + u + ")";
    forall k | 0 <= k < |u| ensures u[k] != '(' && u[k] != ')' {
      assert Inner(a[n + 1..][k]);
    }
    if w == "" {
      var k :| 0 <= k < |a| && a[k] == ' ';
      assert u[k - 1] == ' ';
    }
    assert Suffixed(a, w, u);
  }

  /** A suffix that is not closed, or holds a parenthesis, does not belong to the entry. */
  lemma {:induction false} UnclosedSuffix(w: string, u: string, rest: string)
    requires PlainText(w) && FlatText(u) && (rest == "" || rest[0] == '(')
    ensures ParseFlat(w + "(" + u + rest) == (Atom(w), "(" + u + rest)
  {
    var s := w + "(" + u + rest;
    var inside := s[|w| + 1..];
    assert s[..|w|] == w && s[|w|..] == "(" + u + rest;
    assert inside == u + rest && inside[..|u|] == u;
    BareRunIs(s, |w|);
    InnerRunIs(inside, |u|);
  }

  /** What may follow an entry. */
  predicate Stops(rest: string) { rest == "" || rest[0] == ',' || rest[0] == ')' || rest[0] == ' ' }

  lemma {:induction false} BareRunOf(a: string, rest: string)
    requires BareRun(a) < |a| || Stops(rest)
    ensures BareRun(a + rest) == BareRun(a)
    decreases |a|
  {
    if a == "" {
      assert a + rest == rest;
    } else if Bare(a[0]) {
      BareRunOf(a[1..], rest);
      assert (a + rest)[1..] == a[1..] + rest;
    }
  }

  lemma {:induction false} InnerRunOf(a: string, rest: string)
    requires BareOrInner(a) && rest != "" && rest[0] == ')'
    ensures InnerRun(a + rest) == |a|
    decreases |a|
  {
    if a == "" {
      assert a + rest == rest;
    } else {
      InnerRunOf(a[1..], rest);
      assert (a + rest)[1..] == a[1..] + rest;
    }
  }

  predicate BareOrInner(a: string) { forall k :: 0 <= k < |a| ==> Inner(a[k]) }

  /** Up to the first blank. */
  function FirstBlank(y: string): (n: nat)
    ensures n <= |y| && (n < |y| <==> ' ' in y) && (n < |y| ==> y[n] == ' ')
  {
    if y == "" || y[0] == ' ' then 0 else 1 + FirstBlank(y[1..])
  }

  lemma {:induction false} FlatEntry(y: string, tail: string)
    requires BareOrInner(y) && tail != "" && tail[0] == ')'
    ensures ParseItem(y + tail) == (Atom(y[..BareRun(y)]), y[BareRun(y)..] + tail)
  {
    var n, s := BareRun(y), y + tail;
    BareRunOf(y, tail);
    assert s[..n] == y[..n] && s[n..] == y[n..] + tail;
  }

  lemma {:induction false} RunToBlank(y: string)
    requires BareOrInner(y)
    ensures var n := BareRun(y);
            y[FirstBlank(y)..] == if n < |y| && y[n] == ',' then y[n + 1..][FirstBlank(y[n + 1..])..] else y[n..]
  {
    var n := BareRun(y);
    if n < |y| && y[n] == ',' {
      BlankBehind(y, n + 1);
    } else {
      BlankBehind(y, n);
    }
  }

  lemma {:induction false} Behind(y: string, n: nat, tail: string)
    requires n <= |y| && tail != ""
    ensures y[n..] + tail != "" && (y[n..] + tail)[0] == if n < |y| then y[n] else tail[0]
    ensures n < |y| ==> (y[n..] + tail)[1..] == y[n + 1..] + tail
  {
  }

  lemma {:induction false} ListUnfold(s: string, rest: string)
    requires ParseItem(s).1 == rest
    ensures ParseList(s).1 == if rest != "" && rest[0] == ',' then ParseList(rest[1..]).1 else rest
  {
  }

  /** A list without parentheses goes on to the first blank or to the closing parenthesis. */
  lemma {:induction false} FlatList(y: string, tail: string)
    requires BareOrInner(y) && tail != "" && tail[0] == ')'
    ensures ParseList(y + tail).1 == y[FirstBlank(y)..] + tail
    decreases |y|
  {
    var n := BareRun(y);
    FlatEntry(y, tail);
    ListUnfold(y + tail, y[n..] + tail);
    Behind(y, n, tail);
    RunToBlank(y);
    if n < |y| && y[n] == ',' {
      FlatList(y[n + 1..], tail);
    }
  }

  lemma {:induction false} BlankBehind(y: string, n: nat)
    requires n <= |y| && forall k :: 0 <= k < n ==> y[k] != ' '
    ensures FirstBlank(y) == n + FirstBlank(y[n..]) && y[FirstBlank(y)..] == y[n..][FirstBlank(y[n..])..]
    decreases n
  {
    if n > 0 {
      BlankBehind(y[1..], n - 1);
      assert y[1..][n - 1..] == y[n..];
    } else {
      assert y[n..] == y;
    }
  }

  lemma {:induction false} PlainBack(a: string, rest: string)
    requires BareRun(a) == |a| && Stops(rest)
    ensures ParseItem(a + rest) == (Atom(a), rest)
  {
    BareRunOf(a, rest);
    assert (a + rest)[..|a|] == a && (a + rest)[|a|..] == rest;
  }

  lemma {:induction false} SuffixFlat(x: string, y: string, rest: string)
    requires BareRun(x) == |x| && BareOrInner(y)
    ensures ParseFlat(x + "(" + y + ")" + rest) == (Atom(x + "(" + y + ")"), rest)
  {
    var n, s, tail := |x|, x + "(" + y + ")" + rest, ")" + rest;
    assert x + ("(" + y + ")" + rest) == s;
    BareStop(x, "(" + y + ")" + rest);
    assert s[..n] == x && s[n + 1..] == y + tail;
    InnerRunOf(y, tail);
    assert (y + tail)[..|y|] == y && (y + tail)[|y| + 1..] == rest;
  }

  lemma {:induction false} BareStop(x: string, rest: string)
    requires BareRun(x) == |x| && rest != "" && !Bare(rest[0])
    ensures BareRun(x + rest) == |x|
    decreases |x|
  {
    if x == "" {
      assert x + rest == rest;
    } else {
      BareStop(x[1..], rest);
      assert (x + rest)[1..] == x[1..] + rest;
    }
  }

  /** Text with a parenthesised suffix is one entry, unless the suffix alone could be a sublist. */
  lemma {:induction false} SuffixBack(x: string, y: string, rest: string)
    requires BareRun(x) == |x| && BareOrInner(y) && (x == "" ==> ' ' in y)
    ensures ParseItem(x + "(" + y + ")" + rest) == (Atom(x + "(" + y + ")"), rest)
  {
    var s := x + "(" + y + ")" + rest;
    SuffixFlat(x, y, rest);
    if x == "" {
      assert s[1..] == y + (")" + rest);
      FlatList(y, ")" + rest);
    } else {
      assert s[0] == x[0];
    }
  }

  lemma {:induction false} AtomBack(a: string, rest: string)
    requires GoodAtom(a) && Stops(rest)
    ensures ParseItem(a + rest) == (Atom(a), rest)
  {
    var n := BareRun(a);
    if n == |a| {
      PlainBack(a, rest);
    } else {
      var x, y := a[..n], a[n + 1..|a| - 1];
      BareAll(x);
      assert a == x + [a[n]] + y + [a[|a| - 1]];
      InnerAll(a, n + 1);
      SuffixBack(x, y, rest);
    }
  }

  lemma {:induction false} InnerAll(a: string, n: nat)
    requires n < |a| && InnerRun(a[n..]) == |a| - 1 - n
    ensures BareOrInner(a[n..|a| - 1])
  {
    assert forall k :: 0 <= k < |a| - 1 - n ==> a[n..|a| - 1][k] == a[n..][k];
  }

  lemma {:induction false} BareAll(x: string)
    requires forall k :: 0 <= k < |x| ==> Bare(x[k])
    ensures BareRun(x) == |x|
  {
  }

  /** Parsing what was rendered gives the argument back, whatever the depth, and leaves what follows. */
  lemma {:induction false} ItemBack(v: Arg, rest: string)
    requires Good(v) && Stops(rest)
    ensures ParseItem(Render(v) + rest) == (v, rest)
    decreases v
  {
    match v {
      case Atom(a) => AtomBack(a, rest);
      case List(entries) =>
        ListBack(entries, ")" + rest);
        Enclosed(Join(entries), rest);
    }
  }

  lemma {:induction false} Enclosed(inside: string, rest: string)
    ensures var s := "(" + inside + ")" + rest;
            s != "" && s[0] == '(' && s[1..] == inside + (")" + rest) && (")" + rest)[0] == ')' &&
                (")" + rest)[1..] == rest
  {
  }

  lemma {:induction false} JoinCut(first: string, others: string, rest: string)
    ensures var more := "," + others + rest;
            first + "," + others + rest == first + more && more[0] == ',' && more[1..] == others + rest
  {
  }

  lemma {:induction false} ListBack(entries: seq<Arg>, rest: string)
    requires entries != [] && rest != "" && rest[0] == ')'
    requires forall k :: 0 <= k < |entries| ==> Good(entries[k])
    ensures ParseList(Join(entries) + rest) == (entries, rest)
    decreases entries
  {
    if |entries| == 1 {
      ItemBack(entries[0], rest);
      assert [entries[0]] == entries;
    } else {
      JoinCut(Render(entries[0]), Join(entries[1..]), rest);
      ItemBack(entries[0], "," + Join(entries[1..]) + rest);
      ListBack(entries[1..], rest);
      assert [entries[0]] + entries[1..] == entries;
    }
  }

  // ---------------------------------------------------------------- and only that

  lemma {:induction false} SuffixFound(x: string, y: string, rest: string)
    requires BareRun(x) == |x| && BareOrInner(y) && rest != "" && rest[0] == ')'
    requires x == "" ==> ParseList(y + rest).1 == "" || ParseList(y + rest).1[0] != ')'
    ensures GoodAtom(x + "(" + y + ")")
  {
    if x == "" {
      FlatList(y, rest);
      Behind(y, FirstBlank(y), rest);
    }
    SuffixGood(x, y);
  }

  /** Parsing never makes anything else. */
  lemma {:induction false} FlatGood(s: string)
    requires s == "" || s[0] != '(' || ParseList(s[1..]).1 == "" || ParseList(s[1..]).1[0] != ')'
    ensures Good(ParseFlat(s).0)
  {
    var n := BareRun(s);
    BareAll(s[..n]);
    if n < |s| && s[n] == '(' {
      var inside := s[n + 1..];
      var m := InnerRun(inside);
      if m < |inside| && inside[m] == ')' {
        var y, rest := inside[..m], inside[m..];
        assert inside == y + rest;
        SuffixFound(s[..n], y, rest);
      }
    }
  }

  lemma {:induction false} SuffixGood(x: string, y: string)
    requires BareRun(x) == |x| && BareOrInner(y) && (x == "" ==> ' ' in y)
    ensures GoodAtom(x + "(" + y + ")")
  {
    var a := x + "(" + y + ")";
    BareStop(x, "(" + y + ")");
    assert x + ("(" + y + ")") == a;
    assert a[|x| + 1..] == y + ")";
    InnerRunOf(y, ")");
    if x == "" {
      var k :| 0 <= k < |y| && y[k] == ' ';
      assert a[k + 1] == ' ';
    }
  }

  lemma {:induction false} ItemGood(s: string)
    ensures Good(ParseItem(s).0)
    decreases |s|, 0
  {
    if s != "" && s[0] == '(' {
      ListGood(s[1..]);
    }
    if ParseItem(s).0.Atom? { FlatGood(s); }
  }

  lemma {:induction false} ListGood(s: string)
    ensures forall k :: 0 <= k < |ParseList(s).0| ==> Good(ParseList(s).0[k])
    decreases |s|, 1
  {
    ItemGood(s);
    var rest := ParseItem(s).1;
    if rest != "" && rest[0] == ',' {
      ListGood(rest[1..]);
    }
  }

  /** An argument survives being written out and parsed exactly when all its sublists have entries and its
      atoms are plain; the empty sublist comes back as a sublist of one null entry. */
  lemma {:induction false} RoundTrip(v: Arg, rest: string)
    requires Stops(rest)
    ensures ParseItem(Render(v) + rest) == (v, rest) <==> Good(v)
    ensures ParseItem(Render(List([])) + rest) == (List([Atom("")]), rest)
  {
    if Good(v) { ItemBack(v, rest); }
    ItemGood(Render(v) + rest);
    ItemBack(List([Atom("")]), rest);
  }

  // ---------------------------------------------------------------- subscripts

  const NULL := Atom("")

  /** The entries of a sublist; anything else is a sublist of one entry. */
  function Entries(v: Arg): seq<Arg> { if v.List? then v.entries else [v] }

  function Subscript(v: Arg, indices: seq<int>): Arg {
    if indices == [] then v
    else
      var before := Subscript(v, indices[..|indices| - 1]);
      var i := indices[|indices| - 1];
      if 1 <= i <= |Entries(before)| then Entries(before)[i - 1] else NULL
  }

  /** One subscript takes an entry, counted from 1; text is a sublist of one entry, and what is not there is
      null. */
  lemma {:induction false} SubscriptMeans(v: Arg, i: int)
    ensures Subscript(v, []) == v
    ensures v.List? ==> Subscript(v, [i]) == if 1 <= i <= |v.entries| then v.entries[i - 1] else Atom("")
    ensures v.Atom? ==> Subscript(v, [i]) == if i == 1 then v else Atom("")
  {
    assert [i][..0] == [] && Subscript(v, []) == v;
  }

  /** The loop of the original, which stops at the first subscript that is out of range. */
  method SubscriptMacroArgument(value: Arg, indices: seq<int>) returns (v: Arg)
    ensures v == Subscript(value, indices)
  {
    v := value;
    assert indices[..0] == [];
    for k := 0 to |indices|
      invariant v == Subscript(value, indices[..k])
    {
      var index := indices[k];
      SubscriptNext(value, indices, k);
      if v.Atom? {
        v := List([v]);
      }
      if index < 1 || index > |v.entries| {
        return NULL;
      }
      v := v.entries[index - 1];
    }
    assert indices[..|indices|] == indices;
  }

  lemma {:induction false} SubscriptNext(value: Arg, indices: seq<int>, k: nat)
    requires k < |indices|
    ensures var entries := Entries(Subscript(value, indices[..k]));
            if 1 <= indices[k] <= |entries| then Subscript(value, indices[..k + 1]) == entries[indices[k] - 1]
            else Subscript(value, indices) == NULL
  {
    assert indices[..k + 1][..k] == indices[..k];
    if Subscript(value, indices[..k + 1]) == NULL {
      assert indices[..k + 1] + indices[k + 1..] == indices;
      SubscriptTwice(value, indices[..k + 1], indices[k + 1..]);
      NullStays(indices[k + 1..]);
    }
  }

  /** A null string has no entries but itself. */
  lemma {:induction false} NullStays(indices: seq<int>)
    ensures Subscript(NULL, indices) == NULL
  {
    if indices != [] { NullStays(indices[..|indices| - 1]); }
  }

  /** Subscripting by two index lists one after the other is subscripting by the one that joins them. */
  lemma {:induction false} SubscriptTwice(v: Arg, a: seq<int>, b: seq<int>)
    ensures Subscript(v, a + b) == Subscript(Subscript(v, a), b)
    decreases |b|
  {
    if b == [] {
      assert a + b == a;
    } else {
      SubscriptTwice(v, a, b[..|b| - 1]);
      assert (a + b)[..|a + b| - 1] == a + b[..|b| - 1];
    }
  }
}
