/**
  Where an operand field ends, in terms of how its text is made up: quoted strings and parentheses, nested
  to any depth, hold blanks that do not end it.
 */
module OperandText {
  import opened Basics
  import opened JoinCards

  /** Text made of characters, of strings in quotes, and of text in parentheses. */
  datatype Node = Char(c: char) | Quote(s: string) | Group(nodes: seq<Node>)

  function NodeText(n: Node): string {
    match n
    case Char(c) => [c]
    case Quote(s) => "'" + s + "'"
    case Group(nodes) => "(" + NodesText(nodes) + ")"
  }

  function NodesText(nodes: seq<Node>): string {
    if nodes == [] then "" else NodeText(nodes[0]) + NodesText(nodes[1..])
  }

  /** Outside of parentheses there is no blank, and a closing parenthesis stands for itself. */
  predicate WellMade(nodes: seq<Node>, outside: bool) {
    nodes == [] || (
      WellMade(nodes[1..], outside) &&
      match nodes[0]
      case Char(c) => c != '\'' && c != '(' && (if outside then c != ' ' else c != ')')
      case Quote(s) => '\'' !in s
      case Group(inner) => WellMade(inner, false))
  }

  // ---------------------------------------------------------------- the state behind text

  function From(s: State, text: string): State
  {
    if text == "" then s else Step(From(s, text[..|text| - 1]), text[|text| - 1])
  }

  lemma {:induction false} RunIsFrom(text: string)
    ensures Run(text) == From(START, text)
  {
    if text != "" { RunIsFrom(text[..|text| - 1]); }
  }

  lemma {:induction false} FromJoin(s: State, a: string, b: string)
    ensures From(s, a + b) == From(From(s, a), b)
    decreases |b|
  {
    if b == "" {
      assert a + b == a;
    } else {
      FromJoin(s, a, b[..|b| - 1]);
      assert (a + b)[..|a + b| - 1] == a + b[..|b| - 1];
    }
  }

  lemma {:induction false} FromOne(s: State, c: char)
    ensures From(s, [c]) == Step(s, c)
  {
    assert [c][..0] == "";
    assert From(s, "") == s;
  }

  lemma {:induction false} FromQuoted(depth: nat, text: string)
    requires '\'' !in text
    ensures From(State(true, depth), text) == State(true, depth)
  {
    if text != "" {
      FromQuoted(depth, text[..|text| - 1]);
    }
  }

  /** Well-made text leaves the depth as it was, and nothing in it ends a field that is in parentheses. */
  ghost predicate Passes(depth: nat, text: string) {
    && From(State(false, depth), text) == State(false, depth)
    && forall k :: 0 <= k < |text| && text[k] == ' ' ==> From(State(false, depth), text[..k]) != START
  }

  lemma {:induction false} PassesJoin(depth: nat, a: string, b: string)
    requires Passes(depth, a) && Passes(depth, b)
    ensures Passes(depth, a + b)
  {
    var s := State(false, depth);
    FromJoin(s, a, b);
    forall k | 0 <= k < |a + b| && (a + b)[k] == ' ' ensures From(s, (a + b)[..k]) != START {
      if k < |a| {
        assert (a + b)[..k] == a[..k];
      } else {
        assert (a + b)[..k] == a + b[..k - |a|];
        FromJoin(s, a, b[..k - |a|]);
      }
    }
  }

  lemma {:induction false} QuotePasses(depth: nat, s: string)
    requires '\'' !in s
    ensures Passes(depth, "'" + s + "'")
  {
    var text, from := "'" + s + "'", State(false, depth);
    forall k | 0 < k <= |s| + 1 ensures From(from, text[..k]) == State(true, depth) {
      assert text[..k] == "'" + s[..k - 1];
      FromJoin(from, "'", s[..k - 1]);
      FromOne(from, '\'');
      FromQuoted(depth, s[..k - 1]);
    }
    assert text[..|text| - 1] == text[..|s| + 1];
  }

  lemma {:induction false} Deeper(depth: nat, text: string)
    requires Passes(depth + 1, text)
    ensures Passes(depth, "(" + text + ")")
  {
    var all, from := "(" + text + ")", State(false, depth);
    FromOne(from, '(');
    forall k | 0 < k <= |text| + 1 ensures From(from, all[..k]) == From(State(false, depth + 1), text[..k - 1]) {
      assert all[..k] == "(" + text[..k - 1];
      FromJoin(from, "(", text[..k - 1]);
    }
    assert text[..|text|] == text && all[..|all| - 1] == all[..|text| + 1];
    forall k | 0 <= k < |all| && all[k] == ' ' ensures From(from, all[..k]) != START {
      assert 0 < k <= |text| && text[k - 1] == ' ';
    }
  }

  lemma {:induction false} CharPasses(depth: nat, c: char)
    requires c != '\'' && c != '(' && (if depth == 0 then c != ' ' else c != ')')
    ensures Passes(depth, [c])
  {
    FromOne(State(false, depth), c);
    assert [c][..0] == "" && From(State(false, depth), "") == State(false, depth);
  }

  lemma {:induction false} NodesPass(depth: nat, nodes: seq<Node>)
    requires WellMade(nodes, depth == 0)
    ensures Passes(depth, NodesText(nodes))
    decreases nodes
  {
    if nodes == [] {
      assert From(State(false, depth), "") == State(false, depth);
    } else {
      NodesPass(depth, nodes[1..]);
      match nodes[0] {
        case Char(c) => CharPasses(depth, c);
        case Quote(s) => QuotePasses(depth, s);
        case Group(inner) =>
          NodesPass(depth + 1, inner);
          Deeper(depth, NodesText(inner));
      }
      PassesJoin(depth, NodeText(nodes[0]), NodesText(nodes[1..]));
    }
  }

  /** The field of well-made text is all of it, ended by the blank behind it, if there is one. */
  lemma {:induction false} FieldEndsBehind(nodes: seq<Node>, rest: string)
    requires WellMade(nodes, true) && (rest == "" || rest[0] == ' ')
    ensures FieldEnd(NodesText(nodes) + rest) == |NodesText(nodes)|
  {
    var text := NodesText(nodes);
    var all := text + rest;
    NodesPass(0, nodes);
    forall k | 0 <= k <= |text| ensures all[..k] == text[..k] && Run(all[..k]) == From(START, text[..k]) {
      RunIsFrom(text[..k]);
    }
    assert text[..|text|] == text;
    assert EndsAt(all, |text|);
    EndUnique(all, |text|, FieldEnd(all));
  }

  /** A parenthesis that is not closed holds everything behind it, so that the field does not end. */
  lemma {:induction false} OpenGroup(nodes: seq<Node>, inner: seq<Node>)
    requires WellMade(nodes, true) && WellMade(inner, false)
    ensures var all := NodesText(nodes) + "(" + NodesText(inner);
            FieldEnd(all) == |all|
  {
    var a, b := NodesText(nodes) + "(", NodesText(inner);
    var all := a + b;
    NodesPass(0, nodes);
    NodesPass(1, inner);
    FromJoin(START, NodesText(nodes), "(");
    FromOne(START, '(');
    assert From(START, a) == State(false, 1);
    forall k | 0 <= k < |all| && all[k] == ' ' ensures Run(all[..k]) != START {
      RunIsFrom(all[..k]);
      if k < |NodesText(nodes)| {
        assert all[..k] == NodesText(nodes)[..k];
      } else {
        assert all[..k] == a + b[..k - |a|];
        FromJoin(START, a, b[..k - |a|]);
      }
    }
    assert EndsAt(all, |all|);
    EndUnique(all, |all|, FieldEnd(all));
  }
}
