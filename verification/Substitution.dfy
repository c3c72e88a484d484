/**
  Replacement of symbolic variables in a line of text.  Covered is text without subscripts: no reference
  is followed by an opening parenthesis.
 */
module Substitution {
  import opened Basics
  import opened Wrappers

  /** What a variable may be replaced by. */
  datatype Value = Str(text: string) | Int(n: int) | Bool(b: bool)

  /** Local variables, the global ones, and the names the macro at hand declared global. */
  datatype Env = Env(locals: map<string, Value>, globals: map<string, Value>, declared: set<string>)

  const SEEDED := {"SYSPARM", "ASM101S"}

  function Lookup(env: Env, name: string): Option<Value> {
    if name in env.locals then Some(env.locals[name])
    else if name in env.globals && (name in SEEDED || name in env.declared) then Some(env.globals[name])
    else None
  }

  /** A number is substituted without its sign. */
  function Rendered(v: Value): string {
    match v
    case Str(text) => text
    case Int(n) => Decimal(if n < 0 then -n else n)
    case Bool(b) => if b then "1" else "0"
  }

  /** A local variable hides a global one of its name; a global one is seen where it was declared, and the two
      that the assembler sets are seen everywhere. */
  lemma {:induction false} LookupMeans(env: Env, name: string, v: Value)
    ensures Lookup(env, name) == Some(v) <==>
            if name in env.locals then v == env.locals[name]
            else && name in env.globals && v == env.globals[name]
                 && (name in env.declared || name == "SYSPARM" || name == "ASM101S")
  {
  }

  /** Text stands for itself, a number for its magnitude in decimal without zeros in front, and a truth value
      for 1 or 0. */
  lemma {:induction false} RenderedMeans(v: Value)
    ensures v.Str? ==> Rendered(v) == v.text
    ensures v.Bool? ==> Rendered(v) == if v.b then ['1'] else ['0']
    ensures v.Int? ==>
              var s := Rendered(v);
              && s != "" && (forall k :: 0 <= k < |s| ==> '0' <= s[k] <= '9') && (|s| > 1 ==> s[0] != '0')
              && (ReadDecimal(s) == v.n || ReadDecimal(s) == -v.n)
  {
    if v.Int? { DecimalBack(if v.n < 0 then -v.n else v.n); }
  }

  // ---------------------------------------------------------------- the pattern

  predicate NameStart(c: char) { 'A' <= c <= 'Z' || c == '#' || c == '$' || c == '@' }

  predicate NameChar(c: char) { NameStart(c) || '0' <= c <= '9' }

  /** By their ASCII codes: a name begins with a capital letter, `#`, `$` or `@` and goes on with these or digits. */
  lemma {:induction false} NameCharacters(c: char)
    ensures var n := c as int;
            && (NameStart(c) <==> 65 <= n <= 90 || n == 35 || n == 36 || n == 64)
            && (NameChar(c) <==> 65 <= n <= 90 || n == 35 || n == 36 || n == 64 || 48 <= n <= 57)
  {
  }

  function NameRun(s: string): (n: nat)
    ensures n <= |s| && (n < |s| ==> !NameChar(s[n])) && forall k :: 0 <= k < n ==> NameChar(s[k])
  {
    if s == "" || !NameChar(s[0]) then 0 else 1 + NameRun(s[1..])
  }

  /** The length of the reference the text starts with, 0 if it starts with none: an ampersand that does
      not follow another, and a name as long as it goes that no underscore follows. */
  function RefLength(s: string, afterAmp: bool): (n: nat)
    ensures n <= |s| && n != 1
  {
    if |s| < 2 || s[0] != '&' || afterAmp || !NameStart(s[1]) then 0
    else
      var n := 1 + NameRun(s[1..]);
      if n < |s| && s[n] == '_' then 0 else n
  }

  // ---------------------------------------------------------------- tokens

  /** A character that stands for itself, or a reference with or without a joining dot. */
  datatype Token = Char(c: char) | Ref(name: string, dotted: bool)

  /** What text consists of, whatever the values. */
  function Tokens(s: string, afterAmp: bool): seq<Token>
    decreases |s|
  {
    if s == "" then []
    else
      var n := RefLength(s, afterAmp);
      if n == 0 then [Char(s[0])] + Tokens(s[1..], s[0] == '&')
      else if n < |s| && s[n] == '.' then [Ref(s[1..n], true)] + Tokens(s[n + 1..], false)
      else [Ref(s[1..n], false)] + Tokens(s[n..], false)
  }

  function TokenText(t: Token): string {
    match t
    case Char(c) => [c]
    case Ref(name, dotted) => "&" + name + if dotted then "." else ""
  }

  function Text(tokens: seq<Token>): string {
    if tokens == [] then "" else TokenText(tokens[0]) + Text(tokens[1..])
  }

  /** A reference becomes its value, dot and all; one to nothing is left as it is. */
  function Replacement(t: Token, env: Env): string {
    match t
    case Char(c) => [c]
    case Ref(name, dotted) =>
      var v := Lookup(env, name);
      if v.Some? then Rendered(v.value) else TokenText(t)
  }

  /** One simultaneous substitution. */
  function Replaced(tokens: seq<Token>, env: Env): string {
    if tokens == [] then "" else Replacement(tokens[0], env) + Replaced(tokens[1..], env)
  }

  lemma {:induction false} TokensText(s: string, afterAmp: bool)
    ensures Text(Tokens(s, afterAmp)) == s
    decreases |s|
  {
    if s != "" {
      var n := RefLength(s, afterAmp);
      if n == 0 {
        TokensText(s[1..], s[0] == '&');
      } else {
        TokensText(s[WithDot(s, n)..], false);
        RefTextFirst(s, afterAmp);
      }
    }
  }

  lemma {:induction false} RefTextFirst(s: string, afterAmp: bool)
    requires RefLength(s, afterAmp) > 0
    ensures var m := WithDot(s, RefLength(s, afterAmp));
            Text(Tokens(s, afterAmp)) == s[..m] + Text(Tokens(s[m..], false))
  {
    var n := RefLength(s, afterAmp);
    var t := Ref(s[1..n], WithDot(s, n) > n);
    RefText(s, n);
    assert Tokens(s, afterAmp) == [t] + Tokens(s[WithDot(s, n)..], false);
    TextOn(t, Tokens(s[WithDot(s, n)..], false));
  }

  lemma {:induction false} TextOn(t: Token, tokens: seq<Token>)
    ensures Text([t] + tokens) == TokenText(t) + Text(tokens)
  {
    assert ([t] + tokens)[1..] == tokens;
  }

  // ---------------------------------------------------------------- the loop

  lemma {:induction false} NoAmp(s: string, afterAmp: bool, env: Env)
    requires '&' !in s
    ensures Replaced(Tokens(s, afterAmp), env) == s
    decreases |s|
  {
    if s != "" {
      NoAmp(s[1..], s[0] == '&', env);
    }
  }

  lemma {:induction false} CharStep(s: string, afterAmp: bool, env: Env)
    requires s != "" && RefLength(s, afterAmp) == 0
    ensures Replaced(Tokens(s, afterAmp), env) == [s[0]] + Replaced(Tokens(s[1..], s[0] == '&'), env)
  {
    assert Tokens(s, afterAmp)[1..] == Tokens(s[1..], s[0] == '&');
  }

  /** The length of a reference with the dot that joins it on. */
  function WithDot(s: string, n: nat): nat
    requires n <= |s|
  {
    if n < |s| && s[n] == '.' then n + 1 else n
  }

  lemma {:induction false} RefText(s: string, n: nat)
    requires 2 <= n <= |s| && s[0] == '&'
    ensures TokenText(Ref(s[1..n], WithDot(s, n) > n)) == s[..WithDot(s, n)]
  {
    assert s[..n] == "&" + s[1..n];
    if WithDot(s, n) > n { assert s[..n + 1] == s[..n] + "."; }
  }

  lemma {:induction false} RefStep(s: string, afterAmp: bool, env: Env)
    requires RefLength(s, afterAmp) > 0
    ensures var n := RefLength(s, afterAmp);
            var m, v := WithDot(s, n), Lookup(env, s[1..n]);
            Replaced(Tokens(s, afterAmp), env)
            == (if v.Some? then Rendered(v.value) else s[..m]) + Replaced(Tokens(s[m..], false), env)
  {
    var n := RefLength(s, afterAmp);
    var t := Ref(s[1..n], WithDot(s, n) > n);
    RefText(s, n);
    assert Tokens(s, afterAmp) == [t] + Tokens(s[WithDot(s, n)..], false);
  }

  /** No reference is followed by an opening parenthesis, which the code may take for a subscript. */
  ghost predicate Unsubscripted(tokens: seq<Token>) {
    forall i :: 0 < i < |tokens| && tokens[i] == Char('(') ==> tokens[i - 1].Char? || tokens[i - 1].dotted
  }

  /** The matches are read out of the original text and the result is built up forward, so that nothing is
      ever looked for in a replacement. */
  method SvReplace(text: string, env: Env) returns (pieces: string)
    requires Unsubscripted(Tokens(text, false))
    ensures pieces == Replaced(Tokens(text, false), env)
  {
    if '&' !in text {
      NoAmp(text, false, env);
      return text;
    }
    var rest, afterAmp := text, false;
    pieces := "";
    while rest != ""
      invariant pieces + Replaced(Tokens(rest, afterAmp), env) == Replaced(Tokens(text, false), env)
      decreases |rest|
    {
      var n := RefLength(rest, afterAmp);
      if n == 0 {
        CharStep(rest, afterAmp, env);
        Associate(pieces, [rest[0]], Replaced(Tokens(rest[1..], rest[0] == '&'), env));
        pieces, rest, afterAmp := pieces + [rest[0]], rest[1..], rest[0] == '&';
      } else {
        RefStep(rest, afterAmp, env);
        var end, v := WithDot(rest, n), Lookup(env, rest[1..n]);
        var replacement := if v.Some? then Rendered(v.value) else rest[..end];
        Associate(pieces, replacement, Replaced(Tokens(rest[end..], false), env));
        pieces, rest, afterAmp := pieces + replacement, rest[end..], false;
      }
    }
  }

  // ---------------------------------------------------------------- alternations of text and references

  ghost predicate ValidName(name: string) {
    name != "" && NameStart(name[0]) && forall k :: 0 <= k < |name| ==> NameChar(name[k])
  }

  /** What may follow a reference without a dot. */
  predicate Ends(t: Token) { t.Ref? || (!NameChar(t.c) && t.c != '_' && t.c != '.' && t.c != '(') }

  /** Literal characters other than the ampersand, and references, each followed by a dot or by something
      that cannot belong to it. */
  ghost predicate Alternation(tokens: seq<Token>) {
    tokens == [] ||
    (Alternation(tokens[1..]) &&
     match tokens[0]
     case Char(c) => c != '&'
     case Ref(name, dotted) => ValidName(name) && (dotted || |tokens| == 1 || Ends(tokens[1])))
  }

  lemma {:induction false} NameRunOf(name: string, rest: string)
    requires (forall k :: 0 <= k < |name| ==> NameChar(name[k])) && (rest == "" || !NameChar(rest[0]))
    ensures NameRun(name + rest) == |name|
    decreases |name|
  {
    if name == "" {
      assert name + rest == rest;
    } else {
      NameRunOf(name[1..], rest);
      assert (name + rest)[1..] == name[1..] + rest;
    }
  }

  lemma {:induction false} RefFound(name: string, rest: string)
    requires ValidName(name) && (rest == "" || (!NameChar(rest[0]) && rest[0] != '_'))
    ensures RefLength("&" + name + rest, false) == 1 + |name|
  {
    var s := "&" + name + rest;
    assert s[1..] == name + rest;
    NameRunOf(name, rest);
    assert rest != "" ==> s[1 + |name|] == rest[0];
  }

  /** An ampersand behind another, before something that begins no name, or before a name that an underscore
      follows, stands for itself. */
  lemma {:induction false} NoReference(name: string, rest: string, afterAmp: bool)
    requires forall k :: 0 <= k < |name| ==> NameChar(name[k])
    requires name + rest == "" || (rest != "" && rest[0] == '_') || !NameStart((name + rest)[0]) || afterAmp
    ensures var s := "&" + name + rest;
            Tokens(s, afterAmp) == [Char('&')] + Tokens(name + rest, true)
  {
    var s := "&" + name + rest;
    assert s[1..] == name + rest;
    if rest != "" && rest[0] == '_' && name != "" {
      NameRunOf(name, rest);
      assert s[1 + |name|] == rest[0];
    }
  }

  lemma {:induction false} TextStart(tokens: seq<Token>)
    ensures tokens == [] <==> Text(tokens) == ""
    ensures tokens != [] ==> Text(tokens)[0] == if tokens[0].Char? then tokens[0].c else '&'
  {
  }

  lemma {:induction false} RefTokens(name: string, dotted: bool, rest: string)
    requires ValidName(name) && (dotted || rest == "" || (!NameChar(rest[0]) && rest[0] != '_' && rest[0] != '.'))
    ensures Tokens(TokenText(Ref(name, dotted)) + rest, false) == [Ref(name, dotted)] + Tokens(rest, false)
  {
    var n, behind := 1 + |name|, (if dotted then "." else "") + rest;
    var s := "&" + name + behind;
    assert TokenText(Ref(name, dotted)) + rest == s;
    RefFound(name, behind);
    assert s[1..n] == name && s[n..] == behind;
    if dotted {
      assert s[n + 1..] == rest;
    } else {
      assert behind == rest;
    }
  }

  lemma {:induction false} CharTokens(c: char, rest: string)
    requires c != '&'
    ensures Tokens([c] + rest, false) == [Char(c)] + Tokens(rest, false)
  {
    assert ([c] + rest)[1..] == rest;
  }

  lemma {:induction false} FirstAndRest<T>(s: seq<T>)
    requires s != []
    ensures [s[0]] + s[1..] == s
  {
  }

  /** Text put together of literals and references is taken apart into the same. */
  lemma {:induction false} TokensBack(tokens: seq<Token>)
    requires Alternation(tokens)
    ensures Tokens(Text(tokens), false) == tokens
    decreases |tokens|
  {
    if tokens != [] {
      var t, rest := tokens[0], Text(tokens[1..]);
      TokensBack(tokens[1..]);
      TextStart(tokens[1..]);
      match t {
        case Char(c) => CharTokens(c, rest);
        case Ref(name, dotted) => RefTokens(name, dotted, rest);
      }
      FirstAndRest(tokens);
    }
  }

  lemma {:induction false} AlternationUnsubscripted(tokens: seq<Token>)
    requires Alternation(tokens)
    ensures Unsubscripted(tokens)
  {
    if tokens != [] {
      AlternationUnsubscripted(tokens[1..]);
      forall i | 0 < i < |tokens| && tokens[i] == Char('(') ensures tokens[i - 1].Char? || tokens[i - 1].dotted {
        if i > 1 { assert tokens[1..][i - 1] == tokens[i] && tokens[1..][i - 2] == tokens[i - 1]; }
      }
    }
  }

  /** For any alternation of text and references the result is the literals and the values in order,
      whatever the values hold. */
  lemma {:induction false} Simultaneous(tokens: seq<Token>, env: Env)
    requires Alternation(tokens)
    ensures Unsubscripted(Tokens(Text(tokens), false))
    ensures Replaced(Tokens(Text(tokens), false), env) == Replaced(tokens, env)
  {
    TokensBack(tokens);
    AlternationUnsubscripted(tokens);
  }
}
