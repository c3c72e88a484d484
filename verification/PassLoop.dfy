/**
  The compile passes: statements are assembled against the tables of the pass before while they bring the
  same tables up to date, and the passes are repeated until nothing asks for another.
 */
module PassLoop {
  import opened Basics
  import opened Wrappers

  datatype Place = Place(sect: nat, pos: nat)

  datatype Label = Label(place: Place, preliminary: bool)

  /** What a literal pool holds of a literal: the value of its expression, which for an address is a hashed
      one, and the bytes it was assembled to when that value was stored. */
  datatype Held = Held(value: int, bytes: seq<int>)

  /** What a pass leaves for the next: labels, EQUs, the literals by pool and number, the sections' offsets,
      the pools' positions, the sections' high-water marks, and the offsets the sections had as the pass
      began. */
  datatype Tables = Tables(labels: map<string, Label>, equs: map<string, int>, literals: map<(nat, nat), Held>,
                           offsets: seq<int>, pools: seq<nat>, used: seq<nat>, prelim: seq<int>)

  /** Where a pass is: the section, the location counters, the USINGs in force and the literal pool. */
  datatype Local = Local(sect: nat, pos: seq<nat>, using: map<nat, int>, pool: nat)

  datatype Literal = Literal(index: nat, value: (Tables, Local) -> int, bytes: (Tables, Local) -> seq<int>)

  /** A statement.  What it evaluates it evaluates against the tables as they stand when it is reached. */
  datatype Stmt =
    | Code(name: string, alignment: int, literal: Option<Literal>, word: (Tables, Local) -> seq<int>)
    | Equ(equ: string, value: (Tables, Local) -> Option<int>)
    | Csect(sect: nat)
    | Using(bases: (Tables, Local) -> map<nat, int>)
    | Ltorg(size: nat)

  datatype Emitted = Emitted(place: Place, word: seq<int>)

  datatype Run = Run(t: Tables, l: Local, words: seq<Emitted>, repeat: bool)

  /** How offsets follow from high-water marks and pool positions, as a pass begins and as it ends. */
  datatype Rules = Rules(prelim: (seq<nat>, seq<nat>) -> seq<int>, place: (seq<nat>, seq<nat>) -> seq<int>)

  // ---------------------------------------------------------------- one statement

  function Pos(l: Local): nat { if l.sect < |l.pos| then l.pos[l.sect] else 0 }

  function Here(l: Local): Place { Place(l.sect, Pos(l)) }

  function MoveTo(l: Local, p: nat): Local {
    if l.sect < |l.pos| then l.(pos := l.pos[l.sect := p]) else l
  }

  /** The location counter moved, and the high-water mark with it. */
  function Moved(r: Run, p: nat): Run {
    var t := if r.l.sect < |r.t.used| && r.t.used[r.l.sect] < p then r.t.(used := r.t.used[r.l.sect := p]) else r.t;
    r.(l := MoveTo(r.l, p), t := t)
  }

  /** A label that moved asks for another pass, unless its place was a preliminary one. */
  function Recorded(r: Run, name: string): Run {
    if name == "" || name !in r.t.labels then r
    else
      var before := r.t.labels[name];
      r.(t := r.t.(labels := r.t.labels[name := Label(Here(r.l), false)]),
         repeat := r.repeat || (!before.preliminary && before.place != Here(r.l)))
  }

  /** So does a literal whose value changed, the bytes not being compared; None if the pool does not hold it. */
  function Stored(r: Run, literal: Option<Literal>): Option<Run> {
    if literal.None? then Some(r)
    else
      var key := (r.l.pool, literal.value.index);
      if key !in r.t.literals then None
      else
        var v := literal.value.value(r.t, r.l);
        if r.t.literals[key].value == v then Some(r)
        else
          var held := Held(v, literal.value.bytes(r.t, r.l));
          Some(r.(t := r.t.(literals := r.t.literals[key := held]), repeat := true))
  }

  function Emit(r: Run, word: seq<int>): Run {
    Moved(r.(words := r.words + [Emitted(Here(r.l), word)]), Pos(r.l) + |word|)
  }

  function Exec(s: Stmt, r: Run): Run {
    match s
    case Code(name, alignment, literal, word) =>
      var labelled := Recorded(Moved(r, PadTo(Pos(r.l), alignment)), name);
      var stored := Stored(labelled, literal);
      if stored.None? then labelled else Emit(stored.value, word(stored.value.t, stored.value.l))
    case Equ(equ, value) =>
      var v := value(r.t, r.l);
      if v.None? then r
      else r.(t := r.t.(equs := r.t.equs[equ := v.value]),
              repeat := r.repeat || equ !in r.t.equs || r.t.equs[equ] != v.value)
    case Csect(sect) => r.(l := r.l.(sect := sect))
    case Using(bases) => r.(l := r.l.(using := bases(r.t, r.l)))
    case Ltorg(size) =>
      var aligned := Moved(r, PadTo(Pos(r.l), 4));
      var l := aligned.l;
      // The position is recorded anew; that it changed asks for nothing.
      var t := if l.pool < |aligned.t.pools| then aligned.t.(pools := aligned.t.pools[l.pool := Pos(l)]) else aligned.t;
      aligned.(t := t, l := MoveTo(l, Pos(l) + size).(pool := l.pool + 1))
  }

  /** The first `n` statements. */
  function ExecAll(stmts: seq<Stmt>, n: nat, r: Run): Run
    requires n <= |stmts|
  {
    if n == 0 then r else Exec(stmts[n - 1], ExecAll(stmts, n - 1, r))
  }

  function Begin(t: Tables, rules: Rules): Run {
    Run(t.(prelim := rules.prelim(t.used, t.pools)), Local(0, Repeat(0, |t.used|), map[], 0), [], false)
  }

  /** The sections are placed; an offset that changed asks for another pass. */
  function Finish(r: Run, rules: Rules): Run {
    var offsets := rules.place(r.t.used, r.t.pools);
    r.(t := r.t.(offsets := offsets), repeat := r.repeat || offsets != r.t.offsets)
  }

  function Pass(stmts: seq<Stmt>, rules: Rules, t: Tables): Run {
    Finish(ExecAll(stmts, |stmts|, Begin(t, rules)), rules)
  }

  // ---------------------------------------------------------------- the tables as a solution

  datatype Frozen = Frozen(l: Local, words: seq<Emitted>)

  /** A statement assembled against tables that stand still. */
  function Assembled(s: Stmt, t: Tables, f: Frozen): Frozen {
    match s
    case Code(name, alignment, literal, word) =>
      var l := MoveTo(f.l, PadTo(Pos(f.l), alignment));
      if literal.Some? && (l.pool, literal.value.index) !in t.literals then f.(l := l)
      else
        var w := word(t, l);
        Frozen(MoveTo(l, Pos(l) + |w|), f.words + [Emitted(Here(l), w)])
    case Equ(equ, value) => f
    case Csect(sect) => f.(l := f.l.(sect := sect))
    case Using(bases) => f.(l := f.l.(using := bases(t, f.l)))
    case Ltorg(size) =>
      var l := MoveTo(f.l, PadTo(Pos(f.l), 4));
      f.(l := MoveTo(l, Pos(l) + size).(pool := l.pool + 1))
  }

  function AllAssembled(stmts: seq<Stmt>, n: nat, t: Tables, f: Frozen): Frozen
    requires n <= |stmts|
  {
    if n == 0 then f else Assembled(stmts[n - 1], t, AllAssembled(stmts, n - 1, t, f))
  }

  /** The location counter reaches no further than the section's high-water mark. */
  predicate Within(t: Tables, l: Local, p: nat) { l.sect < |t.used| ==> p <= t.used[l.sect] }

  /** What the statement defines is what the tables say. */
  predicate Agrees(s: Stmt, t: Tables, l: Local) {
    match s
    case Code(name, alignment, literal, word) =>
      var here := MoveTo(l, PadTo(Pos(l), alignment));
      && Within(t, l, PadTo(Pos(l), alignment))
      && (name != "" && name in t.labels ==> t.labels[name].place == Here(here))
      && (literal.None? || (here.pool, literal.value.index) in t.literals ==>
            && (literal.Some? ==> t.literals[(here.pool, literal.value.index)].value == literal.value.value(t, here))
            && Within(t, here, Pos(here) + |word(t, here)|))
    case Equ(equ, value) =>
      var v := value(t, l);
      v.Some? ==> equ in t.equs && t.equs[equ] == v.value
    case Csect(sect) => true
    case Using(bases) => true
    case Ltorg(size) =>
      var here := MoveTo(l, PadTo(Pos(l), 4));
      Within(t, l, PadTo(Pos(l), 4)) && (here.pool < |t.pools| ==> t.pools[here.pool] == Pos(here))
  }

  /** The first `n` statements agree with the tables, each where the tables put it. */
  predicate AgreesTo(stmts: seq<Stmt>, n: nat, t: Tables, f: Frozen)
    requires n <= |stmts|
  {
    n == 0 || (AgreesTo(stmts, n - 1, t, f) && Agrees(stmts[n - 1], t, AllAssembled(stmts, n - 1, t, f).l))
  }

  /** The tables solve the program: assembled against them, every definition comes out as they have it. */
  predicate Solves(stmts: seq<Stmt>, rules: Rules, t: Tables) {
    && AgreesTo(stmts, |stmts|, t, Start(t))
    && t.offsets == rules.place(t.used, t.pools) && t.prelim == rules.prelim(t.used, t.pools)
  }

  function Start(t: Tables): Frozen { Frozen(Local(0, Repeat(0, |t.used|), map[], 0), []) }

  /** Every label the statements define has been met by an earlier pass. */
  ghost predicate Ready(stmts: seq<Stmt>, t: Tables) {
    forall i :: 0 <= i < |stmts| ==> Met(stmts[i], t)
  }

  predicate Met(s: Stmt, t: Tables) {
    s.Code? && s.name != "" && s.name in t.labels ==> !t.labels[s.name].preliminary
  }

  // ---------------------------------------------------------------- forwards

  lemma {:induction false} SameKey<K, V>(m: map<K, V>, k: K, v: V)
    requires k in m && m[k] == v
    ensures m[k := v] == m
  {
  }

  lemma {:induction false} SameAt<T>(s: seq<T>, i: nat, x: T)
    requires i < |s| && s[i] == x
    ensures s[i := x] == s
  {
  }

  lemma {:induction false} RecordedSame(r: Run, name: string)
    requires name != "" && name in r.t.labels ==> r.t.labels[name] == Label(Here(r.l), false)
    ensures Recorded(r, name) == r
  {
    if name != "" && name in r.t.labels { SameKey(r.t.labels, name, Label(Here(r.l), false)); }
  }

  /** Against tables it agrees with a statement changes nothing, and does what it does against tables that
      stand still. */
  lemma {:induction false} StepAgrees(s: Stmt, r: Run)
    requires Agrees(s, r.t, r.l) && Met(s, r.t)
    ensures var f := Assembled(s, r.t, Frozen(r.l, r.words));
            Exec(s, r) == Run(r.t, f.l, f.words, r.repeat)
  {
    match s {
      case Code(name, alignment, literal, word) =>
        RecordedSame(Moved(r, PadTo(Pos(r.l), alignment)), name);
      case Equ(equ, value) =>
        if value(r.t, r.l).Some? { SameKey(r.t.equs, equ, value(r.t, r.l).value); }
      case Csect(sect) =>
      case Using(bases) =>
      case Ltorg(size) =>
        var here := MoveTo(r.l, PadTo(Pos(r.l), 4));
        if here.pool < |r.t.pools| { SameAt(r.t.pools, here.pool, Pos(here)); }
    }
  }

  lemma {:induction false} AllAgree(stmts: seq<Stmt>, n: nat, t: Tables, f: Frozen)
    requires n <= |stmts| && Ready(stmts, t) && AgreesTo(stmts, n, t, f)
    ensures var g := AllAssembled(stmts, n, t, f);
            ExecAll(stmts, n, Run(t, f.l, f.words, false)) == Run(t, g.l, g.words, false)
  {
    if n > 0 {
      AllAgree(stmts, n - 1, t, f);
      var g := AllAssembled(stmts, n - 1, t, f);
      StepAgrees(stmts[n - 1], Run(t, g.l, g.words, false));
    }
  }

  // ---------------------------------------------------------------- backwards

  /** How the tables of a pass may differ from those it began with as long as nothing asked for another. */
  ghost predicate Drifted(t: Tables, r: Run) {
    && r.t.labels == t.labels && r.t.equs == t.equs && r.t.literals == t.literals && r.t.offsets == t.offsets &&
        r.t.prelim == t.prelim
    && |r.t.used| == |t.used| && |r.t.pools| == |t.pools|
    && (forall k :: 0 <= k < |t.used| ==> t.used[k] <= r.t.used[k])
    && (forall k :: r.l.pool <= k < |t.pools| ==> r.t.pools[k] == t.pools[k])
  }

  lemma {:induction false} MovedDrift(t: Tables, r: Run, p: nat)
    requires Drifted(t, r)
    ensures Drifted(t, Moved(r, p))
  {
  }

  lemma {:induction false} RepeatStays(s: Stmt, r: Run)
    requires r.repeat
    ensures Exec(s, r).repeat
  {
  }

  lemma {:induction false} CodeDrift(t: Tables, s: Stmt, r: Run)
    requires s.Code? && Drifted(t, r) && Met(s, t) && !Exec(s, r).repeat
    ensures Drifted(t, Exec(s, r))
  {
    var moved := Moved(r, PadTo(Pos(r.l), s.alignment));
    MovedDrift(t, r, PadTo(Pos(r.l), s.alignment));
    RecordedSame(moved, s.name);
    if Stored(moved, s.literal).Some? { MovedDrift(t, moved, Pos(moved.l) + |s.word(moved.t, moved.l)|); }
  }

  lemma {:induction false} LtorgDrift(t: Tables, s: Stmt, r: Run)
    requires s.Ltorg? && Drifted(t, r)
    ensures Drifted(t, Exec(s, r))
  {
    MovedDrift(t, r, PadTo(Pos(r.l), 4));
  }

  lemma {:induction false} StepDrift(t: Tables, s: Stmt, r: Run)
    requires Drifted(t, r) && Met(s, t) && !Exec(s, r).repeat
    ensures Drifted(t, Exec(s, r))
  {
    match s {
      case Code(name, alignment, literal, word) => CodeDrift(t, s, r);
      case Equ(equ, value) =>
        if value(r.t, r.l).Some? { SameKey(r.t.equs, equ, value(r.t, r.l).value); }
      case Csect(sect) =>
      case Using(bases) =>
      case Ltorg(size) => LtorgDrift(t, s, r);
    }
  }

  lemma {:induction false} AllDrift(stmts: seq<Stmt>, n: nat, t: Tables, r: Run)
    requires n <= |stmts| && Ready(stmts, t) && Drifted(t, r) && !ExecAll(stmts, n, r).repeat
    ensures Drifted(t, ExecAll(stmts, n, r))
  {
    if n > 0 {
      var before := ExecAll(stmts, n - 1, r);
      if before.repeat { RepeatStays(stmts[n - 1], before); }
      AllDrift(stmts, n - 1, t, r);
      StepDrift(t, stmts[n - 1], before);
    }
  }

  lemma {:induction false} MovedBack(t: Tables, r: Run, p: nat)
    requires Drifted(t, r) && Moved(r, p).t == t
    ensures r.t == t && Within(t, r.l, p)
  {
    assert forall k :: 0 <= k < |t.used| ==> r.t.used[k] <= t.used[k];
  }

  lemma {:induction false} CodeBack(t: Tables, s: Stmt, r: Run)
    requires s.Code? && Drifted(t, r) && Met(s, t) && !Exec(s, r).repeat && Exec(s, r).t == t
    ensures r.t == t && Agrees(s, t, r.l)
  {
    var p := PadTo(Pos(r.l), s.alignment);
    var moved := Moved(r, p);
    MovedDrift(t, r, p);
    RecordedSame(moved, s.name);
    if Stored(moved, s.literal).Some? {
      MovedBack(t, moved, Pos(moved.l) + |s.word(moved.t, moved.l)|);
    }
    MovedBack(t, r, p);
  }

  lemma {:induction false} LtorgBack(t: Tables, s: Stmt, r: Run)
    requires s.Ltorg? && Drifted(t, r) && Exec(s, r).t == t
    ensures r.t == t && Agrees(s, t, r.l)
  {
    var p := PadTo(Pos(r.l), 4);
    var moved := Moved(r, p);
    MovedDrift(t, r, p);
    assert moved.t.pools == t.pools by {
      if moved.l.pool < |t.pools| {
        assert Exec(s, r).t.pools == moved.t.pools[moved.l.pool := Pos(moved.l)];
        assert t.pools[moved.l.pool] == moved.t.pools[moved.l.pool];
      }
    }
    MovedBack(t, r, p);
  }

  /** A statement that left the tables as they were agrees with them. */
  lemma {:induction false} StepBack(t: Tables, s: Stmt, r: Run)
    requires Drifted(t, r) && Met(s, t) && !Exec(s, r).repeat && Exec(s, r).t == t
    ensures r.t == t && Agrees(s, t, r.l)
  {
    match s {
      case Code(name, alignment, literal, word) => CodeBack(t, s, r);
      case Equ(equ, value) =>
      case Csect(sect) =>
      case Using(bases) =>
      case Ltorg(size) => LtorgBack(t, s, r);
    }
  }

  lemma {:induction false} AllBack(stmts: seq<Stmt>, n: nat, t: Tables, f: Frozen)
    requires n <= |stmts| && Ready(stmts, t)
    requires var r := ExecAll(stmts, n, Run(t, f.l, f.words, false)); !r.repeat && r.t == t
    ensures AgreesTo(stmts, n, t, f)
  {
    if n > 0 {
      var start := Run(t, f.l, f.words, false);
      var before, s := ExecAll(stmts, n - 1, start), stmts[n - 1];
      if before.repeat { RepeatStays(s, before); }
      AllDrift(stmts, n - 1, t, start);
      StepBack(t, s, before);
      AllBack(stmts, n - 1, t, f);
      AllAgree(stmts, n - 1, t, f);
    }
  }

  // ---------------------------------------------------------------- passes

  lemma {:induction false} ReadyBegun(stmts: seq<Stmt>, rules: Rules, t: Tables)
    requires Ready(stmts, t)
    ensures Ready(stmts, Begin(t, rules).t)
  {
    forall i | 0 <= i < |stmts| ensures Met(stmts[i], Begin(t, rules).t) {
      assert Met(stmts[i], t);
    }
  }

  /** A pass that asks for no other has moved nothing but pool positions and high-water marks. */
  lemma {:induction false} QuietPass(stmts: seq<Stmt>, rules: Rules, t: Tables)
    requires Ready(stmts, t) && !Pass(stmts, rules, t).repeat
    ensures var after := Pass(stmts, rules, t).t;
            after == Begin(t, rules).t.(pools := after.pools, used := after.used)
  {
    ReadyBegun(stmts, rules, t);
    AllDrift(stmts, |stmts|, Begin(t, rules).t, Begin(t, rules));
  }

  /** If a pass asks for no other, then it left pool positions and high-water marks alone exactly when the
      tables it began with solve the program. */
  lemma {:induction false} Settled(stmts: seq<Stmt>, rules: Rules, t: Tables)
    requires Ready(stmts, t)
    ensures var r := Pass(stmts, rules, t);
            !r.repeat && r.t.pools == t.pools && r.t.used == t.used <==> Solves(stmts, rules, Begin(t, rules).t)
  {
    var t0, f := Begin(t, rules).t, Start(Begin(t, rules).t);
    var r := Pass(stmts, rules, t);
    ReadyBegun(stmts, rules, t);
    if Solves(stmts, rules, t0) {
      AllAgree(stmts, |stmts|, t0, f);
    }
    if !r.repeat && r.t.pools == t.pools && r.t.used == t.used {
      QuietPass(stmts, rules, t);
      AllDrift(stmts, |stmts|, t0, Begin(t, rules));
      AllBack(stmts, |stmts|, t0, f);
    }
  }

  /** And then every word of that pass is its encoding under the final tables, forward references and all,
      and another pass would change nothing. */
  lemma {:induction false} SettledWords(stmts: seq<Stmt>, rules: Rules, t: Tables)
    requires Ready(stmts, t) && Solves(stmts, rules, Begin(t, rules).t)
    ensures var r := Pass(stmts, rules, t);
            && r.t == Begin(t, rules).t && r.words == AllAssembled(stmts, |stmts|, r.t, Start(r.t)).words
            && Solves(stmts, rules, r.t) && Pass(stmts, rules, r.t) == r
  {
    var t0 := Begin(t, rules).t;
    ReadyBegun(stmts, rules, t);
    AllAgree(stmts, |stmts|, t0, Start(t0));
  }

  /** The words are the encodings under the tables, which solve the program, and a pass repeats them. */
  ghost predicate Final(stmts: seq<Stmt>, rules: Rules, r: Run) {
    && Solves(stmts, rules, r.t) && r.words == AllAssembled(stmts, |stmts|, r.t, Start(r.t)).words
    && Pass(stmts, rules, r.t) == r
  }

  /** A pass that asked for no other and moved no pool and no high-water mark is final. */
  ghost predicate EndsWell(stmts: seq<Stmt>, rules: Rules, before: Tables, r: Run) {
    !r.repeat && r.t.pools == before.pools && r.t.used == before.used ==> Final(stmts, rules, r)
  }

  lemma {:induction false} LastPass(stmts: seq<Stmt>, rules: Rules, t: Tables)
    requires Ready(stmts, t)
    ensures EndsWell(stmts, rules, t, Pass(stmts, rules, t))
  {
    Settled(stmts, rules, t);
    if Solves(stmts, rules, Begin(t, rules).t) { SettledWords(stmts, rules, t); }
  }

  // ---------------------------------------------------------------- the passes before

  lemma {:induction false} CodeLabels(one: Stmt, r: Run)
    requires one.Code?
    ensures Exec(one, r).t.labels == Recorded(Moved(r, PadTo(Pos(r.l), one.alignment)), one.name).t.labels
  {
  }

  lemma {:induction false} MetStays(s: Stmt, one: Stmt, r: Run)
    requires Met(s, r.t)
    ensures Met(s, Exec(one, r).t)
  {
    match one {
      case Code(name, alignment, literal, word) => CodeLabels(one, r);
      case Equ(equ, value) =>
      case Csect(sect) =>
      case Using(bases) =>
      case Ltorg(size) =>
    }
  }

  lemma {:induction false} MetAfter(s: Stmt, r: Run)
    ensures Met(s, Exec(s, r).t)
  {
  }

  lemma {:induction false} AllMet(stmts: seq<Stmt>, n: nat, r: Run, i: nat)
    requires i < n <= |stmts|
    ensures Met(stmts[i], ExecAll(stmts, n, r).t)
  {
    var before := ExecAll(stmts, n - 1, r);
    if i == n - 1 {
      MetAfter(stmts[i], before);
    } else {
      AllMet(stmts, n - 1, r, i);
      MetStays(stmts[i], stmts[n - 1], before);
    }
  }

  /** After one pass no label is a preliminary one, whatever the tables were. */
  lemma {:induction false} ReadyAfter(stmts: seq<Stmt>, rules: Rules, t: Tables)
    ensures Ready(stmts, Pass(stmts, rules, t).t)
  {
    forall i | 0 <= i < |stmts| ensures Met(stmts[i], Pass(stmts, rules, t).t) {
      AllMet(stmts, |stmts|, Begin(t, rules), i);
    }
  }

  // ---------------------------------------------------------------- what a quiet pass may have moved

  /** The tables differ at most in pool positions and high-water marks, and in those only where allowed. */
  predicate OnlyMoved(a: Tables, b: Tables, pools: bool, used: bool) {
    b == a.(pools := if pools then b.pools else a.pools, used := if used then b.used else a.used)
  }

  /** No word and no base register of the statement is worked out from a pool's position if pools have
      moved, nor from a high-water mark if one of those has. */
  ghost predicate IgnoresMoved(s: Stmt, pools: bool, used: bool) {
    match s
    case Code(name, alignment, literal, word) =>
      forall a, b, l :: OnlyMoved(a, b, pools, used) ==> word(a, l) == word(b, l)
    case Using(bases) =>
      forall a, b, l :: OnlyMoved(a, b, pools, used) ==> bases(a, l) == bases(b, l)
    case _ => true
  }

  /** How the state of a pass goes on: high-water marks only grow, and a pool already passed is not
      recorded again. */
  ghost predicate Grown(r: Run, q: Run) {
    && |q.t.used| == |r.t.used| && |q.t.pools| == |r.t.pools| && r.l.pool <= q.l.pool
    && (forall k :: 0 <= k < |r.t.used| ==> r.t.used[k] <= q.t.used[k])
    && (forall k :: 0 <= k < |r.t.pools| && k < r.l.pool ==> q.t.pools[k] == r.t.pools[k])
  }

  lemma {:induction false} MovedGrown(r: Run, p: nat)
    ensures Grown(r, Moved(r, p)) && Moved(r, p).l.pool == r.l.pool
  {
  }

  lemma {:induction false} StoredGrown(r: Run, literal: Option<Literal>)
    requires Stored(r, literal).Some?
    ensures Grown(r, Stored(r, literal).value) && Stored(r, literal).value.l == r.l
  {
  }

  lemma {:induction false} GrownOn(a: Run, b: Run, c: Run)
    requires Grown(a, b) && Grown(b, c)
    ensures Grown(a, c)
  {
  }

  /** Moving to a statement's alignment lies between its state and the next. */
  lemma {:induction false} AlignedGrown(s: Stmt, r: Run)
    requires s.Code?
    ensures var moved := Moved(r, PadTo(Pos(r.l), s.alignment));
            Grown(r, moved) && Grown(moved, Exec(s, r))
  {
    MovedGrown(r, PadTo(Pos(r.l), s.alignment));
    CodeGrown(s, Moved(r, PadTo(Pos(r.l), s.alignment)), Exec(s, r));
  }

  lemma {:induction false} CodeGrown(s: Stmt, moved: Run, q: Run)
    requires s.Code?
    requires var labelled := Recorded(moved, s.name);
             var stored := Stored(labelled, s.literal);
             q == if stored.None? then labelled else Emit(stored.value, s.word(stored.value.t, stored.value.l))
    ensures Grown(moved, q)
  {
    var labelled := Recorded(moved, s.name);
    assert Grown(moved, labelled);
    var stored := Stored(labelled, s.literal);
    if stored.Some? {
      StoredGrown(labelled, s.literal);
      GrownOn(moved, labelled, stored.value);
      EmitGrown(stored.value, s.word(stored.value.t, stored.value.l));
      GrownOn(moved, stored.value, q);
    }
  }

  lemma {:induction false} EmitGrown(r: Run, word: seq<int>)
    ensures Grown(r, Emit(r, word))
  {
    MovedGrown(r.(words := r.words + [Emitted(Here(r.l), word)]), Pos(r.l) + |word|);
  }

  lemma {:induction false} StepGrown(s: Stmt, r: Run)
    ensures Grown(r, Exec(s, r))
  {
    match s {
      case Code(name, alignment, literal, word) =>
        AlignedGrown(s, r);
        GrownOn(r, Moved(r, PadTo(Pos(r.l), alignment)), Exec(s, r));
      case Equ(equ, value) =>
      case Csect(sect) =>
      case Using(bases) =>
      case Ltorg(size) => MovedGrown(r, PadTo(Pos(r.l), 4));
    }
  }

  lemma {:induction false} AllGrown(stmts: seq<Stmt>, m: nat, n: nat, r: Run)
    requires m <= n <= |stmts|
    ensures Grown(ExecAll(stmts, m, r), ExecAll(stmts, n, r))
    decreases n
  {
    hide Exec;
    if m < n {
      AllGrown(stmts, m, n - 1, r);
      StepGrown(stmts[n - 1], ExecAll(stmts, n - 1, r));
      GrownOn(ExecAll(stmts, m, r), ExecAll(stmts, n - 1, r), ExecAll(stmts, n, r));
    }
  }

  /** In the middle of a pass that asks for no other the tables differ from those it leaves in what it moves
      and nothing else. */
  lemma {:induction false} Between(t: Tables, r: Run, last: Run)
    requires Drifted(t, r) && Drifted(t, last) && Grown(r, last)
    ensures OnlyMoved(last.t, r.t, last.t.pools != t.pools, last.t.used != t.used)
  {
    if last.t.pools == t.pools {
      assert forall k :: 0 <= k < |t.pools| ==> r.t.pools[k] == t.pools[k];
      assert r.t.pools == t.pools;
    }
    if last.t.used == t.used {
      assert forall k :: 0 <= k < |t.used| ==> t.used[k] <= r.t.used[k] <= last.t.used[k];
      assert r.t.used == t.used;
    }
  }

  /** A statement against such tables does what it does against the tables left. */
  lemma {:induction false} CodeIgnores(s: Stmt, r: Run, last: Tables, pools: bool, used: bool)
    requires s.Code? && IgnoresMoved(s, pools, used) && Met(s, last) && !Exec(s, r).repeat
    requires OnlyMoved(last, Moved(r, PadTo(Pos(r.l), s.alignment)).t, pools, used)
    ensures var q, f := Exec(s, r), Assembled(s, last, Frozen(r.l, r.words));
            q.l == f.l && q.words == f.words
  {
    var moved := Moved(r, PadTo(Pos(r.l), s.alignment));
    RecordedSame(moved, s.name);
  }

  lemma {:induction false} StepIgnores(s: Stmt, r: Run, last: Tables, pools: bool, used: bool)
    requires IgnoresMoved(s, pools, used) && Met(s, last) && !Exec(s, r).repeat
    requires OnlyMoved(last, r.t, pools, used)
    requires s.Code? ==> OnlyMoved(last, Moved(r, PadTo(Pos(r.l), s.alignment)).t, pools, used)
    ensures var q, f := Exec(s, r), Assembled(s, last, Frozen(r.l, r.words));
            q.l == f.l && q.words == f.words
  {
    match s {
      case Code(name, alignment, literal, word) => CodeIgnores(s, r, last, pools, used);
      case Equ(equ, value) =>
      case Csect(sect) =>
      case Using(bases) =>
      case Ltorg(size) =>
    }
  }

  /** What a run must be for its words to be those of the tables it leaves. */
  ghost predicate Quiet(stmts: seq<Stmt>, t: Tables, r: Run) {
    && Ready(stmts, t) && Drifted(t, r) && !ExecAll(stmts, |stmts|, r).repeat
    && var last := ExecAll(stmts, |stmts|, r).t;
       forall i :: 0 <= i < |stmts| ==> IgnoresMoved(stmts[i], last.pools != t.pools, last.used != t.used)
  }

  lemma {:induction false} RepeatAhead(stmts: seq<Stmt>, m: nat, n: nat, r: Run)
    requires m <= n <= |stmts| && !ExecAll(stmts, n, r).repeat
    ensures !ExecAll(stmts, m, r).repeat
    decreases n
  {
    hide Exec;
    if m < n {
      if ExecAll(stmts, n - 1, r).repeat { RepeatStays(stmts[n - 1], ExecAll(stmts, n - 1, r)); }
      RepeatAhead(stmts, m, n - 1, r);
    }
  }

  /** The state before statement `n`, and once it is aligned, differs from the last in what has moved. */
  lemma {:induction false} BeforeStep(stmts: seq<Stmt>, n: nat, t: Tables, r: Run)
    requires n < |stmts| && Quiet(stmts, t, r)
    ensures var q, last := ExecAll(stmts, n, r), ExecAll(stmts, |stmts|, r);
            var pools, used := last.t.pools != t.pools, last.t.used != t.used;
            && OnlyMoved(last.t, q.t, pools, used)
            && (stmts[n].Code? ==> OnlyMoved(last.t, Moved(q, PadTo(Pos(q.l), stmts[n].alignment)).t, pools, used))
            && !Exec(stmts[n], q).repeat && Met(stmts[n], last.t)
  {
    hide Exec, IgnoresMoved;
    var q, last := ExecAll(stmts, n, r), ExecAll(stmts, |stmts|, r);
    RepeatAhead(stmts, n, |stmts|, r);
    RepeatAhead(stmts, n + 1, |stmts|, r);
    AllDrift(stmts, n, t, r);
    AllDrift(stmts, |stmts|, t, r);
    AllGrown(stmts, n, |stmts|, r);
    AllGrown(stmts, n + 1, |stmts|, r);
    Between(t, q, last);
    assert Met(stmts[n], t);
    if stmts[n].Code? {
      var p := PadTo(Pos(q.l), stmts[n].alignment);
      MovedDrift(t, q, p);
      AlignedGrown(stmts[n], q);
      GrownOn(Moved(q, p), ExecAll(stmts, n + 1, r), last);
      Between(t, Moved(q, p), last);
    }
  }

  lemma {:induction false} AllIgnore(stmts: seq<Stmt>, n: nat, t: Tables, r: Run)
    requires n <= |stmts| && Quiet(stmts, t, r)
    ensures var q, t' := ExecAll(stmts, n, r), ExecAll(stmts, |stmts|, r).t;
            var f := AllAssembled(stmts, n, t', Frozen(r.l, r.words));
            q.l == f.l && q.words == f.words
    decreases n
  {
    hide Exec, Assembled, IgnoresMoved;
    if n > 0 {
      var last := ExecAll(stmts, |stmts|, r).t;
      AllIgnore(stmts, n - 1, t, r);
      BeforeStep(stmts, n - 1, t, r);
      StepIgnores(stmts[n - 1], ExecAll(stmts, n - 1, r), last, last.pools != t.pools, last.used != t.used);
    }
  }

  /** The words of the pass are the encodings under the tables it leaves. */
  ghost predicate RightWords(stmts: seq<Stmt>, r: Run) {
    r.words == AllAssembled(stmts, |stmts|, r.t, Start(r.t)).words
  }

  /** Nothing is worked out from what the pass has moved. */
  ghost predicate NoneReads(stmts: seq<Stmt>, before: Tables, after: Tables) {
    forall i :: 0 <= i < |stmts| ==> IgnoresMoved(stmts[i], after.pools != before.pools, after.used != before.used)
  }

  /** A pass that asks for no other has emitted every word as its encoding under the tables it leaves,
      unless one is worked out from a pool position or a high-water mark, and one of that kind moved. */
  lemma {:induction false} QuietWords(stmts: seq<Stmt>, rules: Rules, t: Tables)
    requires Ready(stmts, t)
    ensures var r := Pass(stmts, rules, t);
            !r.repeat && NoneReads(stmts, t, r.t) ==> RightWords(stmts, r)
  {
    var r, b := Pass(stmts, rules, t), Begin(t, rules);
    if !r.repeat && NoneReads(stmts, t, r.t) {
      ReadyBegun(stmts, rules, t);
      QuietPass(stmts, rules, t);
      AllDrift(stmts, |stmts|, b.t, b);
      assert Quiet(stmts, b.t, b);
      AllIgnore(stmts, |stmts|, b.t, b);
    }
  }

  // ---------------------------------------------------------------- the bytes of the literals

  /** The bytes of each literal are a function of its value, as they are for every type of constant but an
      address in a section that does not stand at zero. */
  ghost predicate Determined(s: Stmt, encode: (nat, nat, int) -> seq<int>) {
    s.Code? && s.literal.Some? ==>
      forall t, l :: s.literal.value.bytes(t, l) == encode(l.pool, s.literal.value.index, s.literal.value.value(t, l))
  }

  ghost predicate Encoded(t: Tables, encode: (nat, nat, int) -> seq<int>) {
    forall key :: key in t.literals ==> t.literals[key].bytes == encode(key.0, key.1, t.literals[key].value)
  }

  lemma {:induction false} StoredEncoded(s: Stmt, r: Run, encode: (nat, nat, int) -> seq<int>)
    requires s.Code? && Determined(s, encode) && Encoded(r.t, encode)
    ensures Stored(r, s.literal).Some? ==> Encoded(Stored(r, s.literal).value.t, encode)
  {
  }

  lemma {:induction false} StepEncoded(s: Stmt, r: Run, encode: (nat, nat, int) -> seq<int>)
    requires Determined(s, encode) && Encoded(r.t, encode)
    ensures Encoded(Exec(s, r).t, encode)
  {
    match s {
      case Code(name, alignment, literal, word) =>
        StoredEncoded(s, Recorded(Moved(r, PadTo(Pos(r.l), alignment)), name), encode);
      case Equ(equ, value) =>
      case Csect(sect) =>
      case Using(bases) =>
      case Ltorg(size) =>
    }
  }

  lemma {:induction false} AllEncoded(stmts: seq<Stmt>, n: nat, r: Run, encode: (nat, nat, int) -> seq<int>)
    requires n <= |stmts| && Encoded(r.t, encode) && forall i :: 0 <= i < n ==> Determined(stmts[i], encode)
    ensures Encoded(ExecAll(stmts, n, r).t, encode)
  {
    hide Exec, Determined, Encoded;
    if n > 0 {
      AllEncoded(stmts, n - 1, r, encode);
      StepEncoded(stmts[n - 1], ExecAll(stmts, n - 1, r), encode);
    }
  }

  /** Then every pass leaves bytes that encode the values. */
  lemma {:induction false} PassEncoded(stmts: seq<Stmt>, rules: Rules, t: Tables, encode: (nat, nat, int) -> seq<int>)
    requires Encoded(t, encode) && forall i :: 0 <= i < |stmts| ==> Determined(stmts[i], encode)
    ensures Encoded(Pass(stmts, rules, t).t, encode)
  {
    AllEncoded(stmts, |stmts|, Begin(t, rules), encode);
  }

  /** One section, standing at zero. */
  const ONE_SECTION := Rules((used, pools) => [0], (used, pools) => [0])

  function OneSection(pools: seq<nat>, used: nat): Tables { Tables(map[], map[], map[], [0], pools, [used], [0]) }

  lemma {:induction false} TwoStatements(stmts: seq<Stmt>, t: Tables)
    requires |stmts| == 2 && |t.used| == 1 && t.prelim == [0]
    ensures var b, f := Run(t, Local(0, [0], map[], 0), [], false), Frozen(Local(0, [0], map[], 0), []);
            && Pass(stmts, ONE_SECTION, t) == Finish(Exec(stmts[1], Exec(stmts[0], b)), ONE_SECTION)
            && AllAssembled(stmts, 2, t, Start(t)) == Assembled(stmts[1], t, Assembled(stmts[0], t, f))
  {
    assert Repeat(0, 1) == [0];
    var b := Begin(t, ONE_SECTION);
    assert b == Run(t, Local(0, [0], map[], 0), [], false);
    assert ExecAll(stmts, 1, b) == Exec(stmts[0], ExecAll(stmts, 0, b));
    assert ExecAll(stmts, 2, b) == Exec(stmts[1], ExecAll(stmts, 1, b));
    assert AllAssembled(stmts, 1, t, Start(t)) == Assembled(stmts[0], t, Start(t));
  }

  function Greater(x: nat, y: nat): nat { if x < y then y else x }

  function Bytes(word: (Tables, Local) -> seq<int>): Stmt { Code("", 1, None, word) }

  lemma {:induction false} EmitsBytes(word: (Tables, Local) -> seq<int>, t: Tables, p: nat, words: seq<Emitted>)
    requires |t.used| == 1
    ensures var l := Local(0, [p], map[], 0);
            var w, next := word(t, l), Local(0, [p + |word(t, l)|], map[], 0);
            && Assembled(Bytes(word), t, Frozen(l, words)) == Frozen(next, words + [Emitted(Place(0, p), w)])
            && (p <= t.used[0] ==>
                  Exec(Bytes(word), Run(t, l, words, false)) ==
                  Run(t.(used := [Greater(t.used[0], p + |w|)]), next, words + [Emitted(Place(0, p), w)], false))
  {
    var r := Run(t, Local(0, [p], map[], 0), words, false);
    assert MoveTo(r.l, p) == r.l;
    assert p <= t.used[0] ==> Moved(r, p) == r;
    assert t.used[0 := t.used[0]] == t.used;
  }

  function PoolsPlace(t: Tables, l: Local): seq<int> { if |t.pools| > 0 then [t.pools[0]] else [] }

  /** One byte that names the position of the first literal pool, and the pool right behind it. */
  const POOL_BEHIND := [Bytes(PoolsPlace), Ltorg(4)]

  lemma {:induction false} PoolRecorded(before: nat, words: seq<Emitted>)
    ensures Exec(Ltorg(4), Run(OneSection([before], 8), Local(0, [1], map[], 0), words, false)) ==
            Run(OneSection([4], 8), Local(0, [8], map[], 1), words, false)
  {
    assert PadTo(1, 4) == 4;
  }

  /** A pool that moves and a word that is worked out from it: the pass records the pool anew, asks for no
      other, and has emitted a word that is not its encoding under the tables it leaves. */
  lemma {:induction false} QuietAndWrong(before: nat)
    requires before != 4
    ensures var r := Pass(POOL_BEHIND, ONE_SECTION, OneSection([before], 8));
            && !r.repeat && r.t == OneSection([4], 8)
            && r.words == [Emitted(Place(0, 0), [before])]
            && AllAssembled(POOL_BEHIND, 2, r.t, Start(r.t)).words == [Emitted(Place(0, 0), [4])]
  {
    var t, last := OneSection([before], 8), OneSection([4], 8);
    TwoStatements(POOL_BEHIND, t);
    TwoStatements(POOL_BEHIND, last);
    EmitsBytes(PoolsPlace, t, 0, []);
    EmitsBytes(PoolsPlace, last, 0, []);
    PoolRecorded(before, [Emitted(Place(0, 0), [before])]);
  }

  function MarksPlace(t: Tables, l: Local): seq<int> { if |t.used| > 0 then [t.used[0]] else [] }

  function OneByte(t: Tables, l: Local): seq<int> { [0] }

  /** One byte that names the section's high-water mark, and a byte behind it. */
  const MARK_AHEAD := [Bytes(MarksPlace), Bytes(OneByte)]

  function At(p: nat): Local { Local(0, [p], map[], 0) }

  lemma {:induction false} MarkPass(before: nat)
    requires before < 2
    ensures Pass(MARK_AHEAD, ONE_SECTION, OneSection([], before)) ==
            Run(OneSection([], 2), At(2), [Emitted(Place(0, 0), [before]), Emitted(Place(0, 1), [0])], false)
  {
    var t, mid, words := OneSection([], before), OneSection([], 1), [Emitted(Place(0, 0), [before])];
    TwoStatements(MARK_AHEAD, t);
    assert Exec(MARK_AHEAD[0], Run(t, At(0), [], false)) == Run(mid, At(1), words, false) by {
      EmitsBytes(MarksPlace, t, 0, []);
    }
    assert Exec(MARK_AHEAD[1], Run(mid, At(1), words, false)) ==
           Run(OneSection([], 2), At(2), words + [Emitted(Place(0, 1), [0])], false) by {
      EmitsBytes(OneByte, mid, 1, words);
    }
  }

  lemma {:induction false} MarkFrozen()
    ensures var t := OneSection([], 2);
            AllAssembled(MARK_AHEAD, 2, t, Start(t)).words == [Emitted(Place(0, 0), [2]), Emitted(Place(0, 1), [0])]
  {
    var t := OneSection([], 2);
    TwoStatements(MARK_AHEAD, t);
    EmitsBytes(MarksPlace, t, 0, []);
    EmitsBytes(OneByte, t, 1, [Emitted(Place(0, 0), [2])]);
  }

  /** The same when nothing but a high-water mark moves. */
  lemma {:induction false} GrownAndWrong(before: nat)
    requires before < 2
    ensures var r := Pass(MARK_AHEAD, ONE_SECTION, OneSection([], before));
            && !r.repeat && r.t == OneSection([], 2)
            && r.words == [Emitted(Place(0, 0), [before]), Emitted(Place(0, 1), [0])]
            && AllAssembled(MARK_AHEAD, 2, r.t, Start(r.t)).words ==
                [Emitted(Place(0, 0), [2]), Emitted(Place(0, 1), [0])]
  {
    MarkPass(before);
    MarkFrozen();
  }

  /** A halfword literal that names an address in the only section: its value is the address under the
      section's hash, its bytes the address behind the section's offset. */
  function Address(t: Tables, l: Local): int { 0 }

  function Placed(t: Tables, l: Local): seq<int> { if |t.offsets| > 0 then [t.offsets[0]] else [] }

  /** A statement that refers to such a literal. */
  const ADDRESS_LITERAL := [Code("", 1, Some(Literal(0, Address, Placed)), OneByte)]

  /** The section is placed at `k`. */
  function PlacedAt(k: int): Rules {
    Rules((used: seq<nat>, pools: seq<nat>) => [0], (used: seq<nat>, pools: seq<nat>) => [k])
  }

  function WithLiteral(offset: int, bytes: seq<int>): Tables {
    Tables(map[], map[], map[(0, 0) := Held(0, bytes)], [offset], [], [1], [0])
  }

  lemma {:induction false} LiteralKept(rules: Rules, offset: int, bytes: seq<int>)
    requires rules.prelim([1], []) == [0]
    ensures var t := WithLiteral(offset, bytes);
            Pass(ADDRESS_LITERAL, rules, t) ==
            Finish(Run(t, At(1), [Emitted(Place(0, 0), [0])], false), rules)
  {
    var t := WithLiteral(offset, bytes);
    var b := Begin(t, rules);
    assert Repeat(0, 1) == [0];
    assert b == Run(t, At(0), [], false);
    assert ExecAll(ADDRESS_LITERAL, 1, b) == Exec(ADDRESS_LITERAL[0], ExecAll(ADDRESS_LITERAL, 0, b));
    assert Moved(b, 0) == b;
    assert Stored(b, ADDRESS_LITERAL[0].literal) == Some(b);
  }

  /** The literal's bytes are made when its value is stored, and only a changed value is.  Here the section
      moves from `before` to `k`, which asks for another pass; that pass asks for no other and leaves the
      tables it began with, but the literal still has the bytes of the section's old place. */
  lemma {:induction false} StaleLiteral(before: int, k: int)
    requires before != k
    ensures var first := Pass(ADDRESS_LITERAL, PlacedAt(k), WithLiteral(before, [before]));
            && first.repeat && first.t == WithLiteral(k, [before])
            && Pass(ADDRESS_LITERAL, PlacedAt(k), first.t).t == first.t
            && !Pass(ADDRESS_LITERAL, PlacedAt(k), first.t).repeat
            && first.t.literals[(0, 0)].bytes == [before] != [k] == Placed(first.t, At(0))
  {
    LiteralKept(PlacedAt(k), before, [before]);
    LiteralKept(PlacedAt(k), k, [before]);
  }

  // ---------------------------------------------------------------- the loop

  const MOST_PASSES := 20

  /** The tables after pass `n`, `t` being those the two collecting passes left. */
  function After(stmts: seq<Stmt>, rules: Rules, t: Tables, n: nat): Tables {
    if n <= 2 then t else Pass(stmts, rules, After(stmts, rules, t, n - 1)).t
  }

  lemma {:induction false} ReadyPasses(stmts: seq<Stmt>, rules: Rules, t: Tables, n: nat)
    requires Ready(stmts, t)
    ensures Ready(stmts, After(stmts, rules, t, n))
  {
    if n > 2 { ReadyAfter(stmts, rules, After(stmts, rules, t, n - 1)); }
  }

  /** If the last pass asked for no other, every word is its encoding under the final tables unless one is
      worked out from a pool position or a high-water mark that moved; and if it left those alone, another
      pass would change nothing. */
  lemma {:induction false} LastOfPasses(stmts: seq<Stmt>, rules: Rules, t: Tables, n: nat)
    requires Ready(stmts, t)
    ensures var before := After(stmts, rules, t, n);
            var r := Pass(stmts, rules, before);
            && (!r.repeat && NoneReads(stmts, before, r.t) ==> RightWords(stmts, r))
            && EndsWell(stmts, rules, before, r)
  {
    ReadyPasses(stmts, rules, t, n);
    QuietWords(stmts, rules, After(stmts, rules, t, n));
    LastPass(stmts, rules, After(stmts, rules, t, n));
  }

  /** In particular, where the last pass left the pools where they were, statements may be worked out from
      labels, EQUs, literals, section offsets and pool positions, and yet every word is right. */
  lemma {:induction false} FixedPools(stmts: seq<Stmt>, rules: Rules, t: Tables, n: nat)
    requires Ready(stmts, t) && forall i :: 0 <= i < |stmts| ==> IgnoresMoved(stmts[i], false, true)
    ensures var before := After(stmts, rules, t, n);
            var r := Pass(stmts, rules, before);
            !r.repeat && r.t.pools == before.pools ==> RightWords(stmts, r)
  {
    LastOfPasses(stmts, rules, t, n);
    var before := After(stmts, rules, t, n);
    var r := Pass(stmts, rules, before);
    if r.t.pools == before.pools {
      forall i | 0 <= i < |stmts| ensures IgnoresMoved(stmts[i], r.t.pools != before.pools, r.t.used != before.used) {
        IgnoresLess(stmts[i], r.t.used != before.used);
      }
    }
  }

  lemma {:induction false} IgnoresLess(s: Stmt, used: bool)
    requires IgnoresMoved(s, false, true)
    ensures IgnoresMoved(s, false, used)
  {
    assert forall a, b :: OnlyMoved(a, b, false, used) ==> OnlyMoved(a, b, false, true);
  }

  lemma {:induction false} AfterNext(stmts: seq<Stmt>, rules: Rules, t: Tables, before: Tables, n: nat)
    requires n >= 2 && before == After(stmts, rules, t, n)
    ensures Pass(stmts, rules, before).t == After(stmts, rules, t, n + 1)
  {
  }

  /** The dictionaries the passes share. */
  class Assembler {
    var labels: map<string, Label>
    var equs: map<string, int>
    var literals: map<(nat, nat), Held>
    var offsets: seq<int>
    var pools: seq<nat>
    var used: seq<nat>
    var prelim: seq<int>
    var sect: nat
    var pos: seq<nat>
    var using: map<nat, int>
    var literalPoolNumber: nat
    var emitted: seq<Emitted>
    var repeatPass: bool

    constructor (t: Tables)
      ensures Shared() == t
    {
      labels, equs, literals, offsets, pools, used, prelim := t.labels, t.equs, t.literals, t.offsets, t.pools,
          t.used, t.prelim;
      sect, pos, using, literalPoolNumber, emitted, repeatPass := 0, [], map[], 0, [], false;
    }

    function Shared(): Tables
      reads this
    {
      Tables(labels, equs, literals, offsets, pools, used, prelim)
    }

    function State(): Run
      reads this
    {
      Run(Shared(), Local(sect, pos, using, literalPoolNumber), emitted, repeatPass)
    }

    /** `pos1` set, and `used` with it. */
    method Advance(p: nat)
      modifies `pos, `used
      ensures State() == Moved(old(State()), p)
    {
      if sect < |pos| { pos := pos[sect := p]; }
      if sect < |used| && used[sect] < p { used := used[sect := p]; }
    }

    method Record(name: string)
      modifies `labels, `repeatPass
      ensures State() == Recorded(old(State()), name)
    {
      if name != "" && name in labels {
        var here := Here(State().l);
        if !labels[name].preliminary && labels[name].place != here {
          repeatPass := true;
        }
        labels := labels[name := Label(here, false)];
      }
    }

    /** A literal's value brought up to date; false if its pool does not hold it. */
    method Store(literal: Option<Literal>) returns (held: bool)
      modifies `literals, `repeatPass
      ensures held == Stored(old(State()), literal).Some?
      ensures held ==> State() == Stored(old(State()), literal).value
      ensures !held ==> State() == old(State())
    {
      if literal.Some? {
        var key := (literalPoolNumber, literal.value.index);
        if key !in literals { return false; }
        var v := literal.value.value(Shared(), State().l);
        if literals[key].value != v {
          literals := literals[key := Held(v, literal.value.bytes(Shared(), State().l))];
          repeatPass := true;
        }
      }
      return true;
    }

    method AssembleCode(s: Stmt)
      requires s.Code?
      modifies this
      ensures State() == Exec(s, old(State()))
    {
      Advance(PadTo(Pos(State().l), s.alignment));
      Record(s.name);
      var held := Store(s.literal);
      if held {
        var data := s.word(Shared(), State().l);
        ghost var stored := State();
        emitted := emitted + [Emitted(Here(State().l), data)];
        Advance(Pos(State().l) + |data|);
        assert State() == Emit(stored, data);
      }
    }

    method AssembleEqu(s: Stmt)
      requires s.Equ?
      modifies `equs, `repeatPass
      ensures State() == Exec(s, old(State()))
    {
      var v := s.value(Shared(), State().l);
      if v.Some? {
        if s.equ !in equs || equs[s.equ] != v.value {
          repeatPass := true;
        }
        equs := equs[s.equ := v.value];
      }
    }

    method AssembleLtorg(s: Stmt)
      requires s.Ltorg?
      modifies this
      ensures State() == Exec(s, old(State()))
    {
      Advance(PadTo(Pos(State().l), 4));
      var p := Pos(State().l);
      if literalPoolNumber < |pools| {
        pools := pools[literalPoolNumber := p];
      }
      if sect < |pos| { pos := pos[sect := p + s.size]; }
      literalPoolNumber := literalPoolNumber + 1;
    }

    method Assemble(s: Stmt)
      modifies this
      ensures State() == Exec(s, old(State()))
    {
      match s {
        case Code(name, alignment, literal, word) => AssembleCode(s);
        case Equ(equ, value) => AssembleEqu(s);
        case Csect(section) => sect := section;
        case Using(bases) => using := bases(Shared(), State().l);
        case Ltorg(size) => AssembleLtorg(s);
      }
    }

    method AssembleAll(stmts: seq<Stmt>)
      modifies this
      ensures State() == ExecAll(stmts, |stmts|, old(State()))
    {
      for i := 0 to |stmts|
        invariant State() == ExecAll(stmts, i, old(State()))
      {
        Assemble(stmts[i]);
      }
    }

    method BeginPass(rules: Rules)
      modifies this
      ensures State() == Begin(old(Shared()), rules)
    {
      repeatPass, emitted := false, [];
      prelim := rules.prelim(used, pools);
      sect, pos, using, literalPoolNumber := 0, Repeat(0, |used|), map[], 0;
    }

    /** The sections are placed. */
    method FinishPass(rules: Rules)
      modifies `offsets, `repeatPass
      ensures State() == Finish(old(State()), rules)
    {
      var previousOffsets := offsets;
      offsets := rules.place(used, pools);
      if previousOffsets != offsets {
        repeatPass := true;
      }
    }

    method CompilePass(stmts: seq<Stmt>, rules: Rules)
      modifies this
      ensures State() == Pass(stmts, rules, old(Shared()))
    {
      hide Exec;
      BeginPass(rules);
      AssembleAll(stmts);
      FinishPass(rules);
    }

    /** The state is that after pass `n`. */
    ghost predicate Chained(stmts: seq<Stmt>, rules: Rules, t: Tables, n: nat)
      reads this
    {
      && Shared() == After(stmts, rules, t, n)
      && (n > 2 ==> State() == Pass(stmts, rules, After(stmts, rules, t, n - 1)))
    }

    method NextPass(stmts: seq<Stmt>, rules: Rules, ghost t: Tables, ghost n: nat)
      requires n >= 3 && Chained(stmts, rules, t, n - 1)
      modifies this
      ensures Chained(stmts, rules, t, n)
    {
      ghost var before := Shared();
      CompilePass(stmts, rules);
      AfterNext(stmts, rules, t, before, n - 1);
    }

    /** Pass 3 and the passes it asks for, 20 at most; LastOfPasses says what the last one leaves. */
    method Passes(stmts: seq<Stmt>, rules: Rules) returns (passCount: nat)
      modifies this
      ensures 3 <= passCount <= 20 && (repeatPass ==> passCount == 20)
      ensures Chained(stmts, rules, old(Shared()), passCount)
    {
      hide Pass;
      ghost var t := Shared();
      repeatPass := false;
      passCount := 2;
      while passCount < 3 || (repeatPass && passCount < MOST_PASSES)
        invariant 2 <= passCount <= MOST_PASSES && Chained(stmts, rules, t, passCount)
        decreases MOST_PASSES - passCount
      {
        passCount := passCount + 1;
        NextPass(stmts, rules, t, passCount);
      }
    }
  }
}
