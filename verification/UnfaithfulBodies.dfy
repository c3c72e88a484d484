/**
  Every body that is not faithful goes wrong: two branches are enough to make the reader of conditional
  assembly execute something else than an interpreter that goes straight to the labels.
 */
module UnfaithfulBodies {
  import opened Wrappers
  import opened ConditionalAssembly

  /** Whatever the statements do, the reader does what the reference does. */
  ghost predicate AlwaysAgrees(body: seq<Card>) {
    forall machine: Machine<()>, resets: (()) -> nat, actr0: int ::
        ActrBounded(machine, resets) && NamesTargets(machine) ==>
      Lazy(body, machine, resets, Fresh((), actr0)) == Plain(body, machine, resets, 0, (), actr0)
  }

  function Never(s: ()): nat { 0 }

  /** The cards at `k` and `l` branch, every other one goes on. */
  function Jumps(k: nat, first: string, l: nat, second: string): Machine<()> {
    (s: (), c: nat) => ((), if c == k then Branch(first) else if c == l then Branch(second) else Next)
  }

  lemma {:induction false} NextSame(body: seq<Card>, a: nat, b: nat)
    requires a <= |body| && a <= b <= NextStatement(body, a)
    ensures NextStatement(body, b) == NextStatement(body, a)
  {
  }

  lemma {:induction false} ExecutedApart<S>(l: nat, a: Report<S>, b: Report<S>)
    requires a != b
    ensures Executed(l, a) != Executed(l, b)
  {
    assert ([l] + a.executed)[1..] == a.executed && ([l] + b.executed)[1..] == b.executed;
  }

  /** Cards that are no statements are passed over. */
  lemma {:induction false} LazySkips<S(!new)>(body: seq<Card>, machine: Machine<S>, resets: S -> nat, r: Reader<S>)
    requires ActrBounded(machine, resets) && r.next <= |body| && r.skipTo.None? && r.skipCount == 0
    ensures Lazy(body, machine, resets, r) == Lazy(body, machine, resets, r.(next := NextStatement(body, r.next)))
    decreases |body| - r.next
  {
    if r.next < |body| && !Statement(body, r.next) {
      assert Passed(body, r) == Some(r.(next := r.next + 1));
      LazySkips(body, machine, resets, r.(next := r.next + 1));
    }
  }

  /** The table once the cards from `from` to before `to` have been scanned past. */
  function NotedTo(body: seq<Card>, sequence: map<string, nat>, from: nat, to: nat): map<string, nat>
    requires from <= to <= |body|
    decreases |body| - from
  {
    if from == to then sequence else NotedTo(body, Noted(sequence, body[from].token, from), from + 1, to)
  }

  lemma {:induction false} NotedKeeps(body: seq<Card>, sequence: map<string, nat>, from: nat, to: nat, x: string)
    requires from <= to <= |body| && x in sequence
    ensures x in NotedTo(body, sequence, from, to) && NotedTo(body, sequence, from, to)[x] == sequence[x]
    decreases |body| - from
  {
    if from < to {
      NotedKeeps(body, Noted(sequence, body[from].token, from), from + 1, to, x);
    }
  }

  /** A symbol not in the table is recorded by the first card that bears it. */
  lemma {:induction false} NotedFirst(body: seq<Card>, sequence: map<string, nat>, from: nat, to: nat, n: nat)
      returns (k: nat)
    requires from <= n < to <= |body| && body[n].token != "" && body[n].token !in sequence
    ensures from <= k <= n && body[k].token == body[n].token
    ensures body[n].token in NotedTo(body, sequence, from, to) && NotedTo(body, sequence, from, to)[body[n].token] == k
    decreases |body| - from
  {
    if body[from].token == body[n].token {
      k := from;
      NotedKeeps(body, Noted(sequence, body[from].token, from), from + 1, to, body[n].token);
    } else {
      k := NotedFirst(body, Noted(sequence, body[from].token, from), from + 1, to, n);
    }
  }

  /** A scan from the next card to card `m`. */
  function Scanned<S>(body: seq<Card>, r: Reader<S>, m: nat): Reader<S>
    requires r.next <= m <= |body|
  {
    r.(next := m, sequence := NotedTo(body, r.sequence, r.next, m))
  }

  lemma {:induction false} LazyScans<S(!new)>(body: seq<Card>, machine: Machine<S>, resets: S -> nat, r: Reader<S>,
                                              m: nat)
    requires ActrBounded(machine, resets) && r.next <= m <= |body| && r.skipTo.Some?
    requires forall k :: r.next <= k < m ==> !Matches(body[k], r.skipTo.value)
    ensures Lazy(body, machine, resets, r) == Lazy(body, machine, resets, Scanned(body, r, m))
    decreases |body| - r.next
  {
    if r.next < m {
      var q := Passed(body, r).value;
      assert q == r.(next := r.next + 1, sequence := Noted(r.sequence, body[r.next].token, r.next));
      LazyPasses(body, machine, resets, r);
      LazyScans(body, machine, resets, q, m);
      assert Scanned(body, q, m) == Scanned(body, r, m);
    }
  }

  /** A scan that stops goes on reading with the next statement. */
  lemma {:induction false} LazyStops<S(!new)>(body: seq<Card>, machine: Machine<S>, resets: S -> nat, r: Reader<S>)
    requires ActrBounded(machine, resets) && r.next < |body| && r.skipTo.Some? && r.skipCount == 0
    requires Matches(body[r.next], r.skipTo.value)
    ensures Lazy(body, machine, resets, r) ==
            Lazy(body, machine, resets, r.(next := NextStatement(body, r.next), skipTo := None))
  {
    if Statement(body, r.next) {
      LazyActs(body, machine, resets, r);
      LazyActs(body, machine, resets, r.(skipTo := None));
      assert Parsed(body, r) == Parsed(body, r.(skipTo := None));
    } else {
      assert Passed(body, r) == Some(r.(next := r.next + 1, skipTo := None));
      LazyPasses(body, machine, resets, r);
      LazySkips(body, machine, resets, r.(next := r.next + 1, skipTo := None));
    }
  }

  /** At a statement that is not the one the label is on, or at the end, the reader does not do what the
      reference does at the label. */
  lemma {:induction false} Apart<S(!new)>(body: seq<Card>, machine: Machine<S>, resets: S -> nat, r: Reader<S>,
                                          target: string)
    requires ActrBounded(machine, resets) && r.next <= |body| && NextStatement(body, r.next) == r.next
    requires r.skipTo.None? && r.skipCount == 0 && !(r.next == LineOf(body, target, 0) < |body|)
    ensures Lazy(body, machine, resets, r) != Arrive(body, machine, resets, target, r.store, r.actr)
  {
    var l := LineOf(body, target, 0);
    if r.next < |body| {
      LazyActs(body, machine, resets, r);
      assert Lazy(body, machine, resets, r).executed[0] == r.next;
    } else {
      assert Lazy(body, machine, resets, r) == Report([], r.store, Finished);
    }
    if l < |body| {
      PlainActs(body, machine, resets, l, r.store, r.actr);
      assert Plain(body, machine, resets, l, r.store, r.actr).executed[0] == l;
    }
  }

  lemma {:induction false} ScanApart<S(!new)>(body: seq<Card>, machine: Machine<S>, resets: S -> nat, r: Reader<S>,
                                              target: string)
    requires ActrBounded(machine, resets) && r.next <= |body| && r.skipTo == Some(target) && r.skipCount == 0
    requires !LandsRight(body, target, r.next)
    ensures Lazy(body, machine, resets, r) != Arrive(body, machine, resets, target, r.store, r.actr)
  {
    var m, l := FirstMatch(body, target, r.next), LineOf(body, target, 0);
    var q := Scanned(body, r, m);
    LazyScans(body, machine, resets, r, m);
    if m < |body| {
      LazyStops(body, machine, resets, q);
      Apart(body, machine, resets, q.(next := NextStatement(body, m), skipTo := None), target);
    } else {
      assert Lazy(body, machine, resets, q) == Report([], r.store, NotFound(target));
      PlainActs(body, machine, resets, l, r.store, r.actr);
    }
  }

  /** The table when the first statement has been read. */
  function Opened(body: seq<Card>, f: nat): map<string, nat>
    requires f < |body|
  {
    if body[f].token != "" && body[f].column1 then map[body[f].token := f] else map[]
  }

  lemma {:induction false} NotOpened(body: seq<Card>, f: nat, x: string)
    requires f < |body| && Statement(body, f) && x != "" && LineOf(body, x, 0) > f
    ensures x !in Opened(body, f)
  {
  }

  /** The first statement branches to a symbol it does not define. */
  lemma {:induction false} FirstBranch(body: seq<Card>, machine: Machine<()>, resets: (()) -> nat, f: nat,
                                       target: string, actr0: int)
    requires ActrBounded(machine, resets) && f == NextStatement(body, 0) < |body| && target != "" && actr0 > 0
    requires machine((), f) == ((), Branch(target)) && LineOf(body, target, 0) > f
    ensures Lazy(body, machine, resets, Fresh((), actr0)) ==
            Executed(f, Lazy(body, machine, resets, Reader(f + 1, Some(target), 0, Opened(body, f), (), actr0 - 1)))
    ensures Plain(body, machine, resets, 0, (), actr0) ==
            Executed(f, Arrive(body, machine, resets, target, (), actr0 - 1))
    ensures target !in Opened(body, f)
  {
    var r: Reader<()> := Fresh((), actr0).(next := f);
    hide Lazy, Plain;
    NotOpened(body, f, target);
    LazySkips(body, machine, resets, Fresh((), actr0));
    LazyActs(body, machine, resets, r);
    PlainSkips(body, machine, resets, 0, (), actr0);
    PlainActs(body, machine, resets, f, (), actr0);
  }

  lemma {:induction false} JumpsFit(k: nat, first: string, l: nat, second: string)
    requires first != "" && second != ""
    ensures ActrBounded(Jumps(k, first, l, second), Never) && NamesTargets(Jumps(k, first, l, second))
  {
  }

  /** The machine shows that the reader and the reference differ. */
  ghost predicate Differs(body: seq<Card>, machine: Machine<()>, actr0: int) {
    && ActrBounded(machine, Never) && NamesTargets(machine)
    && Lazy(body, machine, Never, Fresh((), actr0)) != Plain(body, machine, Never, 0, (), actr0)
  }

  lemma {:induction false} ScanFails(body: seq<Card>, target: string)
    requires target != "" && NextStatement(body, 0) < |body|
    requires NextStatement(body, 0) < LineOf(body, target, 0) && !LandsRight(body, target, NextStatement(body, 0) + 1)
    ensures Differs(body, Jumps(NextStatement(body, 0), target, 0, target), 1)
  {
    var f := NextStatement(body, 0);
    var machine := Jumps(f, target, 0, target);
    JumpsFit(f, target, 0, target);
    FirstBranch(body, machine, Never, f, target, 1);
    var q: Reader<()> := Reader(f + 1, Some(target), 0, Opened(body, f), (), 0);
    ScanApart(body, machine, Never, q, target);
    ExecutedApart(f, Lazy(body, machine, Never, q), Arrive(body, machine, Never, target, (), 0));
  }

  lemma {:induction false} MisleadsFails(body: seq<Card>, n: nat)
    requires Misleads(body, n)
    ensures !LandsRight(body, body[n].token, NextStatement(body, 0) + 1)
  {
    var k := FirstMatch(body, body[n].token, NextStatement(body, 0) + 1);
    assert k <= n;
    if Leads(body, k, body[n].token) {
      NextSame(body, k, n);
    }
  }

  lemma {:induction false} LostFails(body: seq<Card>, l: nat)
    requires UniqueLabels(body) && Lost(body, l)
    ensures LineOf(body, body[l].token, 0) == l && !LandsRight(body, body[l].token, NextStatement(body, 0) + 1)
  {
    LabelLeads(body, l);
  }

  /** The scan for the symbol of card `m` starts at the first statement, passes card `n` and stops at a
      card that leads to the label. */
  lemma {:induction false} MistakenScan(body: seq<Card>, n: nat, m: nat)
    requires UniqueLabels(body) && Direct(body) && Mistaken(body, n, m)
    ensures var k := FirstMatch(body, body[m].token, NextStatement(body, 0) + 1);
            n < k < |body| && Leads(body, k, body[m].token)
  {
    ScanLands(body, body[m].token, NextStatement(body, 0));
  }

  lemma {:induction false} FirstMisplaced(body: seq<Card>, n: nat, k: nat)
    requires k <= n < |body| && LineOf(body, body[n].token, 0) >= n && !Leads(body, n, body[n].token)
    ensures !Leads(body, k, body[n].token)
  {
    if Leads(body, k, body[n].token) {
      NextSame(body, k, n);
    }
  }

  lemma {:induction false} NotLeading(body: seq<Card>, k: nat, target: string)
    requires k < |body| && !Leads(body, k, target)
    ensures var l := NextStatement(body, k);
            NextStatement(body, l) == l && !(l == LineOf(body, target, 0) < |body|)
  {
    NextSame(body, k, NextStatement(body, k));
  }

  /** A branch to a symbol in the table whose card does not lead to the label. */
  lemma {:induction false} WrongBranch(body: seq<Card>, machine: Machine<()>, resets: (()) -> nat, r: Reader<()>,
                                       target: string)
    requires ActrBounded(machine, resets) && r.next < |body| && Statement(body, r.next) && r.actr > 0
    requires r.skipTo.None? && r.skipCount == 0 && machine((), r.next) == ((), Branch(target))
    requires target in r.sequence && r.sequence[target] < |body| && !Leads(body, r.sequence[target], target)
    requires body[r.next].token != target
    ensures Lazy(body, machine, resets, r) != Plain(body, machine, resets, r.next, (), r.actr)
  {
    hide Lazy, Plain, Leads;
    var k := r.sequence[target];
    var q := Branched(Parsed(body, r), target);
    assert r.store == ();
    LazyActs(body, machine, resets, r);
    PlainActs(body, machine, resets, r.next, (), r.actr);
    assert q.next == k && q.skipTo.None? && q.skipCount == 0 && q.actr == r.actr - 1;
    assert Lazy(body, machine, resets, r) == Executed(r.next, Lazy(body, machine, resets, q));
    NotLeading(body, k, target);
    LazySkips(body, machine, resets, q);
    Apart(body, machine, resets, q.(next := NextStatement(body, k)), target);
    ExecutedApart(r.next, Lazy(body, machine, resets, q), Arrive(body, machine, resets, target, (), r.actr - 1));
  }

  /** And leaves a card in the table that does not lead to the label. */
  lemma {:induction false} MistakenTable(body: seq<Card>, n: nat, m: nat, f: nat, k: nat)
    requires Mistaken(body, n, m) && f == NextStatement(body, 0) && n < k <= |body|
    ensures var x, sequence := body[n].token, NotedTo(body, Opened(body, f), f + 1, k);
            x in sequence && sequence[x] < |body| && !Leads(body, sequence[x], x)
  {
    NotOpened(body, f, body[n].token);
    var n0 := NotedFirst(body, Opened(body, f), f + 1, k, n);
    FirstMisplaced(body, n, n0);
  }

  lemma {:induction false} MistakenFails(body: seq<Card>, n: nat, m: nat)
    requires UniqueLabels(body) && Direct(body) && Mistaken(body, n, m)
    ensures Differs(body, Jumps(NextStatement(body, 0), body[m].token, LineOf(body, body[m].token, 0), body[n].token),
            2)
  {
    hide Lazy, Plain, Direct, Leads;
    var f, x, y := NextStatement(body, 0), body[n].token, body[m].token;
    var l, k := LineOf(body, y, 0), FirstMatch(body, y, f + 1);
    var machine := Jumps(f, y, l, x);
    MistakenScan(body, n, m);
    MistakenTable(body, n, m, f, k);
    JumpsFit(f, y, l, x);
    FirstBranch(body, machine, Never, f, y, 2);
    var q: Reader<()> := Reader(f + 1, Some(y), 0, Opened(body, f), (), 1);
    Landing(body, machine, Never, q, k, y);
    WrongBranch(body, machine, Never, Scanned(body, q, k).(next := l, skipTo := None), x);
    ExecutedApart(f, Lazy(body, machine, Never, q), Arrive(body, machine, Never, y, (), 1));
  }

  lemma {:induction false} Landing<S(!new)>(body: seq<Card>, machine: Machine<S>, resets: S -> nat, q: Reader<S>,
                                            k: nat, y: string)
    requires ActrBounded(machine, resets) && q.next <= k < |body| && k == FirstMatch(body, y, q.next)
    requires q.skipTo == Some(y) && q.skipCount == 0 && Leads(body, k, y)
    ensures var l := LineOf(body, y, 0);
            && l < |body| && Statement(body, l) && body[l].token == y && k <= l
            && Lazy(body, machine, resets, q) ==
                Lazy(body, machine, resets, Scanned(body, q, k).(next := l, skipTo := None))
  {
    hide Lazy;
    LazyScans(body, machine, resets, q, k);
    LazyStops(body, machine, resets, Scanned(body, q, k));
  }

  /** With unique labels, the reader does what the reference does for all statements exactly when the body
      is faithful. */
  lemma {:induction false} AgreesExactly(body: seq<Card>)
    requires UniqueLabels(body)
    ensures AlwaysAgrees(body) <==> Faithful(body)
  {
    if Faithful(body) {
      forall machine: Machine<()>, resets: (()) -> nat, actr0: int | ActrBounded(machine, resets) &&
          NamesTargets(machine)
        ensures Lazy(body, machine, resets, Fresh((), actr0)) == Plain(body, machine, resets, 0, (), actr0)
      {
        ReaderRefinesPlain(body, machine, resets, (), actr0);
      }
    } else if n: nat :| Misleads(body, n) {
      MisleadsFails(body, n);
      ScanFails(body, body[n].token);
    } else if l: nat :| Lost(body, l) {
      LostFails(body, l);
      ScanFails(body, body[l].token);
    } else {
      var n: nat, m: nat :| Mistaken(body, n, m);
      MistakenFails(body, n, m);
    }
  }

  /** Where every sequence symbol that begins a card is a label, the reader agrees exactly when each that
      stands behind a statement has a blank after it: one with nothing after it is recorded when it is
      scanned past, but never recognised by the scan.  (The cards of a macro body are padded, so there the
      blank is always present.) */
  lemma {:induction false} BareLabelLost(body: seq<Card>)
    requires UniqueLabels(body) && forall l :: 0 <= l < |body| && body[l].token != "" ==> Defines(body, l)
    ensures AlwaysAgrees(body) <==>
            forall l :: 0 <= l < |body| && body[l].token != "" && Behind(body, l) ==> body[l].blankAfter
  {
    AgreesExactly(body);
    forall l: nat | l < |body| && body[l].token != ""
      ensures !Misleads(body, l) && (forall m: nat :: !Mistaken(body, l, m))
      ensures Lost(body, l) <==> Behind(body, l) && !body[l].blankAfter
    {
      LabelLeads(body, l);
    }
  }

  /** Where every label behind a statement has a blank after it, the reader agrees exactly when no
      continuation card or indented one that begins with a sequence symbol (the target of a continued AIF,
      say) is taken for its definition, by stopping a scan for it or by being recorded in passing. */
  lemma {:induction false} ContinuationMistaken(body: seq<Card>)
    requires UniqueLabels(body) && forall l :: 0 <= l < |body| && Defines(body, l) && Behind(body, l) ==>
             body[l].blankAfter
    ensures AlwaysAgrees(body) <==>
            (forall n: nat :: !Misleads(body, n)) && (forall n: nat, m: nat :: !Mistaken(body, n, m))
  {
    AgreesExactly(body);
    forall l: nat | l < |body| && Defines(body, l) ensures !Lost(body, l) {
      LabelLeads(body, l);
    }
  }
}
