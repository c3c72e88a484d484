/**
  Conditional assembly: reading a body of cards under AIF, AGO, ACTR and MEXIT.  The reader keeps a
  table of the sequence symbols it has met or skipped past and, for a branch to any other, scans
  forward; its reference is a reader that simply goes to the card carrying the label.
 */
module ConditionalAssembly {
  import opened Wrappers

  /** What the reader looks at on one card.  `token` is its first blank-delimited word when that is a
      sequence symbol, else "". */
  datatype Card = Card(
    token: string,
    column1: bool,     // the token starts in column 1
    blankAfter: bool,  // and a blank follows it on the card as read
    comment: bool,     // empty, `*` or `.*` card
    continued: bool,   // the next card continues this one
    joins: bool)       // the statement's operand is joined across its continuation cards

  /** What executing a statement asks for; the store holds whatever the conditions read. */
  datatype Action = Next | Branch(target: string) | SetActr(n: int) | Exit

  /** Executes the statement on a card: the new store, and what to do next. */
  type Machine<!S> = (S, nat) -> (S, Action)

  datatype Outcome = Finished | Exited | Exhausted | NotFound(target: string)

  datatype Report<S> = Report(executed: seq<nat>, store: S, outcome: Outcome)

  predicate Statement(body: seq<Card>, l: nat)
    requires l < |body|
  {
    !body[l].comment && (l == 0 || !body[l - 1].continued)
  }

  /** Cards that continue the statement on card `l`. */
  function Continuations(body: seq<Card>, l: nat): nat
    requires l < |body|
    decreases |body| - l
  {
    if !body[l].continued || l + 1 == |body| then 0 else 1 + Continuations(body, l + 1)
  }

  /** A card the reader takes as the definition of a sequence symbol when it parses it. */
  predicate Defines(body: seq<Card>, l: nat)
    requires l < |body|
  {
    Statement(body, l) && body[l].token != "" && body[l].column1
  }

  ghost predicate Carries(body: seq<Card>, l: nat, target: string)
    requires l < |body|
  {
    Defines(body, l) && body[l].token == target
  }

  ghost predicate UniqueLabels(body: seq<Card>) {
    forall i, j :: 0 <= i < j < |body| && Defines(body, i) && Defines(body, j) ==> body[i].token != body[j].token
  }

  // ---------------------------------------------------------------- the reference

  /** The card carrying a label, or the number of cards when there is none. */
  function LineOf(body: seq<Card>, target: string, from: nat): (r: nat)
    requires from <= |body|
    ensures from <= r <= |body|
    ensures r < |body| ==> Defines(body, r) && body[r].token == target
    ensures forall l :: from <= l < r ==> !(Defines(body, l) && body[l].token == target)
    decreases |body| - from
  {
    if from == |body| then from
    else if Defines(body, from) && body[from].token == target then from
    else LineOf(body, target, from + 1)
  }

  /** A bound, read off the store, on how many more ACTR statements can be executed. */
  ghost predicate ActrBounded<S(!new)>(machine: Machine<S>, resets: S -> nat) {
    forall s, l :: var (t, a) := machine(s, l);
      resets(t) <= resets(s) && (a.SetActr? ==> resets(t) < resets(s))
  }

  /** Every branch names a symbol.  (An AGO without an operand would stop at any blank label field.) */
  ghost predicate NamesTargets<S(!new)>(machine: Machine<S>) {
    forall s, l :: machine(s, l).1.Branch? ==> machine(s, l).1.target != ""
  }

  function Charge(actr: int): nat { if actr < 0 then 0 else actr }

  /** Reading from card `l` on, going straight to the card a branch names. */
  ghost function Plain<S(!new)>(body: seq<Card>, machine: Machine<S>, resets: S -> nat, l: nat, s: S,
                                actr: int): (r: Report<S>)
    requires ActrBounded(machine, resets)
    requires l <= |body|
    decreases resets(s), Charge(actr), |body| - l
  {
    if l == |body| then Report([], s, Finished)
    else if !Statement(body, l) then Plain(body, machine, resets, l + 1, s, actr)
    else
      var (t, a) := machine(s, l);
      match a
      case Next => Executed(l, Plain(body, machine, resets, l + 1, t, actr))
      case SetActr(n) => Executed(l, Plain(body, machine, resets, l + 1, t, n))
      case Exit => Report([l], t, Exited)
      case Branch(target) =>
        if actr - 1 < 0 then Report([l], t, Exhausted)
        else if LineOf(body, target, 0) == |body| then Executed(l, Report([], t, NotFound(target)))
        else Executed(l, Plain(body, machine, resets, LineOf(body, target, 0), t, actr - 1))
  }

  function Executed<S>(l: nat, r: Report<S>): Report<S> {
    r.(executed := [l] + r.executed)
  }

  function Before<S>(done: seq<nat>, r: Report<S>): Report<S> {
    r.(executed := done + r.executed)
  }

  // ---------------------------------------------------------------- the reader

  /** The reader between two cards: the number of the next card, the symbol being scanned for, how many
      continuation cards are still to be skipped, and the table of sequence symbols. */
  datatype Reader<S> = Reader(next: nat, skipTo: Option<string>, skipCount: nat, sequence: map<string, nat>,
                              store: S, actr: int)

  predicate Matches(card: Card, target: string) {
    card.token == target && card.column1 && card.blankAfter
  }

  /** The table with a symbol recorded in passing. */
  function Noted(sequence: map<string, nat>, symbol: string, n: nat): map<string, nat> {
    if symbol != "" && symbol !in sequence then sequence[symbol := n] else sequence
  }

  /** The card is passed over without being executed: scanned past, skipped as a joined continuation,
      a comment, or the continuation of the card before it. */
  function Passed<S>(body: seq<Card>, r: Reader<S>): Option<Reader<S>>
    requires r.next < |body|
  {
    var card, l := body[r.next], r.next;
    if r.skipTo.Some? && !Matches(card, r.skipTo.value) then
      Some(r.(next := l + 1,
              sequence := Noted(r.sequence, card.token, l)))
    else if r.skipCount > 0 then Some(r.(next := l + 1, skipTo := None, skipCount := r.skipCount - 1))
    else if !Statement(body, l) then Some(r.(next := l + 1, skipTo := None))
    else None
  }

  /** Parsing the statement on the next card: its continuations are counted and its label recorded. */
  function Parsed<S>(body: seq<Card>, r: Reader<S>): Reader<S>
    requires r.next < |body|
  {
    var card, l := body[r.next], r.next;
    r.(next := l + 1, skipTo := None,
       skipCount := if card.joins then Continuations(body, l) else 0,
       sequence := if card.token != "" && card.column1 then r.sequence[card.token := l] else r.sequence)
  }

  function Branched<S>(r: Reader<S>, target: string): Reader<S> {
    if target in r.sequence then r.(next := r.sequence[target], skipCount := 0, actr := r.actr - 1)
    else r.(skipTo := Some(target), skipCount := 0, actr := r.actr - 1)
  }

  /** Where reading goes on after an action, if it does. */
  function Taken<S>(r: Reader<S>, a: Action): Option<Reader<S>> {
    match a
    case Next => Some(r)
    case SetActr(n) => Some(r.(actr := n))
    case Exit => None
    case Branch(target) => if r.actr - 1 < 0 then None else Some(Branched(r, target))
  }

  ghost function Lazy<S(!new)>(body: seq<Card>, machine: Machine<S>, resets: S -> nat, r: Reader<S>): Report<S>
    requires ActrBounded(machine, resets)
    decreases resets(r.store), Charge(r.actr), |body| - r.next
  {
    if r.next >= |body| then
      Report([], r.store, match r.skipTo case None => Finished case Some(t) => NotFound(t))
    else
      match Passed(body, r)
      case Some(q) => Lazy(body, machine, resets, q)
      case None =>
        var (t, a) := machine(r.store, r.next);
        match Taken(Parsed(body, r).(store := t), a)
        case Some(q) => Executed(r.next, Lazy(body, machine, resets, q))
        case None => Report([r.next], t, if a.Exit? then Exited else Exhausted)
  }

  function Fresh<S>(s0: S, actr0: int): Reader<S> {
    Reader(0, None, 0, map[], s0, actr0)
  }

  /** The cards the reader visits from here on, executed or not. */
  ghost function Visits<S(!new)>(body: seq<Card>, machine: Machine<S>, resets: S -> nat, r: Reader<S>): nat
    requires ActrBounded(machine, resets)
    decreases resets(r.store), Charge(r.actr), |body| - r.next
  {
    if r.next >= |body| then 0
    else
      match Passed(body, r)
      case Some(q) => 1 + Visits(body, machine, resets, q)
      case None =>
        var (t, a) := machine(r.store, r.next);
        match Taken(Parsed(body, r).(store := t), a)
        case Some(q) => 1 + Visits(body, machine, resets, q)
        case None => 1
  }

  /** What is to be reported, once the cards in `executed` have been executed and `r` is what is left. */
  ghost predicate ToGo<S(!new)>(goal: Report<S>, executed: seq<nat>, body: seq<Card>, machine: Machine<S>,
                                resets: S -> nat, r: Reader<S>)
    requires ActrBounded(machine, resets)
  {
    goal == Before(executed, Lazy(body, machine, resets, r))
  }

  lemma {:induction false} ToGoFirst<S(!new)>(body: seq<Card>, machine: Machine<S>, resets: S -> nat, r: Reader<S>)
    requires ActrBounded(machine, resets)
    ensures ToGo(Lazy(body, machine, resets, r), [], body, machine, resets, r)
  {
  }

  lemma {:induction false} ToGoPassed<S(!new)>(goal: Report<S>, executed: seq<nat>, body: seq<Card>,
                                               machine: Machine<S>, resets: S -> nat, r: Reader<S>, q: Reader<S>)
    requires ActrBounded(machine, resets) && r.next < |body| && Passed(body, r) == Some(q)
    requires ToGo(goal, executed, body, machine, resets, r)
    ensures ToGo(goal, executed, body, machine, resets, q)
  {
  }

  lemma {:induction false} ToGoActed<S(!new)>(goal: Report<S>, executed: seq<nat>, body: seq<Card>, machine: Machine<S>,
                                              resets: S -> nat, r: Reader<S>)
    requires ActrBounded(machine, resets) && r.next < |body| && Passed(body, r).None?
    requires ToGo(goal, executed, body, machine, resets, r)
    ensures var (t, a) := machine(r.store, r.next);
            match Taken(Parsed(body, r).(store := t), a)
            case Some(q) => ToGo(goal, executed + [r.next], body, machine, resets, q)
            case None => goal == Report(executed + [r.next], t, if a.Exit? then Exited else Exhausted)
  {
    var (t, a) := machine(r.store, r.next);
    LazyActs(body, machine, resets, r);
    match Taken(Parsed(body, r).(store := t), a)
    case Some(q) => Regroup(executed, r.next, Lazy(body, machine, resets, q));
    case None =>
  }

  lemma {:induction false} ToGoEnds<S(!new)>(goal: Report<S>, executed: seq<nat>, body: seq<Card>, machine: Machine<S>,
                                             resets: S -> nat, r: Reader<S>)
    requires ActrBounded(machine, resets) && r.next >= |body| && ToGo(goal, executed, body, machine, resets, r)
    ensures goal == Report(executed, r.store, match r.skipTo case None => Finished case Some(t) => NotFound(t))
  {
    assert executed + [] == executed;
  }

  /** The reading loop. */
  method Read<S(!new)>(body: seq<Card>, machine: Machine<S>, ghost resets: S -> nat, s0: S, actr0: int)
    returns (report: Report<S>)
    requires ActrBounded(machine, resets)
    ensures report == Lazy(body, machine, resets, Fresh(s0, actr0))
  {
    hide Lazy, Passed, Continuations, ToGo;
    var store, actr := s0, actr0;
    var sequence: map<string, nat> := map[];
    var executed: seq<nat> := [];
    var skipTo: Option<string> := None;
    var skipCount: nat := 0;
    var next: nat := 0;
    ghost var goal := Lazy(body, machine, resets, Fresh(s0, actr0));
    ToGoFirst(body, machine, resets, Fresh(s0, actr0));
    while next < |body|
      invariant ToGo(goal, executed, body, machine, resets, Reader(next, skipTo, skipCount, sequence, store, actr))
      decreases resets(store), Charge(actr), |body| - next
    {
      ghost var r := Reader(next, skipTo, skipCount, sequence, store, actr);
      var card, l := body[next], next;
      next := next + 1;
      if skipTo.Some? && !Matches(card, skipTo.value) {
        if card.token != "" && card.token !in sequence {
          sequence := sequence[card.token := l];
        }
        ghost var q := Reader(next, skipTo, skipCount, sequence, store, actr);
        PassedIs(body, r, q);
        ToGoPassed(goal, executed, body, machine, resets, r, q);
        continue;
      }
      skipTo := None;
      if skipCount > 0 {
        skipCount := skipCount - 1;
        ghost var q := Reader(next, skipTo, skipCount, sequence, store, actr);
        PassedIs(body, r, q);
        ToGoPassed(goal, executed, body, machine, resets, r, q);
        continue;
      }
      if card.comment || (l > 0 && body[l - 1].continued) {
        ghost var q := Reader(next, skipTo, skipCount, sequence, store, actr);
        PassedIs(body, r, q);
        ToGoPassed(goal, executed, body, machine, resets, r, q);
        continue;
      }
      skipCount := if card.joins then Continuations(body, l) else 0;
      if card.token != "" && card.column1 {
        sequence := sequence[card.token := l];
      }
      PassedNone(body, r, Reader(next, skipTo, skipCount, sequence, store, actr));
      ToGoActed(goal, executed, body, machine, resets, r);
      var (t, action) := machine(store, l);
      executed, store := executed + [l], t;
      match action {
        case Next =>
        case SetActr(n) => actr := n;
        case Exit =>
          return Report(executed, store, Exited);
        case Branch(target) =>
          actr := actr - 1;
          if actr < 0 {
            return Report(executed, store, Exhausted);
          }
          skipCount := 0;
          if target in sequence {
            next := sequence[target];
          } else {
            skipTo := Some(target);
          }
      }
    }
    ToGoEnds(goal, executed, body, machine, resets, Reader(next, skipTo, skipCount, sequence, store, actr));
    report := Report(executed, store, match skipTo case None => Finished case Some(t) => NotFound(t));
  }

  lemma {:induction false} PassedIs<S>(body: seq<Card>, r: Reader<S>, q: Reader<S>)
    requires r.next < |body| && q.next == r.next + 1 && q.store == r.store && q.actr == r.actr
    requires
      if r.skipTo.Some? && !Matches(body[r.next], r.skipTo.value) then
        && q.skipTo == r.skipTo && q.skipCount == r.skipCount
        && q.sequence == Noted(r.sequence, body[r.next].token, r.next)
      else
        && q.skipTo == None && q.sequence == r.sequence && (r.skipCount > 0 || !Statement(body, r.next))
        && q.skipCount == if r.skipCount > 0 then r.skipCount - 1 else r.skipCount
    ensures Passed(body, r) == Some(q)
  {
  }

  lemma {:induction false} PassedNone<S>(body: seq<Card>, r: Reader<S>, q: Reader<S>)
    requires r.next < |body| && Statement(body, r.next) && r.skipCount == 0
    requires r.skipTo.Some? ==> Matches(body[r.next], r.skipTo.value)
    requires q == Parsed(body, r)
    ensures Passed(body, r).None?
  {
  }

  ghost predicate InTable<S>(body: seq<Card>, r: Reader<S>) {
    r.next <= |body| && forall x :: x in r.sequence ==> r.sequence[x] < |body|
  }

  lemma {:induction false} VisitsBounded<S(!new)>(body: seq<Card>, machine: Machine<S>, resets: S -> nat, r: Reader<S>)
    requires ActrBounded(machine, resets) && InTable(body, r) && resets(r.store) == 0
    ensures Visits(body, machine, resets, r) + r.next <= (Charge(r.actr) + 1) * |body|
    decreases Charge(r.actr), |body| - r.next
  {
    if r.next < |body| {
      match Passed(body, r)
      case Some(q) => VisitsBounded(body, machine, resets, q);
      case None =>
        var (t, a) := machine(r.store, r.next);
        var p := Parsed(body, r).(store := t);
        match Taken(p, a)
        case Some(q) =>
          VisitsBounded(body, machine, resets, q);
          Turn(Charge(r.actr), |body|);
        case None =>
    }
  }

  lemma {:induction false} Turn(k: nat, n: nat)
    ensures (k + 1) * n == k * n + n && k * n >= 0
  {
  }

  /** A body of n cards entered with counter K, executing no ACTR, is left after at most (K + 1) * n
      visits to cards, whatever its conditions evaluate to. */
  lemma {:induction false} ReadingTerminates<S(!new)>(body: seq<Card>, machine: Machine<S>, resets: S -> nat, s0: S,
                                                      actr0: int)
    requires ActrBounded(machine, resets) && resets(s0) == 0
    ensures Visits(body, machine, resets, Fresh(s0, actr0)) <= (Charge(actr0) + 1) * |body|
  {
    VisitsBounded(body, machine, resets, Fresh(s0, actr0));
  }

  lemma {:induction false} Regroup<S>(done: seq<nat>, l: nat, r: Report<S>)
    ensures Before(done, Executed(l, r)) == Before(done + [l], r)
  {
    assert done + ([l] + r.executed) == (done + [l]) + r.executed;
  }

  // ---------------------------------------------------------------- where the reader goes wrong

  /** The first statement from card `n` on, or the number of cards when there is none. */
  function NextStatement(body: seq<Card>, n: nat): (r: nat)
    requires n <= |body|
    ensures n <= r <= |body|
    ensures r < |body| ==> Statement(body, r)
    ensures forall k :: n <= k < r ==> !Statement(body, k)
    decreases |body| - n
  {
    if n == |body| || Statement(body, n) then n else NextStatement(body, n + 1)
  }

  /** The card at which a scan from card `from` on stops, or the number of cards when it does not. */
  function FirstMatch(body: seq<Card>, target: string, from: nat): (r: nat)
    requires from <= |body|
    ensures from <= r <= |body|
    ensures r < |body| ==> Matches(body[r], target)
    ensures forall k :: from <= k < r ==> !Matches(body[k], target)
    decreases |body| - from
  {
    if from == |body| || Matches(body[from], target) then from else FirstMatch(body, target, from + 1)
  }

  /** Reading on from the card, the first statement is the one the label is on. */
  predicate Leads(body: seq<Card>, n: nat, target: string)
    requires n < |body|
  {
    NextStatement(body, n) == LineOf(body, target, 0) < |body|
  }

  /** A statement stands before the card, so that a branch can be taken there. */
  predicate Behind(body: seq<Card>, n: nat) { NextStatement(body, 0) < n }

  /** The card would stop a scan for its symbol, which is not defined above it, and does not lead to
      the label. */
  predicate Misleads(body: seq<Card>, n: nat) {
    && n < |body| && body[n].token != "" && Matches(body[n], body[n].token) && Behind(body, n)
    && LineOf(body, body[n].token, 0) >= n && !Leads(body, n, body[n].token)
  }

  /** The label is behind a statement and neither its own card, which may lack the blank, nor one that
      leads to it would stop a scan for it. */
  ghost predicate Lost(body: seq<Card>, l: nat) {
    && l < |body| && Defines(body, l) && Behind(body, l)
    && forall m :: 0 <= m <= l && Matches(body[m], body[l].token) ==> NextStatement(body, m) != l
  }

  /** A scan for the symbol of card `m` can be made that passes card `n`, whose own symbol is not defined
      above it; the scan takes `n` for the definition, though it does not lead to the label. */
  ghost predicate Mistaken(body: seq<Card>, n: nat, m: nat) {
    && n < m < |body| && body[n].token != "" && Behind(body, n)
    && LineOf(body, body[n].token, 0) >= n && !Leads(body, n, body[n].token)
    && body[m].token != "" && body[m].token != body[n].token && Matches(body[m], body[m].token)
    && LineOf(body, body[m].token, 0) >= n
    && Unmatched(body, body[m].token, n)
  }

  /** Every card before `n` that would stop a scan for the symbol has a statement between. */
  ghost predicate Unmatched(body: seq<Card>, target: string, n: nat)
    requires n <= |body|
  {
    forall k :: 0 <= k < n && Matches(body[k], target) ==> NextStatement(body, k) < n
  }

  /** Every scan finds the label it is made for. */
  ghost predicate Direct(body: seq<Card>) {
    (forall n: nat :: !Misleads(body, n)) && forall l: nat :: !Lost(body, l)
  }

  /** And none leaves a wrong card in the table. */
  ghost predicate Faithful(body: seq<Card>) {
    Direct(body) && forall n: nat, m: nat :: !Mistaken(body, n, m)
  }

  /** A scan from the card on stops at one that leads to the label, or nowhere if there is no label. */
  predicate LandsRight(body: seq<Card>, target: string, from: nat)
    requires from <= |body|
  {
    var m := FirstMatch(body, target, from);
    if m == |body| then LineOf(body, target, 0) == |body| else Leads(body, m, target)
  }

  /** A scan started by a branch at statement `j` for a label below it. */
  lemma {:induction false} ScanLands(body: seq<Card>, target: string, j: nat)
    requires UniqueLabels(body) && Direct(body) && target != ""
    requires j < |body| && Statement(body, j) && LineOf(body, target, 0) > j
    ensures LandsRight(body, target, j + 1)
  {
    var l, m := LineOf(body, target, 0), FirstMatch(body, target, j + 1);
    assert NextStatement(body, 0) <= j;
    if l < |body| {
      assert !Lost(body, l);
      var k :| 0 <= k <= l && Matches(body[k], target) && NextStatement(body, k) == l;
      assert j < k;
    }
    if m < |body| {
      assert !Misleads(body, m);
    }
  }

  // ---------------------------------------------------------------- refinement

  /** The table's cards lead to the labels, that of the symbol `pending` apart, and every label below the
      high-water card is in it. */
  ghost predicate Known(body: seq<Card>, sequence: map<string, nat>, high: nat, pending: string) {
    && high <= |body|
    && (forall x :: x in sequence && x != "" && x != pending ==> sequence[x] < high && Leads(body, sequence[x], x))
    && (forall l :: 0 <= l < high && Defines(body, l) ==> body[l].token in sequence)
  }

  predicate Continuation(body: seq<Card>, l: nat) {
    0 < l < |body| ==> body[l - 1].continued
  }

  /** The reader's invariant; `high` is the high-water card, and `pending` the symbol scanned for, until
      its label is read, or "". */
  ghost predicate Sound<S>(body: seq<Card>, r: Reader<S>, high: nat, pending: string) {
    && r.next <= high <= |body| && (r.skipCount > 0 ==> r.next > 0)
    && (forall k :: r.next <= k < r.next + r.skipCount ==> Continuation(body, k))
    && if r.skipTo.None? then Reading(body, r, high, pending) else Scanning(body, r, high, pending)
  }

  ghost predicate Reading<S>(body: seq<Card>, r: Reader<S>, high: nat, pending: string)
    requires r.next <= |body|
  {
    && Known(body, r.sequence, high, pending)
    && (pending != "" ==> NextStatement(body, r.next) == LineOf(body, pending, 0) < |body|)
  }

  /** A scan that stops nowhere may leave the table in any state. */
  ghost predicate Scanning<S>(body: seq<Card>, r: Reader<S>, high: nat, pending: string)
    requires r.next <= |body|
  {
    && r.skipTo == Some(pending) && pending != "" && r.skipCount == 0
    && Behind(body, r.next) && LandsRight(body, pending, r.next) && Unmatched(body, pending, r.next)
    && (FirstMatch(body, pending, r.next) < |body| ==> Known(body, r.sequence, high, pending))
  }

  function Higher(high: nat, l: nat): nat { if l < high then high else l + 1 }

  /** What is left to report: from the next card, or from the card being scanned for. */
  ghost function Resume<S(!new)>(body: seq<Card>, machine: Machine<S>, resets: S -> nat, r: Reader<S>): Report<S>
    requires ActrBounded(machine, resets) && r.next <= |body|
  {
    match r.skipTo
    case None => Plain(body, machine, resets, r.next, r.store, r.actr)
    case Some(target) => Arrive(body, machine, resets, target, r.store, r.actr)
  }

  ghost function Arrive<S(!new)>(body: seq<Card>, machine: Machine<S>, resets: S -> nat, target: string, s: S,
                                 actr: int): Report<S>
    requires ActrBounded(machine, resets)
  {
    var l := LineOf(body, target, 0);
    if l == |body| then Report([], s, NotFound(target)) else Plain(body, machine, resets, l, s, actr)
  }

  lemma {:induction false} PlainActs<S(!new)>(body: seq<Card>, machine: Machine<S>, resets: S -> nat, l: nat, s: S,
                                              actr: int)
    requires ActrBounded(machine, resets) && l < |body| && Statement(body, l)
    ensures var (t, a) := machine(s, l);
            Plain(body, machine, resets, l, s, actr) ==
            match a
            case Next => Executed(l, Plain(body, machine, resets, l + 1, t, actr))
            case SetActr(n) => Executed(l, Plain(body, machine, resets, l + 1, t, n))
            case Exit => Report([l], t, Exited)
            case Branch(target) =>
              if actr - 1 < 0 then Report([l], t, Exhausted)
              else Executed(l, Arrive(body, machine, resets, target, t, actr - 1))
  {
  }

  /** Cards that are no statements change nothing. */
  lemma {:induction false} PlainSkips<S(!new)>(body: seq<Card>, machine: Machine<S>, resets: S -> nat, l: nat, s: S,
                                               actr: int)
    requires ActrBounded(machine, resets) && l <= |body|
    ensures Plain(body, machine, resets, l, s, actr) == Plain(body, machine, resets, NextStatement(body, l), s, actr)
    decreases |body| - l
  {
    if l < |body| && !Statement(body, l) {
      PlainSkips(body, machine, resets, l + 1, s, actr);
    }
  }

  /** A label is in the table by a card that leads to it, or lies beyond the high-water card. */
  lemma {:induction false} Found(body: seq<Card>, sequence: map<string, nat>, high: nat, target: string)
    requires Known(body, sequence, high, "") && target != ""
    ensures target in sequence ==> sequence[target] < |body| && Leads(body, sequence[target], target)
    ensures target !in sequence ==> LineOf(body, target, 0) >= high
  {
  }

  lemma {:induction false} ContinuationsContinue(body: seq<Card>, l: nat, k: nat)
    requires l < |body| && l < k <= l + Continuations(body, l)
    ensures k < |body| && Continuation(body, k)
    decreases |body| - l
  {
    if k > l + 1 {
      ContinuationsContinue(body, l + 1, k);
    }
  }

  lemma {:induction false} LabelLeads(body: seq<Card>, l: nat)
    requires UniqueLabels(body) && l < |body| && Defines(body, l)
    ensures LineOf(body, body[l].token, 0) == l == NextStatement(body, l)
  {
  }

  /** A symbol recorded in passing leads to its label, if the scan stops somewhere. */
  lemma {:induction false} RecordedLeads(body: seq<Card>, n: nat, target: string)
    requires UniqueLabels(body) && Faithful(body) && n < |body| && Behind(body, n) && target != ""
    requires !Matches(body[n], target) && FirstMatch(body, target, n) < |body|
    requires LandsRight(body, target, n) && Unmatched(body, target, n)
    requires body[n].token != "" && body[n].token != target && LineOf(body, body[n].token, 0) >= n
    ensures Leads(body, n, body[n].token)
  {
    assert !Mistaken(body, n, FirstMatch(body, target, n));
  }

  lemma {:induction false} NotedKnown(body: seq<Card>, sequence: map<string, nat>, high: nat, pending: string, n: nat)
    requires Known(body, sequence, high, pending) && n <= high && n < |body|
    requires var x := body[n].token; x != "" && x !in sequence && x != pending ==> Leads(body, n, x)
    ensures Known(body, Noted(sequence, body[n].token, n), Higher(high, n), pending)
  {
  }

  lemma {:induction false} ScannedSound<S>(body: seq<Card>, r: Reader<S>, high: nat, pending: string)
    requires UniqueLabels(body) && Faithful(body)
    requires Sound(body, r, high, pending) && r.next < |body| && r.skipTo.Some? && !Matches(body[r.next], pending)
    ensures Sound(body, Passed(body, r).value, Higher(high, r.next), pending)
  {
    hide Faithful, Leads, LineOf;
    var n, x := r.next, body[r.next].token;
    assert FirstMatch(body, pending, n) == FirstMatch(body, pending, n + 1);
    if FirstMatch(body, pending, n) < |body| {
      if x != "" && x !in r.sequence && x != pending {
        NotBelow(body, r.sequence, high, pending, x);
        RecordedLeads(body, n, pending);
      }
      NotedKnown(body, r.sequence, high, pending, n);
    }
    assert Passed(body, r).value.sequence == Noted(r.sequence, x, n);
  }

  lemma {:induction false} NotBelow(body: seq<Card>, sequence: map<string, nat>, high: nat, pending: string, x: string)
    requires Known(body, sequence, high, pending) && x !in sequence
    ensures LineOf(body, x, 0) >= high
  {
  }

  lemma {:induction false} StoppedSound<S>(body: seq<Card>, r: Reader<S>, high: nat, pending: string)
    requires Sound(body, r, high, pending) && r.next < |body|
    requires r.skipTo.Some? ==> Matches(body[r.next], pending)
    requires !Statement(body, r.next)
    ensures Sound(body, Passed(body, r).value, Higher(high, r.next), pending)
  {
    assert r.skipTo.Some? ==> FirstMatch(body, pending, r.next) == r.next;
    assert NextStatement(body, r.next) == NextStatement(body, r.next + 1);
  }

  lemma {:induction false} PassedCases<S>(body: seq<Card>, r: Reader<S>, high: nat, pending: string)
    requires Sound(body, r, high, pending) && r.next < |body|
    ensures r.skipTo.Some? ==> r.skipTo == Some(pending)
    ensures r.skipTo.Some? && !Matches(body[r.next], pending) ==> Passed(body, r).Some?
    ensures r.skipTo.None? || Matches(body[r.next], pending) ==> (Passed(body, r).Some? <==> !Statement(body, r.next))
  {
    if r.skipCount > 0 {
      assert Continuation(body, r.next);
    }
  }

  lemma {:induction false} PassedSound<S>(body: seq<Card>, r: Reader<S>, high: nat, pending: string)
    requires UniqueLabels(body) && Faithful(body)
    requires Sound(body, r, high, pending) && r.next < |body| && Passed(body, r).Some?
    ensures Sound(body, Passed(body, r).value, Higher(high, r.next), pending)
  {
    PassedCases(body, r, high, pending);
    if r.skipTo.Some? && !Matches(body[r.next], pending) {
      ScannedSound(body, r, high, pending);
    } else {
      StoppedSound(body, r, high, pending);
    }
  }

  lemma {:induction false} PassedResumes<S(!new)>(body: seq<Card>, machine: Machine<S>, resets: S -> nat, r: Reader<S>,
                                                  high: nat, pending: string)
    requires ActrBounded(machine, resets)
    requires Sound(body, r, high, pending) && r.next < |body| && Passed(body, r).Some?
    ensures Resume(body, machine, resets, Passed(body, r).value) == Resume(body, machine, resets, r)
  {
    PassedCases(body, r, high, pending);
    if r.skipTo.Some? && Matches(body[r.next], pending) {
      assert FirstMatch(body, pending, r.next) == r.next;
      PlainSkips(body, machine, resets, r.next, r.store, r.actr);
      assert Plain(body, machine, resets, r.next, r.store, r.actr) ==
             Plain(body, machine, resets, r.next + 1, r.store, r.actr);
    }
  }

  /** The statement parsed carries the label scanned for, if one was. */
  lemma {:induction false} ParsedIsPending<S>(body: seq<Card>, r: Reader<S>, high: nat, pending: string)
    requires Sound(body, r, high, pending) && r.next < |body| && Passed(body, r).None? && pending != ""
    ensures Carries(body, r.next, pending) && LineOf(body, pending, 0) == r.next
    ensures Known(body, r.sequence, high, pending)
  {
    PassedCases(body, r, high, pending);
    if r.skipTo.Some? {
      assert FirstMatch(body, pending, r.next) == r.next;
    }
  }

  lemma {:induction false} ParsedSound<S>(body: seq<Card>, r: Reader<S>, high: nat, pending: string)
    requires UniqueLabels(body)
    requires Sound(body, r, high, pending) && r.next < |body| && Passed(body, r).None?
    ensures Statement(body, r.next) && Sound(body, Parsed(body, r), Higher(high, r.next), "")
  {
    var l := r.next;
    PassedCases(body, r, high, pending);
    if pending != "" {
      ParsedIsPending(body, r, high, pending);
    }
    if Defines(body, l) {
      LabelLeads(body, l);
    }
    forall k | l < k <= l + Continuations(body, l) ensures Continuation(body, k) {
      ContinuationsContinue(body, l, k);
    }
  }

  /** The card parsed is the one the reference is about to execute. */
  lemma {:induction false} ParsedResumes<S(!new)>(body: seq<Card>, machine: Machine<S>, resets: S -> nat, r: Reader<S>,
                                                  high: nat, pending: string)
    requires ActrBounded(machine, resets)
    requires Sound(body, r, high, pending) && r.next < |body| && Passed(body, r).None?
    ensures Resume(body, machine, resets, r) == Plain(body, machine, resets, r.next, r.store, r.actr)
  {
    if r.skipTo.Some? {
      ParsedIsPending(body, r, high, pending);
    }
  }

  /** The symbol being scanned for once the action is taken. */
  function Sought<S>(r: Reader<S>): string {
    match r.skipTo case None => "" case Some(x) => x
  }

  lemma {:induction false} BranchedSound<S>(body: seq<Card>, r: Reader<S>, high: nat, target: string, j: nat)
    requires UniqueLabels(body) && Faithful(body)
    requires Sound(body, r, high, "") && r.skipTo.None? && target != ""
    requires r.next == j + 1 && j < |body| && Statement(body, j)
    ensures Sound(body, Branched(r, target), high, Sought(Branched(r, target)))
  {
    Found(body, r.sequence, high, target);
    assert NextStatement(body, 0) <= j;
    if target !in r.sequence {
      ScanLands(body, target, j);
      forall k | 0 <= k < j + 1 && Matches(body[k], target) ensures NextStatement(body, k) < j + 1 {
      }
    }
  }

  lemma {:induction false} BranchedResumes<S(!new)>(body: seq<Card>, machine: Machine<S>, resets: S -> nat,
                                                    r: Reader<S>,
                                                    high: nat, target: string)
    requires ActrBounded(machine, resets) && target != ""
    requires Known(body, r.sequence, high, "") && r.next <= |body| && r.skipTo.None?
    ensures Branched(r, target).next <= |body|
    ensures Resume(body, machine, resets, Branched(r, target)) ==
            Arrive(body, machine, resets, target, r.store, r.actr - 1)
  {
    Found(body, r.sequence, high, target);
    if target in r.sequence {
      PlainSkips(body, machine, resets, r.sequence[target], r.store, r.actr - 1);
    }
  }

  /** Executing the card, the reference goes on where the reader does. */
  lemma {:induction false} TakenResumes<S(!new)>(body: seq<Card>, machine: Machine<S>, resets: S -> nat, l: nat, s: S,
                                                 q: Reader<S>, high: nat)
    requires ActrBounded(machine, resets) && NamesTargets(machine) && UniqueLabels(body) && Faithful(body)
    requires l < |body| && Statement(body, l) && machine(s, l).0 == q.store
    requires Sound(body, q, high, "") && q.skipTo.None? && q.next == l + 1
    ensures var after := Taken(q, machine(s, l).1);
            after.Some? ==> Sound(body, after.value, high, Sought(after.value))
    ensures Plain(body, machine, resets, l, s, q.actr) ==
            match Taken(q, machine(s, l).1)
            case Some(p) => Executed(l, Resume(body, machine, resets, p))
            case None => Report([l], q.store, if machine(s, l).1.Exit? then Exited else Exhausted)
  {
    hide Faithful, Plain, Known, Leads;
    PlainActs(body, machine, resets, l, s, q.actr);
    match machine(s, l).1
    case Branch(target) =>
      BranchedSound(body, q, high, target, l);
      BranchedResumes(body, machine, resets, q, high, target);
    case _ =>
  }

  lemma {:induction false} EndResumes<S(!new)>(body: seq<Card>, machine: Machine<S>, resets: S -> nat, r: Reader<S>,
                                               high: nat, pending: string)
    requires ActrBounded(machine, resets) && Sound(body, r, high, pending) && r.next == |body|
    ensures Lazy(body, machine, resets, r) == Resume(body, machine, resets, r)
  {
  }

  lemma {:induction false} LazyPasses<S(!new)>(body: seq<Card>, machine: Machine<S>, resets: S -> nat, r: Reader<S>)
    requires ActrBounded(machine, resets) && r.next < |body| && Passed(body, r).Some?
    ensures Lazy(body, machine, resets, r) == Lazy(body, machine, resets, Passed(body, r).value)
    ensures Passed(body, r).value.next == r.next + 1
    ensures Passed(body, r).value.store == r.store && Passed(body, r).value.actr == r.actr
  {
  }

  lemma {:induction false} LazyResumes<S(!new)>(body: seq<Card>, machine: Machine<S>, resets: S -> nat, r: Reader<S>,
                                                high: nat, pending: string)
    requires ActrBounded(machine, resets) && NamesTargets(machine) && UniqueLabels(body) && Faithful(body)
    requires Sound(body, r, high, pending)
    ensures Lazy(body, machine, resets, r) == Resume(body, machine, resets, r)
    decreases resets(r.store), Charge(r.actr), |body| - r.next
  {
    hide Faithful, Lazy, Resume, Passed, Reading, Scanning;
    if r.next == |body| {
      EndResumes(body, machine, resets, r, high, pending);
    } else if Passed(body, r).Some? {
      PassedSound(body, r, high, pending);
      PassedResumes(body, machine, resets, r, high, pending);
      LazyPasses(body, machine, resets, r);
      LazyResumes(body, machine, resets, Passed(body, r).value, Higher(high, r.next), pending);
    } else {
      var (t, a) := machine(r.store, r.next);
      var q, up := Parsed(body, r).(store := t), Higher(high, r.next);
      ParsedSound(body, r, high, pending);
      SoundElsewhere(body, Parsed(body, r), t, up);
      ParsedResumes(body, machine, resets, r, high, pending);
      TakenResumes(body, machine, resets, r.next, r.store, q, up);
      LazyActs(body, machine, resets, r);
      match Taken(q, a)
      case Some(p) =>
        LazyResumes(body, machine, resets, p, up, Sought(p));
      case None =>
    }
  }

  lemma {:induction false} SoundElsewhere<S>(body: seq<Card>, r: Reader<S>, t: S, high: nat)
    requires Sound(body, r, high, "")
    ensures Sound(body, r.(store := t), high, "")
  {
  }

  /** On every faithful body with unique labels, whatever its statements do, the reader executes exactly
      the cards the reference does, and ends in the same store with the same outcome. */
  lemma {:induction false} ReaderRefinesPlain<S(!new)>(body: seq<Card>, machine: Machine<S>, resets: S -> nat, s0: S,
                                                       actr0: int)
    requires ActrBounded(machine, resets) && NamesTargets(machine) && UniqueLabels(body) && Faithful(body)
    ensures Lazy(body, machine, resets, Fresh(s0, actr0)) == Plain(body, machine, resets, 0, s0, actr0)
  {
    LazyResumes(body, machine, resets, Fresh(s0, actr0), 0, "");
  }

  lemma {:induction false} LazyActs<S(!new)>(body: seq<Card>, machine: Machine<S>, resets: S -> nat, r: Reader<S>)
    requires ActrBounded(machine, resets) && r.next < |body| && Passed(body, r).None?
    ensures var (t, a) := machine(r.store, r.next);
            Lazy(body, machine, resets, r) ==
            match Taken(Parsed(body, r).(store := t), a)
            case Some(q) => Executed(r.next, Lazy(body, machine, resets, q))
            case None => Report([r.next], t, if a.Exit? then Exited else Exhausted)
  {
  }
}
