/**
  Which cards the readers execute.
 */
module ReadingOrder {
  import opened Wrappers
  import opened ConditionalAssembly

  /** A card that begins a statement: no comment, and not the continuation of the card before it. */
  ghost predicate Begins(body: seq<Card>, n: nat) {
    n < |body| && !body[n].comment && (n > 0 ==> !body[n - 1].continued)
  }

  /** Whatever the conditions say, the reader executes no comment and no continuation, and nothing it does not
      visit. */
  lemma {:induction false} ExecutesStatements<S(!new)>(body: seq<Card>, machine: Machine<S>, resets: S -> nat,
                                                       r: Reader<S>)
    requires ActrBounded(machine, resets)
    ensures forall n :: n in Lazy(body, machine, resets, r).executed ==> Begins(body, n)
    ensures |Lazy(body, machine, resets, r).executed| <= Visits(body, machine, resets, r)
    decreases resets(r.store), Charge(r.actr), |body| - r.next
  {
    if r.next < |body| {
      match Passed(body, r)
      case Some(q) => ExecutesStatements(body, machine, resets, q);
      case None =>
        assert Begins(body, r.next);
        var (t, a) := machine(r.store, r.next);
        match Taken(Parsed(body, r).(store := t), a)
        case Some(q) => ExecutesStatements(body, machine, resets, q);
        case None =>
    }
  }

  ghost predicate NeverBranches<S(!new)>(machine: Machine<S>) {
    forall s, l :: machine(s, l).1 == Next
  }

  ghost predicate Ascending(a: seq<nat>) {
    forall i, j :: 0 <= i < j < |a| ==> a[i] < a[j]
  }

  /** What is left to be skipped are continuations. */
  ghost predicate SkipsContinuations<S>(body: seq<Card>, r: Reader<S>) {
    forall k :: r.next <= k < r.next + r.skipCount && k < |body| ==> !Begins(body, k)
  }

  /** The cards skipped with a statement whose operand is joined are all of its continuations. */
  lemma {:induction false} ContinuationsMean(body: seq<Card>, l: nat)
    requires l < |body|
    ensures var n := Continuations(body, l);
            && l + n < |body| && (forall k :: l <= k < l + n ==> body[k].continued)
            && (l + n + 1 == |body| || !body[l + n].continued)
    decreases |body| - l
  {
    if body[l].continued && l + 1 < |body| {
      ContinuationsMean(body, l + 1);
    }
  }

  lemma {:induction false} ParsedSkips<S>(body: seq<Card>, r: Reader<S>)
    requires r.next < |body|
    ensures SkipsContinuations(body, Parsed(body, r))
  {
    var q := Parsed(body, r);
    forall k | q.next <= k < q.next + q.skipCount && k < |body| ensures !Begins(body, k) {
      ContinuationsMean(body, r.next);
    }
  }

  ghost predicate RunsThrough<S>(body: seq<Card>, from: nat, report: Report<S>) {
    && Ascending(report.executed) && report.outcome == Finished
    && forall n :: n in report.executed <==> from <= n && Begins(body, n)
  }

  lemma {:induction false} RunsOn<S>(body: seq<Card>, n: nat, report: Report<S>)
    requires Begins(body, n) && RunsThrough(body, n + 1, report)
    ensures RunsThrough(body, n, Executed(n, report))
  {
    var e := [n] + report.executed;
    forall i, j | 0 <= i < j < |e| ensures e[i] < e[j] {
      assert report.executed[j - 1] in report.executed;
    }
  }

  /** Without branches the reader visits every card once and executes every statement, in order. */
  lemma {:induction false} StraightOn<S(!new)>(body: seq<Card>, machine: Machine<S>, resets: S -> nat, r: Reader<S>)
    requires ActrBounded(machine, resets) && NeverBranches(machine)
    requires r.skipTo.None? && SkipsContinuations(body, r)
    ensures RunsThrough(body, r.next, Lazy(body, machine, resets, r))
    ensures r.next <= |body| ==> Visits(body, machine, resets, r) == |body| - r.next
    decreases resets(r.store), Charge(r.actr), |body| - r.next
  {
    if r.next < |body| {
      match Passed(body, r)
      case Some(q) =>
        assert !Begins(body, r.next);
        StraightOn(body, machine, resets, q);
      case None =>
        var (t, a) := machine(r.store, r.next);
        var q := Parsed(body, r).(store := t);
        ParsedSkips(body, r);
        assert SkipsContinuations(body, q);
        StraightOn(body, machine, resets, q);
        RunsOn(body, r.next, Lazy(body, machine, resets, q));
    }
  }

  lemma {:induction false} StraightThrough<S(!new)>(body: seq<Card>, machine: Machine<S>, resets: S -> nat, s0: S,
                                                    actr0: int)
    requires ActrBounded(machine, resets) && NeverBranches(machine)
    ensures RunsThrough(body, 0, Lazy(body, machine, resets, Fresh(s0, actr0)))
    ensures Visits(body, machine, resets, Fresh(s0, actr0)) == |body|
  {
    StraightOn(body, machine, resets, Fresh(s0, actr0));
  }

  /** A branch taken by the reference goes to the statement that has the label in column 1. */
  lemma {:induction false} BranchLands<S(!new)>(body: seq<Card>, machine: Machine<S>, resets: S -> nat, l: nat, d: nat,
                                                s: S, actr: int, target: string)
    requires ActrBounded(machine, resets) && UniqueLabels(body) && target != "" && actr >= 1
    requires Begins(body, l) && machine(s, l).1 == Branch(target)
    requires Begins(body, d) && body[d].token == target && body[d].column1
    ensures var e := Plain(body, machine, resets, l, s, actr).executed;
            |e| > 1 && e[0] == l && e[1] == d
  {
    var t := machine(s, l).0;
    assert Defines(body, d);
    assert LineOf(body, target, 0) == d;
    assert |Plain(body, machine, resets, d, t, actr - 1).executed| > 0 &&
           Plain(body, machine, resets, d, t, actr - 1).executed[0] == d;
  }
}
