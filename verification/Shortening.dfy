/**
  The runs of the shortening pass over all sections, and their repetition.  `Visit` is what one step
  does to the state; the class does the same in place.
 */
module Shortening {
  import opened Wrappers
  import opened PseudoAddress
  import opened Relaxation

  datatype State = State(scratch: Scratch, symtab: Symtab, adjustments: nat)

  /** A symbol's value with its offset replaced and its hash kept. */
  function Repoint(v: int, p: int): int {
    HashField(v) * HASH_UNIT + p
  }

  /** The labels of the entries from `j` on put where the entries now stand. */
  function Relabel(symtab: Symtab, s: seq<Entry>, j: nat): Symtab
    requires j <= |s|
    decreases |s| - j
  {
    if j == |s| then symtab
    else if s[j].name.Some? && s[j].name.value in symtab then
      Relabel(symtab[s[j].name.value := Repoint(symtab[s[j].name.value], s[j].pos / 2)], s, j + 1)
    else Relabel(symtab, s, j + 1)
  }

  /** How an ambiguous entry of a section is judged in a given state. */
  type Policy = (Scratch, Symtab, string, Entry) -> Verdict

  predicate At(scratch: Scratch, sect: string, i: int) {
    sect in scratch && 0 <= i < |scratch[sect]|
  }

  function Adjusted(st: State, sect: string, i: int): State
    requires At(st.scratch, sect, i)
  {
    var s := Shorten(st.scratch[sect], i);
    State(st.scratch[sect := s], Relabel(st.symtab, s, i + 1), st.adjustments + 1)
  }

  function SettledAt(st: State, sect: string, i: int): State
    requires At(st.scratch, sect, i)
  {
    var s := st.scratch[sect];
    st.(scratch := st.scratch[sect := s[i := s[i].(ambiguous := false)]])
  }

  function Visit(st: State, policy: Policy, sect: string, i: int): (r: State)
    requires At(st.scratch, sect, i)
    ensures r.scratch.Keys == st.scratch.Keys
    ensures forall x :: x in st.scratch ==> |r.scratch[x]| == |st.scratch[x]|
  {
    var e := st.scratch[sect][i];
    if !e.ambiguous then st
    else
      match policy(st.scratch, st.symtab, sect, e)
      case Short => Adjusted(st, sect, i)
      case Settle => SettledAt(st, sect, i)
      case Wait => st
  }

  /** One section from entry `i` on. */
  function Sweep(st: State, policy: Policy, sect: string, i: nat): (r: State)
    requires sect in st.scratch && i <= |st.scratch[sect]|
    ensures r.scratch.Keys == st.scratch.Keys
    decreases |st.scratch[sect]| - i
  {
    if i == |st.scratch[sect]| then st else Sweep(Visit(st, policy, sect, i), policy, sect, i + 1)
  }

  predicate Covers(scratch: Scratch, order: seq<string>) {
    forall x :: x in order ==> x in scratch
  }

  /** The sections from the `k`-th on. */
  function Run(st: State, policy: Policy, order: seq<string>, k: nat): (r: State)
    requires k <= |order| && Covers(st.scratch, order)
    ensures r.scratch.Keys == st.scratch.Keys
    decreases |order| - k
  {
    if k == |order| then st else Run(Sweep(st, policy, order[k], 0), policy, order, k + 1)
  }

  // ---------------------------------------------------------------- what every step keeps

  ghost predicate Good(scratch: Scratch) {
    forall x :: x in scratch ==> LaidOut(scratch[x]) && Wellformed(scratch[x])
  }

  /** Nothing changes but positions, and ambiguous entries made short or settled. */
  ghost predicate EntryImproves(a: Entry, b: Entry) {
    && b == a.(pos := b.pos, length := b.length, ambiguous := b.ambiguous)
    && (b.length == a.length || (a.ambiguous && !b.ambiguous && a.length == 4 && b.length == 2))
    && (b.ambiguous ==> a.ambiguous)
  }

  ghost predicate SectionImproves(s: seq<Entry>, t: seq<Entry>) {
    && |s| == |t|
    && (forall k :: 0 <= k < |s| ==> EntryImproves(s[k], t[k]))
    && (|s| > 0 ==> t[0].pos == s[0].pos)
  }

  function Pending(scratch: Scratch): set<(string, int)> {
    set x, k | x in scratch && 0 <= k < |scratch[x]| && scratch[x][k].ambiguous :: (x, k)
  }

  /** Every counted adjustment has retired an ambiguous entry, and without any the layout stands. */
  ghost predicate Improves(a: State, b: State) {
    && b.scratch.Keys == a.scratch.Keys
    && (forall x :: x in a.scratch ==> SectionImproves(a.scratch[x], b.scratch[x]))
    && b.adjustments >= a.adjustments
    && |Pending(b.scratch)| + (b.adjustments - a.adjustments) <= |Pending(a.scratch)|
    && (b.adjustments == a.adjustments ==> OnlyFlags(a, b))
  }

  ghost predicate OnlyFlags(a: State, b: State) {
    && b.symtab == a.symtab && b.scratch.Keys == a.scratch.Keys
    && forall x :: x in a.scratch ==> FlagsOnly(a.scratch[x], b.scratch[x])
  }

  ghost predicate FlagsOnly(s: seq<Entry>, t: seq<Entry>) {
    |s| == |t| && forall k :: 0 <= k < |s| ==> t[k] == s[k].(ambiguous := t[k].ambiguous)
  }

  /** Making an entry short lays its section out again, every entry at or below its old place. */
  lemma {:induction false} ShortenImproves(s: seq<Entry>, i: nat)
    requires LaidOut(s) && Wellformed(s) && i < |s| && s[i].ambiguous
    ensures var t := Shorten(s, i);
            && LaidOut(t) && Wellformed(t) && SectionImproves(s, t)
            && (forall k :: 0 <= k < |s| ==> t[k].ambiguous == (s[k].ambiguous && k != i))
            && (forall k :: 0 <= k <= i ==> t[k].pos == s[k].pos)
  {
    var t := Shorten(s, i);
    RelayResult(s[i := s[i].(length := 2, ambiguous := false)], i + 1);
    forall k | 0 <= k < |s| ensures 0 <= t[k].pos <= s[k].pos && t[k].pos % 2 == 0 {
      EvenPositions(t, k);
      NeverHigher(s, t, k);
    }
  }

  lemma {:induction false} PendingLoses(a: Scratch, b: Scratch, sect: string, i: int)
    requires At(a, sect, i) && a[sect][i].ambiguous && b.Keys == a.Keys
    requires forall x :: x in a && x != sect ==> b[x] == a[x]
    requires |b[sect]| == |a[sect]|
    requires forall k :: 0 <= k < |a[sect]| ==> b[sect][k].ambiguous == (a[sect][k].ambiguous && k != i)
    ensures |Pending(b)| + 1 == |Pending(a)|
  {
    assert (sect, i) in Pending(a);
    assert Pending(b) == Pending(a) - {(sect, i)};
  }

  lemma {:induction false} AdjustedImproves(st: State, sect: string, i: int)
    requires Good(st.scratch) && At(st.scratch, sect, i) && st.scratch[sect][i].ambiguous
    ensures Good(Adjusted(st, sect, i).scratch) && Improves(st, Adjusted(st, sect, i))
  {
    ShortenImproves(st.scratch[sect], i);
    PendingLoses(st.scratch, Adjusted(st, sect, i).scratch, sect, i);
  }

  lemma {:induction false} FlagKeeps(s: seq<Entry>, i: nat)
    requires LaidOut(s) && Wellformed(s) && i < |s|
    ensures var t := s[i := s[i].(ambiguous := false)];
            LaidOut(t) && Wellformed(t) && SectionImproves(s, t) && FlagsOnly(s, t)
  {
    var t := s[i := s[i].(ambiguous := false)];
    forall j | 0 < j < |t| ensures t[j].pos == Follow(t[j - 1], t[j].alignment) {
      assert s[j].pos == Follow(s[j - 1], s[j].alignment);
    }
  }

  lemma {:induction false} SettledImproves(st: State, sect: string, i: int)
    requires Good(st.scratch) && At(st.scratch, sect, i) && st.scratch[sect][i].ambiguous
    ensures Good(SettledAt(st, sect, i).scratch) && Improves(st, SettledAt(st, sect, i))
  {
    FlagKeeps(st.scratch[sect], i);
    PendingLoses(st.scratch, SettledAt(st, sect, i).scratch, sect, i);
  }

  lemma {:induction false} VisitCases(st: State, policy: Policy, sect: string, i: int)
    requires At(st.scratch, sect, i)
    ensures var r := Visit(st, policy, sect, i);
            r == st || (st.scratch[sect][i].ambiguous && (r == Adjusted(st, sect, i) || r == SettledAt(st, sect, i)))
  {
  }

  lemma {:induction false} VisitImproves(st: State, policy: Policy, sect: string, i: int)
    requires Good(st.scratch) && At(st.scratch, sect, i)
    ensures Good(Visit(st, policy, sect, i).scratch)
    ensures Improves(st, Visit(st, policy, sect, i))
  {
    hide Good, Improves, Visit;
    ImprovesSame(st);
    VisitCases(st, policy, sect, i);
    if st.scratch[sect][i].ambiguous {
      AdjustedImproves(st, sect, i);
      SettledImproves(st, sect, i);
    }
  }

  lemma {:induction false} ImprovesSame(st: State)
    ensures Improves(st, st)
  {
  }

  lemma {:induction false} ImprovesTransitive(a: State, b: State, c: State)
    requires Improves(a, b) && Improves(b, c)
    ensures Improves(a, c)
  {
    forall x | x in a.scratch ensures SectionImproves(a.scratch[x], c.scratch[x]) {
      assert SectionImproves(a.scratch[x], b.scratch[x]) && SectionImproves(b.scratch[x], c.scratch[x]);
    }
  }

  lemma {:induction false} SweepImproves(st: State, policy: Policy, sect: string, i: nat)
    requires Good(st.scratch) && sect in st.scratch && i <= |st.scratch[sect]|
    ensures Good(Sweep(st, policy, sect, i).scratch)
    ensures Improves(st, Sweep(st, policy, sect, i))
    decreases |st.scratch[sect]| - i
  {
    hide Good, Improves, Visit;
    ImprovesSame(st);
    if i < |st.scratch[sect]| {
      var mid := Visit(st, policy, sect, i);
      VisitImproves(st, policy, sect, i);
      SweepImproves(mid, policy, sect, i + 1);
      ImprovesTransitive(st, mid, Sweep(mid, policy, sect, i + 1));
    }
  }

  lemma {:induction false} RunImproves(st: State, policy: Policy, order: seq<string>, k: nat)
    requires Good(st.scratch) && k <= |order| && Covers(st.scratch, order)
    ensures Good(Run(st, policy, order, k).scratch)
    ensures Improves(st, Run(st, policy, order, k))
    decreases |order| - k
  {
    hide Good, Improves, Sweep;
    ImprovesSame(st);
    if k < |order| {
      var mid := Sweep(st, policy, order[k], 0);
      SweepImproves(st, policy, order[k], 0);
      RunImproves(mid, policy, order, k + 1);
      ImprovesTransitive(st, mid, Run(mid, policy, order, k + 1));
    }
  }

  // ---------------------------------------------------------------- a run without adjustments

  /** The entry is settled or short, or its reach test still fails. */
  ghost predicate Quiet(st: State, policy: Policy, sect: string, i: int)
    requires At(st.scratch, sect, i)
  {
    st.scratch[sect][i].ambiguous ==> policy(st.scratch, st.symtab, sect, st.scratch[sect][i]) == Wait
  }

  /** The judgement does not look at ambiguity flags. */
  ghost predicate Blind(policy: Policy) {
    forall a, b, sect, i :: OnlyFlags(a, b) && At(a.scratch, sect, i) ==>
      policy(a.scratch, a.symtab, sect, a.scratch[sect][i]) == policy(b.scratch, b.symtab, sect, b.scratch[sect][i])
  }

  lemma {:induction false} QuietKept(a: State, b: State, policy: Policy, sect: string, i: int)
    requires Blind(policy) && OnlyFlags(a, b) && At(a.scratch, sect, i) && Quiet(a, policy, sect, i)
    requires b.scratch[sect][i].ambiguous ==> a.scratch[sect][i].ambiguous
    ensures Quiet(b, policy, sect, i)
  {
  }

  lemma {:induction false} VisitQuiet(st: State, policy: Policy, sect: string, i: int)
    requires Good(st.scratch) && At(st.scratch, sect, i)
    requires Visit(st, policy, sect, i).adjustments == st.adjustments
    ensures Quiet(Visit(st, policy, sect, i), policy, sect, i)
  {
  }

  /** If the rest of a sweep adjusts nothing, its first step does not. */
  lemma {:induction false} SweepStands(st: State, policy: Policy, sect: string, i: nat)
    requires Good(st.scratch) && At(st.scratch, sect, i)
    requires Sweep(st, policy, sect, i).adjustments == st.adjustments
    ensures var mid := Visit(st, policy, sect, i);
            && Good(mid.scratch) && OnlyFlags(st, mid) && mid.adjustments == st.adjustments
            && (forall x :: x in st.scratch ==> SectionImproves(st.scratch[x], mid.scratch[x]))
  {
    VisitImproves(st, policy, sect, i);
    SweepImproves(Visit(st, policy, sect, i), policy, sect, i + 1);
  }

  /** If the rest of a sweep adjusts nothing, every entry it passes, or that was quiet before, is quiet
      after it. */
  lemma {:induction false} SweepQuiet(st: State, policy: Policy, sect: string, i: nat, x: string, k: int)
    requires Blind(policy) && Good(st.scratch) && sect in st.scratch && i <= |st.scratch[sect]| && At(st.scratch, x, k)
    requires Sweep(st, policy, sect, i).adjustments == st.adjustments
    requires (x == sect && k >= i) || Quiet(st, policy, x, k)
    ensures At(Sweep(st, policy, sect, i).scratch, x, k) && Quiet(Sweep(st, policy, sect, i), policy, x, k)
    decreases |st.scratch[sect]| - i
  {
    hide Good, Blind, Quiet, Improves, Visit;
    if i < |st.scratch[sect]| {
      var mid := Visit(st, policy, sect, i);
      SweepStands(st, policy, sect, i);
      if x == sect && k == i {
        VisitQuiet(st, policy, sect, i);
      } else if !(x == sect && k > i) {
        QuietKept(st, mid, policy, x, k);
      }
      SweepQuiet(mid, policy, sect, i + 1, x, k);
    }
  }

  lemma {:induction false} RunQuiet(st: State, policy: Policy, order: seq<string>, j: nat, x: string, k: int)
    requires Blind(policy) && Good(st.scratch) && j <= |order| && Covers(st.scratch, order) && At(st.scratch, x, k)
    requires Run(st, policy, order, j).adjustments == st.adjustments
    requires x in order[j..] || Quiet(st, policy, x, k)
    ensures At(Run(st, policy, order, j).scratch, x, k) && Quiet(Run(st, policy, order, j), policy, x, k)
    decreases |order| - j
  {
    if j < |order| {
      var mid := Sweep(st, policy, order[j], 0);
      SweepImproves(st, policy, order[j], 0);
      RunImproves(mid, policy, order, j + 1);
      if x == order[j] || Quiet(st, policy, x, k) {
        SweepQuiet(st, policy, order[j], 0, x, k);
      }
      RunQuiet(mid, policy, order, j + 1, x, k);
    }
  }

  // ---------------------------------------------------------------- repetition to a fixed point

  /** The runs repeated until one adjusts nothing; it needs no cap, for every other run retires an
      ambiguous entry. */
  ghost function FixedPoint(st: State, policy: Policy, order: seq<string>): State
    requires Good(st.scratch) && Covers(st.scratch, order)
    decreases |Pending(st.scratch)|
  {
    var r := Run(st, policy, order, 0);
    RunImproves(st, policy, order, 0);
    if r.adjustments == st.adjustments then r else FixedPoint(r, policy, order)
  }

  /** In the fixed point no entry still ambiguous passes its reach test. */
  lemma {:induction false} FixedPointQuiet(st: State, policy: Policy, order: seq<string>, x: string, k: int)
    requires Blind(policy) && Good(st.scratch) && Covers(st.scratch, order) && At(st.scratch, x, k) && x in order
    ensures var r := FixedPoint(st, policy, order);
            Good(r.scratch) && Improves(st, r) && At(r.scratch, x, k) && Quiet(r, policy, x, k)
    decreases |Pending(st.scratch)|
  {
    var r := Run(st, policy, order, 0);
    RunImproves(st, policy, order, 0);
    if r.adjustments == st.adjustments {
      RunQuiet(st, policy, order, 0, x, k);
    } else {
      FixedPointQuiet(r, policy, order, x, k);
      ImprovesTransitive(st, r, FixedPoint(r, policy, order));
    }
  }

  // ---------------------------------------------------------------- labels

  predicate SameName(a: Entry, b: Entry) {
    a.name.Some? && a.name == b.name
  }

  /** One entry per label. */
  ghost predicate UniqueNames(scratch: Scratch) {
    forall x, i, y, j :: At(scratch, x, i) && At(scratch, y, j) && SameName(scratch[x][i], scratch[y][j]) ==>
      x == y && i == j
  }

  /** A label in the symbol table holds its entry's halfword address under its own hash. */
  ghost predicate Labelled(st: State) {
    forall x, k :: At(st.scratch, x, k) ==> LabelAt(st.symtab, st.scratch[x][k])
  }

  predicate LabelAt(symtab: Symtab, e: Entry) {
    e.name.Some? && e.name.value in symtab ==>
      symtab[e.name.value] == HashField(symtab[e.name.value]) * HASH_UNIT + e.pos / 2
  }

  lemma {:induction false} RepointKeepsHash(v: int, p: int)
    requires 0 <= p < HASH_UNIT
    ensures HashField(Repoint(v, p)) == HashField(v) && Repoint(Repoint(v, p), p) == Repoint(v, p)
  {
    Fields(HashField(v), p);
  }

  /** Only labels of the relaid entries change, each to its entry's new address, hashes kept. */
  lemma {:induction false} RelabelResult(symtab: Symtab, s: seq<Entry>, j: nat)
    requires j <= |s| && Wellformed(s)
    requires forall a, b :: j <= a < b < |s| ==> !SameName(s[a], s[b])
    ensures var r := Relabel(symtab, s, j);
            && r.Keys == symtab.Keys
            && (forall k :: j <= k < |s| ==> LabelAt(r, s[k]))
            && (forall x :: x in symtab ==> HashField(r[x]) == HashField(symtab[x]))
            && (forall x :: x in symtab && (forall k :: j <= k < |s| ==> s[k].name != Some(x)) ==> r[x] == symtab[x])
    decreases |s| - j
  {
    if j < |s| {
      if s[j].name.Some? && s[j].name.value in symtab {
        var x := s[j].name.value;
        RepointKeepsHash(symtab[x], s[j].pos / 2);
        RelabelResult(symtab[x := Repoint(symtab[x], s[j].pos / 2)], s, j + 1);
      } else {
        RelabelResult(symtab, s, j + 1);
      }
    }
  }

  ghost predicate HashesKept(a: Symtab, b: Symtab) {
    b.Keys == a.Keys && forall x :: x in a ==> HashField(b[x]) == HashField(a[x])
  }

  lemma {:induction false} AdjustedLabelled(st: State, sect: string, i: int)
    requires Good(st.scratch) && At(st.scratch, sect, i) && st.scratch[sect][i].ambiguous
    requires UniqueNames(st.scratch) && Labelled(st)
    ensures Labelled(Adjusted(st, sect, i)) && HashesKept(st.symtab, Adjusted(st, sect, i).symtab)
  {
    var s := st.scratch[sect];
    var r := Adjusted(st, sect, i);
    var t := r.scratch[sect];
    ShortenImproves(s, i);
    forall a, b | i + 1 <= a < b < |t| ensures !SameName(t[a], t[b]) {
      assert EntryImproves(s[a], t[a]) && EntryImproves(s[b], t[b]) && At(st.scratch, sect, a) &&
             At(st.scratch, sect, b);
    }
    RelabelResult(st.symtab, t, i + 1);
    forall x, k | At(r.scratch, x, k) && !(x == sect && k > i) ensures LabelAt(r.symtab, r.scratch[x][k]) {
      var e := r.scratch[x][k];
      assert LabelAt(st.symtab, st.scratch[x][k]);
      if e.name.Some? && e.name.value in st.symtab {
        forall b | i + 1 <= b < |t| ensures t[b].name != e.name {
          assert EntryImproves(s[b], t[b]) && At(st.scratch, sect, b) && At(st.scratch, x, k);
          assert x == sect ==> EntryImproves(s[k], e);
        }
      }
    }
  }

  lemma {:induction false} SettledLabelled(st: State, sect: string, i: int)
    requires At(st.scratch, sect, i) && Labelled(st)
    ensures Labelled(SettledAt(st, sect, i))
  {
    var r := SettledAt(st, sect, i);
    forall x, k | At(r.scratch, x, k) ensures LabelAt(r.symtab, r.scratch[x][k]) {
      assert LabelAt(st.symtab, st.scratch[x][k]);
    }
  }

  ghost predicate LabelsGood(st: State) {
    Good(st.scratch) && UniqueNames(st.scratch) && Labelled(st)
  }

  lemma {:induction false} HashesTransitive(a: Symtab, b: Symtab, c: Symtab)
    requires HashesKept(a, b) && HashesKept(b, c)
    ensures HashesKept(a, c)
  {
  }

  lemma {:induction false} NamesKept(a: State, b: State)
    requires Improves(a, b) && UniqueNames(a.scratch)
    ensures UniqueNames(b.scratch)
  {
    forall x, i, y, j | At(b.scratch, x, i) && At(b.scratch, y, j) && SameName(b.scratch[x][i], b.scratch[y][j])
      ensures x == y && i == j
    {
      assert EntryImproves(a.scratch[x][i], b.scratch[x][i]) && EntryImproves(a.scratch[y][j], b.scratch[y][j]);
      assert SameName(a.scratch[x][i], a.scratch[y][j]);
    }
  }

  lemma {:induction false} VisitLabelled(st: State, policy: Policy, sect: string, i: int)
    requires LabelsGood(st) && At(st.scratch, sect, i)
    ensures LabelsGood(Visit(st, policy, sect, i)) && HashesKept(st.symtab, Visit(st, policy, sect, i).symtab)
  {
    VisitImproves(st, policy, sect, i);
    NamesKept(st, Visit(st, policy, sect, i));
    VisitCases(st, policy, sect, i);
    if st.scratch[sect][i].ambiguous {
      AdjustedLabelled(st, sect, i);
      SettledLabelled(st, sect, i);
    }
  }

  lemma {:induction false} SweepLabelled(st: State, policy: Policy, sect: string, i: nat)
    requires LabelsGood(st) && sect in st.scratch && i <= |st.scratch[sect]|
    ensures LabelsGood(Sweep(st, policy, sect, i)) && HashesKept(st.symtab, Sweep(st, policy, sect, i).symtab)
    decreases |st.scratch[sect]| - i
  {
    if i < |st.scratch[sect]| {
      var mid := Visit(st, policy, sect, i);
      VisitLabelled(st, policy, sect, i);
      SweepLabelled(mid, policy, sect, i + 1);
      HashesTransitive(st.symtab, mid.symtab, Sweep(mid, policy, sect, i + 1).symtab);
    }
  }

  /** A run keeps every label at its entry's address, under its own hash. */
  lemma {:induction false} RunLabelled(st: State, policy: Policy, order: seq<string>, k: nat)
    requires LabelsGood(st) && k <= |order| && Covers(st.scratch, order)
    ensures LabelsGood(Run(st, policy, order, k)) && HashesKept(st.symtab, Run(st, policy, order, k).symtab)
    decreases |order| - k
  {
    if k < |order| {
      SweepLabelled(st, policy, order[k], 0);
      RunLabelled(Sweep(st, policy, order[k], 0), policy, order, k + 1);
    }
  }

  lemma {:induction false} FixedPointLabelled(st: State, policy: Policy, order: seq<string>)
    requires LabelsGood(st) && Covers(st.scratch, order)
    ensures var r := FixedPoint(st, policy, order);
            LabelsGood(r) && HashesKept(st.symtab, r.symtab)
    decreases |Pending(st.scratch)|
  {
    var r := Run(st, policy, order, 0);
    RunImproves(st, policy, order, 0);
    RunLabelled(st, policy, order, 0);
    if r.adjustments != st.adjustments {
      FixedPointLabelled(r, policy, order);
    }
  }

  // ---------------------------------------------------------------- the reach test as the policy

  function Reach(lookup: Lookup): Policy {
    (scratch: Scratch, symtab: Symtab, sect: string, e: Entry) => Decide(scratch, symtab, lookup, sect, e)
  }

  lemma {:induction false} LiveBaseFrame(a: State, b: State, lookup: Lookup, u: Using)
    requires OnlyFlags(a, b)
    ensures LiveBase(a.scratch, a.symtab, lookup, u) == LiveBase(b.scratch, b.symtab, lookup, u)
  {
  }

  lemma {:induction false} LiveFrame(a: State, b: State, lookup: Lookup, using: seq<Option<Using>>, section: string,
                                     value: int, unit: Unit, best: int)
    requires OnlyFlags(a, b)
    ensures Live(a.scratch, a.symtab, lookup, using, section, value, unit, best) ==
            Live(b.scratch, b.symtab, lookup, using, section, value, unit, best)
  {
    if using != [] {
      var rest, u := using[1..], using[0];
      if u.None? || u.value.section != section {
        LiveFrame(a, b, lookup, rest, section, value, unit, best);
      } else {
        LiveBaseFrame(a, b, lookup, u.value);
        var d := Units(value - LiveBase(a.scratch, a.symtab, lookup, u.value), unit);
        LiveFrame(a, b, lookup, rest, section, value, unit, if 0 <= d < best then d else best);
      }
    }
  }

  lemma {:induction false} DecideFrame(a: State, b: State, lookup: Lookup, sect: string, i: int)
    requires OnlyFlags(a, b) && At(a.scratch, sect, i)
    ensures Decide(a.scratch, a.symtab, lookup, sect, a.scratch[sect][i]) ==
            Decide(b.scratch, b.symtab, lookup, sect, b.scratch[sect][i])
  {
    var e := a.scratch[sect][i];
    match e.operand
    case Indexed =>
    case Plain(b2, d2) =>
      match Eval(d2, Bound(a.symtab, sect, e.pos))
      case None =>
      case Some(v) =>
        match Unhash(v, lookup)
        case Address(section, value) => LiveFrame(a, b, lookup, e.using, section, value, e.unit, FAR);
        case _ =>
  }

  lemma {:induction false} ReachBlind(lookup: Lookup)
    ensures Blind(Reach(lookup))
  {
    forall a, b, sect, i | OnlyFlags(a, b) && At(a.scratch, sect, i)
      ensures Reach(lookup)(a.scratch, a.symtab, sect, a.scratch[sect][i]) ==
              Reach(lookup)(b.scratch, b.symtab, sect, b.scratch[sect][i])
    {
      DecideFrame(a, b, lookup, sect, i);
    }
  }

  // ---------------------------------------------------------------- the pass itself

  const MOST_RUNS := 20

  /** The runs, at most `left` of them; true when the last one adjusted nothing. */
  function Runs(st: State, policy: Policy, order: seq<string>, left: nat): (State, bool)
    requires Covers(st.scratch, order)
    decreases left
  {
    if left == 0 then (st, false)
    else
      var r := Run(st, policy, order, 0);
      if r.adjustments == st.adjustments then (r, true) else Runs(r, policy, order, left - 1)
  }

  /** The dictionaries of sections and symbols, updated in place. */
  class Optimizer {
    var scratch: Scratch
    var symtab: Symtab
    var adjustments: nat
    const order: seq<string>
    const lookup: Lookup

    constructor (o: seq<string>, l: Lookup, s: Scratch, t: Symtab)
      requires Covers(s, o)
      ensures scratch == s && symtab == t && adjustments == 0 && order == o && lookup == l
    {
      order, lookup, scratch, symtab, adjustments := o, l, s, t, 0;
    }

    function Now(): State
      reads this
    {
      State(scratch, symtab, adjustments)
    }

    /** Makes entry `i` short and lays the rest of its section out again, labels included. */
    method Adjust(sect: string, i: nat)
      requires At(scratch, sect, i)
      modifies this
      ensures Now() == Adjusted(old(Now()), sect, i)
    {
      adjustments := adjustments + 1;
      var s := scratch[sect];
      s := s[i := s[i].(length := 2, ambiguous := false)];
      ghost var t := Shorten(scratch[sect], i);
      ghost var names := Relabel(symtab, t, i + 1);
      var j := i + 1;
      RelayKeeps(s, j);
      while j < |s|
        invariant i + 1 <= j <= |s| == |t|
        invariant Relay(s, j) == t && s[..j] == t[..j]
        invariant Relabel(symtab, t, j) == names
        modifies this`symtab
      {
        s := s[j := s[j].(pos := Follow(s[j - 1], s[j].alignment))];
        RelayKeeps(s, j + 1);
        assert s[..j + 1] == t[..j + 1];
        if s[j].name.Some? && s[j].name.value in symtab {
          var x := s[j].name.value;
          symtab := symtab[x := Repoint(symtab[x], s[j].pos / 2)];
        }
        j := j + 1;
      }
      scratch := scratch[sect := s];
    }

    /** Judges entry `i` if it is still ambiguous. */
    method Consider(sect: string, i: nat) returns (short: bool)
      requires At(scratch, sect, i)
      modifies this
      ensures Now() == Visit(old(Now()), Reach(lookup), sect, i)
      ensures adjustments == old(adjustments) + if short then 1 else 0
    {
      short := false;
      var entry := scratch[sect][i];
      if entry.ambiguous {
        match Decide(scratch, symtab, lookup, sect, entry) {
          case Short =>
            Adjust(sect, i);
            short := true;
          case Settle =>
            scratch := scratch[sect := scratch[sect][i := entry.(ambiguous := false)]];
          case Wait =>
        }
      }
    }

    /** One run over every section; the number of instructions it shortened. */
    method OptimizeScratch() returns (shortened: nat)
      requires Covers(scratch, order)
      modifies this
      ensures Now() == Run(old(Now()), Reach(lookup), order, 0)
      ensures shortened == adjustments - old(adjustments)
    {
      shortened := 0;
      ghost var goal := Run(Now(), Reach(lookup), order, 0);
      var k := 0;
      while k < |order|
        invariant 0 <= k <= |order| && Covers(scratch, order)
        invariant Run(Now(), Reach(lookup), order, k) == goal
        invariant shortened == adjustments - old(adjustments)
      {
        var sect, i := order[k], 0;
        while i < |scratch[sect]|
          invariant Covers(scratch, order) && 0 <= i <= |scratch[sect]|
          invariant Run(Sweep(Now(), Reach(lookup), sect, i), Reach(lookup), order, k + 1) == goal
          invariant shortened == adjustments - old(adjustments)
          decreases |scratch[sect]| - i
        {
          var short := Consider(sect, i);
          shortened := if short then shortened + 1 else shortened;
          i := i + 1;
        }
        k := k + 1;
      }
    }

    /** Runs until one shortens nothing, or twenty have been made. */
    method Optimize() returns (settled: bool)
      requires Covers(scratch, order)
      modifies this
      ensures (Now(), settled) == Runs(old(Now()), Reach(lookup), order, 20)
    {
      settled := false;
      var pass := 0;
      while pass < MOST_RUNS && !settled
        invariant 0 <= pass <= MOST_RUNS && Covers(scratch, order)
        invariant Runs(old(Now()), Reach(lookup), order, MOST_RUNS) ==
                  if settled then (Now(), true) else Runs(Now(), Reach(lookup), order, MOST_RUNS - pass)
        decreases MOST_RUNS - pass, !settled
      {
        var n := OptimizeScratch();
        settled := n == 0;
        pass := pass + 1;
      }
    }
  }

  lemma {:induction false} RelayKeeps(s: seq<Entry>, j: nat)
    requires 0 < j <= |s|
    ensures Relay(s, j)[..j] == s[..j]
    decreases |s| - j
  {
    if j < |s| {
      var next := s[j := s[j].(pos := Follow(s[j - 1], s[j].alignment))];
      RelayKeeps(next, j + 1);
      assert Relay(next, j + 1)[..j] == Relay(next, j + 1)[..j + 1][..j] == next[..j + 1][..j] == s[..j];
    }
  }

  lemma {:induction false} RunsImprove(st: State, policy: Policy, order: seq<string>, left: nat)
    requires Good(st.scratch) && Covers(st.scratch, order)
    ensures var r := Runs(st, policy, order, left).0;
            Good(r.scratch) && Improves(st, r)
    decreases left
  {
    hide Good, Improves, Run;
    ImprovesSame(st);
    if left > 0 {
      var r := Run(st, policy, order, 0);
      RunImproves(st, policy, order, 0);
      if r.adjustments != st.adjustments {
        RunsImprove(r, policy, order, left - 1);
        ImprovesTransitive(st, r, Runs(r, policy, order, left - 1).0);
      }
    }
  }

  /** The pass either reaches the fixed point or has shortened an instruction in every one of its runs:
      with fewer ambiguous entries than the cap on runs it always settles. */
  lemma {:induction false} RunsSettle(st: State, policy: Policy, order: seq<string>, left: nat)
    requires Good(st.scratch) && Covers(st.scratch, order)
    ensures var (r, settled) := Runs(st, policy, order, left);
            && (settled ==> r == FixedPoint(st, policy, order))
            && (|Pending(st.scratch)| < left ==> settled)
    decreases left
  {
    hide Run, Good, SectionImproves, OnlyFlags;
    if left > 0 {
      var r := Run(st, policy, order, 0);
      RunImproves(st, policy, order, 0);
      if r.adjustments != st.adjustments {
        RunsSettle(r, policy, order, left - 1);
      }
    }
  }

  lemma {:induction false} ImprovedShrinks(s: seq<Entry>, t: seq<Entry>)
    requires SectionImproves(s, t)
    ensures Shrunk(s, t)
  {
    forall k | 0 <= k < |s| ensures t[k].alignment == s[k].alignment && t[k].length <= s[k].length {
      assert EntryImproves(s[k], t[k]);
    }
  }

  /** What the pass does to a section with alignments up to `period`. */
  lemma {:induction false} PassDistances(st: State, policy: Policy, order: seq<string>, left: nat, x: string, p: nat,
                                         q: nat, period: int)
    requires Good(st.scratch) && Covers(st.scratch, order)
    requires x in st.scratch && p <= q < |st.scratch[x]| && AlignedWithin(st.scratch[x], period)
    ensures var s, r := st.scratch[x], Runs(st, policy, order, left).0;
            && At(r.scratch, x, q) && r.scratch[x][q].pos <= s[q].pos
            && r.scratch[x][q].pos - r.scratch[x][p].pos <= s[q].pos - s[p].pos + period - 2
  {
    RunsImprove(st, policy, order, left);
    var s, t := st.scratch[x], Runs(st, policy, order, left).0.scratch[x];
    ImprovedShrinks(s, t);
    NeverHigher(s, t, q);
    DistanceBound(s, t, p, q, period);
  }

  /** A branch that has room for the growth is still in reach after any number of runs. */
  lemma {:induction false} PassKeepsReach(st: State, policy: Policy, order: seq<string>, left: nat,
                                          x: string, p: nat, q: nat, period: int)
    requires Good(st.scratch) && Covers(st.scratch, order)
    requires x in st.scratch && p < |st.scratch[x]| && q < |st.scratch[x]| && AlignedWithin(st.scratch[x], period)
    ensures var s, r := st.scratch[x], Runs(st, policy, order, left).0;
            && At(r.scratch, x, p) && At(r.scratch, x, q)
            && (p < q && s[p].length >= 2 && Ahead(s, p, q) + Growth(period) < SRS_CEILING ==>
                  InShort(Ahead(r.scratch[x], p, q)))
            && (q <= p && Back(s, p, q) + Growth(period) < SRS_CEILING ==> InShort(Back(r.scratch[x], p, q)))
  {
    RunsImprove(st, policy, order, left);
    var s, t := st.scratch[x], Runs(st, policy, order, left).0.scratch[x];
    ImprovedShrinks(s, t);
    StaysInReach(s, t, p, q, period);
  }

  // ---------------------------------------------------------------- how far the pass can push a target

  const HOME := "HOME"

  /** The one section of the sample, registered under hash 1. */
  const REGISTERED: Lookup := map[1 := HOME]

  /** The sample layout as all there is, with some of its instructions already short. */
  function Sole(s: seq<Entry>, adjustments: nat): State {
    State(map[HOME := s], map[HOME := HASH_UNIT], adjustments)
  }

  /** A branch to itself is found in reach. */
  lemma {:induction false} LongIsShort(scratch: Scratch, e: Entry)
    requires e == Long(0).(pos := e.pos) && 0 <= e.pos <= BOUNDARY
    ensures Decide(scratch, map[HOME := HASH_UNIT], REGISTERED, HOME, e) == Short
  {
    UnhashSymbol(1, e.pos / 2, REGISTERED);
    assert Eval(Sym("*"), Bound(map[HOME := HASH_UNIT], HOME, e.pos)) == Some(1 * HASH_UNIT + e.pos / 2);
  }

  lemma {:induction false} Unlabelled(symtab: Symtab, s: seq<Entry>, j: nat)
    requires j <= |s| && forall k :: 0 <= k < |s| ==> s[k].name.None?
    ensures Relabel(symtab, s, j) == symtab
    decreases |s| - j
  {
    if j < |s| {
      Unlabelled(symtab, s, j + 1);
    }
  }

  lemma {:induction false} SweepIdle(st: State, policy: Policy, sect: string, i: nat)
    requires sect in st.scratch && i <= |st.scratch[sect]|
    requires forall k :: i <= k < |st.scratch[sect]| ==> !st.scratch[sect][k].ambiguous
    ensures Sweep(st, policy, sect, i) == st
    decreases |st.scratch[sect]| - i
  {
    if i < |st.scratch[sect]| {
      SweepIdle(st, policy, sect, i + 1);
    }
  }

  /** What is left long in the sample stands between the start and the boundary. */
  lemma {:induction false} CrowdedPlaced(d: nat, period: int, i: nat)
    requires InShort(d) && (period == 2 || period == 4 || period == 8) && i < Growth(period)
    ensures var s, t := Crowded(d, period), ShortenFirst(Crowded(d, period), i);
            && |s| == |t| == Growth(period) + 4
            && t[i] == Long(0).(pos := t[i].pos) && 0 <= t[i].pos <= BOUNDARY
  {
    var s, t := Crowded(d, period), ShortenFirst(Crowded(d, period), i);
    CrowdedEntries(d, period);
    CrowdedLaidOut(s, d, period);
    CrowdedWellformed(s, d, period);
    ShortenFirstResult(s, i);
    EvenPositions(t, i);
    NeverHigher(s, t, i);
  }

  lemma {:induction false} SoleAdjusted(s: seq<Entry>, i: nat)
    requires i < |s| && forall k :: 0 <= k < |s| ==> s[k].name.None?
    ensures Adjusted(Sole(s, i), HOME, i) == Sole(Shorten(s, i), i + 1)
  {
    RelayFollows(s[i := s[i].(length := 2, ambiguous := false)], i + 1);
    Unlabelled(map[HOME := HASH_UNIT], Shorten(s, i), i + 1);
    assert map[HOME := s][HOME := Shorten(s, i)] == map[HOME := Shorten(s, i)];
  }

  lemma {:induction false} CrowdedNames(d: nat, period: int, i: nat)
    requires InShort(d) && (period == 2 || period == 4 || period == 8) && i <= Growth(period)
    ensures var t := ShortenFirst(Crowded(d, period), i);
            && |t| == Growth(period) + 4 && (forall k :: 0 <= k < |t| ==> t[k].name.None?)
            && forall k :: Growth(period) <= k < |t| ==> !t[k].ambiguous
  {
    var s := Crowded(d, period);
    CrowdedEntries(d, period);
    CrowdedLaidOut(s, d, period);
    ShortenFirstResult(s, i);
    forall k | 0 <= k < |s| ensures s[k].name.None? && (k >= Growth(period) ==> !s[k].ambiguous) {
      assert k < Growth(period) ==> s[k] == Long(BOUNDARY - 2 * d - 2 - 4 * Growth(period) + 4 * k);
    }
  }

  /** One step of the sample: the next branch to itself is made short. */
  lemma {:induction false} CrowdedVisit(d: nat, period: int, i: nat)
    requires InShort(d) && (period == 2 || period == 4 || period == 8) && i < Growth(period)
    ensures var s := Crowded(d, period);
            && |ShortenFirst(s, i)| == Growth(period) + 4
            && Visit(Sole(ShortenFirst(s, i), i), Reach(REGISTERED), HOME, i) == Sole(ShortenFirst(s, i + 1), i + 1)
  {
    var t := ShortenFirst(Crowded(d, period), i);
    CrowdedPlaced(d, period, i);
    CrowdedNames(d, period, i);
    LongIsShort(map[HOME := t], t[i]);
    SoleAdjusted(t, i);
    hide Shorten, Relabel, Decide;
  }

  lemma {:induction false} CrowdedSweep(d: nat, period: int, i: nat)
    requires InShort(d) && (period == 2 || period == 4 || period == 8) && i <= Growth(period)
    ensures var s, m := Crowded(d, period), Growth(period);
            && |ShortenFirst(s, i)| == m + 4
            && Sweep(Sole(ShortenFirst(s, i), i), Reach(REGISTERED), HOME, i) == Sole(ShortenFirst(s, m), m)
    decreases Growth(period) - i
  {
    CrowdedNames(d, period, i);
    if i == Growth(period) {
      SweepIdle(Sole(ShortenFirst(Crowded(d, period), i), i), Reach(REGISTERED), HOME, i);
    } else {
      CrowdedVisit(d, period, i);
      CrowdedSweep(d, period, i + 1);
      hide Visit, ShortenFirst, Crowded;
    }
  }

  lemma {:induction false} CrowdedAgain(d: nat, period: int)
    requires InShort(d) && (period == 2 || period == 4 || period == 8)
    ensures var r := Sole(ShortenFirst(Crowded(d, period), Growth(period)), Growth(period));
            Sweep(r, Reach(REGISTERED), HOME, 0) == r
  {
    var s, m := Crowded(d, period), Growth(period);
    CrowdedEntries(d, period);
    CrowdedLaidOut(s, d, period);
    ShortenFirstResult(s, m);
    CrowdedNames(d, period, m);
    SweepIdle(Sole(ShortenFirst(s, m), m), Reach(REGISTERED), HOME, 0);
  }

  lemma {:induction false} RunOne(st: State, policy: Policy, sect: string)
    requires sect in st.scratch
    ensures Run(st, policy, [sect], 0) == Sweep(st, policy, sect, 0)
  {
  }

  /** The pass itself attains the growth: begun on the sample it settles with the target pushed off by all
      of it. */
  lemma {:induction false} PassAttains(d: nat, period: int, left: nat)
    requires InShort(d) && (period == 2 || period == 4 || period == 8) && left >= 2
    ensures var s, m := Crowded(d, period), Growth(period);
            && Good(map[HOME := s]) && AlignedWithin(s, period)
            && Runs(Sole(s, 0), Reach(REGISTERED), [HOME], left) == (Sole(ShortenFirst(s, m), m), true)
  {
    var s, m := Crowded(d, period), Growth(period);
    var st, r := Sole(s, 0), Sole(ShortenFirst(s, m), m);
    CrowdedLaidOut(s, d, period);
    CrowdedWellformed(s, d, period);
    assert ShortenFirst(s, 0) == s;
    CrowdedSweep(d, period, 0);
    CrowdedAgain(d, period);
    RunOne(st, Reach(REGISTERED), HOME);
    RunOne(r, Reach(REGISTERED), HOME);
    hide Run, Sweep, Crowded, ShortenFirst, Reach;
    assert Run(st, Reach(REGISTERED), [HOME], 0) == r && Run(r, Reach(REGISTERED), [HOME], 0) == r;
    assert Runs(r, Reach(REGISTERED), [HOME], left - 1) == (r, true);
  }

  /** The distance the reach test compares for a branch from `p` to `q`. */
  function Distance(s: seq<Entry>, p: nat, q: nat): int
    requires p < |s| && q < |s|
  {
    if p < q then Ahead(s, p, q) else Back(s, p, q)
  }

  /** Before the pass a branch from entry `p` of section `x` stands `d` halfwords from entry `q`. */
  ghost predicate Begins(st: State, order: seq<string>, x: string, p: nat, q: nat, d: int, period: int) {
    && Good(st.scratch) && Covers(st.scratch, order) && At(st.scratch, x, p) && At(st.scratch, x, q)
    && AlignedWithin(st.scratch[x], period) && st.scratch[x][p].length >= 2 && Distance(st.scratch[x], p, q) == d
  }

  /** After the pass it is in short reach. */
  ghost predicate EndsInReach(st: State, lookup: Lookup, order: seq<string>, x: string, p: nat, q: nat)
    requires Covers(st.scratch, order)
  {
    var r := Runs(st, Reach(lookup), order, MOST_RUNS).0.scratch;
    At(r, x, p) && At(r, x, q) && InShort(Distance(r[x], p, q))
  }

  lemma {:induction false} StartsInReach(st: State, lookup: Lookup, order: seq<string>, x: string, p: nat, q: nat,
                                         d: int, period: int)
    requires Begins(st, order, x, p, q, d, period) && d + Growth(period) < SRS_CEILING
    ensures EndsInReach(st, lookup, order, x, p, q)
  {
    PassKeepsReach(st, Reach(lookup), order, MOST_RUNS, x, p, q, period);
  }

  /** The branch between entries `p` and `q` of a section that is all there is. */
  lemma {:induction false} SoleBranch(s: seq<Entry>, t: seq<Entry>, n: nat, p: nat, q: nat, period: int)
    requires Good(map[HOME := s]) && AlignedWithin(s, period) && p < |s| == |t| && q < |s| && s[p].length >= 2
    requires Runs(Sole(s, 0), Reach(REGISTERED), [HOME], MOST_RUNS) == (Sole(t, n), true)
    ensures Begins(Sole(s, 0), [HOME], HOME, p, q, Distance(s, p, q), period)
    ensures EndsInReach(Sole(s, 0), REGISTERED, [HOME], HOME, p, q) <==> InShort(Distance(t, p, q))
  {
    hide Good, AlignedWithin, Runs, Reach, Distance;
  }

  lemma {:induction false} PushedOff(d: nat, period: int)
    requires InShort(d) && (period == 2 || period == 4 || period == 8)
    ensures var st, m := Sole(Crowded(d, period), 0), Growth(period);
            && Begins(st, [HOME], HOME, m, m + 3, d, period)
            && Begins(st, [HOME], HOME, m + 3, m, d + 2, period)
            && (EndsInReach(st, REGISTERED, [HOME], HOME, m, m + 3) <==> InShort(d + m))
            && (EndsInReach(st, REGISTERED, [HOME], HOME, m + 3, m) <==> InShort(d + 2 + m))
  {
    var s, m := Crowded(d, period), Growth(period);
    PassAttains(d, period, MOST_RUNS);
    GrowthAttained(d, period);
    CrowdedEntries(d, period);
    hide Runs, Crowded, ShortenFirst, Reach, Later, Growth, Good, AlignedWithin, Begins, EndsInReach, Ahead, Back, Sole;
    SoleBranch(s, ShortenFirst(s, m), m, m, m + 3, period);
    SoleBranch(s, ShortenFirst(s, m), m, m + 3, m, period);
  }

  /** A branch that stands `d` halfwords from its target before the pass, on or back, is sure to be in short
      reach after it exactly when there is room for the growth: otherwise there is a program, with nothing still
      long but branches that are in reach, whose pass pushes the target out. */
  lemma {:induction false} PassReach(d: nat, period: int)
    requires InShort(d) && (period == 2 || period == 4 || period == 8)
    ensures (forall st, lookup, order, x, p: nat, q: nat ::
               Begins(st, order, x, p, q, d, period) && p < q ==> EndsInReach(st, lookup, order, x, p, q))
            <==> d + Growth(period) < SRS_CEILING
    ensures (forall st, lookup, order, x, p: nat, q: nat ::
               Begins(st, order, x, p, q, d, period) && q <= p ==> EndsInReach(st, lookup, order, x, p, q))
            <==> d + Growth(period) < SRS_CEILING
  {
    forall st, lookup, order, x, p: nat, q: nat
      | Begins(st, order, x, p, q, d, period) && d + Growth(period) < SRS_CEILING
      ensures EndsInReach(st, lookup, order, x, p, q)
    {
      StartsInReach(st, lookup, order, x, p, q, d, period);
    }
    PushedOff(d, period);
    if d >= 2 {
      PushedOff(d - 2, period);
    }
    hide Begins, EndsInReach, Crowded;
  }
}
