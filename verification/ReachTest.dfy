/**
  What the reach test says, in terms of distances: the least displacements from the bases in force, and for
  a branch to a label of its own section the distance between the two, up to the end of the pass.
 */
module ReachTest {
  import opened Wrappers
  import opened PseudoAddress
  import opened Relaxation
  import opened Shortening

  // ---------------------------------------------------------------- the displacements

  /** Register `i` is a base for the section. */
  predicate BaseOf(using: seq<Option<Using>>, i: int, section: string) {
    0 <= i < |using| && using[i].Some? && using[i].value.section == section
  }

  lemma {:induction false} CapturedLeast(using: seq<Option<Using>>, section: string, best: int)
    ensures var r := Captured(using, section, best);
            && r <= best && (forall i :: BaseOf(using, i, section) ==> r <= using[i].value.captured)
            && (r == best || exists i :: BaseOf(using, i, section) && r == using[i].value.captured)
  {
    if using != [] {
      var rest := using[1..];
      var next := if BaseOf(using, 0, section) && using[0].value.captured < best then using[0].value.captured else best;
      CapturedLeast(rest, section, next);
      assert Captured(using, section, best) == Captured(rest, section, next);
      forall i | BaseOf(using, i, section) && i > 0 ensures BaseOf(rest, i - 1, section) {
      }
      if j :| BaseOf(rest, j, section) && Captured(rest, section, next) == rest[j].value.captured {
        assert BaseOf(using, j + 1, section);
      }
    }
  }

  /** The least address captured for the section is a short one. */
  ghost predicate CapturedNear(using: seq<Option<Using>>, section: string) {
    && (exists i :: BaseOf(using, i, section) && using[i].value.captured < 55)
    && (forall i :: BaseOf(using, i, section) ==> using[i].value.captured >= 0)
  }

  lemma {:induction false} CapturedMeans(using: seq<Option<Using>>, section: string)
    ensures InShort(Captured(using, section, FAR)) <==> CapturedNear(using, section)
  {
    CapturedLeast(using, section, FAR);
    hide Captured;
  }

  lemma {:induction false} UnitsRoundUp(d: int, unit: Unit)
    ensures unit * Units(d, unit) - unit < d <= unit * Units(d, unit)
  {
  }

  function Displacement(scratch: Scratch, symtab: Symtab, lookup: Lookup, u: Using, value: int, unit: Unit): int {
    Units(value - LiveBase(scratch, symtab, lookup, u), unit)
  }

  lemma {:induction false} LiveLeast(scratch: Scratch, symtab: Symtab, lookup: Lookup, using: seq<Option<Using>>,
                                     section: string, value: int, unit: Unit, best: int)
    ensures var r := Live(scratch, symtab, lookup, using, section, value, unit, best);
            && r <= best
            && (forall i :: BaseOf(using, i, section) ==>
                  var d := Displacement(scratch, symtab, lookup, using[i].value, value, unit);
                  d < 0 || r <= d)
            && (r == best ||
                exists i :: BaseOf(using, i, section) &&
                  0 <= r == Displacement(scratch, symtab, lookup, using[i].value, value, unit))
  {
    if using != [] {
      var rest := using[1..];
      var d := if BaseOf(using, 0, section) then Displacement(scratch, symtab, lookup, using[0].value, value, unit)
               else best;
      var next := if 0 <= d < best then d else best;
      LiveLeast(scratch, symtab, lookup, rest, section, value, unit, next);
      assert Live(scratch, symtab, lookup, using, section, value, unit, best) ==
             Live(scratch, symtab, lookup, rest, section, value, unit, next);
      hide Displacement, Live;
      forall i | BaseOf(using, i, section) && i > 0 ensures BaseOf(rest, i - 1, section) {
      }
      if j :| BaseOf(rest, j, section) && 0 <= Live(scratch, symtab, lookup, rest, section, value, unit, next) ==
              Displacement(scratch, symtab, lookup, rest[j].value, value, unit) {
        assert BaseOf(using, j + 1, section);
      }
    }
  }

  /** Counted from where the base points now, `d` whole units reach the value and one less does not. */
  ghost predicate Reaches(scratch: Scratch, symtab: Symtab, lookup: Lookup, u: Using, value: int, unit: Unit, d: int) {
    unit * d - unit < value - LiveBase(scratch, symtab, lookup, u) <= unit * d
  }

  /** Some base reaches the value by a short displacement. */
  ghost predicate BaseNear(scratch: Scratch, symtab: Symtab, lookup: Lookup, using: seq<Option<Using>>, section: string,
                           value: int, unit: Unit)
  {
    exists i, d :: BaseOf(using, i, section) && 0 <= d < 55 &&
      Reaches(scratch, symtab, lookup, using[i].value, value, unit, d)
  }

  lemma {:induction false} ReachesIs(scratch: Scratch, symtab: Symtab, lookup: Lookup, u: Using, value: int, unit: Unit,
                                     d: int)
    ensures Reaches(scratch, symtab, lookup, u, value, unit, d) <==>
            d == Displacement(scratch, symtab, lookup, u, value, unit)
  {
    UnitsRoundUp(value - LiveBase(scratch, symtab, lookup, u), unit);
  }

  lemma {:induction false} LiveMeans(scratch: Scratch, symtab: Symtab, lookup: Lookup, using: seq<Option<Using>>,
                                     section: string, value: int, unit: Unit)
    ensures InShort(Live(scratch, symtab, lookup, using, section, value, unit, FAR)) <==>
            BaseNear(scratch, symtab, lookup, using, section, value, unit)
  {
    LiveLeast(scratch, symtab, lookup, using, section, value, unit, FAR);
    forall i, d | BaseOf(using, i, section)
      ensures Reaches(scratch, symtab, lookup, using[i].value, value, unit, d) <==>
              d == Displacement(scratch, symtab, lookup, using[i].value, value, unit)
    {
      ReachesIs(scratch, symtab, lookup, using[i].value, value, unit, d);
    }
    hide Live, Reaches, Displacement;
    var r := Live(scratch, symtab, lookup, using, section, value, unit, FAR);
    if InShort(r) {
      var i :| BaseOf(using, i, section) &&
               0 <= r == Displacement(scratch, symtab, lookup, using[i].value, value, unit);
      assert Reaches(scratch, symtab, lookup, using[i].value, value, unit, r);
    }
  }

  /** Where a base points: its expression's present place if that lies in the section, else the place of the
      entry behind the USING, else the address captured; each register 4096 beyond the one before. */
  lemma {:induction false} BasePoints(scratch: Scratch, symtab: Symtab, lookup: Lookup, u: Using, h: int, a: int)
    ensures ValidHashes(lookup) && h in lookup && h != MAX_HASH && 0 <= a < OFFSET_SPAN && lookup[h] == u.section &&
            u.base.Some? && Eval(u.base.value, symtab) == Some(h * HASH_UNIT + a) ==>
              LiveBase(scratch, symtab, lookup, u) - 4096 * u.place == a
    ensures u.base.None? && u.slot.Some? && At(scratch, u.section, u.slot.value) ==>
              LiveBase(scratch, symtab, lookup, u) - 4096 * u.place == scratch[u.section][u.slot.value].pos / 2
    ensures u.base.None? && u.slot.None? ==> LiveBase(scratch, symtab, lookup, u) == u.captured
    // An expression without a value in the section is passed over.
    ensures u.base.Some? && (Eval(u.base.value, symtab) == None ||
                             (Eval(u.base.value, symtab) == Some(h * HASH_UNIT + a) && ValidHashes(lookup) &&
                              h in lookup && h != MAX_HASH && 0 <= a < OFFSET_SPAN && lookup[h] != u.section)) ==>
              LiveBase(scratch, symtab, lookup, u) == LiveBase(scratch, symtab, lookup, u.(base := None))
  {
    if ValidHashes(lookup) && h in lookup {
      UnhashSymbol(h, a, lookup);
    }
  }

  // ---------------------------------------------------------------- the verdict

  /** A branch on from `pos` to place `k` of its own section. */
  ghost predicate NearOn(form: Relaxation.Form, pos: int, k: int) {
    form.Branch? && 0 <= k - (pos / 2 + 1) < 55
  }

  /** A branch back, where the operation has one. */
  ghost predicate NearBack(form: Relaxation.Form, pos: int, k: int) {
    (form.CountBranch? || (form.Branch? && form.backward)) && 0 <= pos / 2 + 1 - k < 55
  }

  /** The operand is not an index in disguise. */
  ghost predicate NoIndex(b2: Option<Expr>, env: Symtab) {
    b2.Some? ==> Eval(b2.value, env) !in {Some(4), Some(5), Some(6), Some(7)}
  }

  /** The verdict on an operand that is an address: short exactly if the branch is near, or a base captured
      near or pointing near governs the section; only a count branch is then settled as long. */
  lemma {:induction false} DecideMeans(scratch: Scratch, symtab: Symtab, lookup: Lookup, sect: string, e: Entry,
                                       b2: Option<Expr>, d2: Expr, here: int, h: int, k: int)
    requires ValidHashes(lookup) && h in lookup && h != MAX_HASH && 0 <= k < OFFSET_SPAN
    requires sect in symtab && symtab[sect] == here * HASH_UNIT && e.operand == Plain(b2, d2)
    requires var env := symtab["*" := here * HASH_UNIT + e.pos / 2];
             NoIndex(b2, env) && Eval(d2, env) == Some(h * HASH_UNIT + k)
    requires lookup[h] == sect ==> h == here
    ensures Decide(scratch, symtab, lookup, sect, e) ==
            if (lookup[h] == sect && (NearOn(e.form, e.pos, k) || NearBack(e.form, e.pos, k))) ||
               (!e.form.CountBranch? && (CapturedNear(e.using, lookup[h]) ||
                                         BaseNear(scratch, symtab, lookup, e.using, lookup[h], k, e.unit)))
            then Short else if e.form.CountBranch? then Settle else Wait
  {
    UnhashSymbol(h, k, lookup);
    CapturedMeans(e.using, lookup[h]);
    LiveMeans(scratch, symtab, lookup, e.using, lookup[h], k, e.unit);
    hide CapturedNear, BaseNear, Captured, Live, Unhash;
  }

  /** The verdict on anything else: an index, an operand without a value and a number that is no short
      displacement behind a base are settled as long. */
  lemma {:induction false} DecideRest(scratch: Scratch, symtab: Symtab, lookup: Lookup, sect: string, e: Entry,
                                      b2: Option<Expr>, d2: Expr, n: int)
    requires sect in symtab
    ensures e.operand == Indexed ==> Decide(scratch, symtab, lookup, sect, e) == Settle
    ensures var env := symtab["*" := symtab[sect] + e.pos / 2];
            e.operand == Plain(b2, d2) ==>
              && (!NoIndex(b2, env) || Eval(d2, env) == None ==> Decide(scratch, symtab, lookup, sect, e) == Settle)
              && (NoIndex(b2, env) && Eval(d2, env) == Some(n) && 0 <= n < HASH_UNIT ==>
                    Decide(scratch, symtab, lookup, sect, e) ==
                    if b2.Some? && n < 55 && !e.form.CountBranch? then Short else Settle)
  {
  }

  // ---------------------------------------------------------------- a branch to a label of its section

  /** A section at its hash, and in it an entry `p` whose operand is the label of entry `q`, held where that
      entry stands; no base for the section is in force. */
  ghost predicate BranchTo(scratch: Scratch, symtab: Symtab, lookup: Lookup, sect: string, h: int, p: int, q: int,
                           target: string)
  {
    && ValidHashes(lookup) && h in lookup && lookup[h] == sect && h != MAX_HASH
    && At(scratch, sect, p) && At(scratch, sect, q) && 0 <= scratch[sect][q].pos < HASH_UNIT / 8
    && scratch[sect][p].operand == Plain(None, Sym(target)) && target != "*"
    && (forall i :: !BaseOf(scratch[sect][p].using, i, sect))
    && sect in symtab && symtab[sect] == h * HASH_UNIT
    && target in symtab && symtab[target] == h * HASH_UNIT + scratch[sect][q].pos / 2
  }

  /** The verdict on it goes by the distance: on or, where the operation has a form for it, back. */
  lemma {:induction false} DecideBranch(scratch: Scratch, symtab: Symtab, lookup: Lookup, sect: string, h: int, p: int,
                                        q: int, target: string)
    requires BranchTo(scratch, symtab, lookup, sect, h, p, q, target)
    ensures var s, e := scratch[sect], scratch[sect][p];
            Decide(scratch, symtab, lookup, sect, e) == Short <==>
            || (e.form.Branch? && 0 <= Ahead(s, p, q) < 55)
            || (e.form.Branch? && e.form.backward && 0 <= Back(s, p, q) < 55)
            || (e.form.CountBranch? && 0 <= Back(s, p, q) < 55)
  {
    var e, k := scratch[sect][p], scratch[sect][q].pos / 2;
    DecideMeans(scratch, symtab, lookup, sect, e, None, Sym(target), h, h, k);
  }

  // ---------------------------------------------------------------- symbols that label nothing

  ghost predicate Labels(scratch: Scratch, x: string) {
    exists sect, k :: At(scratch, sect, k) && scratch[sect][k].name == Some(x)
  }

  /** Symbols that label no entry keep their values. */
  ghost predicate OthersKept(a: State, b: State) {
    b.symtab.Keys == a.symtab.Keys && forall x :: x in a.symtab && !Labels(a.scratch, x) ==> b.symtab[x] == a.symtab[x]
  }

  lemma {:induction false} SameLabels(a: State, b: State, x: string)
    requires Improves(a, b) && Labels(b.scratch, x)
    ensures Labels(a.scratch, x)
  {
    var sect, k :| At(b.scratch, sect, k) && b.scratch[sect][k].name == Some(x);
    assert SectionImproves(a.scratch[sect], b.scratch[sect]);
    assert EntryImproves(a.scratch[sect][k], b.scratch[sect][k]) && At(a.scratch, sect, k);
  }

  lemma {:induction false} OthersTransitive(a: State, b: State, c: State)
    requires Improves(a, b) && OthersKept(a, b) && OthersKept(b, c)
    ensures OthersKept(a, c)
  {
    forall x | x in a.symtab && !Labels(a.scratch, x) ensures c.symtab[x] == a.symtab[x] {
      if Labels(b.scratch, x) { SameLabels(a, b, x); }
    }
  }

  lemma {:induction false} RelabelOthers(symtab: Symtab, s: seq<Entry>, j: nat, x: string)
    requires j <= |s|
    ensures Relabel(symtab, s, j).Keys == symtab.Keys
    ensures x in symtab && (forall k :: j <= k < |s| ==> s[k].name != Some(x)) ==> Relabel(symtab, s, j)[x] == symtab[x]
    decreases |s| - j
  {
    if j < |s| {
      if s[j].name.Some? && s[j].name.value in symtab {
        RelabelOthers(symtab[s[j].name.value := Repoint(symtab[s[j].name.value], s[j].pos / 2)], s, j + 1, x);
      } else {
        RelabelOthers(symtab, s, j + 1, x);
      }
    }
  }

  lemma {:induction false} VisitOthers(st: State, policy: Policy, sect: string, i: int)
    requires Good(st.scratch) && At(st.scratch, sect, i)
    ensures OthersKept(st, Visit(st, policy, sect, i))
  {
    VisitCases(st, policy, sect, i);
    var s, r := Shorten(st.scratch[sect], i), Visit(st, policy, sect, i);
    RelayFollows(st.scratch[sect][i := st.scratch[sect][i].(length := 2, ambiguous := false)], i + 1);
    forall x | x in st.symtab
      ensures Relabel(st.symtab, s, i + 1).Keys == st.symtab.Keys
      ensures !Labels(st.scratch, x) ==> Relabel(st.symtab, s, i + 1)[x] == st.symtab[x]
    {
      RelabelOthers(st.symtab, s, i + 1, x);
      forall k | i + 1 <= k < |s| && s[k].name == Some(x) ensures Labels(st.scratch, x) {
        assert At(st.scratch, sect, k) && SameButPos(st.scratch[sect][k], s[k]);
      }
    }
    RelabelOthers(st.symtab, s, i + 1, "");
  }

  lemma {:induction false} SweepOthers(st: State, policy: Policy, sect: string, i: nat)
    requires Good(st.scratch) && sect in st.scratch && i <= |st.scratch[sect]|
    ensures OthersKept(st, Sweep(st, policy, sect, i))
    decreases |st.scratch[sect]| - i
  {
    hide Good, Improves, Visit, OthersKept;
    OthersSame(st);
    if i < |st.scratch[sect]| {
      var mid := Visit(st, policy, sect, i);
      VisitImproves(st, policy, sect, i);
      VisitOthers(st, policy, sect, i);
      SweepOthers(mid, policy, sect, i + 1);
      OthersTransitive(st, mid, Sweep(mid, policy, sect, i + 1));
    }
  }

  lemma {:induction false} OthersSame(st: State)
    ensures OthersKept(st, st)
  {
  }

  lemma {:induction false} RunOthers(st: State, policy: Policy, order: seq<string>, k: nat)
    requires Good(st.scratch) && k <= |order| && Covers(st.scratch, order)
    ensures OthersKept(st, Run(st, policy, order, k))
    decreases |order| - k
  {
    hide Good, Improves, Sweep, OthersKept;
    OthersSame(st);
    if k < |order| {
      var mid := Sweep(st, policy, order[k], 0);
      SweepImproves(st, policy, order[k], 0);
      SweepOthers(st, policy, order[k], 0);
      RunOthers(mid, policy, order, k + 1);
      OthersTransitive(st, mid, Run(mid, policy, order, k + 1));
    }
  }

  lemma {:induction false} FixedPointOthers(st: State, policy: Policy, order: seq<string>)
    requires Good(st.scratch) && Covers(st.scratch, order)
    ensures OthersKept(st, FixedPoint(st, policy, order))
    decreases |Pending(st.scratch)|
  {
    var r := Run(st, policy, order, 0);
    RunImproves(st, policy, order, 0);
    RunOthers(st, policy, order, 0);
    if r.adjustments != st.adjustments {
      FixedPointOthers(r, policy, order);
      OthersTransitive(st, r, FixedPoint(r, policy, order));
    }
  }

  // ---------------------------------------------------------------- the end of the pass

  /** What is left long by the pass is out of reach: a branch to a label of its own section that is still
      ambiguous in the fixed point stands there more than a short displacement from its target, on and, where
      the operation has a form for it, back. */
  lemma {:induction false} FixedPointReach(st: State, lookup: Lookup, order: seq<string>, sect: string, h: int, p: int,
                                           q: int, target: string)
    requires LabelsGood(st) && Covers(st.scratch, order) && sect in order
    requires BranchTo(st.scratch, st.symtab, lookup, sect, h, p, q, target)
    requires st.scratch[sect][q].name == Some(target) && !Labels(st.scratch, sect)
    ensures var r := FixedPoint(st, Reach(lookup), order);
            && BranchTo(r.scratch, r.symtab, lookup, sect, h, p, q, target)
            && (r.scratch[sect][p].ambiguous ==>
                  var t, form := r.scratch[sect], r.scratch[sect][p].form;
                  && (form.Branch? ==> !(0 <= Ahead(t, p, q) < 55))
                  && ((form.Branch? && form.backward) || form.CountBranch? ==> !(0 <= Back(t, p, q) < 55)))
  {
    var r := FixedPoint(st, Reach(lookup), order);
    ReachBlind(lookup);
    FixedPointQuiet(st, Reach(lookup), order, sect, p);
    FixedPointLabelled(st, Reach(lookup), order);
    FixedPointOthers(st, Reach(lookup), order);
    StillBranch(st, r, lookup, sect, h, p, q, target);
    DecideBranch(r.scratch, r.symtab, lookup, sect, h, p, q, target);
  }

  lemma {:induction false} StillBranch(st: State, r: State, lookup: Lookup, sect: string, h: int, p: int, q: int,
                                       target: string)
    requires LabelsGood(st) && LabelsGood(r) && Improves(st, r) && HashesKept(st.symtab, r.symtab) && OthersKept(st, r)
    requires BranchTo(st.scratch, st.symtab, lookup, sect, h, p, q, target)
    requires st.scratch[sect][q].name == Some(target) && !Labels(st.scratch, sect)
    ensures BranchTo(r.scratch, r.symtab, lookup, sect, h, p, q, target)
  {
    var s, t := st.scratch[sect], r.scratch[sect];
    assert SectionImproves(s, t);
    assert EntryImproves(s[p], t[p]) && EntryImproves(s[q], t[q]);
    Fields(h, s[q].pos / 2);
    assert LabelAt(r.symtab, t[q]) by { assert At(r.scratch, sect, q); }
    ImprovedShrinks(s, t);
    NeverHigher(s, t, q);
  }
}
