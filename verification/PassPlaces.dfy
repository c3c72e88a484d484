/**
  Where a pass puts things: the sections and positions of words, labels and pools.
 */
module PassPlaces {
  import opened Basics
  import opened Wrappers
  import opened PassLoop

  /** The counter of the current section rounded up to an alignment. */
  ghost predicate Aligned(r: Run, alignment: int, p: nat) {
    r.l.sect < |r.l.pos| && p == PadTo(r.l.pos[r.l.sect], alignment)
  }

  /** What a statement that emits code does: at most one word, at the aligned counter of the current
      section, behind which the counter then stands; its label is recorded there. */
  lemma {:induction false} CodePlaces(s: Stmt, r: Run, p: nat)
    requires s.Code? && Aligned(r, s.alignment, p)
    ensures var q, k := Exec(s, r), |r.words|;
            && q.l == r.l.(pos := r.l.pos[r.l.sect := if |q.words| > k then p + |q.words[k].word| else p])
            && (q.words == r.words ||
                (|q.words| == k + 1 && q.words[..k] == r.words && q.words[k].place == Place(r.l.sect, p)))
            && q.t.labels == (if s.name in r.t.labels && s.name != ""
                              then r.t.labels[s.name := Label(Place(r.l.sect, p), false)] else r.t.labels)
  {
    var labelled := Recorded(Moved(r, p), s.name);
    assert Stored(labelled, s.literal).Some? ==> Stored(labelled, s.literal).value.l == labelled.l;
  }

  /** A label that was settled and is found in another section or at another position asks for a pass. */
  lemma {:induction false} LabelMoves(s: Stmt, r: Run, p: nat)
    requires s.Code? && Aligned(r, s.alignment, p) && s.name != "" && s.name in r.t.labels
    ensures var was := r.t.labels[s.name];
            !was.preliminary && (was.place.sect != r.l.sect || was.place.pos != p) ==> Exec(s, r).repeat
  {
  }

  /** A pool stands on a fullword of the current section, and the counter passes it. */
  lemma {:induction false} LtorgPlaces(s: Stmt, r: Run, p: nat)
    requires s.Ltorg? && Aligned(r, 4, p)
    ensures var q := Exec(s, r);
            && q.words == r.words && q.repeat == r.repeat
            && q.l == r.l.(pos := r.l.pos[r.l.sect := p + s.size], pool := r.l.pool + 1)
            && q.t.pools == (if r.l.pool < |r.t.pools| then r.t.pools[r.l.pool := p] else r.t.pools)
  {
  }

  // ---------------------------------------------------------------- the words of a section

  /** The words have grown by some of section `k`. */
  ghost predicate MoreIn(before: seq<Emitted>, words: seq<Emitted>, k: nat) {
    |before| <= |words| && words[..|before|] == before &&
    forall i :: |before| <= i < |words| ==> words[i].place.sect == k
  }

  lemma {:induction false} StepInSection(s: Stmt, r: Run)
    requires !s.Csect?
    ensures Exec(s, r).l.sect == r.l.sect && MoreIn(r.words, Exec(s, r).words, r.l.sect)
  {
    if s.Code? {
      var labelled := Recorded(Moved(r, PadTo(Pos(r.l), s.alignment)), s.name);
      assert Stored(labelled, s.literal).Some? ==> Stored(labelled, s.literal).value.l == labelled.l;
    }
  }

  lemma {:induction false} MoreInOn(a: seq<Emitted>, b: seq<Emitted>, c: seq<Emitted>, k: nat)
    requires MoreIn(a, b, k) && MoreIn(b, c, k)
    ensures MoreIn(a, c, k)
  {
    assert c[..|a|] == c[..|b|][..|a|];
    forall i | |a| <= i < |b| ensures c[i] == c[..|b|][i] {
    }
  }

  lemma {:induction false} ExecStep(stmts: seq<Stmt>, n: nat, r: Run)
    requires n < |stmts|
    ensures ExecAll(stmts, n + 1, r) == Exec(stmts[n], ExecAll(stmts, n, r))
  {
  }

  lemma {:induction false} CsectEnters(stmts: seq<Stmt>, m: nat, r: Run)
    requires m < |stmts| && stmts[m].Csect?
    ensures ExecAll(stmts, m + 1, r).l.sect == stmts[m].sect
    ensures MoreIn(ExecAll(stmts, m, r).words, ExecAll(stmts, m + 1, r).words, stmts[m].sect)
  {
    ExecStep(stmts, m, r);
  }

  /** Everything between `Csect(k)` and the next Csect is put into section `k`. */
  lemma {:induction false} InSection(stmts: seq<Stmt>, m: nat, n: nat, r: Run)
    requires m < n <= |stmts| && stmts[m].Csect? && forall i :: m < i < n ==> !stmts[i].Csect?
    ensures ExecAll(stmts, n, r).l.sect == stmts[m].sect
    ensures MoreIn(ExecAll(stmts, m, r).words, ExecAll(stmts, n, r).words, stmts[m].sect)
    decreases n
  {
    hide *;
    if m + 1 == n {
      CsectEnters(stmts, m, r);
    } else {
      InSection(stmts, m, n - 1, r);
      ExecStep(stmts, n - 1, r);
      StepInSection(stmts[n - 1], ExecAll(stmts, n - 1, r));
      MoreInOn(ExecAll(stmts, m, r).words, ExecAll(stmts, n - 1, r).words, ExecAll(stmts, n, r).words, stmts[m].sect);
    }
  }

  // ---------------------------------------------------------------- no two words overlap

  function Behind(e: Emitted): nat { e.place.pos + |e.word| }

  /** Of two words of a section the later one lies behind the earlier. */
  ghost predicate Apart(words: seq<Emitted>) {
    forall i, j :: 0 <= i < j < |words| && words[i].place.sect == words[j].place.sect ==>
      Behind(words[i]) <= words[j].place.pos
  }

  ghost predicate Below(words: seq<Emitted>, marks: seq<nat>) {
    forall i :: 0 <= i < |words| ==> words[i].place.sect < |marks| && Behind(words[i]) <= marks[words[i].place.sect]
  }

  /** Every word lies below its section's counter and its mark; a pool passed raises the counter alone. */
  ghost predicate Tidy(r: Run) {
    && |r.t.used| == |r.l.pos| && r.l.sect < |r.l.pos|
    && Below(r.words, r.l.pos) && Below(r.words, r.t.used) && Apart(r.words)
  }

  ghost predicate Reached(stmts: seq<Stmt>, sections: nat) {
    forall i :: 0 <= i < |stmts| && stmts[i].Csect? ==> stmts[i].sect < sections
  }

  lemma {:induction false} PadToUp(p: nat, a: int)
    ensures PadTo(p, a) >= p
    decreases p
  {
    if a > 1 && p > a { PadToUp(p - a, a); }
  }

  lemma {:induction false} BelowMore(words: seq<Emitted>, marks: seq<nat>, k: nat, p: nat)
    requires Below(words, marks) && k < |marks| && marks[k] <= p
    ensures Below(words, marks[k := p])
  {
  }

  lemma {:induction false} MovedTidy(r: Run, p: nat)
    requires Tidy(r) && p >= r.l.pos[r.l.sect]
    ensures Tidy(Moved(r, p)) && Moved(r, p).l == r.l.(pos := r.l.pos[r.l.sect := p]) && Moved(r, p).words == r.words
    ensures Moved(r, p).t.used[r.l.sect] >= p && |Moved(r, p).t.used| == |r.t.used|
  {
    BelowMore(r.words, r.l.pos, r.l.sect, p);
    if r.t.used[r.l.sect] < p {
      BelowMore(r.words, r.t.used, r.l.sect, p);
    }
  }

  lemma {:induction false} OneMoreWord(words: seq<Emitted>, e: Emitted, counters: seq<nat>, marks: seq<nat>)
    requires Below(words, counters) && Below(words, marks) && Apart(words)
    requires e.place.sect < |counters| == |marks| && counters[e.place.sect] <= e.place.pos
    requires Behind(e) <= marks[e.place.sect]
    ensures var more := words + [e];
            Below(more, counters[e.place.sect := Behind(e)]) && Below(more, marks) && Apart(more)
  {
  }

  lemma {:induction false} WordTidy(r: Run, word: seq<int>)
    requires Tidy(r)
    ensures Tidy(Emit(r, word)) && |Emit(r, word).t.used| == |r.t.used|
  {
    var p := r.l.pos[r.l.sect];
    var e, q := Emitted(Place(r.l.sect, p), word), Moved(r, p + |word|);
    MovedTidy(r, p + |word|);
    OneMoreWord(r.words, e, r.l.pos, q.t.used);
    assert Emit(r, word) == q.(words := r.words + [e]);
  }

  lemma {:induction false} CodeTidy(s: Stmt, r: Run)
    requires Tidy(r) && s.Code?
    ensures Tidy(Exec(s, r)) && |Exec(s, r).t.used| == |r.t.used|
  {
    hide Behind, Below, Apart;
    var p := PadTo(r.l.pos[r.l.sect], s.alignment);
    PadToUp(r.l.pos[r.l.sect], s.alignment);
    MovedTidy(r, p);
    var labelled := Recorded(Moved(r, p), s.name);
    assert Tidy(labelled);
    var stored := Stored(labelled, s.literal);
    if stored.Some? {
      assert Tidy(stored.value);
      WordTidy(stored.value, s.word(stored.value.t, stored.value.l));
    }
  }

  lemma {:induction false} LtorgTidy(s: Stmt, r: Run)
    requires Tidy(r) && s.Ltorg?
    ensures Tidy(Exec(s, r)) && |Exec(s, r).t.used| == |r.t.used|
  {
    hide Behind, Below, Apart;
    var p := PadTo(r.l.pos[r.l.sect], 4);
    PadToUp(r.l.pos[r.l.sect], 4);
    MovedTidy(r, p);
    BelowMore(r.words, Moved(r, p).l.pos, r.l.sect, p + s.size);
  }

  lemma {:induction false} StepTidy(s: Stmt, r: Run)
    requires Tidy(r) && (s.Csect? ==> s.sect < |r.t.used|)
    ensures Tidy(Exec(s, r)) && |Exec(s, r).t.used| == |r.t.used|
  {
    hide Behind, Below, Apart;
    match s
    case Code(_, _, _, _) => CodeTidy(s, r);
    case Ltorg(_) => LtorgTidy(s, r);
    case _ =>
  }

  lemma {:induction false} AllTidy(stmts: seq<Stmt>, n: nat, r: Run)
    requires n <= |stmts| && Tidy(r) && Reached(stmts, |r.t.used|)
    ensures Tidy(ExecAll(stmts, n, r)) && |ExecAll(stmts, n, r).t.used| == |r.t.used|
  {
    hide Tidy, Exec;
    if n > 0 {
      AllTidy(stmts, n - 1, r);
      StepTidy(stmts[n - 1], ExecAll(stmts, n - 1, r));
    }
  }

  /** A pass over sections that exist lays its words down one behind the other: no two of a section overlap,
      and every one lies below the high-water mark the pass leaves. */
  lemma {:induction false} NoOverlap(stmts: seq<Stmt>, rules: Rules, t: Tables)
    requires |t.used| > 0 && Reached(stmts, |t.used|)
    ensures var r := Pass(stmts, rules, t);
            Apart(r.words) && Below(r.words, r.t.used)
  {
    AllTidy(stmts, |stmts|, Begin(t, rules));
  }
}
