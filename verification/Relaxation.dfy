/**
  Shortening of the instructions that may be SRS (two bytes) or RS (four).  Every ambiguous
  instruction starts long; one whose target is in reach is made short and everything after it in its
  section is laid out again, until a whole run shortens nothing.  Positions are in bytes.
 */
module Relaxation {
  import opened Wrappers
  import opened PseudoAddress

  const SRS_FLOOR := 0
  const SRS_CEILING := 55

  /** How an operation may use the short form. */
  datatype Form = Branch(backward: bool)   // BC and its aliases; the overflow aliases have no backward form
                | CountBranch              // BCT, backward only
                | Memory

  /** A base register in force: the section and address captured when the USING was met, the scratch entry that
      stood behind the USING, its base expression, and the register's place in the list. */
  datatype Using = Using(section: string, captured: int, slot: Option<nat>, base: Option<Expr>, place: nat)

  datatype Operand = Indexed | Plain(b2: Option<Expr>, d2: Expr)

  type Unit = u: int | u == 1 || u == 2 witness 1

  /** One scratch entry: what a statement laid down.  `unit` is the number of halfwords (1 or 2) that a
      short displacement of the operation counts. */
  datatype Entry = Entry(pos: int, length: int, alignment: int, ambiguous: bool, name: Option<string>,
                         form: Form, unit: Unit, operand: Operand, using: seq<Option<Using>>)

  type Scratch = map<string, seq<Entry>>
  type Symtab = map<string, int>

  // ---------------------------------------------------------------- layout

  function Ceil4(x: int): (q: int)
    ensures x <= 4 * q < x + 4
  {
    (x + 3) / 4
  }

  function Ceil8(x: int): (q: int)
    ensures x <= 8 * q < x + 8
  {
    (x + 7) / 8
  }

  /** Rounding up to an alignment, which is 1, 2, 4 or 8; only those above a halfword round. */
  function AlignUp(x: int, a: int): int {
    if a == 4 then 4 * Ceil4(x) else if a == 8 then 8 * Ceil8(x) else x
  }

  /** The remainder that the pass makes up comes to the same. */
  lemma {:induction false} AlignUpByRemainder(x: int)
    ensures AlignUp(x, 4) == if x % 4 > 0 then x + 4 - x % 4 else x
    ensures AlignUp(x, 8) == if x % 8 > 0 then x + 8 - x % 8 else x
  {
    FourUp(x, Ceil4(x), x / 4);
    EightUp(x, Ceil8(x), x / 8);
  }

  lemma {:induction false} FourUp(x: int, c: int, q: int)
    requires x <= 4 * c < x + 4 && 4 * q <= x < 4 * q + 4
    ensures 4 * c == if x - 4 * q > 0 then 4 * q + 4 else x
  {
  }

  lemma {:induction false} EightUp(x: int, c: int, q: int)
    requires x <= 8 * c < x + 8 && 8 * q <= x < 8 * q + 8
    ensures 8 * c == if x - 8 * q > 0 then 8 * q + 8 else x
  {
  }

  predicate Alignment(a: int) { a == 1 || a == 2 || a == 4 || a == 8 }

  function Follow(e: Entry, alignment: int): int {
    AlignUp(e.pos + e.length, alignment)
  }

  /** Every entry stands at the aligned end of the one before it. */
  ghost predicate LaidOut(s: seq<Entry>) {
    forall j :: 0 < j < |s| ==> s[j].pos == Follow(s[j - 1], s[j].alignment)
  }

  ghost predicate Wellformed(s: seq<Entry>) {
    forall j :: 0 <= j < |s| ==>
      && Alignment(s[j].alignment) && s[j].pos >= 0 && s[j].pos % 2 == 0
      && s[j].pos < HASH_UNIT && s[j].length >= 0 && s[j].length % 2 == 0 && (s[j].ambiguous ==> s[j].length == 4)
  }

  /** The entries from `j` on laid out again behind entry `j - 1`. */
  function Relay(s: seq<Entry>, j: nat): (r: seq<Entry>)
    requires 0 < j <= |s|
    ensures |r| == |s|
    decreases |s| - j
  {
    if j == |s| then s
    else Relay(s[j := s[j].(pos := Follow(s[j - 1], s[j].alignment))], j + 1)
  }

  function Shorten(s: seq<Entry>, i: nat): (r: seq<Entry>)
    requires i < |s|
    ensures |r| == |s|
  {
    Relay(s[i := s[i].(length := 2, ambiguous := false)], i + 1)
  }

  /** Only the position may differ. */
  predicate SameButPos(a: Entry, b: Entry) {
    a.(pos := b.pos) == b
  }

  lemma {:induction false} RelayFollows(s: seq<Entry>, j: nat)
    requires 0 < j <= |s|
    ensures var r := Relay(s, j);
            && (forall k :: 0 <= k < j ==> r[k] == s[k])
            && (forall k :: j <= k < |s| ==> SameButPos(s[k], r[k]) && r[k].pos == Follow(r[k - 1], r[k].alignment))
    decreases |s| - j
  {
    if j < |s| {
      RelayFollows(s[j := s[j].(pos := Follow(s[j - 1], s[j].alignment))], j + 1);
    }
  }

  lemma {:induction false} RelayResult(s: seq<Entry>, j: nat)
    requires 0 < j <= |s|
    requires forall k :: 0 < k < j ==> s[k].pos == Follow(s[k - 1], s[k].alignment)
    ensures var r := Relay(s, j);
            && LaidOut(r)
            && (forall k :: 0 <= k < j ==> r[k] == s[k])
            && (forall k :: j <= k < |s| ==> SameButPos(s[k], r[k]))
  {
    RelayFollows(s, j);
  }

  // ---------------------------------------------------------------- what shortening does to distances

  /** The same statements, each no longer than before. */
  ghost predicate Shrunk(s: seq<Entry>, t: seq<Entry>) {
    && |s| == |t|
    && forall k :: 0 <= k < |s| ==> t[k].alignment == s[k].alignment && t[k].length <= s[k].length
  }

  /** All alignments in use divide `a`. */
  ghost predicate AlignedWithin(s: seq<Entry>, a: int) {
    && (a == 2 || a == 4 || a == 8)
    && forall k :: 0 <= k < |s| ==> Alignment(s[k].alignment) && s[k].alignment <= a
  }

  lemma {:induction false} AlignMonotone(x: int, y: int, a: int)
    requires x <= y && Alignment(a)
    ensures x <= AlignUp(x, a) <= AlignUp(y, a)
  {
  }

  /** `k` whole periods. */
  function Span(k: int, period: int): int {
    if period == 2 then 2 * k else if period == 4 then 4 * k else 8 * k
  }

  lemma {:induction false} Periods(x: int, k: int)
    ensures Ceil4(x + 4 * k) == Ceil4(x) + k && Ceil8(x + 8 * k) == Ceil8(x) + k
  {
  }

  lemma {:induction false} AlignPeriodic(x: int, a: int, k: int, period: int)
    requires Alignment(a) && (period == 2 || period == 4 || period == 8) && a <= period
    ensures AlignUp(x + Span(k, period), a) == AlignUp(x, a) + Span(k, period)
  {
    Periods(x, if period == 8 then 2 * k else k);
    Periods(x, k);
  }

  /** Layout is monotone and periodic: sections that start whole periods apart stay ordered. */
  lemma {:induction false} ShiftedBelow(s: seq<Entry>, t: seq<Entry>, p: nat, q: nat, k: int, period: int)
    requires Shrunk(s, t) && LaidOut(s) && LaidOut(t) && AlignedWithin(s, period)
    requires p <= q < |s| && t[p].pos + Span(k, period) <= s[p].pos
    ensures t[q].pos + Span(k, period) <= s[q].pos
  {
    if p < q {
      ShiftedBelow(s, t, p, q - 1, k, period);
      var a, x, y := s[q].alignment, t[q - 1].pos + t[q - 1].length, s[q - 1].pos + s[q - 1].length;
      AlignPeriodic(x, a, k, period);
      AlignMonotone(x + Span(k, period), y, a);
    }
  }

  lemma {:induction false} WholePeriods(d: int, period: int) returns (k: int)
    requires d % 2 == 0 && (period == 2 || period == 4 || period == 8)
    ensures 0 <= d - Span(k, period) <= period - 2
  {
    var h := d / 2;
    if period == 2 {
      k := h;
    } else if period == 4 {
      k := h / 2;
    } else {
      k := h / 4;
    }
  }

  /** Under any sequence of shortenings the distance between two entries grows by at most the largest
      alignment in use less two bytes; with halfword alignment only, it never grows. */
  lemma {:induction false} DistanceBound(s: seq<Entry>, t: seq<Entry>, p: nat, q: nat, period: int)
    requires Shrunk(s, t) && LaidOut(s) && LaidOut(t) && Wellformed(s) && Wellformed(t)
    requires AlignedWithin(s, period) && p <= q < |s|
    ensures t[q].pos - t[p].pos <= s[q].pos - s[p].pos + period - 2
  {
    var k := WholePeriods(s[p].pos - t[p].pos, period);
    ShiftedBelow(s, t, p, q, k, period);
  }

  /** No entry moves to a higher address. */
  lemma {:induction false} NeverHigher(s: seq<Entry>, t: seq<Entry>, q: nat)
    requires Shrunk(s, t) && LaidOut(s) && LaidOut(t) && AlignedWithin(s, 8)
    requires q < |s| && t[0].pos == s[0].pos
    ensures t[q].pos <= s[q].pos
  {
    ShiftedBelow(s, t, 0, q, 0, 8);
  }

  lemma {:induction false} Ascending(s: seq<Entry>, p: nat, q: nat)
    requires LaidOut(s) && Wellformed(s) && p < q < |s|
    ensures s[p].pos + s[p].length <= s[q].pos
  {
    AlignMonotone(s[q - 1].pos + s[q - 1].length, s[q - 1].pos + s[q - 1].length, s[q].alignment);
    if p < q - 1 {
      Ascending(s, p, q - 1);
    }
  }

  predicate InShort(d: int) { SRS_FLOOR <= d < SRS_CEILING }

  /** A section, and the same some shortenings later. */
  ghost predicate Later(s: seq<Entry>, t: seq<Entry>, period: int) {
    Shrunk(s, t) && LaidOut(s) && LaidOut(t) && Wellformed(s) && Wellformed(t) && AlignedWithin(s, period)
  }

  /** What the reach test compares for a branch from `p` on to `q`, and for one back to it. */
  function Ahead(s: seq<Entry>, p: nat, q: nat): int
    requires p < |s| && q < |s|
  {
    s[q].pos / 2 - s[p].pos / 2 - 1
  }

  function Back(s: seq<Entry>, p: nat, q: nat): int
    requires p < |s| && q < |s|
  {
    s[p].pos / 2 + 1 - s[q].pos / 2
  }

  /** The halfwords a distance can grow by. */
  function Growth(period: int): nat {
    if period == 8 then 3 else if period == 4 then 1 else 0
  }

  /** A branch that is in short reach with room for the growth stays in reach, whichever way it goes; while
      no alignment exceeds a halfword, the decision taken for it is never undone by later shortenings. */
  lemma {:induction false} StaysInReach(s: seq<Entry>, t: seq<Entry>, p: nat, q: nat, period: int)
    requires Later(s, t, period) && p < |s| && q < |s|
    ensures p < q && t[p].length >= 2 && Ahead(s, p, q) + Growth(period) < SRS_CEILING ==> InShort(Ahead(t, p, q))
    ensures q <= p && Back(s, p, q) + Growth(period) < SRS_CEILING ==> InShort(Back(t, p, q))
  {
    if p < q {
      DistanceBound(s, t, p, q, period);
      Ascending(t, p, q);
    } else {
      DistanceBound(s, t, q, p, period);
      if q < p {
        Ascending(t, q, p);
      }
    }
  }

  function Sample(pos: int, length: int, alignment: int): Entry {
    Entry(pos, length, alignment, false, None, Memory, 1, Indexed, [])
  }

  /** A branch to itself, still long though always in short reach. */
  function Long(pos: int): Entry {
    Entry(pos, 4, 2, true, None, Branch(true), 1, Plain(None, Sym("*")), [])
  }

  /** Where the far end of the sample layout stands, on a doubleword. */
  const BOUNDARY := 128

  /** As many instructions still long as a distance can grow halfwords; behind them a short branch, `d`
      halfwords of code, something aligned on the period, and a last instruction. */
  function Crowded(d: nat, period: int): seq<Entry> {
    var near := BOUNDARY - 2 * d - 2;
    (if period == 8 then [Long(near - 12), Long(near - 8), Long(near - 4)]
     else if period == 4 then [Long(near - 4)] else [])
    + [Sample(near, 2, 2), Sample(near + 2, 2 * d, 2), Sample(BOUNDARY, 0, period), Sample(BOUNDARY, 2, 2)]
  }

  /** The first `n` entries made short one after the other. */
  function ShortenFirst(s: seq<Entry>, n: nat): (r: seq<Entry>)
    requires n <= |s|
    ensures |r| == |s|
  {
    if n == 0 then s else Shorten(ShortenFirst(s, n - 1), n - 1)
  }

  lemma {:induction false} ShortenFirstResult(s: seq<Entry>, n: nat)
    requires LaidOut(s) && n <= |s|
    ensures var r := ShortenFirst(s, n);
            && LaidOut(r) && (|s| > 0 ==> r[0].pos == s[0].pos)
            && (forall k :: 0 <= k < n ==> r[k] == s[k].(pos := r[k].pos, length := 2, ambiguous := false))
            && (forall k :: n <= k < |s| ==> r[k] == s[k].(pos := r[k].pos))
  {
    if n > 0 {
      ShortenFirstResult(s, n - 1);
      var r := ShortenFirst(s, n - 1);
      RelayResult(r[n - 1 := r[n - 1].(length := 2, ambiguous := false)], n);
    }
  }

  lemma {:induction false} CrowdedEntries(d: nat, period: int)
    requires InShort(d) && (period == 2 || period == 4 || period == 8)
    ensures var s, m, near := Crowded(d, period), Growth(period), BOUNDARY - 2 * d - 2;
            && |s| == m + 4 && near > 12
            && (forall k :: 0 <= k < m ==> s[k] == Long(near - 4 * m + 4 * k))
            && s[m] == Sample(near, 2, 2) && s[m + 1] == Sample(near + 2, 2 * d, 2)
            && s[m + 2] == Sample(BOUNDARY, 0, period) && s[m + 3] == Sample(BOUNDARY, 2, 2)
  {
  }

  lemma {:induction false} CrowdedLaidOut(s: seq<Entry>, d: nat, period: int)
    requires InShort(d) && (period == 2 || period == 4 || period == 8) && s == Crowded(d, period)
    ensures LaidOut(s) && AlignedWithin(s, period)
  {
    var m, near := Growth(period), BOUNDARY - 2 * d - 2;
    CrowdedEntries(d, period);
    forall j | 0 < j < |s| ensures s[j].pos == Follow(s[j - 1], s[j].alignment) {
      if j <= m { assert s[j - 1] == Long(near - 4 * m + 4 * (j - 1)); }
    }
  }

  lemma {:induction false} CrowdedWellformed(s: seq<Entry>, d: nat, period: int)
    requires InShort(d) && (period == 2 || period == 4 || period == 8) && s == Crowded(d, period)
    ensures Wellformed(s)
  {
    CrowdedEntries(d, period);
  }

  ghost predicate EvenLengths(s: seq<Entry>) {
    forall j :: 0 <= j < |s| ==> s[j].length >= 0 && s[j].length % 2 == 0
  }

  lemma {:induction false} EvenSum(x: int, y: int)
    requires x % 2 == 0 && y % 2 == 0
    ensures (x + y) % 2 == 0
  {
  }

  lemma {:induction false} EvenMultiples(p: int, q: int)
    ensures 4 * p % 2 == 0 && 8 * q % 2 == 0
  {
    assert 4 * p == 2 * (2 * p) && 8 * q == 2 * (4 * q);
  }

  lemma {:induction false} EvenFollow(e: Entry, a: int)
    requires e.pos % 2 == 0 && e.pos >= 0 && e.length % 2 == 0 && e.length >= 0
    ensures Follow(e, a) % 2 == 0 && Follow(e, a) >= 0
  {
    EvenSum(e.pos, e.length);
    EvenMultiples(Ceil4(e.pos + e.length), Ceil8(e.pos + e.length));
  }

  lemma {:induction false} EvenPositions(s: seq<Entry>, k: nat)
    requires LaidOut(s) && k < |s| && s[0].pos >= 0 && s[0].pos % 2 == 0 && EvenLengths(s)
    ensures s[k].pos >= 0 && s[k].pos % 2 == 0
  {
    if k > 0 {
      EvenPositions(s, k - 1);
      EvenFollow(s[k - 1], s[k].alignment);
      assert s[k].pos == Follow(s[k - 1], s[k].alignment);
    }
  }

  /** The code behind the shortened instructions moves down, the aligned entry stays. */
  lemma {:induction false} CrowdedShortened(s: seq<Entry>, t: seq<Entry>, d: nat, period: int)
    requires InShort(d) && (period == 2 || period == 4 || period == 8)
    requires s == Crowded(d, period) && t == ShortenFirst(s, Growth(period))
    ensures Later(s, t, period)
    ensures var m := Growth(period);
            t[m].length == 2 && t[m].pos == s[m].pos - 2 * m && t[m + 3].pos == s[m + 3].pos == BOUNDARY
  {
    var m := Growth(period);
    CrowdedEntries(d, period);
    CrowdedLaidOut(s, d, period);
    CrowdedWellformed(s, d, period);
    ShortenFirstResult(s, m);
    forall k | 0 <= k < |t| ensures 0 <= t[k].pos <= s[k].pos && t[k].pos % 2 == 0 {
      EvenPositions(t, k);
      NeverHigher(s, t, k);
    }
    CrowdedEnd(s, t, d, period);
  }

  lemma {:induction false} CrowdedEnd(s: seq<Entry>, t: seq<Entry>, d: nat, period: int)
    requires InShort(d) && (period == 2 || period == 4 || period == 8)
    requires s == Crowded(d, period) && t == ShortenFirst(s, Growth(period))
    ensures var m := Growth(period);
            |t| == |s| == m + 4 && t[m].pos == s[m].pos - 2 * m && t[m + 3].pos == BOUNDARY
  {
    var m := Growth(period);
    CrowdedEntries(d, period);
    CrowdedLaidOut(s, d, period);
    ShortenFirstResult(s, m);
    if period == 8 {
      assert t[1].pos == Follow(t[0], 2) && t[2].pos == Follow(t[1], 2) && t[3].pos == Follow(t[2], 2);
    } else if period == 4 {
      assert t[1].pos == Follow(t[0], 2);
    }
    assert t[m + 1].pos == Follow(t[m], 2) && t[m + 2].pos == Follow(t[m + 1], period);
    assert t[m + 3].pos == Follow(t[m + 2], 2);
  }

  /** The growth is attained at every distance, forward and back, by shortening instructions that are in
      reach. */
  lemma {:induction false} GrowthAttained(d: nat, period: int)
    requires InShort(d) && (period == 2 || period == 4 || period == 8)
    ensures var s, m := Crowded(d, period), Growth(period);
            var t := ShortenFirst(s, m);
            && (forall k :: 0 <= k < m ==> s[k].ambiguous) && Later(s, t, period) && t[m].length == 2
            && Ahead(s, m, m + 3) == d && Ahead(t, m, m + 3) == d + m
            && Back(s, m + 3, m) == d + 2 && Back(t, m + 3, m) == d + 2 + m
  {
    CrowdedEntries(d, period);
    CrowdedShortened(Crowded(d, period), ShortenFirst(Crowded(d, period), Growth(period)), d, period);
  }

  /** A branch on to a target `d` halfwords off is safe from all later shortenings exactly when the growth
      leaves it in reach. */
  lemma {:induction false} ReachKept(d: nat, period: int)
    requires InShort(d) && (period == 2 || period == 4 || period == 8)
    ensures (forall s: seq<Entry>, t: seq<Entry>, p: nat, q: nat ::
               Later(s, t, period) && p < q < |s| && t[p].length >= 2 && Ahead(s, p, q) == d ==>
                   InShort(Ahead(t, p, q)))
            <==> d + Growth(period) < SRS_CEILING
  {
    forall s: seq<Entry>, t: seq<Entry>, p: nat, q: nat
      | Later(s, t, period) && p < q < |s| && t[p].length >= 2 && Ahead(s, p, q) == d
      ensures d + Growth(period) < SRS_CEILING ==> InShort(Ahead(t, p, q))
    {
      StaysInReach(s, t, p, q, period);
    }
    GrowthAttained(d, period);
  }

  /** And so is a branch back. */
  lemma {:induction false} BackReachKept(d: nat, period: int)
    requires InShort(d) && (period == 2 || period == 4 || period == 8)
    ensures (forall s: seq<Entry>, t: seq<Entry>, p: nat, q: nat ::
               Later(s, t, period) && q < p < |s| && Back(s, p, q) == d ==> InShort(Back(t, p, q)))
            <==> d + Growth(period) < SRS_CEILING
  {
    forall s: seq<Entry>, t: seq<Entry>, p: nat, q: nat
      | Later(s, t, period) && q < p < |s| && Back(s, p, q) == d
      ensures d + Growth(period) < SRS_CEILING ==> InShort(Back(t, p, q))
    {
      StaysInReach(s, t, p, q, period);
    }
    if d >= 2 {
      GrowthAttained(d - 2, period);
    }
  }

  // ---------------------------------------------------------------- entries that are not laid out

  /** The last multiple of the alignment at or before a position. */
  function LastBoundary(y: int, a: int): int {
    if a == 4 then 4 * (y / 4) else if a == 8 then 8 * (y / 8) else y
  }

  lemma {:induction false} FourApart(x: int, y: int, c: int, q: int)
    requires x <= 4 * c < x + 4 && 4 * q <= y < 4 * q + 4
    ensures 4 * c > y <==> x > 4 * q
  {
  }

  lemma {:induction false} EightApart(x: int, y: int, c: int, q: int)
    requires x <= 8 * c < x + 8 && 8 * q <= y < 8 * q + 8
    ensures 8 * c > y <==> x > 8 * q
  {
  }

  lemma {:induction false} BeyondBoundary(x: int, y: int, a: int)
    requires Alignment(a)
    ensures AlignUp(x, a) > y <==> x > LastBoundary(y, a)
  {
    FourApart(x, y, Ceil4(x), y / 4);
    EightApart(x, y, Ceil8(x), y / 8);
  }

  /** Reckoned back from where entry `k` stands: the last place at which entry `j` may end without
      pushing it up, given the lengths and alignments of the entries between. */
  function LatestEnd(s: seq<Entry>, j: nat, k: nat): int
    requires j < k < |s|
    decreases k - j
  {
    if j + 1 == k then LastBoundary(s[k].pos, s[k].alignment)
    else LastBoundary(LatestEnd(s, j + 1, k) - s[j + 1].length, s[j + 1].alignment)
  }

  ghost predicate AlignmentsBetween(s: seq<Entry>, i: nat, k: nat) {
    forall j :: i < j <= k && j < |s| ==> Alignment(s[j].alignment)
  }

  lemma {:induction false} RisesBehind(s: seq<Entry>, t: seq<Entry>, j: nat, k: nat)
    requires j < k < |s| == |t| && AlignmentsBetween(s, j, k)
    requires forall n :: j < n <= k ==> SameButPos(s[n], t[n]) && t[n].pos == Follow(t[n - 1], t[n].alignment)
    ensures t[k].pos > s[k].pos <==> t[j].pos + t[j].length > LatestEnd(s, j, k)
    decreases k - j
  {
    if j + 1 == k {
      BeyondBoundary(t[j].pos + t[j].length, s[k].pos, s[k].alignment);
    } else {
      RisesBehind(s, t, j + 1, k);
      BeyondBoundary(t[j].pos + t[j].length, LatestEnd(s, j + 1, k) - s[j + 1].length, s[j + 1].alignment);
    }
  }

  /** Whatever the layout and the alignments, shortening entry `i` pushes entry `k` up exactly when the
      short instruction ends behind the last place reckoned back from it. */
  lemma {:induction false} RisesWhen(s: seq<Entry>, i: nat, k: nat)
    requires i < k < |s| && AlignmentsBetween(s, i, k)
    ensures Shorten(s, i)[k].pos > s[k].pos <==> s[i].pos + 2 > LatestEnd(s, i, k)
  {
    RelayFollows(s[i := s[i].(length := 2, ambiguous := false)], i + 1);
    RisesBehind(s, Shorten(s, i), i, k);
  }

  /** Where every entry has the room its alignment asks for, none rises. */
  lemma {:induction false} RoomNeverRises(s: seq<Entry>, i: nat, k: nat)
    requires i <= k < |s| && s[i].length >= 2
    requires forall j :: i < j < |s| ==> Alignment(s[j].alignment) && Follow(s[j - 1], s[j].alignment) <= s[j].pos
    ensures Shorten(s, i)[k].pos <= s[k].pos
  {
    var short := s[i := s[i].(length := 2, ambiguous := false)];
    RelayFollows(short, i + 1);
    if k > i {
      var t := Shorten(s, i);
      RoomNeverRises(s, i, k - 1);
      AlignMonotone(t[k - 1].pos + t[k - 1].length, s[k - 1].pos + s[k - 1].length, s[k].alignment);
    }
  }

  /** The constants of one DC share the alignment of the widest, so that of `DC H,D` the H stands right
      behind what is before it and yet counts as doubleword aligned.  Shortening an instruction with
      nothing but unaligned code between moves the H up exactly when it stands more than the two bytes
      gained behind a boundary of the shared alignment. */
  lemma {:induction false} SharedAlignmentRises(s: seq<Entry>, i: nat, k: nat)
    requires i < k < |s| && s[i].length == 4 && Alignment(s[k].alignment)
    requires forall j :: i < j < k ==> s[j].alignment == 2
    requires forall j :: i < j <= k ==> s[j].pos == s[j - 1].pos + s[j - 1].length
    ensures Shorten(s, i)[k].pos > s[k].pos <==> s[k].pos > LastBoundary(s[k].pos, s[k].alignment) + 2
  {
    RisesWhen(s, i, k);
    UnalignedEnd(s, i, k);
  }

  lemma {:induction false} UnalignedEnd(s: seq<Entry>, j: nat, k: nat)
    requires j < k < |s|
    requires forall n :: j < n < k ==> s[n].alignment == 2
    requires forall n :: j < n <= k ==> s[n].pos == s[n - 1].pos + s[n - 1].length
    ensures s[j].pos + s[j].length - LatestEnd(s, j, k) == s[k].pos - LastBoundary(s[k].pos, s[k].alignment)
    decreases k - j
  {
    if j + 1 < k {
      UnalignedEnd(s, j + 1, k);
    }
  }

  // ---------------------------------------------------------------- the decision

  datatype Verdict = Short | Settle | Wait

  function Bound(symtab: Symtab, sect: string, pos: int): Symtab {
    if sect in symtab then symtab["*" := symtab[sect] + pos / 2] else symtab
  }

  /** The smallest address captured for a USING of the section, at most `best`. */
  function Captured(using: seq<Option<Using>>, section: string, best: int): int {
    if using == [] then best
    else
      var rest, u := using[1..], using[0];
      if u.Some? && u.value.section == section && u.value.captured < best then Captured(rest, section, u.value.captured)
      else Captured(rest, section, best)
  }

  /** Where a base register points now: its captured address, overridden by the live place of the
      statement behind the USING, overridden by its base expression evaluated again. */
  function LiveBase(scratch: Scratch, symtab: Symtab, lookup: Lookup, u: Using): int {
    var place :=
      if u.slot.Some? && u.section in scratch && u.slot.value < |scratch[u.section]|
      then scratch[u.section][u.slot.value].pos / 2 + 4096 * u.place
      else u.captured;
    if u.base.None? then place
    else
      match Eval(u.base.value, symtab)
      case None => place
      case Some(h) =>
        match Unhash(h, lookup)
        case Address(s, a) => if s == u.section then a + 4096 * u.place else place
        case _ => place
  }

  /** A distance in halfwords counted in units, rounded up. */
  function Units(d: int, unit: Unit): int {
    if unit == 2 then (d + 1) / 2 else d
  }

  /** The smallest non-negative displacement from a live base of the section, at most `best`. */
  function Live(scratch: Scratch, symtab: Symtab, lookup: Lookup, using: seq<Option<Using>>, section: string,
                value: int, unit: Unit, best: int): int
  {
    if using == [] then best
    else
      var rest, u := using[1..], using[0];
      if u.None? || u.value.section != section then Live(scratch, symtab, lookup, rest, section, value, unit, best)
      else
        var d := Units(value - LiveBase(scratch, symtab, lookup, u.value), unit);
        Live(scratch, symtab, lookup, rest, section, value, unit, if 0 <= d < best then d else best)
  }

  const FAR := 10000000

  function DecideAddress(scratch: Scratch, symtab: Symtab, lookup: Lookup, sect: string, e: Entry,
                         d2: int, section: string, value: int): Verdict
  {
    var here := e.pos / 2;
    if section == sect && (e.form.CountBranch? || e.form == Branch(true)) && sect in symtab
       && InShort(symtab[sect] + here + 1 - d2) then Short
    else if e.form.CountBranch? then Settle
    else if section == sect && e.form.Branch? && InShort(value - here - 1) then Short
    else if InShort(Captured(e.using, section, FAR)) then Short
    else if InShort(Live(scratch, symtab, lookup, e.using, section, value, e.unit, FAR)) then Short
    else Wait
  }

  /** What is to be done with an ambiguous entry: make it short, settle on the long form, or leave it
      for a later run. */
  function Decide(scratch: Scratch, symtab: Symtab, lookup: Lookup, sect: string, e: Entry): Verdict
  {
    var env := Bound(symtab, sect, e.pos);
    match e.operand
    case Indexed => Settle
    case Plain(b2, d2) =>
      if b2.Some? && Eval(b2.value, env) in {Some(4), Some(5), Some(6), Some(7)} then Settle
      else
        match Eval(d2, env)
        case None => Settle
        case Some(v) =>
          match Unhash(v, lookup)
          case Address(section, value) => DecideAddress(scratch, symtab, lookup, sect, e, v, section, value)
          case Number(n) => if b2.Some? && InShort(n) && !e.form.CountBranch? then Short else Settle
          case Invalid => Settle
  }
}
