/**
  Literal pools: placing the literals by falling alignment, setting the pool behind its section, and
  writing it into the section's memory.  Everything is in bytes.
 */
module LiteralPool {
  import opened Basics
  import opened Wrappers

  datatype Literal = Literal(length: nat, assembled: seq<Byte>)

  // ---------------------------------------------------------------- specification of the layout

  predicate Alignment(a: int) { a == 8 || a == 4 || a == 2 || a == 1 }

  predicate Multiple(x: int, a: int) {
    if a == 8 then x % 8 == 0 else if a == 4 then x % 4 == 0 else if a == 2 then x % 2 == 0 else true
  }

  /** The natural alignment of a length: the largest of 8, 4, 2 and 1 dividing it. */
  function Class(n: nat): (a: int)
    ensures Alignment(a)
  {
    if n >= 8 then Class(n - 8)
    else if n == 0 then 8 else if n == 4 then 4 else if n == 2 || n == 6 then 2 else 1
  }

  lemma {:induction false} ClassMeans(n: nat, a: int)
    requires Alignment(a)
    ensures Class(n) >= a <==> Multiple(n, a)
  {
    if n >= 8 {
      ClassMeans(n - 8, a);
      EightMore(n - 8);
    }
  }

  lemma {:induction false} EightMore(n: nat)
    ensures (n + 8) % 8 == n % 8 && (n + 8) % 4 == n % 4 && (n + 8) % 2 == n % 2
  {
    Of8(n + 8, n / 8 + 1, n % 8);
    Of4(n + 8, n / 4 + 2, n % 4);
    Of2(n + 8, n / 2 + 4, n % 2);
  }

  /** Bytes of the first `n` literals of one class. */
  function ClassBytes(lits: seq<Literal>, a: int, n: nat): nat
    requires n <= |lits|
  {
    if n == 0 then 0 else ClassBytes(lits, a, n - 1) + if Class(lits[n - 1].length) == a then lits[n - 1].length else 0
  }

  /** Bytes of all literals of a wider class. */
  function Wider(lits: seq<Literal>, a: int): nat {
    (if a < 8 then ClassBytes(lits, 8, |lits|) else 0) + (if a < 4 then ClassBytes(lits, 4, |lits|) else 0)
      + (if a < 2 then ClassBytes(lits, 2, |lits|) else 0)
  }

  /** Where a literal goes: behind all wider ones and the earlier ones of its own class. */
  function OffsetOf(lits: seq<Literal>, i: nat): nat
    requires i < |lits|
  {
    var a := Class(lits[i].length);
    Wider(lits, a) + ClassBytes(lits, a, i)
  }

  function TotalLength(lits: seq<Literal>, n: nat): nat
    requires n <= |lits|
  {
    if n == 0 then 0 else TotalLength(lits, n - 1) + lits[n - 1].length
  }

  // ---------------------------------------------------------------- what the layout guarantees

  lemma {:induction false} ClassSum(x: nat, y: nat, a: int)
    requires Alignment(a) && Class(x) >= a && Class(y) >= a
    ensures Class(x + y) >= a
  {
    if x >= 8 { ClassSum(x - 8, y, a); } else if y >= 8 { ClassSum(x, y - 8, a); }
  }

  lemma {:induction false} ClassBytesMultiple(lits: seq<Literal>, a: int, n: nat)
    requires n <= |lits|
    ensures Class(ClassBytes(lits, a, n)) >= a || !Alignment(a)
  {
    if n > 0 {
      ClassBytesMultiple(lits, a, n - 1);
      if Class(lits[n - 1].length) == a {
        ClassSum(ClassBytes(lits, a, n - 1), lits[n - 1].length, a);
      }
    }
  }

  /** Behind the wider literals every class starts on its own alignment. */
  lemma {:induction false} WiderMultiple(lits: seq<Literal>, a: int, n: nat)
    requires Alignment(a) && n <= |lits|
    ensures Class(Wider(lits, a) + ClassBytes(lits, a, n)) >= a
  {
    var k, here := |lits|, ClassBytes(lits, a, n);
    ClassBytesMultiple(lits, 8, k);
    ClassBytesMultiple(lits, 4, k);
    ClassBytesMultiple(lits, 2, k);
    ClassBytesMultiple(lits, a, n);
    if a < 2 { ClassSum(here, ClassBytes(lits, 2, k), a); here := here + ClassBytes(lits, 2, k); }
    if a < 4 { ClassSum(here, ClassBytes(lits, 4, k), a); here := here + ClassBytes(lits, 4, k); }
    if a < 8 { ClassSum(here, ClassBytes(lits, 8, k), a); }
  }

  lemma {:induction false} ClassBytesGrow(lits: seq<Literal>, a: int, m: nat, n: nat)
    requires m <= n <= |lits|
    ensures ClassBytes(lits, a, m) <= ClassBytes(lits, a, n)
    ensures m < n && Class(lits[m].length) == a ==> ClassBytes(lits, a, m) + lits[m].length <= ClassBytes(lits, a, n)
    decreases n - m
  {
    if m < n {
      ClassBytesGrow(lits, a, m, n - 1);
    }
  }

  lemma {:induction false} ClassesSum(lits: seq<Literal>, n: nat)
    requires n <= |lits|
    ensures ClassBytes(lits, 8, n) + ClassBytes(lits, 4, n) + ClassBytes(lits, 2, n) + ClassBytes(lits, 1, n) ==
            TotalLength(lits, n)
  {
    if n > 0 {
      ClassesSum(lits, n - 1);
    }
  }

  /** Any two literals lie apart, each on its natural alignment, inside a pool as long as the literals
      together: so there is no padding between them. */
  lemma {:induction false} Layout(lits: seq<Literal>, i: nat, j: nat)
    requires i < |lits| && j < |lits|
    ensures Multiple(OffsetOf(lits, i), Class(lits[i].length))
    ensures OffsetOf(lits, i) + lits[i].length <= TotalLength(lits, |lits|)
    ensures i != j ==>
              || OffsetOf(lits, i) + lits[i].length <= OffsetOf(lits, j)
              || OffsetOf(lits, j) + lits[j].length <= OffsetOf(lits, i)
  {
    var a, b, n := Class(lits[i].length), Class(lits[j].length), |lits|;
    WiderMultiple(lits, a, i);
    ClassMeans(OffsetOf(lits, i), a);
    ClassesSum(lits, n);
    ClassBytesGrow(lits, a, i, n);
    ClassBytesGrow(lits, b, j, n);
    if i < j { ClassBytesGrow(lits, a, i, j); } else if j < i { ClassBytesGrow(lits, a, j, i); }
  }

  // ---------------------------------------------------------------- the pool

  /** The widest alignment among the first `n` literals, a pool being fullword aligned at least. */
  function Widest(lits: seq<Literal>, n: nat): int
    requires n <= |lits|
  {
    if n == 0 then 4 else if Class(lits[n - 1].length) == 8 then 8 else Widest(lits, n - 1)
  }

  /** A pool that holds a literal of a whole number of doublewords is set on a doubleword, any other on a
      fullword. */
  lemma {:induction false} WidestMeans(lits: seq<Literal>, n: nat)
    requires n <= |lits|
    ensures Widest(lits, n) == if exists i :: 0 <= i < n && lits[i].length % 8 == 0 then 8 else 4
  {
    if n > 0 {
      WidestMeans(lits, n - 1);
      ClassMeans(lits[n - 1].length, 8);
    }
  }

  /** The classes in the order they are placed. */
  const ALIGNMENTS := [8, 4, 2, 1]

  /** The offsets once the classes wider than `a`, and the first `n` literals of class `a`, are placed. */
  ghost predicate PlacedTo(lits: seq<Literal>, offsets: seq<Option<nat>>, a: int, n: nat) {
    && |offsets| == |lits|
    && forall k :: 0 <= k < |lits| ==>
         var c := Class(lits[k].length);
         offsets[k] == if c > a || (c == a && k < n) then Some(OffsetOf(lits, k)) else None
  }

  lemma {:induction false} PadToMultiple(x: nat, a: int)
    requires Alignment(a) && Multiple(x, a)
    ensures PadTo(x, a) == x
  {
    if a == 8 {
      PadToDoubleword(x);
    } else if a == 4 {
      PadToFullword(x);
    } else if a == 2 {
      PadToHalfword(x);
    }
  }

  lemma {:induction false} PlaceNext(lits: seq<Literal>, offsets: seq<Option<nat>>, a: int, i: nat)
    requires Alignment(a) && i < |lits| && PlacedTo(lits, offsets, a, i)
    ensures var c, here := Class(lits[i].length), Wider(lits, a) + ClassBytes(lits, a, i);
            && |offsets| == |lits| && (offsets[i] == None && Multiple(lits[i].length, a) <==> c == a)
            && (c == a ==> here == OffsetOf(lits, i) && PlacedTo(lits, offsets[i := Some(here)], a, i + 1))
            && (c != a ==> PlacedTo(lits, offsets, a, i + 1))
            && PadTo(here, a) == here
  {
    WiderMultiple(lits, a, i);
    ClassMeans(lits[i].length, a);
    ClassMeans(Wider(lits, a) + ClassBytes(lits, a, i), a);
    PadToMultiple(Wider(lits, a) + ClassBytes(lits, a, i), a);
  }

  class Pool {
    const lits: seq<Literal>
    var base: nat
    var align: int
    var offsets: seq<Option<nat>>
    var size: nat

    constructor (l: seq<Literal>)
      ensures lits == l
    {
      lits := l;
      base, align, offsets, size := 0, 4, [], 0;
    }

    ghost predicate LaidOut()
      reads this
    {
      && |offsets| == |lits| && size == TotalLength(lits, |lits|) && align == Widest(lits, |lits|)
      && forall i :: 0 <= i < |lits| ==> offsets[i] == Some(OffsetOf(lits, i))
    }

    /** The first `i` literals have been looked at for alignment `a`, the pool's own alignment being
        `align0` before. */
    ghost predicate Placing(a: int, i: nat, offset: nat, align0: int)
      requires i <= |lits|
      reads this
    {
      && PlacedTo(lits, offsets, a, i) && offset == size == Wider(lits, a) + ClassBytes(lits, a, i)
      && (align0 == 4 && a == 8 ==> align == Widest(lits, i))
      && (align0 >= a ==> align == align0)
    }

    /** Places literal `i` if its alignment is `a` and it has not been placed. */
    method PlaceOne(a: int, i: nat, at: nat, ghost align0: int) returns (offset: nat)
      requires Alignment(a) && i < |lits| && Placing(a, i, at, align0)
      modifies this`align, this`offsets, this`size
      ensures Placing(a, i + 1, offset, align0)
    {
      hide Wider, Multiple, PadTo, Class, PlacedTo, OffsetOf;
      PlaceNext(lits, offsets, a, i);
      WidestRange(lits, i);
      offset := at;
      if offsets[i] == None && Multiple(lits[i].length, a) {
        if a > align {
          align := a;
        }
        offset := PadTo(offset, a);
        offsets := offsets[i := Some(offset)];
        offset := offset + lits[i].length;
        if offset > size {
          size := offset;
        }
      }
    }

    /** One pass over the literals, placing those of alignment `a`. */
    method PlaceClass(a: int, at: nat) returns (offset: nat)
      requires Alignment(a) && PlacedTo(lits, offsets, a, 0) && at == size == Wider(lits, a)
      requires align == if a == 8 then 4 else Widest(lits, |lits|)
      modifies this`align, this`offsets, this`size
      ensures PlacedTo(lits, offsets, a, |lits|)
      ensures offset == size == Wider(lits, a) + ClassBytes(lits, a, |lits|)
      ensures align == Widest(lits, |lits|)
    {
      ghost var align0 := align;
      WidestRange(lits, |lits|);
      offset := at;
      assert Placing(a, 0, offset, align0);
      hide Placing, Alignment;
      var i := 0;
      while i < |lits|
        invariant 0 <= i <= |lits| && Placing(a, i, offset, align0)
      {
        offset := PlaceOne(a, i, offset, align0);
        i := i + 1;
      }
      Placed(a, offset, align0);
    }

    lemma {:induction false} Placed(a: int, offset: nat, align0: int)
      requires Placing(a, |lits|, offset, align0) && Alignment(a)
      requires align0 == if a == 8 then 4 else Widest(lits, |lits|)
      ensures PlacedTo(lits, offsets, a, |lits|) && offset == size == Wider(lits, a) + ClassBytes(lits, a, |lits|)
      ensures align == Widest(lits, |lits|)
    {
      WidestRange(lits, |lits|);
    }

    /** Places the literals alignment by alignment; every literal is placed once. */
    method LayOut()
      modifies this`align, this`offsets, this`size
      ensures LaidOut()
    {
      align := 4;
      offsets := seq(|lits|, _ => None);
      size := 0;
      var offset: nat := 0;
      var round := 0;
      while round < 4
        invariant 0 <= round <= 4
        invariant if round < 4 then PlacedTo(lits, offsets, ALIGNMENTS[round], 0)
                  else PlacedTo(lits, offsets, 1, |lits|)
        invariant offset == size == if round < 4 then Wider(lits, ALIGNMENTS[round]) else TotalLength(lits, |lits|)
        invariant align == if round == 0 then 4 else Widest(lits, |lits|)
        invariant round > 0 ==> align >= 4
      {
        offset := PlaceClass(ALIGNMENTS[round], offset);
        WidestRange(lits, |lits|);
        ClassesSum(lits, |lits|);
        round := round + 1;
      }
    }
  }

  lemma {:induction false} WidestRange(lits: seq<Literal>, n: nat)
    requires n <= |lits|
    ensures Widest(lits, n) == 4 || Widest(lits, n) == 8
  {
    if n > 0 { WidestRange(lits, n - 1); }
  }

  // ---------------------------------------------------------------- where the pool stands

  /** The pool's place behind a section that is `used` bytes long, `align` being 4 or 8. */
  function Behind(used: nat, align: int): nat {
    PadTo(used, align)
  }

  /** The pool slid down by whole fullwords, the step being held to four bytes even for a pool that is
      doubleword aligned, as far as a section shrunk to `used` bytes allows. */
  function Slid(base: nat, used: nat): nat {
    if base >= used + 4 then Slid(base - 4, used) else base
  }

  /** A pool that stands behind a section on a fullword slides down to the first fullword behind it. */
  method SlideDown(base: nat, used: nat) returns (r: nat)
    ensures r == Slid(base, used)
    ensures base >= used && Class(base) >= 4 ==> r == PadTo(used, 4)
  {
    r := base;
    while r >= used + 4
      invariant Slid(r, used) == Slid(base, used)
    {
      r := r - 4;
    }
    if base >= used && Class(base) >= 4 {
      SlidRests(base, used);
    }
  }

  lemma {:induction false} SlidRests(base: nat, used: nat)
    requires Class(base) >= 4 && base >= used
    ensures Slid(base, used) == PadTo(used, 4)
  {
    ClassMeans(base, 4);
    PadToFullword(used);
    if base >= used + 4 {
      FourLess(base);
      SlidRests(base - 4, used);
    }
  }

  lemma {:induction false} FourLess(n: nat)
    requires n >= 4 && Class(n) >= 4
    ensures Class(n - 4) >= 4
    ensures Class(n - 4) == 8 <==> Class(n) == 4
  {
    if n >= 12 {
      FourLess(n - 8);
    }
  }

  /** Natural alignment of a literal in a pool that stands at `base`. */
  lemma {:induction false} AlignedAt(lits: seq<Literal>, i: nat, base: nat)
    requires i < |lits| && Class(base) >= 4
    ensures var c := Class(lits[i].length);
            Class(base + OffsetOf(lits, i)) >= c <==> c <= 4 || Class(base) == 8
  {
    var c, o := Class(lits[i].length), OffsetOf(lits, i);
    WiderMultiple(lits, c, i);
    if c <= 4 {
      ClassSum(base, o, c);
    } else if Class(base) == 8 {
      ClassSum(base, o, 8);
    } else {
      ClassApart(base, o);
    }
  }

  /** The first fullword behind the section is a doubleword. */
  predicate EvenFullwords(used: nat) { used % 8 == 0 || used % 8 > 4 }

  lemma {:induction false} NextFullword(x: nat, p: nat)
    requires p == if x % 4 == 0 then x else x + 4 - x % 4
    ensures p % 4 == 0 && (p % 8 == 0 <==> EvenFullwords(x))
  {
    var q, r := x / 8, x % 8;
    if r < 4 { Of4(x, 2 * q, r); } else { Of4(x, 2 * q + 1, r - 4); }
    if r == 0 {
      Of4(p, 2 * q, 0);
    } else if r <= 4 {
      Of4(p, 2 * q + 1, 0);
      Of8(p, q, 4);
    } else {
      Of4(p, 2 * q + 2, 0);
      Of8(p, q + 1, 0);
    }
  }

  lemma {:induction false} RestsOnDoubleword(used: nat)
    ensures Class(PadTo(used, 4)) == 8 <==> EvenFullwords(used)
    ensures Class(PadTo(used, 4)) >= 4
  {
    var p := PadTo(used, 4);
    PadToFullword(used);
    ClassMeans(p, 8);
    ClassMeans(p, 4);
    NextFullword(used, p);
    hide Class, PadTo;
  }

  /** Natural alignment in memory of a pool set behind its section and slid down as the section shrinks
      to `used` bytes: guaranteed for every literal but an eight-byte one, and for that exactly when the
      first fullword behind the shrunk section is a doubleword. */
  lemma {:induction false} Aligned(lits: seq<Literal>, i: nat, base: nat, used: nat)
    requires i < |lits| && Class(base) >= 4 && base >= used
    ensures var c := Class(lits[i].length);
            Class(Slid(base, used) + OffsetOf(lits, i)) >= c <==> c <= 4 || EvenFullwords(used)
  {
    SlidRests(base, used);
    RestsOnDoubleword(used);
    AlignedAt(lits, i, PadTo(used, 4));
  }

  lemma {:induction false} ClassApart(x: nat, y: nat)
    requires Class(x) == 4 && Class(y) == 8
    ensures Class(x + y) == 4
  {
    if x >= 8 { ClassApart(x - 8, y); } else if y >= 8 { ClassApart(x, y - 8); }
  }

  lemma {:induction false} BehindDoubleword(before: nat)
    ensures Class(Behind(before, 8)) == 8 && Behind(before, 8) >= before
  {
    PadToDoubleword(before);
    ClassMeans(Behind(before, 8), 8);
    hide Class, PadTo;
  }

  /** Setting a pool on a doubleword is in vain for every section that shrinks to a length whose next
      fullword is none: the slide then loses it. */
  lemma {:induction false} DoublewordLost(before: nat, used: nat)
    requires used <= before
    ensures Class(Behind(before, 8)) == 8
    ensures Class(Slid(Behind(before, 8), used)) == 8 <==> EvenFullwords(used)
  {
    BehindDoubleword(before);
    SlidRests(Behind(before, 8), used);
    RestsOnDoubleword(used);
    hide *;
  }

  // ---------------------------------------------------------------- writing the pool

  lemma {:induction false} PutReads(memory: seq<Byte>, at: nat, bytes: seq<Byte>, p: nat, q: nat)
    requires at + |bytes| <= |memory| && p <= q <= |memory|
    ensures Put(memory, at, bytes)[at..at + |bytes|] == bytes
    ensures q <= at || at + |bytes| <= p ==> Put(memory, at, bytes)[p..q] == memory[p..q]
  {
    var r := Put(memory, at, bytes);
    if q <= at || at + |bytes| <= p {
      assert forall k :: p <= k < q ==> r[k] == memory[k];
    }
  }

  function Extended(memory: seq<Byte>, length: nat, fill: (Byte, Byte)): (r: seq<Byte>)
    ensures |r| == if |memory| < length then length else |memory|
    ensures r[..|memory|] == memory
    decreases length - |memory|
  {
    if |memory| >= length then memory
    else Extended(memory + [if |memory| % 2 == 0 then fill.0 else fill.1], length, fill)
  }

  /** What is added is the fill pattern, by even and odd addresses. */
  lemma {:induction false} ExtendedMeans(memory: seq<Byte>, length: nat, fill: (Byte, Byte), k: nat)
    requires k < |Extended(memory, length, fill)|
    ensures Extended(memory, length, fill)[k] ==
            if k < |memory| then memory[k] else if k % 2 == 0 then fill.0 else fill.1
    decreases length - |memory|
  {
    if |memory| < length {
      ExtendedMeans(memory + [if |memory| % 2 == 0 then fill.0 else fill.1], length, fill, k);
    }
  }

  /** The memory of a section and its high-water mark. */
  class Section {
    var memory: seq<Byte>
    var used: nat

    constructor (m: seq<Byte>, u: nat)
      ensures memory == m && used == u
    {
      memory, used := m, u;
    }

    /** Writes the pool at `base`: the section is extended with the fill pattern as far as needed,
        afterwards every literal is read back at its own offset, and nothing outside the pool has
        changed. */
    method WritePool(base: nat, lits: seq<Literal>, fill: (Byte, Byte))
      requires forall i :: 0 <= i < |lits| ==> |lits[i].assembled| == lits[i].length
      modifies this
      ensures var end := base + TotalLength(lits, |lits|);
              && |memory| == (if |old(memory)| < end then end else |old(memory)|)
              && used == (if old(used) < end then end else old(used))
              && (forall i :: 0 <= i < |lits| ==> Reads(memory, base, lits, i))
              && (forall k :: 0 <= k < |memory| && (k < base || k >= end) ==>
                  memory[k] == if k < |old(memory)| then old(memory)[k] else if k % 2 == 0 then fill.0 else fill.1)
    {
      var end := base + TotalLength(lits, |lits|);
      memory := Extended(memory, end, fill);
      ghost var before := memory;
      forall k | 0 <= k < |before|
        ensures before[k] == if k < |old(memory)| then old(memory)[k] else if k % 2 == 0 then fill.0 else fill.1
      {
        ExtendedMeans(old(memory), end, fill, k);
      }
      var i := 0;
      while i < |lits|
        invariant 0 <= i <= |lits| && |memory| == |before| && used == old(used)
        invariant forall k :: 0 <= k < i ==> Reads(memory, base, lits, k)
        invariant forall k :: 0 <= k < |memory| && (k < base || k >= end) ==> memory[k] == before[k]
      {
        Layout(lits, i, i);
        var at := base + OffsetOf(lits, i);
        WriteNext(memory, base, lits, i);
        memory := Put(memory, at, lits[i].assembled);
        i := i + 1;
      }
      if end > used {
        used := end;
      }
    }
  }

  /** Writing one literal leaves those written before readable and the rest of memory alone. */
  lemma {:induction false} WriteNext(memory: seq<Byte>, base: nat, lits: seq<Literal>, i: nat)
    requires i < |lits| && base + TotalLength(lits, |lits|) <= |memory| && |lits[i].assembled| == lits[i].length
    requires forall k :: 0 <= k < i ==> Reads(memory, base, lits, k)
    ensures base + OffsetOf(lits, i) + lits[i].length <= base + TotalLength(lits, |lits|)
    ensures var r := Put(memory, base + OffsetOf(lits, i), lits[i].assembled);
            && (forall k :: 0 <= k <= i ==> Reads(r, base, lits, k))
            && (forall j :: 0 <= j < |memory| && (j < base || j >= base + TotalLength(lits, |lits|)) ==>
                r[j] == memory[j])
  {
    Layout(lits, i, i);
    var at := base + OffsetOf(lits, i);
    var r := Put(memory, at, lits[i].assembled);
    forall k | 0 <= k <= i ensures Reads(r, base, lits, k) {
      Layout(lits, i, k);
      Layout(lits, k, k);
      var p, q := base + OffsetOf(lits, k), base + OffsetOf(lits, k) + lits[k].length;
      PutReads(memory, at, lits[i].assembled, p, q);
      if k < i {
        assert Reads(memory, base, lits, k);
        assert r[p..q] == memory[p..q];
      } else {
        assert r[p..q] == lits[i].assembled;
      }
    }
  }

  ghost predicate Reads(memory: seq<Byte>, base: nat, lits: seq<Literal>, k: nat)
    requires k < |lits|
  {
    var p := base + OffsetOf(lits, k);
    p + lits[k].length <= |memory| && memory[p..p + lits[k].length] == lits[k].assembled
  }
}
