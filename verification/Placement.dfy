/**
  Placing control sections one after the other, finding the section that owns a combined address,
  and emitting a relocatable Y constant together with what the linker then makes of it.
  Offsets are in halfwords, `used` and pool extents in bytes.
 */
module Placement {
  import opened Wrappers
  import opened PseudoAddress

  const ADDRESS_SPAN: int := 0x100_0000

  /** What one statement laid down: its length and whether it is a `DC Z(...)`. */
  datatype Item = Item(length: nat, zcon: bool)

  datatype Pool = Pool(section: string, base: nat, size: nat)

  datatype Section = Section(name: string, dsect: bool, used: nat, scratch: seq<Item>, offset: Option<int>)

  /** The statements that laid something down. */
  function Items(scratch: seq<Item>): seq<Item> {
    if scratch == [] then []
    else
      var last := scratch[|scratch| - 1];
      Items(scratch[..|scratch| - 1]) + if last.length != 0 then [last] else []
  }

  function ZconOnly(scratch: seq<Item>): bool {
    var items := Items(scratch);
    items != [] && forall i :: 0 <= i < |items| ==> items[i].zcon
  }

  ghost predicate SomeLaid(scratch: seq<Item>) {
    exists i :: 0 <= i < |scratch| && scratch[i].length > 0
  }

  ghost predicate NoneBut(scratch: seq<Item>) {
    forall i :: 0 <= i < |scratch| && scratch[i].length > 0 ==> scratch[i].zcon
  }

  /** A section of ZCONs and nothing else, statements of no length being disregarded. */
  lemma {:induction false} ZconOnlyMeans(scratch: seq<Item>)
    ensures ZconOnly(scratch) <==> SomeLaid(scratch) && NoneBut(scratch)
  {
    ItemsMean(scratch);
  }

  lemma {:induction false} ItemsMean(scratch: seq<Item>)
    ensures Items(scratch) != [] <==> SomeLaid(scratch)
    ensures (forall i :: 0 <= i < |Items(scratch)| ==> Items(scratch)[i].zcon) <==> NoneBut(scratch)
  {
    if scratch != [] {
      var front, last := scratch[..|scratch| - 1], scratch[|scratch| - 1];
      ItemsMean(front);
      assert scratch == front + [last];
      if last.length != 0 {
        assert Items(scratch)[|Items(front)|] == last;
        assert Items(scratch)[..|Items(front)|] == Items(front);
      } else {
        assert Items(scratch) == Items(front);
      }
    }
  }

  /** Where a section ends: the later of its high-water mark and the ends of its pools. */
  function End(name: string, used: nat, pools: seq<Pool>): (e: nat)
    ensures e >= used
  {
    if pools == [] then used
    else
      var p := pools[|pools| - 1];
      var e := End(name, used, pools[..|pools| - 1]);
      if p.section == name && p.base + p.size > e then p.base + p.size else e
  }

  /** It is the greatest of the ends, so no pool of the section reaches beyond it. */
  lemma {:induction false} EndIsGreatest(name: string, used: nat, pools: seq<Pool>)
    ensures var e := End(name, used, pools);
            && (forall i :: 0 <= i < |pools| && pools[i].section == name ==> pools[i].base + pools[i].size <= e)
            && (e == used ||
                exists i :: 0 <= i < |pools| && pools[i].section == name && pools[i].base + pools[i].size == e)
  {
    if pools != [] {
      EndIsGreatest(name, used, pools[..|pools| - 1]);
    }
  }

  /** `(x + 3) & 0xFFFFFC`. */
  function Doubleword(x: int): int {
    (x + 3) % ADDRESS_SPAN / 4 * 4
  }

  /** `(x + 1) & 0xFFFFFE`. */
  function Fullword(x: int): int {
    (x + 1) % ADDRESS_SPAN / 2 * 2
  }

  /** Both round up modulo 2^24, and so to one of the addresses that 24 bits hold. */
  lemma {:induction false} RoundsWithin24(x: int) returns (k: int, m: int)
    ensures 0 <= Doubleword(x) < 0x100_0000 && Doubleword(x) % 4 == 0 && x <= Doubleword(x) + 0x100_0000 * k < x + 4
    ensures 0 <= Fullword(x) < 0x100_0000 && Fullword(x) % 2 == 0 && x <= Fullword(x) + 0x100_0000 * m < x + 2
  {
    k, m := (x + 3) / ADDRESS_SPAN, (x + 1) / ADDRESS_SPAN;
    Within24((x + 3) % ADDRESS_SPAN);
    Within24((x + 1) % ADDRESS_SPAN);
  }

  lemma {:induction false} Within24(r: int)
    requires 0 <= r < ADDRESS_SPAN
    ensures r - 4 < r / 4 * 4 <= r && r / 4 * 4 % 4 == 0 && r - 2 < r / 2 * 2 <= r && r / 2 * 2 % 2 == 0
  {
  }

  function StartOf(last: int, zcon: bool, afterZcon: bool): int {
    if zcon && afterZcon then last else if zcon then Doubleword(last) else Fullword(last)
  }

  /** How far the placement has come: the end of the last section, and whether it was ZCON-only. */
  datatype Place = Place(last: int, afterZcon: bool)

  function StartAt(s: Section, p: Place): Option<int> {
    if s.dsect then s.offset else Some(StartOf(p.last, ZconOnly(s.scratch), p.afterZcon))
  }

  function After(s: Section, pools: seq<Pool>, p: Place): Place {
    if s.dsect then p
    else Place(StartOf(p.last, ZconOnly(s.scratch), p.afterZcon) + HalfEnd(s, pools), ZconOnly(s.scratch))
  }

  /** The offsets of all sections, in order. */
  function Starts(sects: seq<Section>, pools: seq<Pool>, p: Place): (r: seq<Option<int>>)
    ensures |r| == |sects|
  {
    if sects == [] then [] else [StartAt(sects[0], p)] + Starts(sects[1..], pools, After(sects[0], pools, p))
  }

  function HalfEnd(s: Section, pools: seq<Pool>): nat {
    End(s.name, s.used, pools) / 2
  }

  function WithOffsets(sects: seq<Section>, starts: seq<Option<int>>): (r: seq<Section>)
    requires |starts| == |sects|
    ensures |r| == |sects|
    ensures forall k :: 0 <= k < |r| ==> r[k] == sects[k].(offset := starts[k])
  {
    if sects == [] then [] else [sects[0].(offset := starts[0])] + WithOffsets(sects[1..], starts[1..])
  }

  function Placed(sects: seq<Section>, pools: seq<Pool>): seq<Section> {
    WithOffsets(sects, Starts(sects, pools, Place(0, false)))
  }

  /** Room enough below 2^24 halfwords, the width the rounding masks keep. */
  function Bound(sects: seq<Section>, pools: seq<Pool>): nat {
    if sects == [] then 0
    else Room(sects[0], pools) + Bound(sects[1..], pools)
  }

  function Room(s: Section, pools: seq<Pool>): nat {
    if s.dsect then 0 else 3 + HalfEnd(s, pools)
  }

  // ---------------------------------------------------------------- owning section

  predicate Owns(s: Section, value: int) {
    !s.dsect && s.offset.Some? && s.offset.value <= value < s.offset.value + s.used / 2
  }

  predicate Ours(sects: seq<Section>, name: string) {
    exists i :: 0 <= i < |sects| && sects[i].name == name && !sects[i].dsect && sects[i].offset.Some?
  }

  ghost predicate DistinctNames(sects: seq<Section>) {
    forall i, j :: 0 <= i < j < |sects| ==> sects[i].name != sects[j].name
  }

  /** The first section owning the address, or the default if none does. */
  function FirstOwner(sects: seq<Section>, value: int, default: string): string {
    if sects == [] then default
    else if Owns(sects[0], value) then sects[0].name
    else FirstOwner(sects[1..], value, default)
  }

  function Containing(sects: seq<Section>, value: int, default: string): string {
    if Ours(sects, default) then FirstOwner(sects, value, default) else default
  }

  lemma {:induction false} Unchanged(before: seq<Section>, after: seq<Section>, was: seq<Section>, i: nat)
    requires |before| == |after| == |was| && i < |was| && before[i] == was[i]
    requires after == before[i := after[i]]
    ensures after == was <==> before == was && after[i] == was[i]
  {
    if after == was && after[i] == was[i] {
      assert before == after;
    }
  }

  /** The sections of a module in declaration order, the pools already laid out. */
  class Assembly {
    var sects: seq<Section>
    var pools: seq<Pool>

    constructor (s: seq<Section>, p: seq<Pool>)
      ensures sects == s && pools == p
    {
      sects, pools := s, p;
    }

    method SectionEnd(name: string, used: nat) returns (end: nat)
      ensures end == End(name, used, pools)
    {
      end := used;
      var j := 0;
      while j < |pools|
        invariant 0 <= j <= |pools|
        invariant end == End(name, used, pools[..j])
      {
        assert pools[..j + 1][..j] == pools[..j];
        if pools[j].section == name && pools[j].base + pools[j].size > end {
          end := pools[j].base + pools[j].size;
        }
        j := j + 1;
      }
      assert pools[..j] == pools;
    }

    /** The first `i` sections have their offsets, and the others are still as they were. */
    ghost predicate PlacedTo(i: nat, was: seq<Section>, starts: seq<Option<int>>, p: Place)
      reads this
    {
      && i <= |sects| == |was| == |starts|
      && starts[i..] == Starts(was[i..], pools, p)
      && (forall k :: 0 <= k < i ==> sects[k] == was[k].(offset := starts[k]))
      && sects[i..] == was[i..]
    }

    /** Places section `i` behind `p`. */
    method PlaceOne(i: nat, p: Place, ghost was: seq<Section>, ghost starts: seq<Option<int>>)
      returns (next: Place, moved: bool)
      requires i < |sects| && PlacedTo(i, was, starts, p)
      modifies this`sects
      ensures PlacedTo(i + 1, was, starts, next)
      ensures |sects| == |old(sects)| && sects == old(sects)[i := sects[i]] && (moved <==> sects[i] != was[i])
    {
      ghost var before := sects;
      assert sects[i] == sects[i..][0] && was[i] == was[i..][0] && starts[i] == starts[i..][0];
      assert was[i..][1..] == was[i + 1..] && starts[i..][1..] == starts[i + 1..];
      next, moved := p, false;
      if !sects[i].dsect {
        var zcon, last := ZconOnly(sects[i].scratch), p.last;
        if zcon && p.afterZcon {
        } else if zcon {
          last := Doubleword(last);
        } else {
          last := Fullword(last);
        }
        moved := sects[i].offset != Some(last);
        var end := SectionEnd(sects[i].name, sects[i].used);
        sects := sects[i := sects[i].(offset := Some(last))];
        next := Place(last + end / 2, zcon);
      }
      assert sects[i] == was[i].(offset := starts[i]);
      assert sects[i + 1..] == before[i..][1..];
    }

    method PlaceSections() returns (moved: bool)
      modifies this`sects
      ensures sects == Placed(old(sects), pools)
      ensures moved <==> sects != old(sects)
    {
      ghost var was, starts := sects, Starts(sects, pools, Place(0, false));
      var p := Place(0, false);
      moved := false;
      var i := 0;
      assert PlacedTo(0, was, starts, p) by {
        assert sects[0..] == sects && starts[0..] == starts;
      }
      hide Starts, StartOf, After, PlacedTo;
      while i < |sects|
        invariant 0 <= i <= |sects| == |was| && PlacedTo(i, was, starts, p)
        invariant moved <==> sects != was
      {
        ghost var before := sects;
        var one: bool;
        p, one := PlaceOne(i, p, was, starts);
        Unchanged(before, sects, was, i);
        moved := moved || one;
        i := i + 1;
      }
      AllPlaced(was, starts, p);
    }

    lemma {:induction false} AllPlaced(was: seq<Section>, starts: seq<Option<int>>, p: Place)
      requires PlacedTo(|sects|, was, starts, p) && |sects| == |was| && starts == Starts(was, pools, Place(0, false))
      ensures sects == Placed(was, pools)
    {
    }

    method ContainingSection(value: int, default: string) returns (owner: string)
      ensures owner == Containing(sects, value, default)
    {
      if !Ours(sects, default) {
        return default;
      }
      var i := 0;
      while i < |sects|
        invariant 0 <= i <= |sects|
        invariant FirstOwner(sects, value, default) == FirstOwner(sects[i..], value, default)
      {
        if Owns(sects[i], value) {
          return sects[i].name;
        }
        i := i + 1;
      }
      return default;
    }
  }

  // ---------------------------------------------------------------- what the placement guarantees

  /** The gap the alignment rule leaves between a section that ends at `stop` and the next. */
  predicate GapRule(stop: int, start: int, zcon: bool, afterZcon: bool) {
    if zcon && afterZcon then start == stop
    else if zcon then stop <= start < stop + 4 && start % 4 == 0
    else stop <= start < stop + 2 && start % 2 == 0
  }

  lemma {:induction false} RoundUp(x: int)
    requires 0 <= x && x + 3 < ADDRESS_SPAN
    ensures x <= Doubleword(x) < x + 4 && Doubleword(x) % 4 == 0
    ensures x <= Fullword(x) < x + 2 && Fullword(x) % 2 == 0
  {
  }

  lemma {:induction false} StartObeys(last: int, zcon: bool, afterZcon: bool)
    requires 0 <= last && last + 3 < ADDRESS_SPAN
    ensures GapRule(last, StartOf(last, zcon, afterZcon), zcon, afterZcon)
    ensures last <= StartOf(last, zcon, afterZcon) <= last + 3
  {
    RoundUp(last);
  }

  lemma {:induction false} AfterRoom(s: Section, pools: seq<Pool>, p: Place)
    requires 0 <= p.last && p.last + Room(s, pools) < ADDRESS_SPAN
    ensures p.last <= After(s, pools, p).last <= p.last + Room(s, pools)
    ensures !s.dsect ==> p.last <= StartAt(s, p).value
  {
    if !s.dsect {
      StartObeys(p.last, ZconOnly(s.scratch), p.afterZcon);
    }
  }

  /** Every section placed after `last` starts at or beyond it. */
  lemma {:induction false} StartsBeyond(sects: seq<Section>, pools: seq<Pool>, p: Place, j: nat)
    requires 0 <= p.last && p.last + Bound(sects, pools) < ADDRESS_SPAN
    requires j < |sects| && !sects[j].dsect
    ensures Starts(sects, pools, p)[j].Some? && Starts(sects, pools, p)[j].value >= p.last
  {
    AfterRoom(sects[0], pools, p);
    if j > 0 {
      StartsBeyond(sects[1..], pools, After(sects[0], pools, p), j - 1);
    }
  }

  /** Ordered and disjoint: a section starts at or after the end of each one before it. */
  lemma {:induction false} StartsDisjoint(sects: seq<Section>, pools: seq<Pool>, p: Place, i: nat, j: nat)
    requires 0 <= p.last && p.last + Bound(sects, pools) < ADDRESS_SPAN
    requires i < j < |sects| && !sects[i].dsect && !sects[j].dsect
    ensures var r := Starts(sects, pools, p);
            r[i].Some? && r[j].Some? && r[i].value + End(sects[i].name, sects[i].used, pools) / 2 <= r[j].value
  {
    AfterRoom(sects[0], pools, p);
    if i == 0 {
      StartsBeyond(sects[1..], pools, After(sects[0], pools, p), j - 1);
    } else {
      StartsDisjoint(sects[1..], pools, After(sects[0], pools, p), i - 1, j - 1);
    }
  }

  /** The first section that is not a dummy starts where the rule puts it. */
  lemma {:induction false} FirstStart(sects: seq<Section>, pools: seq<Pool>, p: Place, b: nat)
    requires b < |sects| && !sects[b].dsect && forall k :: 0 <= k < b ==> sects[k].dsect
    ensures Starts(sects, pools, p)[b] == StartAt(sects[b], p)
  {
    if b > 0 {
      FirstStart(sects[1..], pools, p, b - 1);
    }
  }

  /** The first control section of a module stands at zero. */
  lemma {:induction false} FirstAtZero(sects: seq<Section>, pools: seq<Pool>, b: nat)
    requires b < |sects| && !sects[b].dsect && forall k :: 0 <= k < b ==> sects[k].dsect
    ensures Placed(sects, pools)[b] == sects[b].(offset := Some(0))
  {
    FirstStart(sects, pools, Place(0, false), b);
  }

  /** Dummy sections are left alone. */
  lemma {:induction false} DummiesStay(sects: seq<Section>, pools: seq<Pool>, k: nat)
    requires k < |sects| && sects[k].dsect
    ensures Placed(sects, pools)[k] == sects[k]
  {
    DummyStart(sects, pools, Place(0, false), k);
  }

  lemma {:induction false} DummyStart(sects: seq<Section>, pools: seq<Pool>, p: Place, k: nat)
    requires k < |sects| && sects[k].dsect
    ensures Starts(sects, pools, p)[k] == sects[k].offset
  {
    if k > 0 {
      DummyStart(sects[1..], pools, After(sects[0], pools, p), k - 1);
    }
  }

  /** A section starts where the alignment rule says: packed behind its predecessor between two
      ZCON-only sections, else on the next doubleword (ZCON-only) or fullword. */
  lemma {:induction false} StartsGaps(sects: seq<Section>, pools: seq<Pool>, p: Place, a: nat, b: nat)
    requires 0 <= p.last && p.last + Bound(sects, pools) < ADDRESS_SPAN
    requires a < b < |sects| && !sects[a].dsect && !sects[b].dsect
    requires forall k :: a < k < b ==> sects[k].dsect
    ensures var r := Starts(sects, pools, p);
            && r[a].Some? && r[b].Some?
            && GapRule(r[a].value + End(sects[a].name, sects[a].used, pools) / 2, r[b].value,
                       ZconOnly(sects[b].scratch), ZconOnly(sects[a].scratch))
  {
    hide *;
    if a == 0 {
      GapBehind(sects, pools, p, b);
    } else {
      RoomBehind(sects, pools, p);
      StartsGaps(sects[1..], pools, After(sects[0], pools, p), a - 1, b - 1);
      StartsBehind(sects, pools, p, a);
      StartsBehind(sects, pools, p, b);
    }
  }

  lemma {:induction false} RoomBehind(sects: seq<Section>, pools: seq<Pool>, p: Place)
    requires 0 <= p.last && p.last + Bound(sects, pools) < ADDRESS_SPAN && sects != []
    ensures var q := After(sects[0], pools, p);
            0 <= q.last && q.last + Bound(sects[1..], pools) < ADDRESS_SPAN
  {
    AfterRoom(sects[0], pools, p);
  }

  lemma {:induction false} StartsBehind(sects: seq<Section>, pools: seq<Pool>, p: Place, k: nat)
    requires 0 < k < |sects|
    ensures Starts(sects, pools, p)[k] == Starts(sects[1..], pools, After(sects[0], pools, p))[k - 1]
  {
  }

  lemma {:induction false} GapBehind(sects: seq<Section>, pools: seq<Pool>, p: Place, b: nat)
    requires 0 <= p.last && p.last + Bound(sects, pools) < ADDRESS_SPAN
    requires 0 < b < |sects| && !sects[0].dsect && !sects[b].dsect && forall k :: 0 < k < b ==> sects[k].dsect
    ensures var r := Starts(sects, pools, p);
            && r[0].Some? && r[b].Some?
            && GapRule(r[0].value + End(sects[0].name, sects[0].used, pools) / 2, r[b].value,
                       ZconOnly(sects[b].scratch), ZconOnly(sects[0].scratch))
  {
    hide End, ZconOnly, GapRule, StartOf;
    var rest, q := sects[1..], After(sects[0], pools, p);
    AfterRoom(sects[0], pools, p);
    FirstStart(rest, pools, q, b - 1);
    BoundAtLeast(rest, pools, b - 1);
    StartObeys(q.last, ZconOnly(sects[b].scratch), q.afterZcon);
  }

  lemma {:induction false} BoundAtLeast(sects: seq<Section>, pools: seq<Pool>, j: nat)
    requires j < |sects| && !sects[j].dsect
    ensures Bound(sects, pools) >= 3
  {
    if j > 0 {
      BoundAtLeast(sects[1..], pools, j - 1);
    }
  }

  /** No address has two owners. */
  ghost predicate OneOwner(sects: seq<Section>, value: int) {
    forall i, j :: 0 <= i < j < |sects| ==> !(Owns(sects[i], value) && Owns(sects[j], value))
  }

  lemma {:induction false} PlacedOneOwner(sects: seq<Section>, pools: seq<Pool>, value: int)
    requires Bound(sects, pools) < ADDRESS_SPAN
    ensures OneOwner(Placed(sects, pools), value)
  {
    var r := Placed(sects, pools);
    forall i, j | 0 <= i < j < |r| && !sects[i].dsect && !sects[j].dsect
      ensures !(Owns(r[i], value) && Owns(r[j], value))
    {
      StartsDisjoint(sects, pools, Place(0, false), i, j);
    }
  }

  lemma {:induction false} FirstOwnerFinds(sects: seq<Section>, value: int, default: string, k: nat)
    requires OneOwner(sects, value)
    requires k < |sects| && Owns(sects[k], value)
    ensures FirstOwner(sects, value, default) == sects[k].name
  {
    if k > 0 {
      assert !Owns(sects[0], value);
      FirstOwnerFinds(sects[1..], value, default, k - 1);
    }
  }

  lemma {:induction false} FirstOwnerMisses(sects: seq<Section>, value: int, default: string)
    requires forall k :: 0 <= k < |sects| ==> !Owns(sects[k], value)
    ensures FirstOwner(sects, value, default) == default
  {
    if sects != [] {
      FirstOwnerMisses(sects[1..], value, default);
    }
  }

  lemma {:induction false} PlacedSome(sects: seq<Section>, pools: seq<Pool>, p: Place, k: nat)
    requires k < |sects| && !sects[k].dsect
    ensures Starts(sects, pools, p)[k].Some?
  {
    if k > 0 {
      PlacedSome(sects[1..], pools, After(sects[0], pools, p), k - 1);
    }
  }

  /** The name is that of a control section. */
  ghost predicate Control(sects: seq<Section>, name: string) {
    exists i :: 0 <= i < |sects| && sects[i].name == name && !sects[i].dsect
  }

  lemma {:induction false} PlacedOurs(sects: seq<Section>, pools: seq<Pool>, name: string)
    ensures Ours(Placed(sects, pools), name) <==> Control(sects, name)
  {
    var r := Placed(sects, pools);
    forall i | 0 <= i < |sects| && !sects[i].dsect ensures r[i].offset.Some? && r[i].name == sects[i].name {
      PlacedSome(sects, pools, Place(0, false), i);
    }
  }

  /** After placement, asking from one of the module's own sections, every address inside a section's
      used extent is given to that section. */
  lemma {:induction false} PlacedOwners(sects: seq<Section>, pools: seq<Pool>, value: int, default: string, k: nat)
    requires Bound(sects, pools) < ADDRESS_SPAN && k < |sects| && !sects[k].dsect && Control(sects, default)
    ensures var r := Placed(sects, pools);
            && r[k].offset.Some?
            && (r[k].offset.value <= value < r[k].offset.value + sects[k].used / 2 ==>
                  Containing(r, value, default) == sects[k].name)
  {
    var r := Placed(sects, pools);
    PlacedOneOwner(sects, pools, value);
    PlacedOurs(sects, pools, default);
    PlacedSome(sects, pools, Place(0, false), k);
    if Owns(r[k], value) {
      FirstOwnerFinds(r, value, default, k);
    }
  }

  /** An address in no control section's extent is given to the default, and so is any address asked for from
      something else. */
  lemma {:induction false} PlacedDefault(sects: seq<Section>, pools: seq<Pool>, value: int, default: string)
    ensures var r := Placed(sects, pools);
            && (forall k :: 0 <= k < |r| && !sects[k].dsect ==> r[k].offset.Some?)
            && (!Control(sects, default) ||
                (forall k :: 0 <= k < |r| && !sects[k].dsect ==>
                   !(r[k].offset.value <= value < r[k].offset.value + sects[k].used / 2))
                ==> Containing(r, value, default) == default)
  {
    var r := Placed(sects, pools);
    PlacedOurs(sects, pools, default);
    forall k | 0 <= k < |r| && !sects[k].dsect ensures r[k].offset.Some? {
      PlacedSome(sects, pools, Place(0, false), k);
    }
    if forall j :: 0 <= j < |r| ==> !Owns(r[j], value) {
      FirstOwnerMisses(r, value, default);
    }
  }

  // ---------------------------------------------------------------- relocatable Y constants

  datatype Emitted = Absolute(field: int) | Relocated(field: int, negative: bool, symbol: string)

  function OffsetOf(sects: seq<Section>, name: string): int {
    if sects == [] then 0
    else if sects[0].name == name then (match sects[0].offset case Some(o) => o case None => 0)
    else OffsetOf(sects[1..], name)
  }

  function Relocate(sects: seq<Section>, symbol: string, magnitude: int, negative: bool): Emitted {
    var combined := magnitude + OffsetOf(sects, symbol);
    Relocated(combined % 0x10000, negative, Containing(sects, combined, symbol))
  }

  /** The halfword, sign flag and relocation symbol of `DC Y(expression)`; a negative displacement is
      emitted as its magnitude. */
  function EmitY(v: int, lookup: Lookup, sects: seq<Section>): Emitted {
    match Unhash(v, lookup)
    case Address(s, d) => Relocate(sects, s, d, false)
    case _ =>
      match Borrowed(v, lookup)
      case Some((s, d)) => Relocate(sects, s, -d, true)
      case None => Absolute(v % 0x10000)
  }

  /** The linker's rule: the sign flag negates the field, and the relocation symbol's move is added. */
  function Link(e: Emitted, moves: map<string, int>): int
    requires e.Relocated? ==> e.symbol in moves
  {
    match e
    case Absolute(f) => f
    case Relocated(f, negative, s) => (if negative then -f else f) + moves[s]
  }

  lemma {:induction false} NotASection(sects: seq<Section>, name: string)
    requires forall i :: 0 <= i < |sects| ==> sects[i].name != name
    ensures OffsetOf(sects, name) == 0 && !Ours(sects, name)
  {
    if sects != [] {
      NotASection(sects[1..], name);
    }
  }

  lemma {:induction false} OffsetFound(sects: seq<Section>, i: nat)
    requires DistinctNames(sects) && i < |sects|
    ensures OffsetOf(sects, sects[i].name) == if sects[i].offset.Some? then sects[i].offset.value else 0
  {
    if i > 0 {
      assert sects[0].name != sects[i].name;
      OffsetFound(sects[1..], i - 1);
    }
  }

  /** What a Y constant of a symbol plus a displacement becomes.  Only a symbol that drew the all-ones
      hash is taken for a number, and then only with a displacement of zero or more. */
  lemma {:induction false} Emitting(h: int, k: int, lookup: Lookup, sects: seq<Section>)
    requires ValidHashes(lookup) && h in lookup && -0x10000 < k < 0x10000
    ensures EmitY(h * HASH_UNIT + k, lookup, sects) ==
            if h == MAX_HASH && k >= 0 then Absolute(k)
            else
              var sum := OffsetOf(sects, lookup[h]) + if k < 0 then -k else k;
              Relocated(sum % 0x1_0000, k < 0, Containing(sects, sum, lookup[h]))
  {
    ResolveSigned(h, k, lookup);
    if 0 <= k {
      LowHalf(h, k);
    }
  }

  lemma {:induction false} LowHalf(h: int, k: int)
    requires 0 <= k < 0x10000
    ensures (h * HASH_UNIT + k) % 0x10000 == k
  {
    Remainder(h * 0x10_0000, k);
  }

  lemma {:induction false} Remainder(q: int, k: int)
    requires 0 <= k < 0x10000
    ensures (q * 0x10000 + k) % 0x10000 == k
  {
    assert (q * 0x10000 + k) / 0x10000 == q;
  }

  /** An external symbol plus or minus anything that fits the halfword links to exactly that, unless
      its hash is all ones and nothing is subtracted from it. */
  lemma {:induction false} ExternalLinks(h: int, k: int, lookup: Lookup, sects: seq<Section>, moves: map<string, int>)
    requires ValidHashes(lookup) && h in lookup && lookup[h] in moves
    requires forall i :: 0 <= i < |sects| ==> sects[i].name != lookup[h]
    requires -0x10000 < k < 0x10000
    ensures var e := EmitY(h * HASH_UNIT + k, lookup, sects);
            e.Relocated? && e.symbol == lookup[h] && Link(e, moves) == moves[lookup[h]] + k <==>
            h != MAX_HASH || k < 0
  {
    NotASection(sects, lookup[h]);
    Emitting(h, k, lookup, sects);
  }

  /** A symbol of one of the module's own sections.  The constant is relocated by the move of the
      section that owns the section's offset plus the displacement's magnitude, and links to the
      symbol plus the displacement exactly when that move makes up for the difference: the owner's
      move is the section's own, and twice the offset besides if the displacement is negative, for
      the offset is added to the magnitude. */
  lemma {:induction false} SectionLinks(i: nat, h: int, k: int, lookup: Lookup, sects: seq<Section>,
                                        moves: map<string, int>)
    requires DistinctNames(sects) && i < |sects| && sects[i].offset.Some? && sects[i].offset.value >= 0
    requires ValidHashes(lookup) && h in lookup && lookup[h] == sects[i].name && (h != MAX_HASH || k < 0)
    requires -0x10000 < k && sects[i].offset.value + Abs(k) < 0x10000
    requires sects[i].name in moves && Containing(sects, sects[i].offset.value + Abs(k), sects[i].name) in moves
    ensures var e, name, offset := EmitY(h * HASH_UNIT + k, lookup, sects), sects[i].name, sects[i].offset.value;
            var owner := Containing(sects, offset + Abs(k), name);
            && e.Relocated? && e.symbol == owner
            && (Link(e, moves) == moves[name] + offset + k <==>
                moves[owner] == moves[name] + if k < 0 then 2 * offset else 0)
  {
    OffsetFound(sects, i);
    Emitting(h, k, lookup, sects);
  }

  /** So it links rightly wherever the sections are moved, exactly when the address owned by the
      magnitude lies in the symbol's own section and the section stands at zero if anything is
      subtracted. */
  lemma {:induction false} SectionAlwaysLinks(i: nat, h: int, k: int, lookup: Lookup, sects: seq<Section>)
    requires DistinctNames(sects) && i < |sects| && sects[i].offset.Some? && sects[i].offset.value >= 0
    requires ValidHashes(lookup) && h in lookup && lookup[h] == sects[i].name && (h != MAX_HASH || k < 0)
    requires -0x10000 < k && sects[i].offset.value + Abs(k) < 0x10000
    ensures var e, name, offset := EmitY(h * HASH_UNIT + k, lookup, sects), sects[i].name, sects[i].offset.value;
            var owner := Containing(sects, offset + Abs(k), name);
            && e.Relocated? && e.symbol == owner
            && ((forall moves: map<string, int> :: name in moves && owner in moves ==>
                   Link(e, moves) == moves[name] + offset + k) <==>
                owner == name && (k >= 0 || offset == 0))
  {
    var e, name, offset := EmitY(h * HASH_UNIT + k, lookup, sects), sects[i].name, sects[i].offset.value;
    var owner := Containing(sects, offset + Abs(k), name);
    forall moves: map<string, int> | name in moves && owner in moves
      ensures e.Relocated? && e.symbol == owner
      ensures Link(e, moves) == moves[name] + offset + k <==>
              moves[owner] == moves[name] + if k < 0 then 2 * offset else 0
    {
      SectionLinks(i, h, k, lookup, sects, moves);
    }
    var apart := map[owner := 2 * offset + 1][name := 0];
    assert name in apart && owner in apart;
    assert Link(e, apart) == apart[name] + offset + k ==> owner == name;
  }
}
