/**
  Packing of DC operands with bit-length modifiers: fields follow one another without regard to byte
  boundaries, a constant without a bit length starts on a byte, and the group is filled with zeros to
  whole halfwords.  A one bit is true, and the most significant bit comes first.
 */
module BitPacking {
  import opened Basics
  import opened Wrappers

  /** One suboperand: its bit length if it has one, its natural length in bytes, its duplication factor
      and its values; each of the last three may turn out not to be known. */
  datatype Field = Field(bitLength: Option<int>, naturalBytes: Option<int>, repeats: Option<int>,
      values: seq<Option<int>>)

  /** The constant takes no part in the packing and is laid down at its natural length. */
  predicate Plain(f: Field) {
    f.bitLength.None? || f.bitLength.value <= 0
  }

  // ---------------------------------------------------------------- bits of one value

  function Pow2(n: nat): (p: nat)
    ensures p >= 1
  {
    if n == 0 then 1 else 2 * Pow2(n - 1)
  }

  /** The value shifted right, the sign being carried along. */
  function Shifted(v: int, n: nat): int {
    if n == 0 then v else Shifted(v, n - 1) / 2
  }

  /** The low `w` bits of the value. */
  function Bits(v: int, w: nat): (r: seq<bool>)
    ensures |r| == w
    decreases w
  {
    if w == 0 then [] else [Shifted(v, w - 1) % 2 == 1] + Bits(v, w - 1)
  }

  /** The number a string of bits denotes. */
  function Number(bits: seq<bool>): int {
    if bits == [] then 0 else (if bits[0] then Pow2(|bits| - 1) else 0) + Number(bits[1..])
  }

  lemma {:induction false} Doubled(h: int, p: int)
    ensures (2 * h) * p == h * (2 * p)
  {
  }

  lemma {:induction false} OneMore(x: int, p: int)
    ensures (x + 1) * p == x * p + p
  {
  }

  /** A number is twice its half, and its last bit. */
  lemma {:induction false} Halved(s: int, p: int)
    ensures s * p == (s / 2) * (2 * p) + (if s % 2 == 1 then p else 0)
  {
    var h := s / 2;
    Doubled(h, p);
    if s % 2 == 1 {
      OneMore(2 * h, p);
      assert s == 2 * h + 1;
    } else {
      assert s == 2 * h;
    }
  }

  lemma {:induction false} FirstBit(v: int, w: nat)
    requires w > 0
    ensures Number(Bits(v, w)) == (if Shifted(v, w - 1) % 2 == 1 then Pow2(w - 1) else 0) + Number(Bits(v, w - 1))
  {
    assert Bits(v, w)[1..] == Bits(v, w - 1);
  }

  lemma {:induction false} BitsNumber(v: int, w: nat)
    ensures v == Shifted(v, w) * Pow2(w) + Number(Bits(v, w)) && 0 <= Number(Bits(v, w)) < Pow2(w)
  {
    if w > 0 {
      BitsNumber(v, w - 1);
      FirstBit(v, w);
      Halved(Shifted(v, w - 1), Pow2(w - 1));
      hide Bits, Number;
    }
  }

  lemma {:induction false} NotWithin(d: int, b: int)
    requires b > 0 && -b < d * b < b
    ensures d == 0
  {
    assert d >= 1 ==> d * b >= b;
    assert d <= -1 ==> d * b <= -b;
  }

  lemma {:induction false} Remainder(a: int, q: int, b: int, r: int)
    requires a == q * b + r && 0 <= r < b
    ensures a % b == r
  {
    assert (q - a / b) * b == a % b - r;
    NotWithin(q - a / b, b);
  }

  /** The bits of a value, negative or not, denote it modulo two to the width. */
  lemma {:induction false} BitsModulo(v: int, w: nat)
    ensures Number(Bits(v, w)) == v % Pow2(w)
  {
    BitsNumber(v, w);
    Remainder(v, Shifted(v, w), Pow2(w), Number(Bits(v, w)));
  }

  // ---------------------------------------------------------------- runs of one width

  /** A field once evaluated: its width and the values in the order they are laid down. */
  datatype Run = Run(plain: bool, width: nat, copies: seq<int>)

  /** `n` steps of `w`. */
  function Span(n: nat, w: nat): nat {
    if n == 0 then 0 else Span(n - 1, w) + w
  }

  function AllBits(values: seq<int>, w: nat): (r: seq<bool>)
    ensures |r| == Span(|values|, w)
  {
    if values == [] then [] else Bits(values[0], w) + AllBits(values[1..], w)
  }

  predicate OnByte(n: nat) { n == 0 || (n >= 8 && OnByte(n - 8)) }

  predicate OnHalfword(n: nat) { n == 0 || (n >= 16 && OnHalfword(n - 16)) }

  lemma {:induction false} OnByteMeans(n: nat)
    ensures OnByte(n) <==> n % 8 == 0
  {
    if n >= 8 { OnByteMeans(n - 8); }
  }

  lemma {:induction false} OnHalfwordMeans(n: nat)
    ensures OnHalfword(n) <==> n % 16 == 0
  {
    if n >= 16 { OnHalfwordMeans(n - 16); }
  }

  /** Bits missing to a whole number of bytes or of halfwords. */
  function ToByte(n: nat): nat { if n == 0 then 0 else if n <= 8 then 8 - n else ToByte(n - 8) }

  function ToHalfword(n: nat): nat { if n == 0 then 0 else if n <= 16 then 16 - n else ToHalfword(n - 16) }

  /** Zeros before a run that starts behind `n` bits. */
  function Fill(run: Run, n: nat): nat { if run.plain then ToByte(n) else 0 }

  /** The first `n` runs laid down. */
  function Laid(runs: seq<Run>, n: nat): seq<bool>
    requires n <= |runs|
  {
    if n == 0 then []
    else
      var before := Laid(runs, n - 1);
      before + Repeat(false, Fill(runs[n - 1], |before|)) + AllBits(runs[n - 1].copies, runs[n - 1].width)
  }

  /** Where run `n` starts, and so the bits of all runs before it end at most. */
  function Start(runs: seq<Run>, n: nat): nat
    requires n < |runs|
  {
    |Laid(runs, n)| + Fill(runs[n], |Laid(runs, n)|)
  }

  function Packed(runs: seq<Run>): seq<bool> {
    var all := Laid(runs, |runs|);
    all + Repeat(false, ToHalfword(|all|))
  }

  /** The part stands in the bits at `x`. */
  ghost predicate At(bits: seq<bool>, x: nat, part: seq<bool>) { x + |part| <= |bits| && bits[x..x + |part|] == part }

  lemma {:induction false} AtBehind(a: seq<bool>, b: seq<bool>, x: nat, part: seq<bool>)
    requires At(b, x, part)
    ensures At(a + b, |a| + x, part)
  {
  }

  lemma {:induction false} AtWithin(a: seq<bool>, b: seq<bool>, x: nat, part: seq<bool>)
    requires a <= b && At(a, x, part)
    ensures At(b, x, part)
  {
  }

  lemma {:induction false} AllBitsAt(values: seq<int>, w: nat, c: nat)
    requires c < |values|
    ensures At(AllBits(values, w), Span(c, w), Bits(values[c], w))
    decreases |values|
  {
    if c > 0 {
      AllBitsAt(values[1..], w, c - 1);
      AtBehind(Bits(values[0], w), AllBits(values[1..], w), Span(c - 1, w), Bits(values[c], w));
    }
  }

  lemma {:induction false} LaidPrefix(runs: seq<Run>, m: nat, n: nat)
    requires m <= n <= |runs|
    ensures Laid(runs, m) <= Laid(runs, n)
    decreases n - m
  {
    if m < n {
      LaidPrefix(runs, m, n - 1);
    }
  }

  lemma {:induction false} LaidStep(runs: seq<Run>, i: nat)
    requires i < |runs|
    ensures Laid(runs, i + 1) == Laid(runs, i) + Repeat(false, Fill(runs[i], |Laid(runs, i)|)) +
            AllBits(runs[i].copies, runs[i].width)
    ensures Start(runs, i) == |Laid(runs, i) + Repeat(false, Fill(runs[i], |Laid(runs, i)|))|
  {
  }

  lemma {:induction false} RunWithin(runs: seq<Run>, i: nat, c: nat)
    requires i < |runs| && c < |runs[i].copies|
    ensures At(Laid(runs, i + 1), Start(runs, i) + Span(c, runs[i].width), Bits(runs[i].copies[c], runs[i].width))
  {
    var w, copies := runs[i].width, runs[i].copies;
    LaidStep(runs, i);
    AllBitsAt(copies, w, c);
    AtBehind(Laid(runs, i) + Repeat(false, Fill(runs[i], |Laid(runs, i)|)), AllBits(copies, w), Span(c, w),
             Bits(copies[c], w));
  }

  /** Value `c` of run `i` stands `c` widths behind the start of the run. */
  lemma {:induction false} RunAt(runs: seq<Run>, i: nat, c: nat)
    requires i < |runs| && c < |runs[i].copies|
    ensures At(Packed(runs), Start(runs, i) + Span(c, runs[i].width), Bits(runs[i].copies[c], runs[i].width))
    ensures Start(runs, i) + Span(c, runs[i].width) + runs[i].width <= |Laid(runs, i + 1)| <= |Packed(runs)|
  {
    RunWithin(runs, i, c);
    LaidPrefix(runs, i + 1, |runs|);
    AtWithin(Laid(runs, i + 1), Packed(runs), Start(runs, i) + Span(c, runs[i].width),
             Bits(runs[i].copies[c], runs[i].width));
  }

  lemma {:induction false} ByteFilled(n: nat)
    ensures OnByte(n + ToByte(n)) && ToByte(n) < 8 && (ToByte(n) == 0 <==> OnByte(n))
    ensures ToByte(n) > 0 ==> ToByte(n) == 1 + ToByte(n + 1)
  {
    if n > 8 { ByteFilled(n - 8); }
  }

  lemma {:induction false} HalfwordFilled(n: nat)
    ensures OnHalfword(n + ToHalfword(n)) && ToHalfword(n) < 16 && (ToHalfword(n) == 0 <==> OnHalfword(n))
    ensures ToHalfword(n) > 0 ==> ToHalfword(n) == 1 + ToHalfword(n + 1)
  {
    if n > 16 { HalfwordFilled(n - 16); }
  }

  /** The group is the least whole number of halfwords that holds its fields. */
  lemma {:induction false} Length(runs: seq<Run>)
    ensures OnHalfword(|Packed(runs)|) && |Laid(runs, |runs|)| <= |Packed(runs)| < |Laid(runs, |runs|)| + 16
  {
    HalfwordFilled(|Laid(runs, |runs|)|);
  }

  lemma {:induction false} FillMeans(run: Run, n: nat)
    ensures run.plain ==> OnByte(n + Fill(run, n)) && Fill(run, n) < 8
    ensures !run.plain ==> Fill(run, n) == 0
  {
    ByteFilled(n);
  }

  /** A plain constant starts on the next byte, any other field right behind the one before it. */
  lemma {:induction false} Starts(runs: seq<Run>, i: nat)
    requires i < |runs|
    ensures runs[i].plain ==> OnByte(Start(runs, i)) && |Laid(runs, i)| <= Start(runs, i) < |Laid(runs, i)| + 8
    ensures !runs[i].plain ==> Start(runs, i) == |Laid(runs, i)|
  {
    FillMeans(runs[i], |Laid(runs, i)|);
  }

  /** Every bit that belongs to no field is zero: those before field `i` or, if there is none, at the end. */
  lemma {:induction false} Padding(runs: seq<Run>, i: nat, k: nat)
    requires i <= |runs| && |Laid(runs, i)| <= k < if i < |runs| then Start(runs, i) else |Packed(runs)|
    ensures k < |Packed(runs)| && !Packed(runs)[k]
  {
    if i < |runs| {
      LaidPrefix(runs, i + 1, |runs|);
      LaidStep(runs, i);
      hide Laid, AllBits, Fill, Start, ToHalfword;
      var before, fill := Laid(runs, i), Repeat(false, Fill(runs[i], |Laid(runs, i)|));
      ZerosBetween(before, fill, AllBits(runs[i].copies, runs[i].width), k);
      assert Laid(runs, i + 1)[k] == Packed(runs)[k];
    }
  }

  lemma {:induction false} ZerosBetween(a: seq<bool>, zeros: seq<bool>, b: seq<bool>, k: nat)
    requires |a| <= k < |a + zeros| && zeros == Repeat(false, |zeros|)
    ensures k < |a + zeros + b| && !(a + zeros + b)[k]
  {
  }

  // ---------------------------------------------------------------- fields

  function Times(n: int, v: int): (r: seq<int>)
    ensures |r| == (if n < 0 then 0 else n) && forall k :: 0 <= k < |r| ==> r[k] == v
  {
    if n <= 0 then [] else Times(n - 1, v) + [v]
  }

  /** The values in the order they are laid down, each of them repeated in place; None if one is not known. */
  function Copies(values: seq<Option<int>>, n: int): Option<seq<int>> {
    if values == [] then Some([])
    else
      var rest, last := Copies(values[..|values| - 1], n), values[|values| - 1];
      if rest.None? || last.None? then None else Some(rest.value + Times(n, last.value))
  }

  function Evaluated(f: Field): Option<Run> {
    if Plain(f) && (f.naturalBytes.None? || f.naturalBytes.value <= 0) then None
    else if f.repeats.None? then None
    else
      var copies := Copies(f.values, f.repeats.value);
      if copies.None? then None
      else Some(Run(Plain(f), if Plain(f) then 8 * f.naturalBytes.value else f.bitLength.value, copies.value))
  }

  /** The first `n` fields evaluated; None if one of them cannot be. */
  function Runs(fields: seq<Field>, n: nat): (r: Option<seq<Run>>)
    requires n <= |fields|
    ensures r.Some? ==> |r.value| == n
  {
    if n == 0 then Some([])
    else
      var rest, last := Runs(fields, n - 1), Evaluated(fields[n - 1]);
      if rest.None? || last.None? then None else Some(rest.value + [last.value])
  }

  lemma {:induction false} RunsAt(fields: seq<Field>, n: nat, i: nat)
    requires i < n <= |fields| && Runs(fields, n).Some?
    ensures Evaluated(fields[i]) == Some(Runs(fields, n).value[i])
  {
    if i < n - 1 { RunsAt(fields, n - 1, i); }
  }

  /** Everything about the field is known: how long it is, how often its values are repeated, and they. */
  ghost predicate Known(f: Field) {
    && ((f.bitLength.Some? && f.bitLength.value > 0) || (f.naturalBytes.Some? && f.naturalBytes.value > 0))
    && f.repeats.Some? && forall j :: 0 <= j < |f.values| ==> f.values[j].Some?
  }

  /** A field with a bit length has that many bits, any other its bytes from a byte on. */
  lemma {:induction false} FieldWidth(f: Field, run: Run)
    requires Evaluated(f) == Some(run)
    ensures if f.bitLength.Some? && f.bitLength.value > 0 then !run.plain && run.width == f.bitLength.value
            else run.plain && f.naturalBytes.Some? && run.width == 8 * f.naturalBytes.value
  {
  }

  lemma {:induction false} CopiesKnown(values: seq<Option<int>>, n: int)
    ensures Copies(values, n).Some? <==> forall j :: 0 <= j < |values| ==> values[j].Some?
    ensures Copies(values, n).Some? ==> |Copies(values, n).value| == Span(|values|, if n < 0 then 0 else n)
  {
    if values != [] {
      var front := values[..|values| - 1];
      CopiesKnown(front, n);
      assert forall j :: 0 <= j < |front| ==> front[j] == values[j];
    }
  }

  /** There are bytes exactly if every field is known. */
  lemma {:induction false} RunsKnown(fields: seq<Field>, n: nat)
    requires n <= |fields|
    ensures Runs(fields, n).Some? <==> forall i :: 0 <= i < n ==> Known(fields[i])
  {
    if n > 0 {
      RunsKnown(fields, n - 1);
      var last := fields[n - 1];
      if last.repeats.Some? { CopiesKnown(last.values, last.repeats.value); }
      assert Evaluated(last).Some? <==> Known(last);
    }
  }

  /** The fields follow one another from the first bit on: each ends as many widths behind its start as it has
      values, times their repeats. */
  lemma {:induction false} Ends(fields: seq<Field>, runs: seq<Run>, i: nat)
    requires Runs(fields, |fields|) == Some(runs) && i < |fields|
    ensures |Laid(runs, 0)| == 0 && fields[i].repeats.Some?
    ensures var n := if fields[i].repeats.value < 0 then 0 else fields[i].repeats.value;
            |Laid(runs, i + 1)| == Start(runs, i) + Span(Span(|fields[i].values|, n), runs[i].width)
  {
    RunsAt(fields, |fields|, i);
    CopiesKnown(fields[i].values, fields[i].repeats.value);
    LaidStep(runs, i);
  }

  lemma {:induction false} CopiesAt(values: seq<Option<int>>, n: int, j: nat, c: nat)
    requires j < |values| && c < n && Copies(values, n).Some?
    ensures |Copies(values, n).value| == Span(|values|, n) && Span(j, n) + c < Span(|values|, n)
    ensures values[j] == Some(Copies(values, n).value[Span(j, n) + c])
    decreases |values|
  {
    var m := |values| - 1;
    if m > 0 {
      CopiesAt(values[..m], n, if j < m then j else 0, c);
    }
  }

  lemma {:induction false} SpanProduct(n: nat, w: nat)
    ensures Span(n, w) == n * w
  {
    if n > 0 {
      SpanProduct(n - 1, w);
      assert n * w == (n - 1) * w + w;
    }
  }

  // ---------------------------------------------------------------- bytes

  /** The mask of bit `k` of a byte. */
  function Mask(k: nat): bv8
    requires k < 8
  {
    0x80 >> k
  }

  predicate BitSet(data: seq<bv8>, k: nat)
    requires k < 8 * |data|
  {
    data[k / 8] & Mask(k % 8) != 0
  }

  lemma {:induction false} Masked(b: bv8, j: nat, k: nat)
    requires j < 8 && k < 8
    ensures (b | Mask(j)) & Mask(k) != 0 <==> j == k || b & Mask(k) != 0
  {
  }

  function Weight(bit: bool, w: bv8): bv8 { if bit then w else 0 }

  /** The first bit of a byte is its most significant one. */
  lemma {:induction false} ByteOfBits(data: seq<bv8>, i: nat)
    requires i < |data|
    ensures data[i] == Weight(BitSet(data, 8 * i), 0x80) + Weight(BitSet(data, 8 * i + 1), 0x40)
                       + Weight(BitSet(data, 8 * i + 2), 0x20) + Weight(BitSet(data, 8 * i + 3), 0x10)
                       + Weight(BitSet(data, 8 * i + 4), 0x08) + Weight(BitSet(data, 8 * i + 5), 0x04)
                       + Weight(BitSet(data, 8 * i + 6), 0x02) + Weight(BitSet(data, 8 * i + 7), 0x01)
  {
    BitOf(data, i, 0, 0x80);
    BitOf(data, i, 1, 0x40);
    BitOf(data, i, 2, 0x20);
    BitOf(data, i, 3, 0x10);
    BitOf(data, i, 4, 0x08);
    BitOf(data, i, 5, 0x04);
    BitOf(data, i, 6, 0x02);
    BitOf(data, i, 7, 0x01);
    hide BitSet;
    ByteSum(data[i]);
  }

  lemma {:induction false} BitOf(data: seq<bv8>, i: nat, k: nat, w: bv8)
    requires i < |data| && k < 8 && w == 0x80 >> k
    ensures BitSet(data, 8 * i + k) <==> data[i] & w != 0
  {
    Of8(8 * i + k, i, k);
  }

  lemma {:induction false} ByteSum(b: bv8)
    ensures b == Weight(b & 0x80 != 0, 0x80) + Weight(b & 0x40 != 0, 0x40) + Weight(b & 0x20 != 0, 0x20)
                 + Weight(b & 0x10 != 0, 0x10) + Weight(b & 0x08 != 0, 0x08) + Weight(b & 0x04 != 0, 0x04)
                 + Weight(b & 0x02 != 0, 0x02) + Weight(b & 0x01 != 0, 0x01)
  {
  }

  /** The number in `w` bits of the data. */
  function Read(data: seq<bv8>, at: nat, w: nat): int
    requires at + w <= 8 * |data|
    decreases w
  {
    if w == 0 then 0 else (if BitSet(data, at) then Pow2(w - 1) else 0) + Read(data, at + 1, w - 1)
  }

  /** The bytes hold exactly these bits. */
  ghost predicate Holds(data: seq<bv8>, bits: seq<bool>) {
    |bits| == 8 * |data| && forall k :: 0 <= k < |bits| ==> bits[k] == BitSet(data, k)
  }

  lemma {:induction false} ReadNumber(data: seq<bv8>, bits: seq<bool>, at: nat, w: nat)
    requires Holds(data, bits) && at + w <= |bits|
    ensures Read(data, at, w) == Number(bits[at..at + w])
    decreases w
  {
    hide BitSet;
    if w > 0 {
      ReadNumber(data, bits, at + 1, w - 1);
      assert bits[at..at + w][1..] == bits[at + 1..at + w];
    }
  }

  /** Slicing the packed bytes `j * repeats + c` widths behind the start of a field gives copy `c` of its
      value `j` modulo two to the width of the field. */
  lemma {:induction false} ReadsBack(fields: seq<Field>, runs: seq<Run>, data: seq<bv8>, i: nat, j: nat, c: nat,
                                     at: nat, w: nat)
    requires Runs(fields, |fields|) == Some(runs) && Holds(data, Packed(runs))
    requires i < |fields| && j < |fields[i].values| && fields[i].repeats.Some? && c < fields[i].repeats.value
    requires var f := fields[i];
             && w == (if f.bitLength.Some? && f.bitLength.value > 0 then f.bitLength.value
                      else if f.naturalBytes.Some? && f.naturalBytes.value > 0 then 8 * f.naturalBytes.value else 0)
             && at == Start(runs, i) + Span(Span(j, f.repeats.value) + c, w)
    ensures Evaluated(fields[i]) == Some(runs[i]) && fields[i].values[j].Some?
    ensures at + w <= |Laid(runs, i + 1)| <= 8 * |data|
    ensures Read(data, at, w) == fields[i].values[j].value % Pow2(w)
  {
    hide Laid, Start, Packed, Holds, Read;
    var x := Span(j, fields[i].repeats.value) + c;
    RunsAt(fields, |fields|, i);
    FieldWidth(fields[i], runs[i]);
    CopiesAt(fields[i].values, fields[i].repeats.value, j, c);
    ReadsRun(runs, data, i, x, at, w);
    BitsModulo(runs[i].copies[x], w);
  }

  lemma {:induction false} ReadsRun(runs: seq<Run>, data: seq<bv8>, i: nat, x: nat, at: nat, w: nat)
    requires Holds(data, Packed(runs)) && i < |runs| && x < |runs[i].copies|
    requires w == runs[i].width && at == Start(runs, i) + Span(x, w)
    ensures at + w <= |Laid(runs, i + 1)| <= 8 * |data| && Read(data, at, w) == Number(Bits(runs[i].copies[x], w))
  {
    RunAt(runs, i, x);
    ReadPart(data, Packed(runs), at, Bits(runs[i].copies[x], w));
  }

  lemma {:induction false} ReadPart(data: seq<bv8>, bits: seq<bool>, at: nat, part: seq<bool>)
    requires Holds(data, bits) && At(bits, at, part)
    ensures |bits| == 8 * |data| && at + |part| <= |bits| && Read(data, at, |part|) == Number(part)
  {
    ReadNumber(data, bits, at, |part|);
  }

  // ---------------------------------------------------------------- packing

  /** The bits of one value, from the sign end. */
  method AppendValue(before: seq<bool>, v: int, width: nat) returns (bits: seq<bool>)
    ensures bits == before + Bits(v, width)
  {
    bits := before;
    var shift := width;
    while shift > 0
      invariant 0 <= shift <= width
      invariant bits + Bits(v, shift) == before + Bits(v, width)
    {
      shift := shift - 1;
      assert Bits(v, shift + 1) == [Shifted(v, shift) % 2 == 1] + Bits(v, shift);
      bits := bits + [Shifted(v, shift) % 2 == 1];
    }
  }

  method FillByte(before: seq<bool>) returns (bits: seq<bool>)
    ensures bits == before + Repeat(false, ToByte(|before|))
  {
    bits := before;
    while |bits| % 8 != 0
      invariant bits + Repeat(false, ToByte(|bits|)) == before + Repeat(false, ToByte(|before|))
      decreases ToByte(|bits|)
    {
      OnByteMeans(|bits|);
      ByteFilled(|bits|);
      assert Repeat(false, ToByte(|bits|)) == [false] + Repeat(false, ToByte(|bits| + 1));
      bits := bits + [false];
    }
    OnByteMeans(|bits|);
    ByteFilled(|bits|);
  }

  method FillHalfword(before: seq<bool>) returns (bits: seq<bool>)
    ensures bits == before + Repeat(false, ToHalfword(|before|))
  {
    bits := before;
    while |bits| % 16 != 0
      invariant bits + Repeat(false, ToHalfword(|bits|)) == before + Repeat(false, ToHalfword(|before|))
      decreases ToHalfword(|bits|)
    {
      OnHalfwordMeans(|bits|);
      HalfwordFilled(|bits|);
      assert Repeat(false, ToHalfword(|bits|)) == [false] + Repeat(false, ToHalfword(|bits| + 1));
      bits := bits + [false];
    }
    OnHalfwordMeans(|bits|);
    HalfwordFilled(|bits|);
  }

  /** The bits of the first `i` values, each `n` times, stand behind what was there before. */
  ghost predicate Appended(before: seq<bool>, now: seq<bool>, values: seq<Option<int>>, n: int, w: nat) {
    Copies(values, n).Some? && now == before + AllBits(Copies(values, n).value, w)
  }

  lemma {:induction false} AppendedNext(before: seq<bool>, now: seq<bool>, values: seq<Option<int>>, n: int, w: nat,
                                        v: int)
    requires Appended(before, now, values, n, w)
    ensures Appended(before, now + AllBits(Times(n, v), w), values + [Some(v)], n, w)
  {
    var copies := Copies(values, n).value;
    assert (values + [Some(v)])[..|values|] == values;
    AllBitsJoin(copies, Times(n, v), w);
    Associate(before, AllBits(copies, w), AllBits(Times(n, v), w));
  }

  /** The values of one field, each `repeats` times; None if one of them is not known. */
  method AppendValues(before: seq<bool>, values: seq<Option<int>>, repeats: int, width: nat)
      returns (bits: Option<seq<bool>>)
    ensures Copies(values, repeats).None? ==> bits == None
    ensures Copies(values, repeats).Some? ==> bits == Some(before + AllBits(Copies(values, repeats).value, width))
  {
    var now := before;
    assert Appended(before, now, values[..0], repeats, width);
    for i := 0 to |values|
      invariant Appended(before, now, values[..i], repeats, width)
    {
      if values[i].None? {
        CopiesNone(values, repeats, i);
        return None;
      }
      ghost var was := now;
      now := AppendRepeats(now, values[i].value, repeats, width);
      AppendedNext(before, was, values[..i], repeats, width, values[i].value);
      assert values[..i + 1] == values[..i] + [Some(values[i].value)];
    }
    assert values[..|values|] == values;
    return Some(now);
  }

  method AppendRepeats(before: seq<bool>, v: int, repeats: int, width: nat) returns (bits: seq<bool>)
    ensures bits == before + AllBits(Times(repeats, v), width)
  {
    bits := before;
    var k := 0;
    while k < repeats
      invariant k == 0 || k <= repeats
      invariant bits == before + AllBits(Times(k, v), width)
    {
      Associate(before, AllBits(Times(k, v), width), Bits(v, width));
      AllBitsJoin(Times(k, v), [v], width);
      bits := AppendValue(bits, v, width);
      k := k + 1;
    }
    assert repeats <= 0 ==> Times(repeats, v) == [];
  }

  lemma {:induction false} AllBitsJoin(a: seq<int>, b: seq<int>, w: nat)
    ensures AllBits(a + b, w) == AllBits(a, w) + AllBits(b, w)
    decreases |a|
  {
    if a == [] {
      assert a + b == b;
    } else {
      AllBitsJoin(a[1..], b, w);
      assert (a + b)[1..] == a[1..] + b;
      Associate(Bits(a[0], w), AllBits(a[1..], w), AllBits(b, w));
    }
  }

  lemma {:induction false} CopiesNone(values: seq<Option<int>>, n: int, i: nat)
    requires i < |values| && values[i].None?
    ensures Copies(values, n).None?
    decreases |values|
  {
    if i < |values| - 1 { CopiesNone(values[..|values| - 1], n, i); }
  }

  lemma {:induction false} RunsNone(fields: seq<Field>, i: nat, n: nat)
    requires i < n <= |fields| && Evaluated(fields[i]).None?
    ensures Runs(fields, n).None?
  {
    if i < n - 1 { RunsNone(fields, i, n - 1); }
  }

  method AppendField(before: seq<bool>, f: Field) returns (bits: Option<seq<bool>>)
    ensures bits == match Evaluated(f)
                    case None => None
                    case Some(run) => Some(before + Repeat(false, Fill(run, |before|)) + AllBits(run.copies, run.width))
  {
    var now := before;
    var width := 0;
    if Plain(f) {
      if f.naturalBytes.None? || f.naturalBytes.value <= 0 { return None; }
      width := 8 * f.naturalBytes.value;
      now := FillByte(now);
    } else {
      width := f.bitLength.value;
    }
    if f.repeats.None? { return None; }
    bits := AppendValues(now, f.values, f.repeats.value, width);
    assert before + Repeat(false, 0) == before;
  }

  lemma {:induction false} LaidSame(a: seq<Run>, b: seq<Run>, n: nat)
    requires n <= |a| && a <= b
    ensures Laid(a, n) == Laid(b, n)
  {
    if n > 0 { LaidSame(a, b, n - 1); }
  }

  /** Every field must be evaluated; then the data hold the packed group. */
  method Pack(fields: seq<Field>) returns (data: Option<seq<bv8>>)
    ensures data.Some? <==> Runs(fields, |fields|).Some?
    ensures data.Some? ==> Holds(data.value, Packed(Runs(fields, |fields|).value))
  {
    hide Evaluated, Holds;
    var bits: seq<bool> := [];
    for i := 0 to |fields|
      invariant Runs(fields, i).Some? && bits == Laid(Runs(fields, i).value, i)
    {
      ghost var runs := Runs(fields, i).value;
      var next := AppendField(bits, fields[i]);
      if next.None? {
        RunsNone(fields, i, |fields|);
        return None;
      }
      bits := next.value;
      LaidSame(runs, Runs(fields, i + 1).value, i);
    }
    HalfwordFilled(|bits|);
    bits := FillHalfword(bits);
    var bytes := ToBytes(bits);
    return Some(bytes);
  }

  method RaiseBit(data: array<bv8>, i: nat)
    requires i < 8 * data.Length
    modifies data
    ensures data[..] == old(data[..])[i / 8 := old(data[i / 8]) | Mask(i % 8)]
  {
    data[i / 8] := data[i / 8] | Mask(i % 8);
  }

  method BlankBytes(n: nat) returns (data: array<bv8>)
    ensures fresh(data) && data.Length == n && forall k :: 0 <= k < n ==> data[k] == 0
  {
    data := new bv8[n](_ => 0);
  }

  lemma {:induction false} WholeBytes(n: nat)
    requires OnHalfword(n)
    ensures 8 * (n / 8) == n
  {
    OnHalfwordMeans(n);
    hide OnHalfword;
  }

  method ToBytes(bits: seq<bool>) returns (bytes: seq<bv8>)
    requires OnHalfword(|bits|)
    ensures Holds(bytes, bits)
  {
    hide *;
    WholeBytes(|bits|);
    var data := BlankBytes(|bits| / 8);
    HoldsNone(data[..], bits);
    for i := 0 to |bits|
      invariant HoldsTo(data[..], bits, i)
    {
      ghost var was := data[..];
      if bits[i] {
        RaiseBit(data, i);
      }
      HoldsNext(was, data[..], bits, i);
    }
    HoldsAll(data[..], bits);
    bytes := data[..];
  }

  /** The bytes hold the first `i` bits and no others. */
  ghost predicate HoldsTo(data: seq<bv8>, bits: seq<bool>, i: nat) {
    |bits| == 8 * |data| && forall k :: 0 <= k < |bits| ==> (BitSet(data, k) <==> k < i && bits[k])
  }

  lemma {:induction false} HoldsNone(data: seq<bv8>, bits: seq<bool>)
    requires |bits| == 8 * |data| && forall k :: 0 <= k < |data| ==> data[k] == 0
    ensures HoldsTo(data, bits, 0)
  {
  }

  lemma {:induction false} HoldsAll(data: seq<bv8>, bits: seq<bool>)
    requires HoldsTo(data, bits, |bits|)
    ensures Holds(data, bits)
  {
  }

  lemma {:induction false} HoldsNext(was: seq<bv8>, now: seq<bv8>, bits: seq<bool>, i: nat)
    requires HoldsTo(was, bits, i) && i < |bits| && i < 8 * |was|
    requires now == if bits[i] then was[i / 8 := was[i / 8] | Mask(i % 8)] else was
    ensures HoldsTo(now, bits, i + 1)
  {
    if bits[i] {
      SetBit(was, now, i);
    }
    hide BitSet;
  }

  lemma {:induction false} SetBit(was: seq<bv8>, now: seq<bv8>, i: nat)
    requires i < 8 * |was| && now == was[i / 8 := was[i / 8] | Mask(i % 8)]
    ensures forall k :: 0 <= k < 8 * |was| ==> (BitSet(now, k) <==> k == i || BitSet(was, k))
  {
    forall k | 0 <= k < 8 * |was| ensures BitSet(now, k) <==> k == i || BitSet(was, k) {
      if k / 8 == i / 8 { Masked(was[i / 8], i % 8, k % 8); }
    }
  }
}
