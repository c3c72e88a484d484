/**
  What several components share: bytes and buffers, sequences, padding and decimal numbers.
 */
module Basics {
  type Byte = b: int | 0 <= b < 256

  /** Assigning to a slice of the same length. */
  function Put(buffer: seq<Byte>, at: nat, bytes: seq<Byte>): (r: seq<Byte>)
    requires at + |bytes| <= |buffer|
    ensures |r| == |buffer|
  {
    buffer[..at] + bytes + buffer[at + |bytes|..]
  }

  /** Text without the blanks at its end. */
  function Trim(s: string): string {
    if s == "" || s[|s| - 1] != ' ' then s else Trim(s[..|s| - 1])
  }

  lemma {:induction false} Associate<T>(a: seq<T>, b: seq<T>, c: seq<T>)
    ensures a + (b + c) == a + b + c
  {
  }

  lemma {:induction false} NothingMore<T>(a: seq<T>)
    ensures a + [] == a && [] + a == a
  {
  }

  lemma {:induction false} SliceBehind<T>(data: seq<T>, n: nat, from: nat, to: nat)
    requires n + from <= n + to <= |data|
    ensures data[n..][from..to] == data[n + from..n + to]
  {
  }

  lemma {:induction false} SliceWithin<T>(data: seq<T>, n: nat, from: nat, to: nat)
    requires from <= to <= n <= |data|
    ensures data[..n][from..to] == data[from..to]
  {
  }

  function Repeat<T>(x: T, n: nat): (r: seq<T>)
    ensures |r| == n && forall k :: 0 <= k < n ==> r[k] == x
  {
    if n == 0 then [] else Repeat(x, n - 1) + [x]
  }

  lemma {:induction false} Of2(x: int, q: int, r: int)
    requires x == 2 * q + r && 0 <= r < 2
    ensures x / 2 == q && x % 2 == r
  {
  }

  lemma {:induction false} Of4(x: int, q: int, r: int)
    requires x == 4 * q + r && 0 <= r < 4
    ensures x / 4 == q && x % 4 == r
  {
  }

  lemma {:induction false} Of8(x: int, q: int, r: int)
    requires x == 8 * q + r && 0 <= r < 8
    ensures x / 8 == q && x % 8 == r
  {
  }

  /** A position rounded up to an alignment. */
  function PadTo(p: nat, a: int): nat {
    if a <= 1 || p == 0 then p else if p <= a then a else a + PadTo(p - a, a)
  }

  /** The remainder that the code makes up comes to the same. */
  lemma {:induction false} PadToHalfword(p: nat)
    ensures PadTo(p, 2) == if p % 2 == 0 then p else p + 1
  {
    if p > 2 {
      PadToHalfword(p - 2);
      Of2(p, (p - 2) / 2 + 1, (p - 2) % 2);
    }
  }

  lemma {:induction false} PadToFullword(p: nat)
    ensures PadTo(p, 4) == if p % 4 == 0 then p else p + 4 - p % 4
  {
    if p > 4 {
      PadToFullword(p - 4);
      Of4(p, (p - 4) / 4 + 1, (p - 4) % 4);
    }
  }

  lemma {:induction false} PadToDoubleword(p: nat)
    ensures PadTo(p, 8) == if p % 8 == 0 then p else p + 8 - p % 8
  {
    if p > 8 {
      PadToDoubleword(p - 8);
      Of8(p, (p - 8) / 8 + 1, (p - 8) % 8);
    }
  }

  function Decimal(n: nat): string {
    if n < 10 then ['0' + n as char] else Decimal(n / 10) + ['0' + (n % 10) as char]
  }

  predicate IsDigit(c: char) { '0' <= c <= '9' }

  /** The number that decimal digits stand for. */
  function ReadDecimal(s: string): nat
    requires forall k :: 0 <= k < |s| ==> IsDigit(s[k])
  {
    if s == "" then 0
    else
      assert IsDigit(s[|s| - 1]);
      10 * ReadDecimal(s[..|s| - 1]) + (s[|s| - 1] as int - '0' as int)
  }

  /** A number is written in digits that stand for it, without zeros in front. */
  lemma {:induction false} DecimalBack(n: nat)
    ensures var s := Decimal(n);
            && s != "" && (forall k :: 0 <= k < |s| ==> IsDigit(s[k])) && ReadDecimal(s) == n
            && (|s| > 1 ==> s[0] != '0')
  {
    if n >= 10 {
      DecimalBack(n / 10);
      assert Decimal(n)[..|Decimal(n)| - 1] == Decimal(n / 10);
    } else {
      assert Decimal(n)[..0] == "" && ReadDecimal("") == 0;
    }
  }
}
