/**
  Pseudo-addresses: a symbol is an integer `hash * 2^36 + offset`, expressions are evaluated with
  ordinary integer arithmetic, and `Unhash` splits the result again.  The partner of the integer
  evaluation is a symbolic one over linear forms, one coefficient per relocatable symbol.
 */
module PseudoAddress {
  import opened Basics
  import opened Wrappers

  const OFFSET_SPAN: int := 0x1_0000_0000
  const HASH_UNIT: int := 0x10_0000_0000
  const HASH_SPAN: int := 0x1000_0000
  const MAX_HASH: int := 0xFFF_FFFF
  const BORROW: int := 0x8_0000_0000

  /** Hash field (the code's `hashcode >> 36`) to the CSECT, DSECT or EXTRN that owns it. */
  type Lookup = map<int, string>

  datatype Unhashed = Number(n: int) | Address(symbol: string, offset: int) | Invalid

  /** Bits 36 to 63 of a result, as a two's-complement mask extracts them. */
  function HashField(v: int): int {
    (v / HASH_UNIT) % HASH_SPAN
  }

  function Unhash(v: int, lookup: Lookup): Unhashed {
    var h := HashField(v);
    if h == 0 || h == MAX_HASH then Number(v)
    else if v % HASH_UNIT < OFFSET_SPAN && h in lookup then Address(lookup[h], v % OFFSET_SPAN)
    else Invalid
  }

  /** The recovery tried when `Unhash` names no section: a negative offset has borrowed one from the
      hash field, so the owner is the symbol whose hash is one greater. */
  function Borrowed(v: int, lookup: Lookup): Option<(string, int)> {
    var h := HashField(v) + 1;
    var low := v % HASH_UNIT;
    if h in lookup && low >= BORROW then Some((lookup[h], low - HASH_UNIT)) else None
  }

  /** Unhashing followed by the recovery, as EQU values and Y constants do it. */
  function Resolve(v: int, lookup: Lookup): Unhashed {
    match Unhash(v, lookup)
    case Address(s, d) => Address(s, d)
    case other => match Borrowed(v, lookup) case Some(p) => Address(p.0, p.1) case None => other
  }

  // ---------------------------------------------------------------- hash codes

  ghost predicate Injective(m: Lookup) {
    forall a, b :: a in m && b in m && m[a] == m[b] ==> a == b
  }

  ghost predicate ValidHashes(m: Lookup) {
    forall h :: h in m ==> 1 <= h <= MAX_HASH
  }

  ghost predicate Registers(m: Lookup, symbol: string) {
    exists h :: h in m && m[h] == symbol
  }

  /** The hash-code registry; `draw` is the random number the call would take. */
  class Registry {
    var lookup: Lookup

    constructor ()
      ensures lookup == map[]
    {
      lookup := map[];
    }

    method GetHashcode(symbol: string, draw: int) returns (h: int)
      requires 1 <= draw <= MAX_HASH
      requires Injective(lookup) && ValidHashes(lookup)
      modifies this
      ensures h in lookup && lookup[h] == symbol && ValidHashes(lookup)
      ensures Registers(old(lookup), symbol) ==> lookup == old(lookup)
      ensures !Registers(old(lookup), symbol) ==> h == draw && lookup == old(lookup)[draw := symbol]
      // Every earlier symbol keeps its code exactly when the draw is not already taken.
      ensures Injective(lookup)
      ensures (forall k :: k in old(lookup) ==> k in lookup && lookup[k] == old(lookup)[k]) <==>
              (Registers(old(lookup), symbol) || draw !in old(lookup))
    {
      if k :| k in lookup && lookup[k] == symbol {
        return k;
      }
      h := draw;
      lookup := lookup[draw := symbol];
      assert draw in old(lookup) ==> lookup[draw] != old(lookup)[draw];
    }
  }

  // ---------------------------------------------------------------- expressions

  datatype Op = Plus | Minus | Times | Over

  /** A parsed arithmetic expression.  `Sym("*")` is the location counter. */
  datatype Expr = Num(n: int) | Sym(name: string) | Neg(e: Expr) | Bin(op: Op, left: Expr, right: Expr)

  function Abs(x: int): nat { if x < 0 then -x else x }

  /** Integer division with the remainder discarded; dividing by zero yields zero. */
  function Divide(x: int, y: int): int {
    if y == 0 then 0
    else
      var q := Abs(x) / Abs(y);
      if (x < 0) != (y < 0) then -q else q
  }

  function Apply(op: Op, x: int, y: int): int {
    match op
    case Plus => x + y
    case Minus => x - y
    case Times => x * y
    case Over => Divide(x, y)
  }

  /** The evaluation the assembler performs, on hashed values. */
  function Eval(e: Expr, symtab: map<string, int>): Option<int> {
    match e
    case Num(n) => Some(n)
    case Sym(x) => if x in symtab then Some(symtab[x]) else None
    case Neg(a) => (match Eval(a, symtab) case Some(v) => Some(-v) case None => None)
    case Bin(op, l, r) =>
      match (Eval(l, symtab), Eval(r, symtab))
      case (Some(x), Some(y)) => Some(Apply(op, x, y))
      case _ => None
  }

  lemma {:induction false} SignsOut(x: int, y: int, q: int)
    ensures y * (if (x < 0) != (y < 0) then -q else q) == if x < 0 then -(Abs(y) * q) else Abs(y) * q
  {
    if y < 0 {
      assert -y * q == y * -q == -(y * q);
    }
  }

  lemma {:induction false} WholeParts(a: nat, b: nat)
    requires b > 0
    ensures 0 <= a - b * (a / b) < b && 0 <= b * (a / b)
  {
  }

  /** Division discards the remainder, which has the sign of the dividend, so that it rounds towards zero;
      and dividing by zero yields zero. */
  lemma {:induction false} DivideTruncates(x: int, y: int)
    ensures y == 0 ==> Divide(x, y) == 0
    ensures y != 0 ==>
              var rest := x - y * Divide(x, y);
              Abs(rest) < Abs(y) && Abs(y * Divide(x, y)) <= Abs(x) && (x >= 0 ==> rest >= 0) && (x <= 0 ==> rest <= 0)
  {
    if y != 0 {
      SignsOut(x, y, Abs(x) / Abs(y));
      WholeParts(Abs(x), Abs(y));
    }
  }

  /** So does the evaluation of a quotient. */
  lemma {:induction false} QuotientTruncates(left: Expr, right: Expr, symtab: map<string, int>, x: int, y: int)
    requires Eval(left, symtab) == Some(x) && Eval(right, symtab) == Some(y)
    ensures var v := Eval(Bin(Over, left, right), symtab);
            && v.Some? && (y == 0 ==> v == Some(0))
            && (y != 0 ==> Abs(x - y * v.value) < Abs(y) && Abs(y * v.value) <= Abs(x) &&
                           (x >= 0 ==> x - y * v.value >= 0) && (x <= 0 ==> x - y * v.value <= 0))
  {
    DivideTruncates(x, y);
  }

  /** A linear form: one coefficient per relocatable symbol, and a constant. */
  datatype Form = Form(c: seq<int>, k: int)

  function Unit(n: nat, i: nat): (r: seq<int>)
    requires i < n
    ensures |r| == n
  {
    if i == 0 then [1] + Repeat(0, n - 1) else [0] + Unit(n - 1, i - 1)
  }

  predicate Pure(f: Form) {
    f.c == Repeat(0, |f.c|)
  }

  /** The form is one relocatable symbol, taken once, plus a constant. */
  predicate Single(f: Form, i: nat) {
    i < |f.c| && f.c == Unit(|f.c|, i)
  }

  /** The vector `p * a + q * b`. */
  function Combine(a: seq<int>, p: int, b: seq<int>, q: int): (r: seq<int>)
    requires |a| == |b|
    ensures |r| == |a|
  {
    if a == [] then [] else [p * a[0] + q * b[0]] + Combine(a[1..], p, b[1..], q)
  }

  /** What an operator means on forms; a product needs one absolute side and a quotient two. */
  function ApplyForm(op: Op, f: Form, g: Form): Option<Form>
    requires |f.c| == |g.c|
  {
    match op
    case Plus => Some(Form(Combine(f.c, 1, g.c, 1), f.k + g.k))
    case Minus => Some(Form(Combine(f.c, 1, g.c, -1), f.k - g.k))
    case Times =>
      if Pure(f) then Some(Form(Combine(f.c, 0, g.c, f.k), f.k * g.k))
      else if Pure(g) then Some(Form(Combine(f.c, g.k, g.c, 0), f.k * g.k))
      else None
    case Over => if Pure(f) && Pure(g) then Some(Form(f.c, Divide(f.k, g.k))) else None
  }

  /** Symbolic evaluation over `n` relocatable symbols. */
  function SymEval(e: Expr, env: map<string, Form>, n: nat): (r: Option<Form>)
    requires Sized(env, n)
    ensures r.Some? ==> |r.value.c| == n
  {
    match e
    case Num(k) => Some(Form(Repeat(0, n), k))
    case Sym(x) => if x in env then Some(env[x]) else None
    case Neg(a) =>
      (match SymEval(a, env, n) case Some(f) => Some(Form(Combine(f.c, -1, f.c, 0), -f.k)) case None => None)
    case Bin(op, l, r) =>
      match (SymEval(l, env, n), SymEval(r, env, n))
      case (Some(f), Some(g)) => ApplyForm(op, f, g)
      case _ => None
  }

  // ---------------------------------------------------------------- the homomorphism

  function Dot(c: seq<int>, bases: seq<int>): int
    requires |c| == |bases|
  {
    if c == [] then 0 else c[0] * bases[0] + Dot(c[1..], bases[1..])
  }

  /** The integer a form stands for once each symbol has its base, the shifted hash. */
  function Denote(f: Form, bases: seq<int>): int
    requires |f.c| == |bases|
  {
    Dot(f.c, bases) + f.k
  }

  lemma {:induction false} Distribute(p: int, x: int, q: int, y: int, h: int)
    ensures (p * x + q * y) * h == p * (x * h) + q * (y * h)
  {
  }

  lemma {:induction false} DotCombine(a: seq<int>, p: int, b: seq<int>, q: int, bases: seq<int>)
    requires |a| == |b| == |bases|
    ensures Dot(Combine(a, p, b, q), bases) == p * Dot(a, bases) + q * Dot(b, bases)
  {
    if a != [] {
      DotCombine(a[1..], p, b[1..], q, bases[1..]);
      var da, db := Dot(a[1..], bases[1..]), Dot(b[1..], bases[1..]);
      calc {
        Dot(Combine(a, p, b, q), bases);
        { assert Combine(a, p, b, q)[1..] == Combine(a[1..], p, b[1..], q); }
        (p * a[0] + q * b[0]) * bases[0] + (p * da + q * db);
        { Distribute(p, a[0], q, b[0], bases[0]); }
        p * (a[0] * bases[0]) + q * (b[0] * bases[0]) + (p * da + q * db);
        p * (a[0] * bases[0] + da) + q * (b[0] * bases[0] + db);
      }
    }
  }

  lemma {:induction false} DotZeros(bases: seq<int>)
    ensures Dot(Repeat(0, |bases|), bases) == 0
  {
    if bases != [] {
      assert Repeat(0, |bases|)[1..] == Repeat(0, |bases| - 1);
      DotZeros(bases[1..]);
    }
  }

  lemma {:induction false} DotUnit(i: nat, bases: seq<int>)
    requires i < |bases|
    ensures Dot(Unit(|bases|, i), bases) == bases[i]
  {
    if i == 0 {
      DotZeros(bases[1..]);
    } else {
      DotUnit(i - 1, bases[1..]);
    }
  }

  lemma {:induction false} DenotePure(f: Form, bases: seq<int>)
    requires |f.c| == |bases| && Pure(f)
    ensures Denote(f, bases) == f.k
  {
    DotZeros(bases);
  }

  lemma {:induction false} DenoteSingle(f: Form, i: nat, bases: seq<int>)
    requires |f.c| == |bases| && Single(f, i)
    ensures Denote(f, bases) == bases[i] + f.k
  {
    DotUnit(i, bases);
  }

  ghost predicate Sized(env: map<string, Form>, n: nat) {
    forall x :: x in env ==> |env[x].c| == n
  }

  /** The symbol table: every symbol's form with the bases put in. */
  function SymbolTable(env: map<string, Form>, bases: seq<int>): (t: map<string, int>)
    requires Sized(env, |bases|)
    ensures t.Keys == env.Keys
    ensures forall x :: x in env ==> t[x] == Denote(env[x], bases)
  {
    map x | x in env :: Denote(env[x], bases)
  }

  lemma {:induction false} SumAgrees(f: Form, q: int, g: Form, bases: seq<int>)
    requires |f.c| == |g.c| == |bases|
    ensures Denote(f, bases) + q * Denote(g, bases) == Denote(Form(Combine(f.c, 1, g.c, q), f.k + q * g.k), bases)
  {
    DotCombine(f.c, 1, g.c, q, bases);
  }

  lemma {:induction false} ScaleAgrees(f: Form, a: seq<int>, q: int, bases: seq<int>)
    requires |f.c| == |a| == |bases|
    ensures q * Denote(f, bases) == Denote(Form(Combine(a, 0, f.c, q), q * f.k), bases)
    ensures q * Denote(f, bases) == Denote(Form(Combine(f.c, q, a, 0), f.k * q), bases)
  {
    DotCombine(a, 0, f.c, q, bases);
    DotCombine(f.c, q, a, 0, bases);
  }

  lemma {:induction false} ApplyAgrees(op: Op, f: Form, g: Form, bases: seq<int>)
    requires |f.c| == |g.c| == |bases|
    requires ApplyForm(op, f, g).Some?
    ensures Apply(op, Denote(f, bases), Denote(g, bases)) == Denote(ApplyForm(op, f, g).value, bases)
  {
    match op
    case Plus => SumAgrees(f, 1, g, bases);
    case Minus => SumAgrees(f, -1, g, bases);
    case Times =>
      if Pure(f) {
        DenotePure(f, bases);
        ScaleAgrees(g, f.c, f.k, bases);
      } else {
        DenotePure(g, bases);
        ScaleAgrees(f, g.c, g.k, bases);
      }
    case Over =>
      DenotePure(f, bases);
      DenotePure(g, bases);
      DenotePure(ApplyForm(op, f, g).value, bases);
  }

  /** What the code's expressions are made of: a product needs one side without symbols, a quotient two. */
  predicate Linear(e: Expr, names: set<string>) {
    match e
    case Num(_) => true
    case Sym(x) => x in names
    case Neg(a) => Linear(a, names)
    case Bin(op, l, r) =>
      Linear(l, names) && Linear(r, names)
      && (op == Times ==> Constant(l) || Constant(r)) && (op == Over ==> Constant(l) && Constant(r))
  }

  predicate Constant(e: Expr) {
    match e
    case Num(_) => true
    case Sym(_) => false
    case Neg(a) => Constant(a)
    case Bin(_, l, r) => Constant(l) && Constant(r)
  }

  /** The coefficients of a combination. */
  lemma {:induction false} CombineAt(a: seq<int>, p: int, b: seq<int>, q: int, i: nat)
    requires |a| == |b| && i < |a|
    ensures Combine(a, p, b, q)[i] == p * a[i] + q * b[i]
  {
    if i > 0 {
      CombineAt(a[1..], p, b[1..], q, i - 1);
    }
  }

  ghost predicate AllZero(c: seq<int>) {
    forall i :: 0 <= i < |c| ==> c[i] == 0
  }

  lemma {:induction false} CombineZeros(a: seq<int>, p: int, b: seq<int>, q: int)
    requires |a| == |b| && (p == 0 || AllZero(a)) && (q == 0 || AllZero(b))
    ensures AllZero(Combine(a, p, b, q))
  {
    forall i | 0 <= i < |a| ensures Combine(a, p, b, q)[i] == 0 {
      CombineAt(a, p, b, q, i);
    }
  }

  lemma {:induction false} UnitAt(n: nat, i: nat, j: nat)
    requires i < n && j < n
    ensures Unit(n, i)[j] == if i == j then 1 else 0
  {
    if i > 0 && j > 0 {
      UnitAt(n - 1, i - 1, j - 1);
    }
  }

  /** A pure form has no symbol in it, a single one just the one, once. */
  lemma {:induction false} FormsMean(f: Form, i: nat)
    ensures Pure(f) <==> AllZero(f.c)
    ensures Single(f, i) <==> i < |f.c| && forall j :: 0 <= j < |f.c| ==> f.c[j] == if i == j then 1 else 0
  {
    if i < |f.c| {
      forall j | 0 <= j < |f.c| ensures Unit(|f.c|, i)[j] == if i == j then 1 else 0 { UnitAt(|f.c|, i, j); }
    }
  }

  /** Every such expression has a form, one without symbols a pure one. */
  lemma {:induction false} LinearForm(e: Expr, env: map<string, Form>, n: nat)
    requires Sized(env, n) && Linear(e, env.Keys)
    ensures var f := SymEval(e, env, n);
            f.Some? && (Constant(e) ==> AllZero(f.value.c))
  {
    match e
    case Num(k) =>
    case Sym(x) =>
    case Neg(a) =>
      LinearForm(a, env, n);
      if Constant(a) { CombineZeros(SymEval(a, env, n).value.c, -1, SymEval(a, env, n).value.c, 0); }
    case Bin(op, l, r) =>
      LinearForm(l, env, n);
      LinearForm(r, env, n);
      BinaryForm(op, SymEval(l, env, n).value, SymEval(r, env, n).value);
  }

  lemma {:induction false} BinaryForm(op: Op, f: Form, g: Form)
    requires |f.c| == |g.c|
    ensures op == Times ==> (ApplyForm(op, f, g).Some? <==> AllZero(f.c) || AllZero(g.c))
    ensures op == Over ==> (ApplyForm(op, f, g).Some? <==> AllZero(f.c) && AllZero(g.c))
    ensures op == Plus || op == Minus ==> ApplyForm(op, f, g).Some?
    ensures AllZero(f.c) && AllZero(g.c) ==> AllZero(ApplyForm(op, f, g).value.c)
  {
    FormsMean(f, 0);
    FormsMean(g, 0);
    if AllZero(f.c) && AllZero(g.c) {
      CombineZeros(f.c, 1, g.c, 1);
      CombineZeros(f.c, 1, g.c, -1);
      CombineZeros(f.c, 0, g.c, f.k);
    }
  }

  /** Integer evaluation on hashed values is the denotation of symbolic evaluation. */
  lemma {:induction false} EvalAgrees(e: Expr, env: map<string, Form>, bases: seq<int>)
    requires Sized(env, |bases|)
    requires SymEval(e, env, |bases|).Some?
    ensures Eval(e, SymbolTable(env, bases)) == Some(Denote(SymEval(e, env, |bases|).value, bases))
  {
    match e
    case Num(k) => DotZeros(bases);
    case Sym(x) =>
    case Neg(a) =>
      EvalAgrees(a, env, bases);
      var f := SymEval(a, env, |bases|).value;
      DotCombine(f.c, -1, f.c, 0, bases);
    case Bin(op, l, r) =>
      EvalAgrees(l, env, bases);
      EvalAgrees(r, env, bases);
      ApplyAgrees(op, SymEval(l, env, |bases|).value, SymEval(r, env, |bases|).value, bases);
  }

  // ---------------------------------------------------------------- reading a result back

  lemma {:induction false} Fields(h: int, k: int)
    requires 0 <= k < HASH_UNIT && 0 <= h < HASH_SPAN
    ensures HashField(h * HASH_UNIT + k) == h && (h * HASH_UNIT + k) % HASH_UNIT == k
    ensures (h * HASH_UNIT + k) % OFFSET_SPAN == k % OFFSET_SPAN
  {
    assert (h * HASH_UNIT + k) / HASH_UNIT == h;
  }

  /** A symbol and a displacement are told apart exactly when the displacement is a 32-bit one and the
      random draw did not produce the all-ones hash, which the code takes for a number's sign bits. */
  lemma {:induction false} UnhashSymbol(h: int, k: int, lookup: Lookup)
    requires ValidHashes(lookup) && h in lookup
    ensures Unhash(h * HASH_UNIT + k, lookup) == Address(lookup[h], k) <==> h != MAX_HASH && 0 <= k < OFFSET_SPAN
    ensures h == MAX_HASH && 0 <= k < HASH_UNIT ==> Unhash(h * HASH_UNIT + k, lookup) == Number(h * HASH_UNIT + k)
    ensures h != MAX_HASH && OFFSET_SPAN <= k < HASH_UNIT ==> Unhash(h * HASH_UNIT + k, lookup) == Invalid
  {
    if 0 <= k < HASH_UNIT {
      Fields(h, k);
    }
  }

  lemma {:induction false} EvalSingle(e: Expr, env: map<string, Form>, bases: seq<int>, f: Form, i: nat)
    requires Sized(env, |bases|)
    requires SymEval(e, env, |bases|) == Some(f) && Single(f, i)
    ensures Eval(e, SymbolTable(env, bases)) == Some(bases[i] + f.k)
  {
    EvalAgrees(e, env, bases);
    DenoteSingle(f, i, bases);
  }

  /** The result of an expression that cancels to one symbol is read back exactly when the net
      offset is a 32-bit one and the symbol's hash is not all ones. */
  lemma {:induction false} ReadAddress(e: Expr, env: map<string, Form>, bases: seq<int>, lookup: Lookup,
                                       f: Form, i: nat, h: int)
    requires Sized(env, |bases|)
    requires SymEval(e, env, |bases|) == Some(f) && Single(f, i)
    requires bases[i] == h * HASH_UNIT && ValidHashes(lookup) && h in lookup
    ensures Eval(e, SymbolTable(env, bases)).Some?
    ensures var v := Eval(e, SymbolTable(env, bases)).value;
            Unhash(v, lookup) == Address(lookup[h], f.k) <==> h != MAX_HASH && 0 <= f.k < OFFSET_SPAN
  {
    EvalSingle(e, env, bases, f, i);
    UnhashSymbol(h, f.k, lookup);
  }

  /** An expression whose symbols all cancel is read back as a number, exactly when its magnitude
      stays within 36 bits (for anything short of the sign bit of the 64-bit word). */
  lemma {:induction false} ReadNumber(e: Expr, env: map<string, Form>, bases: seq<int>,
                   lookup: Lookup, f: Form)
    requires Sized(env, |bases|)
    requires SymEval(e, env, |bases|) == Some(f) && Pure(f)
    requires -(HASH_SPAN * HASH_UNIT) + HASH_UNIT <= f.k < MAX_HASH * HASH_UNIT
    ensures Eval(e, SymbolTable(env, bases)).Some?
    ensures Unhash(Eval(e, SymbolTable(env, bases)).value, lookup) == Number(f.k) <==> -HASH_UNIT <= f.k < HASH_UNIT
  {
    EvalAgrees(e, env, bases);
    DenotePure(f, bases);
    var q := f.k / HASH_UNIT;
    assert f.k == q * HASH_UNIT + f.k % HASH_UNIT;
    assert -HASH_SPAN < q < MAX_HASH;
    assert HashField(f.k) == if q < 0 then q + HASH_SPAN else q;
  }

  // ---------------------------------------------------------------- negative displacements

  lemma {:induction false} BorrowFields(h: int, n: int)
    requires 1 <= h < HASH_SPAN && 1 <= n <= HASH_UNIT
    ensures HashField(h * HASH_UNIT - n) == h - 1
    ensures (h * HASH_UNIT - n) % HASH_UNIT == HASH_UNIT - n
  {
    Fields(h - 1, HASH_UNIT - n);
    assert h * HASH_UNIT - n == (h - 1) * HASH_UNIT + (HASH_UNIT - n);
  }

  /** With the recovery, a symbol plus any signed displacement in [-2^35, 2^32) is resolved to that
      symbol and displacement, and no other displacement is.  Of a symbol that drew the all-ones hash
      only the negative displacements are resolved; the others are left as numbers. */
  lemma {:induction false} ResolveSigned(h: int, k: int, lookup: Lookup)
    requires ValidHashes(lookup) && h in lookup
    ensures Resolve(h * HASH_UNIT + k, lookup) == Address(lookup[h], k) <==>
            -BORROW <= k < (if h == MAX_HASH then 0 else OFFSET_SPAN)
    ensures h == MAX_HASH && 0 <= k < HASH_UNIT ==> Resolve(h * HASH_UNIT + k, lookup) == Number(h * HASH_UNIT + k)
  {
    if 0 <= k < HASH_UNIT {
      Fields(h, k);
    } else if -BORROW <= k < 0 {
      BorrowFields(h, -k);
    }
  }

  /** The recovery never disturbs a number below 2^35. */
  lemma {:induction false} ResolveNumber(k: int, lookup: Lookup)
    requires ValidHashes(lookup) && -HASH_UNIT <= k < BORROW
    ensures Resolve(k, lookup) == Number(k)
  {
    var q := k / HASH_UNIT;
    assert k == q * HASH_UNIT + k % HASH_UNIT;
    assert q == 0 || q == -1;
  }

  /** Above it, a number is taken for a symbol whenever the hash 1 is in use. */
  lemma {:induction false} LargeNumberMistaken(k: int, lookup: Lookup)
    requires ValidHashes(lookup) && BORROW <= k < HASH_UNIT
    ensures Resolve(k, lookup) == Number(k) <==> 1 !in lookup
  {
    Fields(0, k);
  }
}
