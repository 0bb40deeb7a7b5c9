/** The binary and unary operators on integers: what bc_bop of the virtual machine
    and constant folding in the compiler both compute.  A result is None where the
    C expression is undefined. */
module Operators {
  import opened Basics

  datatype Operator =
    | Plus | Minus | Times | Divide | Modulo
    | Eq | NotEq | Less | Greater | LessOrEq | GreaterOrEq
    | LogOr | LogAnd | BitOr | BitAnd | Xor | Lsh | Rsh

  const INT_MIN := -0x8000_0000
  const INT_MAX := 0x7fff_ffff

  predicate IsInt32(v: int) { INT_MIN <= v <= INT_MAX }

  type int32 = v: int | -0x8000_0000 <= v <= 0x7fff_ffff

  /** The value when it is an int, undefined when it overflows. */
  function Fit(v: int): (r: Option<int32>)
    ensures r.Some? <==> IsInt32(v)
    ensures r.Some? ==> r.value == v
  {
    if IsInt32(v) then Some(v) else None
  }

  function Truth(b: bool): int32 { if b then 1 else 0 }

  /** Division truncates toward zero. */
  function Quotient(a: int, b: int): (q: int)
    requires b != 0
  {
    if a >= 0 then (if b > 0 then a / b else -(a / -b))
    else (if b > 0 then -(-a / b) else -a / -b)
  }

  function Abs(a: int): nat { if a < 0 then -a else a }

  function Remainder(a: int, b: int): int
    requires b != 0
  {
    a - Quotient(a, b) * b
  }

  datatype BitOperator = OrBits | AndBits | XorBits

  function OneBit(k: BitOperator, a: nat, b: nat): (r: nat)
    ensures r < 2
  {
    match k
    case OrBits => if a == 1 || b == 1 then 1 else 0
    case AndBits => if a == 1 && b == 1 then 1 else 0
    case XorBits => if a == b then 0 else 1
  }

  /** The `n` low bits of two numbers, combined bit by bit. */
  function Bitwise(k: BitOperator, a: nat, b: nat, n: nat): (r: nat)
    ensures r < Pow2(n)
  {
    if n == 0 then 0
    else 2 * Bitwise(k, a / 2, b / 2, n - 1) + OneBit(k, a % 2, b % 2)
  }

  /** The two's complement representation and back. */
  function Unsigned(a: int32): (r: nat)
    ensures r < 0x1_0000_0000
  {
    if a < 0 then a + 0x1_0000_0000 else a
  }

  function Signed(n: nat): int32
    requires n < 0x1_0000_0000
  {
    if n > INT_MAX then n - 0x1_0000_0000 else n
  }

  function OnBits(k: BitOperator, a: int32, b: int32): int32 {
    assert Pow2(32) == 0x1_0000_0000 by { Pow2Of32(); }
    Signed(Bitwise(k, Unsigned(a), Unsigned(b), 32))
  }

  lemma Pow2Of32()
    ensures Pow2(32) == 0x1_0000_0000
  {
    assert Pow2(8) == 256;
    assert Pow2(16) == 65536;
    assert Pow2(24) == 0x100_0000;
  }

  function Pow2(n: nat): (r: nat)
    ensures r > 0
  {
    if n == 0 then 1 else 2 * Pow2(n - 1)
  }

  function Apply(op: Operator, a: int32, b: int32): Option<int32> {
    match op
    case Plus => Fit(a + b)
    case Minus => Fit(a - b)
    case Times => Fit(a * b)
    case Divide => if b == 0 then None else Fit(Quotient(a, b))
    case Modulo => if b == 0 || Fit(Quotient(a, b)).None? then None else Fit(Remainder(a, b))
    case Eq => Some(Truth(a == b))
    case NotEq => Some(Truth(a != b))
    case Less => Some(Truth(a < b))
    case Greater => Some(Truth(a > b))
    case LessOrEq => Some(Truth(a <= b))
    case GreaterOrEq => Some(Truth(a >= b))
    case LogOr => Some(Truth(a != 0 || b != 0))
    case LogAnd => Some(Truth(a != 0 && b != 0))
    case BitOr => Some(OnBits(OrBits, a, b))
    case BitAnd => Some(OnBits(AndBits, a, b))
    case Xor => Some(OnBits(XorBits, a, b))
    case Lsh => if 0 <= b < 32 && a >= 0 then Fit(a * Pow2(b)) else None
    case Rsh => if 0 <= b < 32 then Fit(a / Pow2(b)) else None
  }

  function Negate(a: int32): Option<int32> { Fit(0 - a) }

  function LogicalNot(a: int32): int32 { Truth(a == 0) }

  /** The byte a BOP instruction carries for an operator. */
  function OpCode(op: Operator): (c: nat)
    ensures c < 18
  {
    match op
    case Plus => 0 case Minus => 1 case Times => 2 case Divide => 3 case Modulo => 4
    case Eq => 5 case NotEq => 6 case Less => 7 case Greater => 8
    case LessOrEq => 9 case GreaterOrEq => 10 case LogOr => 11 case LogAnd => 12
    case BitOr => 13 case BitAnd => 14 case Xor => 15 case Lsh => 16 case Rsh => 17
  }

  function OpOf(c: int): Option<Operator> {
    if c == 0 then Some(Plus) else if c == 1 then Some(Minus) else if c == 2 then Some(Times)
    else if c == 3 then Some(Divide) else if c == 4 then Some(Modulo) else if c == 5 then Some(Eq)
    else if c == 6 then Some(NotEq) else if c == 7 then Some(Less) else if c == 8 then Some(Greater)
    else if c == 9 then Some(LessOrEq) else if c == 10 then Some(GreaterOrEq) else if c == 11 then Some(LogOr)
    else if c == 12 then Some(LogAnd) else if c == 13 then Some(BitOr) else if c == 14 then Some(BitAnd)
    else if c == 15 then Some(Xor) else if c == 16 then Some(Lsh) else if c == 17 then Some(Rsh)
    else None
  }

  lemma OpRoundTrip(op: Operator)
    ensures OpOf(OpCode(op)) == Some(op)
  {
  }

  lemma DivBounds(x: nat, y: nat)
    requires y > 0
    ensures x / y * y <= x < x / y * y + y
  {
  }

  lemma Signs(p: int, q: int)
    ensures -p * q == -(p * q) && p * -q == -(p * q) && -p * -q == p * q
  {
  }

  lemma QuotientTimes(a: int, b: int)
    requires b != 0
    ensures Quotient(a, b) * b == if a >= 0 then Abs(a) / Abs(b) * Abs(b) else -(Abs(a) / Abs(b) * Abs(b))
  {
    var p := Abs(a) / Abs(b);
    Signs(p, Abs(b));
    assert Quotient(a, b) == if (a >= 0) == (b > 0) then p else -p;
  }

  lemma RemainderOf(a: int, b: int, m: int, r: int)
    requires b != 0 && 0 <= m <= Abs(a) < m + Abs(b)
    requires r == if a >= 0 then a - m else a + m
    ensures Abs(r) <= Abs(a) && Abs(r) < Abs(b) && (r != 0 ==> (r > 0 <==> a > 0))
  {
  }

  /** Division truncates: the remainder has the sign of the dividend and is smaller
      than the divisor, and no larger than the dividend. */
  lemma RemainderSign(a: int, b: int)
    requires b != 0
    ensures Abs(Remainder(a, b)) < Abs(b) && Abs(Remainder(a, b)) <= Abs(a)
    ensures Remainder(a, b) != 0 ==> (Remainder(a, b) > 0 <==> a > 0)
  {
    hide Quotient, Abs;
    QuotientTimes(a, b);
    DivBounds(Abs(a), Abs(b)) by { assert Abs(b) > 0 by { AbsPositive(b); } }
    RemainderOf(a, b, Abs(a) / Abs(b) * Abs(b), Remainder(a, b));
  }

  lemma AbsPositive(b: int)
    requires b != 0
    ensures Abs(b) > 0
  {
  }
}
