/** What the eighteen operators have to do with one another (bc_bop in vm/vm.c). */
module OperatorLaws {
  import opened Basics
  import opened Operators

  // ----- comparisons and logic ------------------------------------------------------

  /** Exactly one of less, equal and greater holds, each is the opposite of another
      operator, and turning the operands round turns less into greater. */
  lemma Comparisons(a: int32, b: int32)
    ensures Apply(Less, a, b).value + Apply(Eq, a, b).value + Apply(Greater, a, b).value == 1
    ensures Apply(NotEq, a, b).value == LogicalNot(Apply(Eq, a, b).value)
    ensures Apply(GreaterOrEq, a, b).value == LogicalNot(Apply(Less, a, b).value)
    ensures Apply(LessOrEq, a, b).value == LogicalNot(Apply(Greater, a, b).value)
    ensures Apply(Less, a, b) == Apply(Greater, b, a) && Apply(Eq, a, b) == Apply(Eq, b, a)
    ensures Apply(Minus, a, b).Some? ==> (Apply(Less, a, b) == Some(1) <==> Apply(Minus, a, b).value < 0)
  {
  }

  /** Less is the order of the integers: a number is less than the next, and less is
      transitive.  Comparisons and the logical operators answer one or zero. */
  lemma LessOrders(a: int32, b: int32, c: int32)
    ensures a < INT_MAX ==> Apply(Less, a, a + 1) == Some(1)
    ensures Apply(Less, a, b) == Some(1) && Apply(Less, b, c) == Some(1) ==> Apply(Less, a, c) == Some(1)
    ensures forall op :: op in [Eq, NotEq, Less, Greater, LessOrEq, GreaterOrEq, LogOr, LogAnd] ==>
              Apply(op, a, b) == Some(0) || Apply(op, a, b) == Some(1)
  {
  }

  /** Zero is false and everything else is true: or with false and and with true leave the truth
      value, or with true is true and and with false is false. */
  lemma LogicTable(a: int32, b: int32)
    ensures LogicalNot(0) == 1 && (a != 0 ==> LogicalNot(a) == 0)
    ensures Apply(LogOr, a, 0) == Some(LogicalNot(LogicalNot(a))) && Apply(LogOr, 0, a) == Apply(LogOr, a, 0)
    ensures b != 0 ==> Apply(LogAnd, a, b) == Some(LogicalNot(LogicalNot(a))) && Apply(LogAnd, b, a) == Apply(LogAnd, a, b)
    ensures b != 0 ==> Apply(LogOr, a, b) == Some(1) && Apply(LogOr, b, a) == Some(1)
    ensures Apply(LogAnd, a, 0) == Some(0) && Apply(LogAnd, 0, a) == Some(0)
  {
  }

  /** De Morgan's law for the logical operators. */
  lemma DeMorgan(a: int32, b: int32)
    ensures LogicalNot(Apply(LogOr, a, b).value) == Apply(LogAnd, LogicalNot(a), LogicalNot(b)).value
    ensures LogicalNot(Apply(LogAnd, a, b).value) == Apply(LogOr, LogicalNot(a), LogicalNot(b)).value
  {
  }

  // ----- arithmetic -----------------------------------------------------------------

  /** Subtraction undoes addition, and is addition of the negative where that exists. */
  lemma MinusUndoesPlus(a: int32, b: int32)
    ensures Apply(Plus, a, b).Some? ==> Apply(Minus, Apply(Plus, a, b).value, b) == Some(a)
    ensures Negate(b).Some? ==> Apply(Minus, a, b) == Apply(Plus, a, Negate(b).value)
  {
  }

  /** Addition counts on from its first operand, in either order, as far as an int goes. */
  lemma PlusCounts(a: int32, b: int32)
    ensures Apply(Plus, a, 0) == Some(a) && Apply(Plus, a, b) == Apply(Plus, b, a)
    ensures b < INT_MAX && Apply(Plus, a, b).Some? && Apply(Plus, a, b).value < INT_MAX ==>
              Apply(Plus, a, b + 1) == Some(Apply(Plus, a, b).value + 1)
    ensures Apply(Plus, a, b).Some? <==> if b >= 0 then a <= INT_MAX - b else a >= INT_MIN - b
    ensures Negate(a).Some? <==> a != INT_MIN
    ensures Negate(a).Some? ==> Apply(Plus, a, Negate(a).value) == Some(0)
  {
  }

  /** Multiplication is repeated addition. */
  lemma TimesAdds(a: int32, b: int32)
    ensures Apply(Times, a, 0) == Some(0) && Apply(Times, a, 1) == Some(a) && Apply(Times, a, b) == Apply(Times, b, a)
    ensures b < INT_MAX && Apply(Times, a, b).Some? ==> Apply(Times, a, b + 1) == Apply(Plus, Apply(Times, a, b).value, a)
    ensures Negate(b).Some? && Apply(Times, a, b).Some? ==>
              Apply(Times, a, Negate(b).value) == Negate(Apply(Times, a, b).value)
  {
    var x: int, y: int := a, b;
    assert x * y == y * x;
    assert x * (y + 1) == x * y + x;
    Signs(x, y);
  }

  /** A product is defined exactly between two quotients. */
  lemma TimesFits(a: int32, b: int32)
    requires b != 0
    ensures Apply(Times, a, b).Some? <==>
              if b > 0 then -(0x8000_0000 / b) <= a <= INT_MAX / b
              else -(INT_MAX / Abs(b)) <= a <= 0x8000_0000 / Abs(b)
  {
    var x: int, y: int := a, b;
    Signs(x, y);
    ProductBelow(x, Abs(y), if b > 0 then INT_MAX else 0x8000_0000);
    ProductBelow(-x, Abs(y), if b > 0 then 0x8000_0000 else INT_MAX);
    Signs(x, Abs(y));
  }

  lemma ProductBelow(a: int, b: nat, n: nat)
    requires b > 0
    ensures a * b <= n <==> a <= n / b
  {
    DivBounds(n, b);
    if a <= n / b { Monotone(a, n / b, b); } else { Monotone(n / b + 1, a, b); }
  }

  /** Quotient times divisor plus remainder is the dividend, all of it computed. */
  lemma DivisionBack(a: int32, b: int32)
    requires Apply(Divide, a, b).Some?
    ensures Apply(Modulo, a, b).Some?
    ensures var q, r := Apply(Divide, a, b).value, Apply(Modulo, a, b).value;
            Apply(Times, q, b).Some? && Apply(Plus, Apply(Times, q, b).value, r) == Some(a)
  {
    Division(a, b);
    var q, r := Apply(Divide, a, b).value, Apply(Modulo, a, b).value;
    RemainderSign(a, b);
    assert q * b == a - r;
    assert q * b == a || (r > 0 && a > 0 && r <= a) || (r < 0 && a < 0 && r >= a);
  }

  /** Division and remainder are defined together, exactly when the divisor is not zero and
      the quotient fits; quotient and remainder give back the dividend, and the remainder
      is smaller than the divisor and has the sign of the dividend. */
  lemma Division(a: int32, b: int32)
    ensures Apply(Divide, a, b).Some? <==> b != 0 && !(a == INT_MIN && b == -1)
    ensures Apply(Modulo, a, b).Some? <==> Apply(Divide, a, b).Some?
    ensures Apply(Divide, a, b).Some? ==>
              var q, r := Apply(Divide, a, b).value, Apply(Modulo, a, b).value;
              a == q * b + r && Abs(r) < Abs(b) && (r != 0 ==> (r > 0 <==> a > 0))
  {
    if b != 0 {
      RemainderSign(a, b);
      QuotientSmall(a, b);
    }
  }

  /** A quotient is no larger than the dividend; only one does not fit. */
  lemma QuotientSmall(a: int32, b: int32)
    requires b != 0
    ensures Abs(Quotient(a, b)) <= Abs(a)
    ensures IsInt32(Quotient(a, b)) <==> !(a == INT_MIN && b == -1)
    ensures IsInt32(Remainder(a, b))
  {
    RemainderSign(a, b);
    var x, y := Abs(a), Abs(b);
    NatQuotient(x, y);
    var q: int := x / y;
    assert Quotient(a, b) == if (a >= 0) == (b > 0) then q else -q;
    if y >= 2 { HalfAtMost(x, y); } else { assert x / y == x; }
  }

  lemma NatQuotient(x: nat, y: nat)
    requires y > 0
    ensures 0 <= x / y <= x
  {
    DivBounds(x, y);
    AtLeast(x / y, y);
  }

  lemma AtLeast(q: nat, y: nat)
    requires y > 0
    ensures q * y >= q
  {
  }

  lemma HalfAtMost(x: nat, y: nat)
    requires y >= 2
    ensures 2 * (x / y) <= x
  {
    DivBounds(x, y);
    Monotone(2, y, x / y);
  }

  // ----- bits -----------------------------------------------------------------------

  /** Bit `i` of the two's complement representation. */
  function BitAt(a: int32, i: nat): nat { Unsigned(a) / Pow2(i) % 2 }

  /** The bitwise operators work bit by bit. */
  lemma BitByBit(k: BitOperator, a: int32, b: int32, i: nat)
    requires i < 32
    ensures BitAt(OnBits(k, a, b), i) == OneBit(k, BitAt(a, i), BitAt(b, i))
  {
    hide Bitwise, Pow2;
    Pow2Of32();
    UnsignedBack(Bitwise(k, Unsigned(a), Unsigned(b), 32));
    BitOfBitwise(k, Unsigned(a), Unsigned(b), 32, i);
  }

  /** A bit of an or is set when one of the operands has it, of an and when both have, of an
      exclusive or when exactly one has. */
  lemma BitsCombined(a: int32, b: int32, i: nat)
    requires i < 32
    ensures BitAt(a, i) == 0 || BitAt(a, i) == 1
    ensures Apply(BitOr, a, b).Some? && (BitAt(Apply(BitOr, a, b).value, i) == 1 <==> BitAt(a, i) == 1 || BitAt(b, i) == 1)
    ensures Apply(BitAnd, a, b).Some? && (BitAt(Apply(BitAnd, a, b).value, i) == 1 <==> BitAt(a, i) == 1 && BitAt(b, i) == 1)
    ensures Apply(Xor, a, b).Some? && (BitAt(Apply(Xor, a, b).value, i) == 1 <==> BitAt(a, i) != BitAt(b, i))
  {
    hide OnBits, Pow2, Unsigned;
    BitByBit(OrBits, a, b, i);
    BitByBit(AndBits, a, b, i);
    BitByBit(XorBits, a, b, i);
  }

  /** An int is known by its bits, so the laws above determine the bitwise operators. */
  lemma BitsDetermine(a: int32, b: int32)
    requires forall i :: 0 <= i < 32 ==> BitAt(a, i) == BitAt(b, i)
    ensures a == b
  {
    hide Pow2;
    Pow2Of32();
    var x, y := Unsigned(a), Unsigned(b);
    forall i | 0 <= i < 32 ensures x / Pow2(i) % 2 == y / Pow2(i) % 2 {
      assert BitAt(a, i) == BitAt(b, i);
    }
    SameBits(x, y, 32);
  }

  lemma {:induction false} SameBits(x: nat, y: nat, n: nat)
    requires x < Pow2(n) && y < Pow2(n) && forall i :: 0 <= i < n ==> x / Pow2(i) % 2 == y / Pow2(i) % 2
    ensures x == y
    decreases n
  {
    hide Pow2;
    Powers(n);
    if n > 0 {
      Powers(0);
      assert x / Pow2(0) % 2 == y / Pow2(0) % 2;
      forall i | 0 <= i < n - 1 ensures x / 2 / Pow2(i) % 2 == y / 2 / Pow2(i) % 2 {
        Powers(i + 1);
        HalfFirst(x, Pow2(i));
        HalfFirst(y, Pow2(i));
        assert x / Pow2(i + 1) % 2 == y / Pow2(i + 1) % 2;
      }
      SameBits(x / 2, y / 2, n - 1);
    }
  }

  /** A bitwise operator that keeps every bit of `a` with those of `b` gives `a` back. */
  lemma KeepsBits(op: Operator, a: int32, b: int32, c: int32)
    requires op in [BitOr, BitAnd, Xor]
    requires forall i :: 0 <= i < 32 ==>
               match op
               case BitOr => BitAt(c, i) == 1 <==> BitAt(a, i) == 1 || BitAt(b, i) == 1
               case BitAnd => BitAt(c, i) == 1 <==> BitAt(a, i) == 1 && BitAt(b, i) == 1
               case _ => BitAt(c, i) == 1 <==> BitAt(a, i) != BitAt(b, i)
    ensures Apply(op, a, b) == Some(c)
  {
    hide OnBits, Apply, BitAt;
    BitsCombined(a, b, 0);
    var d := Apply(op, a, b).value;
    forall i | 0 <= i < 32 ensures BitAt(d, i) == BitAt(c, i) {
      BitsCombined(a, b, i);
      BitsCombined(c, d, i);
      BitsCombined(d, c, i);
    }
    BitsDetermine(d, c);
  }

  /** With no bits or all of them. */
  lemma BitwiseUnits(a: int32)
    ensures Apply(BitOr, a, 0) == Some(a) && Apply(BitAnd, a, 0) == Some(0) && Apply(Xor, a, 0) == Some(a)
    ensures Apply(BitOr, a, -1) == Some(-1) && Apply(BitAnd, a, -1) == Some(a) && Apply(Xor, a, a) == Some(0)
  {
    hide OnBits, Apply, BitAt;
    forall i: nat | i < 32 ensures BitAt(0, i) == 0 && BitAt(-1, i) == 1 && (BitAt(a, i) == 0 || BitAt(a, i) == 1) {
      NoBitsAllBits(i);
      BitsCombined(a, a, i);
    }
    KeepsBits(BitOr, a, 0, a);
    KeepsBits(BitAnd, a, 0, 0);
    KeepsBits(Xor, a, 0, a);
    KeepsBits(BitOr, a, -1, -1);
    KeepsBits(BitAnd, a, -1, a);
    KeepsBits(Xor, a, a, 0);
  }

  lemma NoBitsAllBits(i: nat)
    requires i < 32
    ensures BitAt(0, i) == 0 && BitAt(-1, i) == 1
  {
    AllOnes(i, 32);
    Pow2Of32();
  }

  lemma {:induction false} AllOnes(i: nat, n: nat)
    requires i < n
    ensures 0 / Pow2(i) % 2 == 0 && (Pow2(n) - 1) / Pow2(i) % 2 == 1
    decreases n
  {
    hide Pow2;
    Powers(i);
    Powers(n);
    if i > 0 {
      AllOnes(i - 1, n - 1);
      HalfFirst(Pow2(n) - 1, Pow2(i - 1));
      assert (Pow2(n) - 1) / 2 == Pow2(n - 1) - 1;
    }
  }

  lemma UnsignedBack(n: nat)
    requires n < 0x1_0000_0000
    ensures Unsigned(Signed(n)) == n
  {
  }

  lemma {:induction false} BitOfBitwise(k: BitOperator, a: nat, b: nat, n: nat, i: nat)
    requires i < n
    ensures Bitwise(k, a, b, n) / Pow2(i) % 2 == OneBit(k, a / Pow2(i) % 2, b / Pow2(i) % 2)
    decreases n
  {
    hide Bitwise, OneBit, Pow2;
    var low := OneBit(k, a % 2, b % 2);
    var high := Bitwise(k, a / 2, b / 2, n - 1);
    BitwiseStep(k, a, b, n);
    Halved(high, low);
    Powers(i);
    if i > 0 {
      BitOfBitwise(k, a / 2, b / 2, n - 1, i - 1);
      HalfFirst(2 * high + low, Pow2(i - 1));
      HalfFirst(a, Pow2(i - 1));
      HalfFirst(b, Pow2(i - 1));
    }
  }

  lemma Powers(i: nat)
    ensures Pow2(0) == 1 && (i > 0 ==> Pow2(i) == 2 * Pow2(i - 1))
  {
  }

  lemma Halved(high: nat, low: nat)
    requires low < 2
    ensures (2 * high + low) / 2 == high && (2 * high + low) % 2 == low
  {
  }

  lemma BitwiseStep(k: BitOperator, a: nat, b: nat, n: nat)
    requires n > 0
    ensures Bitwise(k, a, b, n) == 2 * Bitwise(k, a / 2, b / 2, n - 1) + OneBit(k, a % 2, b % 2)
  {
  }

  /** Dividing by twice a number is halving first. */
  lemma HalfFirst(x: nat, p: nat)
    requires p > 0
    ensures x / (2 * p) == x / 2 / p
  {
    var q := x / 2 / p;
    DivBounds(x / 2, p);
    assert q * p <= x / 2 < q * p + p;
    assert q * (2 * p) == 2 * (q * p);
    assert q * (2 * p) <= x < q * (2 * p) + 2 * p;
    Unique(x, 2 * p, q);
  }

  lemma Unique(x: nat, y: nat, q: nat)
    requires y > 0 && q * y <= x < q * y + y
    ensures x / y == q
  {
    DivBounds(x, y);
    Between(x / y, q, y, x);
    Between(q, x / y, y, x);
  }

  lemma Between(p: nat, q: nat, y: nat, x: nat)
    requires y > 0 && q * y <= x < p * y + y
    ensures q <= p
  {
    if p < q {
      Monotone(p + 1, q, y);
      assert false;
    }
  }

  lemma Monotone(p: int, q: int, y: nat)
    requires p <= q
    ensures p * y <= q * y
  {
  }

  // ----- shifts ---------------------------------------------------------------------

  /** Shifting to the right undoes shifting to the left. */
  lemma ShiftsUndo(a: int32, b: int32)
    ensures Apply(Lsh, a, b).Some? ==> Apply(Rsh, Apply(Lsh, a, b).value, b) == Some(a)
  {
    hide Pow2;
    if Apply(Lsh, a, b).Some? { Unique(a * Pow2(b), Pow2(b), a); }
  }

  /** Shifting to the left by one more doubles, by nothing leaves the number; it is undefined for
      negative numbers and for widths that no int has, and where doubling overflows. */
  lemma ShiftDoubles(a: int32, b: int32)
    ensures Apply(Lsh, a, 0) == if a >= 0 then Some(a) else None
    ensures Apply(Lsh, a, b).Some? ==> a >= 0 && 0 <= b < 32
    ensures Apply(Lsh, a, b).Some? && b + 1 < 32 ==>
              Apply(Lsh, a, b + 1) == Apply(Plus, Apply(Lsh, a, b).value, Apply(Lsh, a, b).value)
    ensures Apply(Lsh, a, b).None? && a >= 0 && 0 <= b < 31 ==> Apply(Lsh, a, b + 1).None?
  {
    Powers(0);
    if 0 <= b {
      Powers(b + 1);
      assert a * (2 * Pow2(b)) == a * Pow2(b) + a * Pow2(b);
    }
  }

  /** Shifting to the right rounds down, for negative numbers as well. */
  lemma RightShiftFloors(a: int32, b: int32)
    ensures Apply(Rsh, a, b).Some? <==> 0 <= b < 32
    ensures Apply(Rsh, a, b).Some? ==>
              var c := Apply(Rsh, a, b).value; c * Pow2(b) <= a < (c + 1) * Pow2(b)
  {
    hide Pow2;
    if 0 <= b < 32 { FloorBounds(a, Pow2(b)); }
  }

  /** A factor is no larger than the product, on either side of zero. */
  lemma Small(q: int, p: nat)
    requires p > 0
    ensures q >= 0 ==> q <= q * p
    ensures q < 0 ==> (q + 1) * p <= q + 1
  {
    if q >= 0 { Monotone(1, p, q); } else { Monotone(1, p, -(q + 1)); }
  }

  lemma FloorBounds(a: int32, p: nat)
    requires p > 0
    ensures a / p * p <= a < (a / p + 1) * p && IsInt32(a / p)
  {
    var q := a / p;
    assert q * p <= a < q * p + p;
    assert (q + 1) * p == q * p + p;
    Small(q, p);
  }
}
