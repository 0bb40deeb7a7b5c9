/** Which of two operators binds tighter, said by listing the operators that the procedures
    ZbVyrazu to ZbTermu name, one group each (compiler/parser.cpp). */
module Precedence {
  import opened Operators
  import opened ExprParser

  /** The operators that are continued together, from the loosest group to the tightest. */
  const GROUPS: seq<seq<Operator>> := [
    [LogOr], [Xor], [LogAnd], [BitOr], [BitAnd], [Eq, NotEq, Less, Greater, LessOrEq, GreaterOrEq],
    [Lsh, Rsh], [Plus, Minus], [Times, Divide, Modulo]
  ]

  lemma GroupIsLevel(i: nat, op: Operator)
    requires i < |GROUPS|
    ensures op in GROUPS[i] <==> i == LevelOf(op)
  {
  }

  // ----- operands -------------------------------------------------------------------

  /** The tokens are an operand, whatever follows. */
  ghost predicate Factor(fs: seq<Token>, e: Tree) {
    forall rest :: Level(9, fs + rest) == Ok(e, rest)
  }

  /** Numbers and names are operands, and signs in front of operands belong to them. */
  lemma Factors(v: nat, name: string, fs: seq<Token>, e: Tree)
    ensures Factor([NumbT(v)], Numb(v)) && Factor([Ident(name)], Name(name))
    ensures Factor(fs, e) ==> Factor([OpT(Minus)] + fs, UnMinus(e)) && Factor([LogNotT] + fs, Not(e))
  {
    hide Level, Factor;
    forall rest
      ensures Level(9, [NumbT(v)] + rest) == Ok(Numb(v), rest) && Level(9, [Ident(name)] + rest) == Ok(Name(name), rest)
      ensures Factor(fs, e) ==>
                Level(9, [OpT(Minus)] + fs + rest) == Ok(UnMinus(e), rest)
                && Level(9, [LogNotT] + fs + rest) == Ok(Not(e), rest)
    {
      Atom(Numb(v), [NumbT(v)] + rest, rest);
      Atom(Name(name), [Ident(name)] + rest, rest);
      if Factor(fs, e) {
        FactorReads(fs, e, rest);
        Prefixed(e, fs + rest, rest);
        assert [OpT(Minus)] + fs + rest == [OpT(Minus)] + (fs + rest) && [LogNotT] + fs + rest == [LogNotT] + (fs + rest);
      }
    }
    IsFactor([NumbT(v)], Numb(v));
    IsFactor([Ident(name)], Name(name));
    if Factor(fs, e) {
      IsFactor([OpT(Minus)] + fs, UnMinus(e));
      IsFactor([LogNotT] + fs, Not(e));
    }
  }

  lemma FactorReads(fs: seq<Token>, e: Tree, rest: seq<Token>)
    requires Factor(fs, e)
    ensures Level(9, fs + rest) == Ok(e, rest)
  {
  }

  lemma IsFactor(fs: seq<Token>, e: Tree)
    requires forall rest :: Level(9, fs + rest) == Ok(e, rest)
    ensures Factor(fs, e)
  {
  }

  /** What is read as a whole is an operand when put in parentheses. */
  lemma InParentheses(ts: seq<Token>, e: Tree)
    requires forall rest :: Closed(rest) ==> Level(0, ts + rest) == Ok(e, rest)
    ensures Factor([LPar] + ts + [RPar], e)
  {
    hide Level;
    forall rest ensures Level(9, [LPar] + ts + [RPar] + rest) == Ok(e, rest) {
      var tail := [RPar] + rest;
      assert Closed(tail);
      OpenPar(ts + tail, e, rest);
      assert [LPar] + ts + [RPar] + rest == [LPar] + (ts + tail);
    }
  }

  /** No operator follows. */
  predicate Closed(rest: seq<Token>) { rest == [] || !rest[0].OpT? }

  // ----- operators ------------------------------------------------------------------

  /** An operand, an operator of a group and what the tighter group reads. */
  lemma OneBinary(op: Operator, ts: seq<Token>, a: Tree, right: seq<Token>, b: Tree, rest: seq<Token>)
    requires Level(9, ts) == Ok(a, [OpT(op)] + right) && Level(LevelOf(op) + 1, right) == Ok(b, rest)
    ensures Level(LevelOf(op), ts) == Settled(Bop(op, a, b), rest)
  {
    hide Level, Continued;
    ClimbDown(LevelOf(op), 9, ts, a, [OpT(op)] + right);
    OneOperator(Bop(op, a, b), right, rest);
  }

  lemma SettledClosed(e: Tree, rest: seq<Token>)
    requires e.Bop? && Closed(rest)
    ensures Settled(e, rest) == Ok(e, rest)
  {
  }

  lemma OperandEnds(n: nat, ts: seq<Token>, e: Tree, rest: seq<Token>)
    requires n <= 9 && Level(9, ts) == Ok(e, rest) && Stops(n, rest) && !Reads(n, rest)
    ensures Level(n, ts) == Ok(e, rest)
  {
    hide Level, Continued;
    ClimbDown(n, 9, ts, e, rest);
    JoinedStops(n, e, rest);
  }

  /** An operator between two operands takes both. */
  lemma TwoOperands(op: Operator, a: Tree, b: Tree, fa: seq<Token>, fb: seq<Token>, rest: seq<Token>)
    requires Factor(fa, a) && Factor(fb, b) && Closed(rest)
    ensures Level(0, fa + [OpT(op)] + fb + rest) == Ok(Bop(op, a, b), rest)
  {
    hide Level, Continued, Factor;
    var right := fb + rest;
    var ts := fa + ([OpT(op)] + right);
    assert fa + [OpT(op)] + fb + rest == ts;
    FactorReads(fa, a, [OpT(op)] + right);
    FactorReads(fb, b, rest);
    OperandEnds(LevelOf(op) + 1, right, b, rest);
    OneBinary(op, ts, a, right, b, rest);
    Whole(LevelOf(op), ts, Bop(op, a, b), rest);
  }

  lemma Whole(k: nat, ts: seq<Token>, e: Tree, rest: seq<Token>)
    requires k <= 8 && e.Bop? && Level(k, ts) == Settled(e, rest) && Closed(rest)
    ensures Level(0, ts) == Ok(e, rest)
  {
    hide Level;
    SettledClosed(e, rest);
    LooserStop(k, ts, e, rest);
  }

  /** The tighter operator on the right takes the middle operand. */
  lemma RightTighter(op: Operator, op2: Operator, ts: seq<Token>, a: Tree,
                     t2: seq<Token>, b: Tree, t4: seq<Token>, c: Tree, rest: seq<Token>)
    requires Level(9, ts) == Ok(a, [OpT(op)] + t2) && Level(9, t2) == Ok(b, [OpT(op2)] + t4) && Level(9, t4) == Ok(c, rest)
    requires LevelOf(op) < LevelOf(op2) && Closed(rest)
    ensures Level(0, ts) == Ok(Bop(op, a, Bop(op2, b, c)), rest)
  {
    hide Level, Continued;
    var k, m := LevelOf(op), LevelOf(op2);
    var e := Bop(op2, b, c);
    OperandEnds(m + 1, t4, c, rest);
    OneBinary(op2, t2, b, t4, c, rest);
    SettledClosed(e, rest);
    JoinedStops(m, e, rest);
    ClimbDown(k + 1, m, t2, e, rest);
    JoinedStops(k + 1, e, rest);
    OneBinary(op, ts, a, t2, e, rest);
    Whole(k, ts, Bop(op, a, e), rest);
  }

  /** Otherwise the left operator takes it. */
  lemma LeftFirst(op: Operator, op2: Operator, ts: seq<Token>, a: Tree, t2: seq<Token>, b: Tree, t4: seq<Token>)
    requires Level(9, ts) == Ok(a, [OpT(op)] + t2) && Level(9, t2) == Ok(b, [OpT(op2)] + t4) && LevelOf(op2) <= LevelOf(op)
    ensures Level(LevelOf(op), ts) == Settled(Bop(op, a, b), [OpT(op2)] + t4)
  {
    hide Level, Continued;
    OperandEnds(LevelOf(op) + 1, t2, b, [OpT(op2)] + t4);
    OneBinary(op, ts, a, t2, b, [OpT(op2)] + t4);
  }

  /** A first part that its level has left to the level of the next operator. */
  lemma ThenNext(op2: Operator, k: nat, ts: seq<Token>, e: Tree, t4: seq<Token>, c: Tree, rest: seq<Token>)
    requires LevelOf(op2) <= k <= 8 && Level(k, ts) == Joined(k, e, [OpT(op2)] + t4)
    requires Level(9, t4) == Ok(c, rest) && Closed(rest)
    ensures Level(0, ts) == Ok(Bop(op2, e, c), rest)
  {
    hide Level, Continued;
    var m := LevelOf(op2);
    ClimbDown(m, k, ts, e, [OpT(op2)] + t4);
    OperandEnds(m + 1, t4, c, rest);
    OneOperator(Bop(op2, e, c), t4, rest);
    Whole(m, ts, Bop(op2, e, c), rest);
  }

  /** Behind a division the loosest level goes on. */
  lemma AfterDivision(op: Operator, op2: Operator, ts: seq<Token>, e: Tree, t4: seq<Token>, c: Tree, rest: seq<Token>)
    requires e.Bop? && e.op == op && Restarts(op) && Level(8, ts) == Settled(e, [OpT(op2)] + t4)
    requires Level(9, t4) == Ok(c, rest) && Closed(rest)
    ensures Level(0, ts) == if LevelOf(op2) == 8 then Ok(e, [OpT(op2)] + t4) else Ok(Bop(op2, e, c), rest)
  {
    hide Level, Continued;
    var m, tail := LevelOf(op2), [OpT(op2)] + t4;
    assert Level(8, ts) == Joined(0, e, tail);
    if m == 0 {
      OperandEnds(1, t4, c, rest);
      OneOperator(Bop(op2, e, c), t4, rest);
      Whole(8, ts, Bop(op2, e, c), rest);
    } else {
      JoinedStops(0, e, tail);
      if m == 8 {
        LooserStop(8, ts, e, tail);
      } else {
        JoinedStops(8, e, tail);
        ThenNext(op2, 8, ts, e, t4, c, rest);
      }
    }
  }

  lemma TwoLevels(op: Operator, op2: Operator, a: Tree, b: Tree, c: Tree,
                  fa: seq<Token>, fb: seq<Token>, fc: seq<Token>, rest: seq<Token>)
    requires Factor(fa, a) && Factor(fb, b) && Factor(fc, c) && Closed(rest)
    ensures Level(0, fa + [OpT(op)] + fb + [OpT(op2)] + fc + rest) ==
            if LevelOf(op) < LevelOf(op2) then Ok(Bop(op, a, Bop(op2, b, c)), rest)
            else if Restarts(op) && LevelOf(op2) == 8 then Ok(Bop(op, a, b), [OpT(op2)] + fc + rest)
            else Ok(Bop(op2, Bop(op, a, b), c), rest)
  {
    hide Level, Continued, Factor, LevelOf;
    var t4 := fc + rest;
    var t2 := fb + ([OpT(op2)] + t4);
    var ts := fa + ([OpT(op)] + t2);
    assert fa + [OpT(op)] + fb + [OpT(op2)] + fc + rest == ts && [OpT(op2)] + fc + rest == [OpT(op2)] + t4;
    FactorReads(fa, a, [OpT(op)] + t2);
    FactorReads(fb, b, [OpT(op2)] + t4);
    FactorReads(fc, c, rest);
    if LevelOf(op) < LevelOf(op2) {
      RightTighter(op, op2, ts, a, t2, b, t4, c, rest);
    } else {
      LeftFirst(op, op2, ts, a, t2, b, t4);
      RestartsTightest(op);
      if Restarts(op) {
        AfterDivision(op, op2, ts, Bop(op, a, b), t4, c, rest);
      } else {
        ThenNext(op2, LevelOf(op), ts, Bop(op, a, b), t4, c, rest);
      }
    }
  }

  lemma RestartsTightest(op: Operator)
    ensures Restarts(op) ==> LevelOf(op) == 8
    ensures Restarts(op) <==> op in [Divide, Modulo]
    ensures LevelOf(op) == 8 <==> op in [Times, Divide, Modulo]
  {
  }

  /** The precedence of the operators, for operands of every kind.  The middle operand of two
      operators belongs to the right one when that is of a tighter group and to the left one
      when it is of the same or a looser group.  Only a factor behind a division or remainder
      is not read at all. */
  lemma TwoOperators(i: nat, j: nat, op: Operator, op2: Operator, a: Tree, b: Tree, c: Tree,
                     fa: seq<Token>, fb: seq<Token>, fc: seq<Token>, rest: seq<Token>)
    requires i < |GROUPS| && j < |GROUPS| && op in GROUPS[i] && op2 in GROUPS[j]
    requires Factor(fa, a) && Factor(fb, b) && Factor(fc, c) && Closed(rest)
    ensures Level(0, fa + [OpT(op)] + fb + [OpT(op2)] + fc + rest) ==
            if i < j then Ok(Bop(op, a, Bop(op2, b, c)), rest)
            else if op in [Divide, Modulo] && op2 in [Times, Divide, Modulo] then Ok(Bop(op, a, b), [OpT(op2)] + fc + rest)
            else Ok(Bop(op2, Bop(op, a, b), c), rest)
  {
    hide *;
    GroupIsLevel(i, op);
    GroupIsLevel(j, op2);
    RestartsTightest(op);
    RestartsTightest(op2);
    TwoLevels(op, op2, a, b, c, fa, fb, fc, rest);
  }

  function OperandOf(t: Token): Tree
    requires t.NumbT? || t.Ident?
  {
    if t.NumbT? then Numb(t.value) else Name(t.name)
  }

  /** The same for three numbers or names in a row, token by token. */
  lemma ThreeAtoms(i: nat, j: nat, op: Operator, op2: Operator, x: Token, y: Token, z: Token, rest: seq<Token>)
    requires i < |GROUPS| && j < |GROUPS| && op in GROUPS[i] && op2 in GROUPS[j] && Closed(rest)
    requires (x.NumbT? || x.Ident?) && (y.NumbT? || y.Ident?) && (z.NumbT? || z.Ident?)
    ensures var a, b, c := OperandOf(x), OperandOf(y), OperandOf(z);
            Level(0, [x, OpT(op), y, OpT(op2), z] + rest) ==
            if i < j then Ok(Bop(op, a, Bop(op2, b, c)), rest)
            else if op in [Divide, Modulo] && op2 in [Times, Divide, Modulo] then Ok(Bop(op, a, b), [OpT(op2), z] + rest)
            else Ok(Bop(op2, Bop(op, a, b), c), rest)
  {
    hide *;
    AtomFactor(x);
    AtomFactor(y);
    AtomFactor(z);
    TwoOperators(i, j, op, op2, OperandOf(x), OperandOf(y), OperandOf(z), [x], [y], [z], rest);
    assert [x] + [OpT(op)] + [y] + [OpT(op2)] + [z] + rest == [x, OpT(op), y, OpT(op2), z] + rest;
    assert [OpT(op2)] + [z] + rest == [OpT(op2), z] + rest;
  }

  lemma AtomFactor(t: Token)
    requires t.NumbT? || t.Ident?
    ensures Factor([t], OperandOf(t))
  {
    hide Factor;
    if t.NumbT? { Factors(t.value, "", [], Numb(0)); } else { Factors(0, t.name, [], Numb(0)); }
  }
}
