/** Laws of the source language: what its statements and expressions are in terms of one
    another (compiler/strom.cpp). */
module SourceLaws {
  import opened Basics
  import opened Operators
  import opened SourceLanguage

  // ----- expressions ----------------------------------------------------------------

  /** An operator works on the values of its operands, the left one first, and only when both
      have one; the signs are operators as well. */
  lemma Expressions(op: Operator, l: Expr, r: Expr, s: Store)
    ensures forall n: int32 :: Eval(Numb(n), s) == Some(n)
    ensures Eval(l, s).None? || Eval(r, s).None? ==> Eval(Bin(op, l, r), s).None?
    ensures Eval(l, s).Some? && Eval(r, s).Some? ==> Eval(Bin(op, l, r), s) == Apply(op, Eval(l, s).value, Eval(r, s).value)
    ensures Eval(UnMinus(l), s) == Eval(Bin(Minus, Numb(0), l), s)
    ensures Eval(Not(l), s) == Eval(Bin(Eq, l, Numb(0)), s)
  {
    hide Apply, Negate, LogicalNot;
    if Eval(l, s).Some? { SignsAreOperators(Eval(l, s).value); }
  }

  lemma SignsAreOperators(a: int32)
    ensures Negate(a) == Apply(Minus, 0, a) && Some(LogicalNot(a)) == Apply(Eq, a, 0)
  {
  }

  /** A variable has the value it was set to last; setting it changes no other variable and
      nothing that has been written. */
  lemma Variables(v: Variable, w: Variable, n: int32, s: Store)
    requires Declared(v, s)
    ensures Eval(Var(v), Set(v, n, s)) == Some(n)
    ensures w != v ==> Eval(Var(w), Set(v, n, s)) == Eval(Var(w), s)
    ensures Declared(w, Set(v, n, s)) <==> Declared(w, s)
    ensures Set(v, n, s).out == s.out
  {
  }

  // ----- simple statements ----------------------------------------------------------

  /** Running an assignment and then reading the variable gives the value of the expression in
      the store before; a compound one is the assignment of the operation. */
  lemma Assignments(v: Variable, op: Operator, e: Expr, s: Store, fuel: nat)
    ensures var r := Exec(Simple(Assign(v, e)), s, fuel);
            if Declared(v, s) && Eval(e, s).Some?
            then r.Normal? && Eval(Var(v), r.s) == Eval(e, s) && r.s.out == s.out
                 && forall w :: w != v ==> Eval(Var(w), r.s) == Eval(Var(w), s)
            else r == Fault
    ensures Exec(Simple(AssignWithBop(op, v, e)), s, fuel) == Exec(Simple(Assign(v, Bin(op, Var(v), e))), s, fuel)
  {
    hide Eval;
    if Declared(v, s) && Eval(e, s).Some? {
      var n := Eval(e, s).value;
      forall w
        ensures w == v ==> Eval(Var(w), Set(v, n, s)) == Some(n)
        ensures w != v ==> Eval(Var(w), Set(v, n, s)) == Eval(Var(w), s)
      {
        Variables(v, w, n, s);
      }
      Variables(v, v, n, s);
    }
  }

  /** Written values come out in order, and writing changes no variable. */
  lemma WritesInOrder(d: Expr, e: Expr, s: Store, fuel: nat)
    requires Eval(d, s).Some? && Eval(e, s).Some?
    ensures Exec(Then(Write(d), Write(e)), s, fuel) ==
            Normal(s.(out := s.out + [Eval(d, s).value, Eval(e, s).value]))
  {
    hide Eval;
    var t := s.(out := s.out + [Eval(d, s).value]);
    OutputUnread(e, s, t);
    assert Exec(Write(d), s, fuel) == Normal(t);
    assert Exec(Write(e), t, fuel) == Normal(t.(out := t.out + [Eval(e, s).value]));
    assert t.out + [Eval(e, s).value] == s.out + [Eval(d, s).value, Eval(e, s).value];
  }

  /** What an expression is worth does not depend on the output. */
  lemma {:induction false} OutputUnread(e: Expr, s: Store, t: Store)
    requires t.args == s.args && t.locals == s.locals
    ensures Eval(e, t) == Eval(e, s)
  {
    match e
    case Bin(op, l, r) => OutputUnread(l, s, t); OutputUnread(r, s, t);
    case UnMinus(x) => OutputUnread(x, s, t);
    case Not(x) => OutputUnread(x, s, t);
    case _ =>
  }

  /** Statements run one after the other, grouped in any way; a break or a fault ends them. */
  lemma Sequences(a: Stmt, b: Stmt, c: Stmt, s: Store, fuel: nat)
    ensures Exec(Then(a, Then(b, c)), s, fuel) == Exec(Then(Then(a, b), c), s, fuel)
    ensures Exec(Then(Empty, a), s, fuel) == Exec(a, s, fuel) == Exec(Then(a, Empty), s, fuel)
    ensures !Exec(a, s, fuel).Normal? ==> Exec(Then(a, b), s, fuel) == Exec(a, s, fuel)
    ensures Exec(Break, s, fuel) == Broke(s)
  {
  }

  // ----- conditions and loops -------------------------------------------------------

  /** A condition chooses its first branch when it is not zero; one without else has an empty
      one. */
  lemma Conditions(c: Expr, t: Stmt, f: Stmt, s: Store, fuel: nat)
    ensures Eval(c, s).None? ==> Exec(IfElse(c, t, f), s, fuel) == Fault
    ensures forall n: int32 :: Eval(c, s) == Some(n) ==>
              Exec(IfElse(c, t, f), s, fuel) == Exec(if n == 0 then f else t, s, fuel)
    ensures Exec(If(c, t), s, fuel) == Exec(IfElse(c, t, Empty), s, fuel)
  {
  }

  /** A loop is its body and itself again under its condition; a break in it ends it. */
  lemma LoopUnrolls(c: Expr, body: Stmt, s: Store, fuel: nat)
    ensures var r := Exec(If(c, Then(body, While(c, body))), s, fuel);
            Exec(While(c, body), s, fuel + 1) == if r.Broke? then Normal(r.s) else r
    ensures !Exec(While(c, body), s, fuel).Broke?
  {
    hide Eval;
    LoopTurn(c, body, s, fuel);
    LoopNeverBreaks(c, body, s, fuel);
    if Eval(c, s).Some? && Eval(c, s).value != 0 {
      var r := Exec(body, s, fuel);
      assert Exec(If(c, Then(body, While(c, body))), s, fuel) == Exec(Then(body, While(c, body)), s, fuel);
      if r.Normal? { LoopNeverBreaks(c, body, r.s, fuel); }
    }
  }

  lemma LoopTurn(c: Expr, body: Stmt, s: Store, fuel: nat)
    ensures Eval(c, s).None? ==> Exec(While(c, body), s, fuel + 1) == Fault
    ensures Eval(c, s).Some? && Eval(c, s).value == 0 ==> Exec(While(c, body), s, fuel + 1) == Normal(s)
    ensures Eval(c, s).Some? && Eval(c, s).value != 0 ==>
              var r := Exec(body, s, fuel);
              Exec(While(c, body), s, fuel + 1) ==
              match r
              case Normal(t) => Exec(While(c, body), t, fuel)
              case Broke(t) => Normal(t)
              case _ => r
  {
    hide Eval;
  }

  lemma {:induction false} LoopNeverBreaks(c: Expr, body: Stmt, s: Store, fuel: nat)
    ensures !Exec(While(c, body), s, fuel).Broke?
    decreases fuel
  {
    hide Eval, Exec;
    if fuel == 0 {
      NoFuel(c, body, s);
    } else {
      LoopTurn(c, body, s, fuel - 1);
      if Eval(c, s).Some? && Eval(c, s).value != 0 {
        var r := Exec(body, s, fuel - 1);
        if r.Normal? { LoopNeverBreaks(c, body, r.s, fuel - 1); }
      }
    }
  }

  lemma NoFuel(c: Expr, body: Stmt, s: Store)
    ensures Exec(While(c, body), s, 0) == OutOfFuel
  {
  }

  /** A for loop is its initialisation and a while loop whose body ends with the step; a break
      leaves the step out. */
  lemma ForIsWhile(init: Assignment, c: Expr, step: Assignment, body: Stmt, s: Store, fuel: nat)
    ensures Exec(For(init, c, step, body), s, fuel) ==
            Exec(Then(Simple(init), While(c, Then(body, Simple(step)))), s, fuel)
  {
    hide Eval, ExecFor, ExecAssignment;
    var r := ExecAssignment(init, s);
    if r.Normal? { TurnsAreWhile(c, step, body, r.s, fuel); }
  }

  lemma {:induction false} TurnsAreWhile(c: Expr, step: Assignment, body: Stmt, s: Store, fuel: nat)
    ensures ExecFor(c, step, body, s, fuel) == Exec(While(c, Then(body, Simple(step))), s, fuel)
    decreases fuel
  {
    hide Eval, ExecFor, ExecAssignment, Exec;
    var b := Then(body, Simple(step));
    ForTurn(c, step, body, s, fuel);
    if fuel == 0 {
      NoFuel(c, b, s);
    } else {
      LoopTurn(c, b, s, fuel - 1);
      if Eval(c, s).Some? && Eval(c, s).value != 0 {
        var r := Exec(body, s, fuel - 1);
        BodyAndStep(body, step, s, fuel - 1);
        if r.Normal? {
          var k := ExecAssignment(step, r.s);
          if k.Normal? { TurnsAreWhile(c, step, body, k.s, fuel - 1); }
        }
      }
    }
  }

  lemma BodyAndStep(body: Stmt, step: Assignment, s: Store, fuel: nat)
    ensures var r := Exec(body, s, fuel);
            Exec(Then(body, Simple(step)), s, fuel) == if r.Normal? then ExecAssignment(step, r.s) else r
    ensures forall t :: !ExecAssignment(step, t).Broke?
  {
    hide Eval;
  }

  // ----- switches -------------------------------------------------------------------

  /** A switch is a chain of conditions: a value is compared, a range is between its ends, both
      included. */
  lemma Tests(e: Expr, l: Expr, lo: int32, hi: int32, body: Stmt, next: Blocks, s: Store, fuel: nat)
    ensures Exec(Case(e, Block([Equals(l)], body, next)), s, fuel) == Exec(IfElse(Bin(Eq, e, l), body, Case(e, next)), s, fuel)
    ensures Exec(Case(e, Block([Range(lo, hi)], body, next)), s, fuel) ==
            Exec(IfElse(Bin(LogAnd, Bin(GreaterOrEq, e, Numb(lo)), Bin(LessOrEq, e, Numb(hi))), body, Case(e, next)), s, fuel)
  {
    hide Exec, Eval, Matches, AnyMatch;
    var c, d := Bin(Eq, e, l), Bin(LogAnd, Bin(GreaterOrEq, e, Numb(lo)), Bin(LessOrEq, e, Numb(hi)));
    BlockRuns(e, [Equals(l)], body, next, s, fuel);
    BlockRuns(e, [Range(lo, hi)], body, next, s, fuel);
    OneTest(e, Equals(l), [], s);
    OneTest(e, Range(lo, hi), [], s);
    Conditions(c, body, Case(e, next), s, fuel);
    Conditions(d, body, Case(e, next), s, fuel);
    EqualsTest(e, l, s);
    RangeTest(e, lo, hi, s);
  }

  lemma EqualsTest(e: Expr, l: Expr, s: Store)
    ensures var m, c := Matches(e, Equals(l), s), Eval(Bin(Eq, e, l), s);
            if c.None? then m.None? else m == Some(c.value != 0)
  {
  }

  lemma RangeTest(e: Expr, lo: int32, hi: int32, s: Store)
    ensures var m := Matches(e, Range(lo, hi), s);
            var c := Eval(Bin(LogAnd, Bin(GreaterOrEq, e, Numb(lo)), Bin(LessOrEq, e, Numb(hi))), s);
            if c.None? then m.None? else m == Some(c.value != 0)
  {
    hide Eval, Apply;
    var g, k := Bin(GreaterOrEq, e, Numb(lo)), Bin(LessOrEq, e, Numb(hi));
    Expressions(GreaterOrEq, e, Numb(lo), s);
    Expressions(LessOrEq, e, Numb(hi), s);
    Expressions(LogAnd, g, k, s);
    if Eval(e, s).Some? { InRange(Eval(e, s).value, lo, hi); }
  }

  lemma InRange(a: int32, lo: int32, hi: int32)
    ensures var g, k := Apply(GreaterOrEq, a, lo), Apply(LessOrEq, a, hi);
            g.Some? && k.Some? && Apply(LogAnd, g.value, k.value) == Some(Truth(lo <= a <= hi))
  {
  }

  /** A default is always taken; the tests of a block are tried in order, and a block without
      tests left is skipped. */
  lemma BlocksInOrder(e: Expr, sc: Scope, more: seq<Scope>, body: Stmt, next: Blocks, s: Store, fuel: nat)
    ensures Exec(Case(e, NoBlocks), s, fuel) == Normal(s)
    ensures Exec(Case(e, Block([], body, next)), s, fuel) == Exec(Case(e, next), s, fuel)
    ensures Exec(Case(e, Block([Default], body, next)), s, fuel) == Exec(body, s, fuel)
    ensures Exec(Case(e, Block([sc] + more, body, next)), s, fuel) ==
            Exec(Case(e, Block([sc], body, Block(more, body, next))), s, fuel)
  {
    hide Exec, Eval, AnyMatch;
    BlockRuns(e, [], body, next, s, fuel);
    BlockRuns(e, [Default], body, next, s, fuel);
    BlockRuns(e, [sc] + more, body, next, s, fuel);
    BlockRuns(e, [sc], body, Block(more, body, next), s, fuel);
    BlockRuns(e, more, body, next, s, fuel);
    NoBlocksRun(e, s, fuel);
    OneTest(e, Default, [], s);
    OneTest(e, sc, more, s);
    OneTest(e, sc, [], s);
  }

  lemma OneTest(e: Expr, sc: Scope, more: seq<Scope>, s: Store)
    ensures var m := Matches(e, sc, s);
            AnyMatch(e, [sc] + more, s) == if m.None? || m.value then m else AnyMatch(e, more, s)
    ensures AnyMatch(e, [], s) == Some(false) && [sc] + [] == [sc]
  {
    assert ([sc] + more)[1..] == more;
  }

  lemma NoBlocksRun(e: Expr, s: Store, fuel: nat)
    ensures Exec(Case(e, NoBlocks), s, fuel) == Normal(s)
  {
  }

  lemma BlockRuns(e: Expr, scopes: seq<Scope>, body: Stmt, next: Blocks, s: Store, fuel: nat)
    ensures var m := AnyMatch(e, scopes, s);
            Exec(Case(e, Block(scopes, body, next)), s, fuel) ==
            if m.None? then Fault else if m.value then Exec(body, s, fuel) else Exec(Case(e, next), s, fuel)
  {
    hide Eval, AnyMatch;
    SelectSmaller(e, Block(scopes, body, next), s);
  }
}
