/** The Optimize methods (compiler/strom.cpp): constant folding, dead branches, constant
    switches and the ranges of a switch.  None means that folding would evaluate an
    undefined operation, which aborts the compiler. */
module Optimizer {
  import opened Basics
  import opened Operators
  import opened OperatorLaws
  import opened SourceLanguage

  // ----- folding --------------------------------------------------------------------

  function Folded(v: Option<int32>): Option<Expr> {
    if v.None? then None else Some(Numb(v.value))
  }

  /** The switch of Bop::Optimize, on values known while compiling. */
  function FoldBop(op: Operator, l: int32, r: int32): Option<int32> {
    match op
    case Plus => Fit(l + r)
    case Minus => Fit(l - r)
    case Times => Fit(l * r)
    case Divide => if r == 0 then None else Fit(Quotient(l, r))
    case Modulo => if r == 0 || (l == INT_MIN && r == -1) then None else Fit(Remainder(l, r))
    case Eq => Some(Truth(l == r))
    case NotEq => Some(Truth(l != r))
    case Less => Some(Truth(l < r))
    case Greater => Some(Truth(l > r))
    case LessOrEq => Some(Truth(l <= r))
    case GreaterOrEq => Some(Truth(l >= r))
    case LogOr => Some(Truth(l != 0 || r != 0))
    case LogAnd => Some(Truth(l != 0 && r != 0))
    case BitOr => Some(OnBits(OrBits, l, r))
    case BitAnd => Some(OnBits(AndBits, l, r))
    case Xor => Some(OnBits(XorBits, l, r))
    case Lsh => if l < 0 || r < 0 || r >= 32 then None else Fit(l * Pow2(r))
    case Rsh => if r < 0 || r >= 32 then None else Fit(l / Pow2(r))
  }

  /** The compiler folds an operation to what the machine computes for it, and gives up
      exactly where the machine's operation is undefined. */
  lemma FoldsAsTheMachine(op: Operator, l: int32, r: int32)
    ensures FoldBop(op, l, r) == Apply(op, l, r)
  {
    hide OnBits, Pow2, Quotient, Remainder, Fit;
    if op.Modulo? && r != 0 { QuotientFits(l, r); }
  }

  lemma QuotientFits(l: int32, r: int32)
    requires r != 0
    ensures Fit(Quotient(l, r)).None? <==> (l == INT_MIN && r == -1)
  {
    QuotientSmall(l, r);
  }

  function OptE(e: Expr): Option<Expr> {
    match e
    case Numb(_) => Some(e)
    case Var(_) => Some(e)
    case Bin(op, l, r) =>
      var a, b := OptE(l), OptE(r);
      if a.None? || b.None? then None
      else if a.value.Numb? && b.value.Numb? then Folded(FoldBop(op, a.value.value, b.value.value))
      else Some(Bin(op, a.value, b.value))
    case UnMinus(x) =>
      var a := OptE(x);
      if a.None? then None else if a.value.Numb? then Folded(Negate(a.value.value)) else Some(UnMinus(a.value))
    case Not(x) =>
      var a := OptE(x);
      if a.None? then None else if a.value.Numb? then Some(Numb(LogicalNot(a.value.value))) else Some(Not(a.value))
  }

  /** The initialisation and the counter of a for loop are not optimized. */
  function OptA(a: Assignment): Option<Assignment> {
    var e := OptE(a.e);
    if e.None? then None else Some(a.(e := e.value))
  }

  // ----- ranges ---------------------------------------------------------------------

  predicate EmptyRange(scope: Scope) { scope.Range? && scope.lo > scope.hi }

  /** A range of one number becomes the number. */
  function Single(scope: Scope): Scope {
    if scope.Range? && scope.lo == scope.hi then Equals(Numb(scope.lo)) else scope
  }

  /** The scopes behind one that is not empty: the empty ranges are unlinked. */
  function Unlinked(scopes: seq<Scope>): seq<Scope> {
    if scopes == [] then []
    else if EmptyRange(scopes[0]) then Unlinked(scopes[1..])
    else [Single(scopes[0])] + Unlinked(scopes[1..])
  }

  /** The scopes behind a removed first one: empty ranges stay linked as long as no other
      scope has been passed, because the back pointer is the removed scope. */
  function AfterRemoved(scopes: seq<Scope>): seq<Scope> {
    if scopes == [] then []
    else if EmptyRange(scopes[0]) then [scopes[0]] + AfterRemoved(scopes[1..])
    else [Single(scopes[0])] + Unlinked(scopes[1..])
  }

  function Trim(scopes: seq<Scope>): seq<Scope> {
    if scopes != [] && EmptyRange(scopes[0]) then AfterRemoved(scopes[1..]) else Unlinked(scopes)
  }

  // ----- statements -----------------------------------------------------------------

  /** Does a scope take a constant?  A label that is not a number (the
      parser has folded those that can be) is passed over. */
  predicate TakesConstant(n: int32, scope: Scope) {
    match scope
    case Default => true
    case Equals(l) => l.Numb? && l.value == n
    case Range(lo, hi) => lo <= n <= hi
  }

  predicate SomeTakes(n: int32, scopes: seq<Scope>) {
    scopes != [] && (TakesConstant(n, scopes[0]) || SomeTakes(n, scopes[1..]))
  }

  function OptS(x: Stmt): Option<Stmt>
    decreases x
  {
    match x
    case Empty => Some(Empty)
    case Simple(a) => var b := OptA(a); if b.None? then None else Some(Simple(b.value))
    case Write(e) => var a := OptE(e); if a.None? then None else Some(Write(a.value))
    case If(c, y) =>
      var a, b := OptE(c), OptS(y);
      if a.None? || b.None? then None
      else if a.value.Numb? then (if a.value.value != 0 then b else Some(Empty))
      else Some(If(a.value, b.value))
    case IfElse(c, y, z) =>
      var a, b, d := OptE(c), OptS(y), OptS(z);
      if a.None? || b.None? || d.None? then None
      else if a.value.Numb? then (if a.value.value != 0 then b else d)
      else Some(IfElse(a.value, b.value, d.value))
    case While(c, body) =>
      var a, b := OptE(c), OptS(body);
      if a.None? || b.None? then None
      else if a.value == Numb(0) then Some(Empty)
      else Some(While(a.value, b.value))
    case For(init, c, step, body) =>
      var a, b := OptE(c), OptS(body);
      if a.None? || b.None? then None
      else if a.value == Numb(0) then Some(Empty)
      else Some(For(init, a.value, step, b.value))
    case Break => Some(Break)
    case Then(a, b) =>
      var c, d := OptS(a), OptS(b);
      if c.None? || d.None? then None else Some(Then(c.value, d.value))
    case Case(e, blocks) =>
      var a := OptE(e);
      if a.None? then None
      else if a.value.Numb? then OptChosen(a.value.value, blocks)
      else
        var b := OptB(blocks);
        if b.None? then None else Some(Case(a.value, b.value))
  }

  /** The body of the first block that takes the constant. */
  function OptChosen(n: int32, blocks: Blocks): Option<Stmt>
    decreases blocks
  {
    match blocks
    case NoBlocks => Some(Empty)
    case Block(scopes, body, next) =>
      if SomeTakes(n, scopes) then OptS(body) else OptChosen(n, next)
  }

  function OptB(blocks: Blocks): Option<Blocks>
    decreases blocks
  {
    match blocks
    case NoBlocks => Some(NoBlocks)
    case Block(scopes, body, next) =>
      var a, b := OptS(body), OptB(next);
      if a.None? || b.None? then None else Some(Block(Trim(scopes), a.value, b.value))
  }

  // ----- when the optimizer is right ------------------------------------------------

  predicate NumberLabels(scopes: seq<Scope>) {
    scopes == [] || ((scopes[0].Equals? ==> scopes[0].e.Numb?) && NumberLabels(scopes[1..]))
  }

  predicate AllNumberLabels(blocks: Blocks) {
    match blocks
    case NoBlocks => true
    case Block(scopes, _, next) => NumberLabels(scopes) && AllNumberLabels(next)
  }

  /** No for loop has a condition that folds to zero, and a switch on a constant has
      numbers for labels. */
  predicate Safe(x: Stmt)
    decreases x
  {
    match x
    case If(_, y) => Safe(y)
    case IfElse(_, y, z) => Safe(y) && Safe(z)
    case While(_, body) => Safe(body)
    case For(_, c, _, body) => OptE(c) != Some(Numb(0)) && Safe(body)
    case Then(a, b) => Safe(a) && Safe(b)
    case Case(e, blocks) => (OptE(e).Some? && OptE(e).value.Numb? ==> AllNumberLabels(blocks)) && SafeB(blocks)
    case _ => true
  }

  predicate SafeB(blocks: Blocks)
    decreases blocks
  {
    match blocks
    case NoBlocks => true
    case Block(_, body, next) => Safe(body) && SafeB(next)
  }

  /** No switch loses all its tests of the scrutinee. */
  predicate KeepsTests(x: Stmt)
    decreases x
  {
    match x
    case If(_, y) => KeepsTests(y)
    case IfElse(_, y, z) => KeepsTests(y) && KeepsTests(z)
    case While(_, body) => KeepsTests(body)
    case For(_, _, _, body) => KeepsTests(body)
    case Then(a, b) => KeepsTests(a) && KeepsTests(b)
    case Case(_, blocks) => KeepsTestsB(blocks) && (Tests(blocks) ==> Tests(TrimB(blocks)))
    case _ => true
  }

  predicate KeepsTestsB(blocks: Blocks)
    decreases blocks
  {
    match blocks
    case NoBlocks => true
    case Block(_, body, next) => KeepsTests(body) && KeepsTestsB(next)
  }

  // ----- expressions mean the same --------------------------------------------------

  /** Folding does not change the value of an expression, defined or not. */
  lemma {:induction false} FoldingPreserves(e: Expr, s: Store)
    requires OptE(e).Some?
    ensures Eval(OptE(e).value, s) == Eval(e, s)
  {
    hide Apply, FoldBop;
    match e
    case Bin(op, l, r) =>
      FoldingPreserves(l, s);
      FoldingPreserves(r, s);
      var a, b := OptE(l).value, OptE(r).value;
      if a.Numb? && b.Numb? { FoldsAsTheMachine(op, a.value, b.value); }
    case UnMinus(x) => FoldingPreserves(x, s);
    case Not(x) => FoldingPreserves(x, s);
    case _ =>
  }

  lemma AssignmentPreserved(a: Assignment, s: Store)
    requires OptA(a).Some?
    ensures ExecAssignment(OptA(a).value, s) == ExecAssignment(a, s)
  {
    hide Apply;
    FoldingPreserves(a.e, s);
    if a.AssignWithBop? {
      assert Eval(Bin(a.op, Var(a.v), a.e), s) == Eval(Bin(a.op, Var(a.v), OptE(a.e).value), s);
    }
  }

  // ----- scopes ---------------------------------------------------------------------

  lemma MatchesPreserved(e: Expr, f: Expr, scope: Scope, s: Store)
    requires Eval(f, s) == Eval(e, s)
    ensures Matches(f, Single(scope), s) == Matches(e, scope, s)
    ensures EmptyRange(scope) && (Matches(e, scope, s).Some? || Eval(e, s).Some?) ==> Matches(e, scope, s) == Some(false)
    ensures Matches(f, scope, s) == Matches(e, scope, s)
  {
  }

  lemma {:induction false} UnlinkedPreserves(e: Expr, f: Expr, scopes: seq<Scope>, s: Store)
    requires Eval(f, s) == Eval(e, s) && (AnyMatch(e, scopes, s).Some? || Eval(e, s).Some?)
    ensures AnyMatch(f, Unlinked(scopes), s) == AnyMatch(e, scopes, s)
    decreases |scopes|
  {
    hide Matches, Eval, EmptyRange, Single;
    if scopes != [] {
      MatchesPreserved(e, f, scopes[0], s);
      if Matches(e, scopes[0], s) == Some(false) { UnlinkedPreserves(e, f, scopes[1..], s); }
      if !EmptyRange(scopes[0]) { assert Unlinked(scopes)[1..] == Unlinked(scopes[1..]); }
    }
  }

  lemma {:induction false} AfterRemovedPreserves(e: Expr, f: Expr, scopes: seq<Scope>, s: Store)
    requires Eval(f, s) == Eval(e, s) && (AnyMatch(e, scopes, s).Some? || Eval(e, s).Some?)
    ensures AnyMatch(f, AfterRemoved(scopes), s) == AnyMatch(e, scopes, s)
    decreases |scopes|
  {
    hide Matches, Eval, EmptyRange, Single, Unlinked;
    if scopes != [] {
      MatchesPreserved(e, f, scopes[0], s);
      if Matches(e, scopes[0], s) == Some(false) {
        if EmptyRange(scopes[0]) {
          AfterRemovedPreserves(e, f, scopes[1..], s);
        } else {
          UnlinkedPreserves(e, f, scopes[1..], s);
        }
      }
      if EmptyRange(scopes[0]) {
        assert AfterRemoved(scopes)[1..] == AfterRemoved(scopes[1..]);
      } else {
        assert AfterRemoved(scopes)[1..] == Unlinked(scopes[1..]);
      }
    }
  }

  /** The one test of the scrutinee that the program would come to is a removed range. */
  predicate LosesTest(scopes: seq<Scope>) {
    scopes != [] && EmptyRange(scopes[0]) && (|scopes| == 1 || scopes[1].Default?)
  }

  /** Trimming the scopes of a block takes the same values, and has a value exactly when the
      program has one, unless the scrutinee has no value and its one test is removed. */
  lemma TrimExactly(e: Expr, f: Expr, scopes: seq<Scope>, s: Store)
    requires Eval(f, s) == Eval(e, s)
    ensures AnyMatch(f, Trim(scopes), s) == AnyMatch(e, scopes, s) <==> (Eval(e, s).Some? || !LosesTest(scopes))
  {
    hide Eval, EmptyRange, Single, Unlinked, AfterRemoved;
    if Eval(e, s).Some? {
      TrimPreserves(e, f, scopes, s);
    } else {
      FirstTest(e, scopes, s);
      FirstTest(f, Trim(scopes), s);
      TrimHead(scopes);
    }
  }

  /** Without a value only the first scope matters. */
  lemma FirstTest(e: Expr, scopes: seq<Scope>, s: Store)
    requires Eval(e, s).None?
    ensures AnyMatch(e, scopes, s) == if scopes == [] then Some(false) else if scopes[0].Default? then Some(true) else None
  {
  }

  lemma TrimHead(scopes: seq<Scope>)
    ensures LosesTest(scopes) ==> !scopes[0].Default? && (Trim(scopes) == [] || Trim(scopes)[0].Default?)
    ensures !LosesTest(scopes) && scopes != [] ==> Trim(scopes) != [] && Trim(scopes)[0].Default? == scopes[0].Default?
    ensures scopes == [] ==> Trim(scopes) == []
  {
  }

  /** Trimming the scopes of a block takes the same values. */
  lemma TrimPreserves(e: Expr, f: Expr, scopes: seq<Scope>, s: Store)
    requires Eval(f, s) == Eval(e, s) && (AnyMatch(e, scopes, s).Some? || Eval(e, s).Some?)
    ensures AnyMatch(f, Trim(scopes), s) == AnyMatch(e, scopes, s)
  {
    if scopes != [] && EmptyRange(scopes[0]) {
      MatchesPreserved(e, f, scopes[0], s);
      AfterRemovedPreserves(e, f, scopes[1..], s);
    } else {
      UnlinkedPreserves(e, f, scopes, s);
    }
  }

  /** All scopes of a switch trimmed. */
  function TrimB(blocks: Blocks): Blocks {
    match blocks
    case NoBlocks => NoBlocks
    case Block(scopes, body, next) => Block(Trim(scopes), body, TrimB(next))
  }

  /** The first scope of the switch, if it has one, is a test. */
  predicate Tests(blocks: Blocks) {
    match blocks
    case NoBlocks => false
    case Block(scopes, _, next) => if scopes == [] then Tests(next) else !scopes[0].Default?
  }

  /** Trimming a whole switch takes the same block, or fails as the program does, unless the
      scrutinee has no value and all tests that the program would come to are removed. */
  lemma {:induction false} TrimSwitchExactly(e: Expr, f: Expr, blocks: Blocks, s: Store)
    requires Eval(f, s) == Eval(e, s)
    ensures Select(f, TrimB(blocks), s) == Select(e, blocks, s) <==>
              (Eval(e, s).Some? || (Tests(blocks) ==> Tests(TrimB(blocks))))
  {
    hide Eval, AnyMatch, Trim, LosesTest;
    match blocks
    case NoBlocks =>
    case Block(scopes, _, next) =>
      TrimExactly(e, f, scopes, s);
      TrimHead(scopes);
      TrimSwitchExactly(e, f, next, s);
      if Eval(e, s).None? {
        FirstTest(e, scopes, s);
        FirstTest(f, Trim(scopes), s);
        NoValue(f, TrimB(next), s);
      }
  }

  /** Without a value a switch fails exactly when it has a test to make. */
  lemma {:induction false} NoValue(e: Expr, blocks: Blocks, s: Store)
    requires Eval(e, s).None?
    ensures Select(e, blocks, s).None? <==> Tests(blocks)
  {
    hide Eval, AnyMatch;
    match blocks
    case NoBlocks =>
    case Block(scopes, _, next) => FirstTest(e, scopes, s); NoValue(e, next, s);
  }

  lemma {:induction false} OptimizedTests(blocks: Blocks)
    requires OptB(blocks).Some?
    ensures Tests(OptB(blocks).value) == Tests(TrimB(blocks))
  {
    hide Trim, OptS;
    match blocks
    case NoBlocks =>
    case Block(_, _, next) => OptimizedTests(next);
  }

  // ----- constant switches ----------------------------------------------------------

  lemma {:induction false} ConstantMatch(e: Expr, n: int32, scopes: seq<Scope>, s: Store)
    requires Eval(e, s) == Some(n) && NumberLabels(scopes)
    ensures AnyMatch(e, scopes, s) == Some(SomeTakes(n, scopes))
    decreases |scopes|
  {
    if scopes != [] {
      OneConstant(e, n, scopes[0], s);
      hide Matches, TakesConstant, Eval;
      ConstantMatch(e, n, scopes[1..], s);
    }
  }

  lemma OneConstant(e: Expr, n: int32, scope: Scope, s: Store)
    requires Eval(e, s) == Some(n) && (scope.Equals? ==> scope.e.Numb?)
    ensures Matches(e, scope, s) == Some(TakesConstant(n, scope))
  {
  }

  // ----- statements mean the same ---------------------------------------------------

  /** How the outcome of a program and of its optimized form are related: either seen from
      a program that ends without a fault, or, with one more turn of fuel, from an
      optimized program that ends.  Strictly, a fault stays a fault. */
  predicate Related(up: bool, strict: bool, before: Outcome, after: Outcome) {
    if up then after != OutOfFuel ==> before == after || (!strict && before == Fault)
    else before != OutOfFuel && (strict || before != Fault) ==> after == before
  }

  function Turn(up: bool): nat { if up then 1 else 0 }

  lemma {:induction false} OptimizedRelated(up: bool, strict: bool, x: Stmt, s: Store, f: nat)
    requires OptS(x).Some? && Safe(x) && (strict ==> KeepsTests(x))
    ensures Related(up, strict, Exec(x, s, f + Turn(up)), Exec(OptS(x).value, s, f))
    decreases f, x, 2
  {
    hide OptE, Eval, ExecAssignment, OptB, OptChosen, SafeB, Select;
    match x
    case Simple(a) => AssignmentPreserved(a, s);
    case Write(e) => FoldingPreserves(e, s);
    case If(c, y) => FoldingPreserves(c, s); FoldedIs(c, s); OptimizedRelated(up, strict, y, s, f);
    case IfElse(c, y, z) =>
      FoldingPreserves(c, s);
      FoldedIs(c, s);
      OptimizedRelated(up, strict, y, s, f);
      OptimizedRelated(up, strict, z, s, f);
    case While(c, body) => WhileRelated(up, strict, c, body, s, f);
    case For(init, c, step, body) =>
      var r := ExecAssignment(init, s);
      if r.Normal? { TurnsRelated(up, strict, c, step, body, r.s, f); }
    case Then(a, b) =>
      OptimizedRelated(up, strict, a, s, f);
      var r := Exec(OptS(a).value, s, f);
      if r.Normal? { OptimizedRelated(up, strict, b, r.s, f); }
    case Case(e, blocks) => CaseRelated(up, strict, e, blocks, s, f);
    case _ =>
  }

  lemma FoldedIs(c: Expr, s: Store)
    requires OptE(c).Some?
    ensures OptE(c).value.Numb? ==> Eval(c, s) == Some(OptE(c).value.value)
  {
    FoldingPreserves(c, s);
  }

  lemma {:induction false} WhileRelated(up: bool, strict: bool, c: Expr, body: Stmt, s: Store, f: nat)
    requires OptS(While(c, body)).Some? && Safe(body) && (strict ==> KeepsTests(body))
    ensures Related(up, strict, Exec(While(c, body), s, f + Turn(up)), Exec(OptS(While(c, body)).value, s, f))
    decreases f, While(c, body), 1
  {
    hide OptE, Eval, ExecAssignment;
    FoldingPreserves(c, s);
    FoldedIs(c, s);
    if f > 0 && OptE(c).value != Numb(0) {
      OptimizedRelated(up, strict, body, s, f - 1);
      var r := Exec(OptS(body).value, s, f - 1);
      if r.Normal? { WhileRelated(up, strict, c, body, r.s, f - 1); }
    }
  }

  lemma {:induction false} TurnsRelated(up: bool, strict: bool, c: Expr, step: Assignment, body: Stmt, s: Store, f: nat)
    requires OptE(c).Some? && OptS(body).Some? && Safe(body) && (strict ==> KeepsTests(body))
    ensures Related(up, strict, ExecFor(c, step, body, s, f + Turn(up)), ExecFor(OptE(c).value, step, OptS(body).value, s, f))
    decreases f, body, 3
  {
    hide OptE, Eval, ExecAssignment, OptS, Exec;
    FoldingPreserves(c, s);
    if f > 0 {
      OptimizedRelated(up, strict, body, s, f - 1);
      var r := Exec(OptS(body).value, s, f - 1);
      if r.Normal? {
        var k := ExecAssignment(step, r.s);
        if k.Normal? { TurnsRelated(up, strict, c, step, body, k.s, f - 1); }
      }
    }
  }

  /** What a switch does from some block on. */
  function ExecSelected(b: Option<Stmt>, s: Store, f: nat): Outcome {
    if b.None? then Fault else Exec(b.value, s, f)
  }

  lemma CaseIs(e: Expr, blocks: Blocks, s: Store, f: nat)
    ensures Exec(Case(e, blocks), s, f) == ExecSelected(Select(e, blocks, s), s, f)
  {
  }

  /** A switch with its scopes trimmed does what it did, unless the scrutinee has no value and
      all tests the program would come to are removed; then the program faults and the
      trimmed switch runs on, with a body that needs no test. */
  lemma TrimmedSwitch(e: Expr, f: Expr, blocks: Blocks, s: Store, fuel: nat)
    requires Eval(f, s) == Eval(e, s)
    ensures Eval(e, s).Some? || (Tests(blocks) ==> Tests(TrimB(blocks))) ==>
              Exec(Case(f, TrimB(blocks)), s, fuel) == Exec(Case(e, blocks), s, fuel)
    ensures Eval(e, s).None? && Tests(blocks) && !Tests(TrimB(blocks)) ==>
              && Exec(Case(e, blocks), s, fuel) == Fault && Select(f, TrimB(blocks), s).Some?
              && Exec(Case(f, TrimB(blocks)), s, fuel) == Exec(Select(f, TrimB(blocks), s).value, s, fuel)
  {
    hide Eval, Select, Exec, TrimB;
    TrimSwitchExactly(e, f, blocks, s);
    CaseIs(e, blocks, s, fuel);
    CaseIs(f, TrimB(blocks), s, fuel);
    if Eval(e, s).None? {
      NoValue(e, blocks, s);
      NoValue(f, TrimB(blocks), s);
    }
  }

  lemma {:induction false} CaseRelated(up: bool, strict: bool, e: Expr, blocks: Blocks, s: Store, f: nat)
    requires OptS(Case(e, blocks)).Some? && Safe(Case(e, blocks)) && (strict ==> KeepsTests(Case(e, blocks)))
    ensures Related(up, strict, Exec(Case(e, blocks), s, f + Turn(up)), Exec(OptS(Case(e, blocks)).value, s, f))
    decreases f, Case(e, blocks), 1
  {
    hide OptE, Eval, Select, Exec, ExecSelected, OptB, OptChosen, SafeB;
    FoldingPreserves(e, s);
    FoldedIs(e, s);
    CaseIs(e, blocks, s, f + Turn(up));
    if OptE(e).value.Numb? {
      ChosenRelated(up, strict, e, OptE(e).value.value, blocks, s, f);
    } else {
      CaseIs(OptE(e).value, OptB(blocks).value, s, f);
      BlocksRelated(up, strict, e, OptE(e).value, blocks, s, f);
    }
  }

  lemma {:induction false} ChosenRelated(up: bool, strict: bool, e: Expr, n: int32, blocks: Blocks, s: Store, f: nat)
    requires OptChosen(n, blocks).Some? && Eval(e, s) == Some(n) && AllNumberLabels(blocks) && SafeB(blocks)
    requires strict ==> KeepsTestsB(blocks)
    ensures Related(up, strict, ExecSelected(Select(e, blocks, s), s, f + Turn(up)), Exec(OptChosen(n, blocks).value, s, f))
    decreases f, blocks, 0
  {
    hide Eval, AnyMatch, SomeTakes, Exec, OptS, Safe;
    match blocks
    case NoBlocks => EmptyRuns(s, f + Turn(up)); EmptyRuns(s, f);
    case Block(scopes, body, next) =>
      ConstantMatch(e, n, scopes, s);
      if SomeTakes(n, scopes) {
        OptimizedRelated(up, strict, body, s, f);
      } else {
        ChosenRelated(up, strict, e, n, next, s, f);
      }
  }

  lemma EmptyRuns(s: Store, f: nat)
    ensures Exec(Empty, s, f) == Normal(s)
  {
  }

  lemma {:induction false} BlocksRelated(up: bool, strict: bool, e: Expr, a: Expr, blocks: Blocks, s: Store, f: nat)
    requires OptB(blocks).Some? && Eval(a, s) == Eval(e, s) && SafeB(blocks)
    requires strict ==> KeepsTestsB(blocks) && (Eval(e, s).Some? || (Tests(blocks) ==> Tests(TrimB(blocks))))
    ensures Related(up, strict, ExecSelected(Select(e, blocks, s), s, f + Turn(up)), ExecSelected(Select(a, OptB(blocks).value, s), s, f))
    decreases f, blocks, 0
  {
    hide Eval, AnyMatch, Trim, Exec, OptS, Safe;
    match blocks
    case NoBlocks => EmptyRuns(s, f + Turn(up)); EmptyRuns(s, f);
    case Block(scopes, body, next) =>
      var m := AnyMatch(e, scopes, s);
      if m.Some? {
        TrimPreserves(e, a, scopes, s);
        if !m.value && Eval(e, s).None? { EmptyScopes(e, blocks, s); }
        if m.value {
          OptimizedRelated(up, strict, body, s, f);
        } else {
          BlocksRelated(up, strict, e, a, next, s, f);
        }
      } else if Eval(e, s).Some? {
        TrimPreserves(e, a, scopes, s);
      } else if strict {
        FirstTest(e, scopes, s);
        OptimizedTests(blocks);
        NoValue(a, OptB(blocks).value, s);
      }
  }

  lemma EmptyScopes(e: Expr, blocks: Blocks, s: Store)
    requires blocks.Block? && AnyMatch(e, blocks.scopes, s) == Some(false) && Eval(e, s).None?
    ensures Tests(blocks) == Tests(blocks.next) && Tests(TrimB(blocks)) == Tests(TrimB(blocks.next))
  {
    FirstTest(e, blocks.scopes, s);
  }

  // ----- the promise ----------------------------------------------------------------

  /** A program that ends without a fault ends in the same state and with the same output
      when optimized. */
  lemma OptimizerPreserves(x: Stmt, s: Store, f: nat)
    requires OptS(x).Some? && Safe(x)
    requires Exec(x, s, f) != OutOfFuel && Exec(x, s, f) != Fault
    ensures Exec(OptS(x).value, s, f) == Exec(x, s, f)
  {
    OptimizedRelated(false, false, x, s, f);
  }

  /** An optimized program that ends belongs to a program that ends: in the same state, or
      in a fault the optimizer has removed. */
  lemma OptimizerReflects(x: Stmt, s: Store, f: nat)
    requires OptS(x).Some? && Safe(x) && Exec(OptS(x).value, s, f) != OutOfFuel
    ensures Exec(x, s, f + 1) == Exec(OptS(x).value, s, f) || Exec(x, s, f + 1) == Fault
  {
    OptimizedRelated(true, false, x, s, f);
  }

  /** When no switch loses all its tests, an optimized program has the outcome of the program,
      faults included. */
  lemma OptimizerKeepsFaults(x: Stmt, s: Store, f: nat)
    requires OptS(x).Some? && Safe(x) && KeepsTests(x)
    ensures Exec(x, s, f) != OutOfFuel ==> Exec(OptS(x).value, s, f) == Exec(x, s, f)
    ensures Exec(OptS(x).value, s, f) != OutOfFuel ==> Exec(x, s, f + 1) == Exec(OptS(x).value, s, f)
  {
    OptimizedRelated(false, true, x, s, f);
    OptimizedRelated(true, true, x, s, f);
  }

  // ----- every program --------------------------------------------------------------

  function NumbersOnly(scopes: seq<Scope>): seq<Scope> {
    if scopes == [] then []
    else (if scopes[0].Equals? && !scopes[0].e.Numb? then [] else [scopes[0]]) + NumbersOnly(scopes[1..])
  }

  /** The program that the optimizer preserves: for loops whose condition folds to zero are
      gone with their initialisation, and switches on a constant have lost the labels that
      are expressions. */
  function Kept(x: Stmt): Stmt
    decreases x
  {
    match x
    case If(c, y) => If(c, Kept(y))
    case IfElse(c, y, z) => IfElse(c, Kept(y), Kept(z))
    case While(c, body) => While(c, Kept(body))
    case For(init, c, step, body) => if OptE(c) == Some(Numb(0)) then Empty else For(init, c, step, Kept(body))
    case Then(a, b) => Then(Kept(a), Kept(b))
    case Case(e, blocks) => Case(e, KeptB(blocks, OptE(e).Some? && OptE(e).value.Numb?))
    case _ => x
  }

  function KeptB(blocks: Blocks, constant: bool): Blocks
    decreases blocks
  {
    match blocks
    case NoBlocks => NoBlocks
    case Block(scopes, body, next) =>
      Block(if constant then NumbersOnly(scopes) else scopes, Kept(body), KeptB(next, constant))
  }

  lemma {:induction false} KeptScopes(n: int32, scopes: seq<Scope>)
    ensures NumberLabels(NumbersOnly(scopes)) && SomeTakes(n, NumbersOnly(scopes)) == SomeTakes(n, scopes)
    ensures NumberLabels(scopes) ==> NumbersOnly(scopes) == scopes
  {
    if scopes != [] {
      KeptScopes(n, scopes[1..]);
      var rest := NumbersOnly(scopes[1..]);
      if scopes[0].Equals? && !scopes[0].e.Numb? {
        assert NumbersOnly(scopes) == rest;
      } else {
        assert NumbersOnly(scopes) == [scopes[0]] + rest && ([scopes[0]] + rest)[1..] == rest;
      }
    }
  }

  /** What is kept is safe, and is the program itself exactly when that is safe. */
  lemma {:induction false} KeptIsSafe(x: Stmt)
    ensures Safe(Kept(x)) && (Kept(x) == x <==> Safe(x))
    decreases x
  {
    hide OptE;
    match x
    case If(_, y) => KeptIsSafe(y);
    case IfElse(_, y, z) => KeptIsSafe(y); KeptIsSafe(z);
    case While(_, body) => KeptIsSafe(body);
    case For(_, _, _, body) => KeptIsSafe(body);
    case Then(a, b) => KeptIsSafe(a); KeptIsSafe(b);
    case Case(e, blocks) => KeptIsSafeB(blocks, OptE(e).Some? && OptE(e).value.Numb?);
    case _ =>
  }

  lemma {:induction false} KeptIsSafeB(blocks: Blocks, constant: bool)
    ensures SafeB(KeptB(blocks, constant)) && (constant ==> AllNumberLabels(KeptB(blocks, constant)))
    ensures KeptB(blocks, constant) == blocks <==> SafeB(blocks) && (constant ==> AllNumberLabels(blocks))
    decreases blocks
  {
    hide OptE, Safe, Kept, NumberLabels, NumbersOnly;
    match blocks
    case NoBlocks =>
    case Block(scopes, body, next) =>
      KeptScopes(0, scopes);
      KeptIsSafe(body);
      KeptIsSafeB(next, constant);
  }

  /** The optimizer cannot tell a program from what it keeps of it. */
  lemma {:induction false} KeptSame(x: Stmt)
    requires OptS(x).Some?
    ensures OptS(Kept(x)) == OptS(x)
    decreases x
  {
    hide OptE, OptA;
    match x
    case If(_, y) => KeptSame(y);
    case IfElse(_, y, z) => KeptSame(y); KeptSame(z);
    case While(_, body) => KeptSame(body);
    case For(_, _, _, body) => KeptSame(body);
    case Then(a, b) => KeptSame(a); KeptSame(b);
    case Case(e, blocks) =>
      if OptE(e).value.Numb? { KeptChosen(OptE(e).value.value, blocks); } else { KeptSameB(blocks); }
    case _ =>
  }

  lemma {:induction false} KeptSameB(blocks: Blocks)
    requires OptB(blocks).Some?
    ensures OptB(KeptB(blocks, false)) == OptB(blocks)
    decreases blocks
  {
    hide OptS, Kept;
    match blocks
    case NoBlocks =>
    case Block(_, body, next) => KeptSame(body); KeptSameB(next);
  }

  lemma {:induction false} KeptChosen(n: int32, blocks: Blocks)
    requires OptChosen(n, blocks).Some?
    ensures OptChosen(n, KeptB(blocks, true)) == OptChosen(n, blocks)
    decreases blocks
  {
    hide OptS, Kept, SomeTakes, NumbersOnly;
    match blocks
    case NoBlocks =>
    case Block(scopes, body, next) =>
      KeptScopes(n, scopes);
      if SomeTakes(n, scopes) { KeptSame(body); } else { KeptChosen(n, next); }
  }

  /** For every program the optimizer accepts: the optimized program does what the kept one
      does, up to faults in switches that lose all their tests. */
  lemma OptimizerKeeps(x: Stmt, s: Store, f: nat)
    requires OptS(x).Some?
    ensures Exec(Kept(x), s, f) != OutOfFuel && Exec(Kept(x), s, f) != Fault ==>
              Exec(OptS(x).value, s, f) == Exec(Kept(x), s, f)
    ensures Exec(OptS(x).value, s, f) != OutOfFuel ==>
              Exec(Kept(x), s, f + 1) == Exec(OptS(x).value, s, f) || Exec(Kept(x), s, f + 1) == Fault
  {
    hide OptS, Safe, Kept, Exec;
    KeptSame(x);
    KeptIsSafe(x);
    if Exec(Kept(x), s, f) != OutOfFuel && Exec(Kept(x), s, f) != Fault { OptimizerPreserves(Kept(x), s, f); }
    if Exec(OptS(x).value, s, f) != OutOfFuel { OptimizerReflects(Kept(x), s, f); }
  }

  // ----- where it is not ------------------------------------------------------------

  /** A for loop whose condition folds to zero loses its initialisation.  On a given store
      the loop is preserved exactly when the initialisation changes nothing there. */
  lemma DeadForDropsInit(init: Assignment, c: Expr, step: Assignment, body: Stmt, s: Store, f: nat)
    requires OptS(For(init, c, step, body)).Some? && OptE(c) == Some(Numb(0)) && f > 0
    ensures Exec(For(init, c, step, body), s, f) == Exec(OptS(For(init, c, step, body)).value, s, f)
            <==> ExecAssignment(init, s) == Normal(s)
  {
    FoldedIs(c, s);
    var r := ExecAssignment(init, s);
    if r.Normal? { FoldedIs(c, r.s); }
  }

  /** So it is not preserved on any store in which the variable is still unset. */
  lemma DeadForOnUnset(init: Assignment, c: Expr, step: Assignment, body: Stmt, s: Store, f: nat)
    requires OptS(For(init, c, step, body)).Some? && OptE(c) == Some(Numb(0)) && f > 0
    requires Get(init.v, s).None?
    ensures Exec(For(init, c, step, body), s, f) != Exec(OptS(For(init, c, step, body)).value, s, f)
  {
    DeadForDropsInit(init, c, step, body, s, f);
    var r := ExecAssignment(init, s);
    if r.Normal? { assert Get(init.v, r.s).Some?; }
  }

  /** No label that the optimizer passes over would have decided otherwise in this store: it
      has a value, and when that is the constant a later scope takes it too. */
  predicate Harmless(n: int32, scopes: seq<Scope>, s: Store) {
    if scopes == [] then true
    else if scopes[0].Equals? && !scopes[0].e.Numb? then
      var v := Eval(scopes[0].e, s);
      v.Some? && if v.value == n then SomeTakes(n, scopes[1..]) else Harmless(n, scopes[1..], s)
    else TakesConstant(n, scopes[0]) || Harmless(n, scopes[1..], s)
  }

  /** On a constant the optimizer decides about a block as the running program would exactly
      when the labels that are no numbers are harmless. */
  lemma {:induction false} ConstantMatchExactly(e: Expr, n: int32, scopes: seq<Scope>, s: Store)
    requires Eval(e, s) == Some(n)
    ensures AnyMatch(e, scopes, s) == Some(SomeTakes(n, scopes)) <==> Harmless(n, scopes, s)
    decreases |scopes|
  {
    if scopes != [] {
      if scopes[0].Equals? && !scopes[0].e.Numb? {
        ConstantMatchExactly(e, n, scopes[1..], s);
      } else {
        OneConstant(e, n, scopes[0], s);
        ConstantMatchExactly(e, n, scopes[1..], s);
      }
    }
  }

  /** The rest of a switch from the block that the program runs; no blocks when it runs none. */
  function Reached(e: Expr, blocks: Blocks, s: Store): Option<Blocks> {
    match blocks
    case NoBlocks => Some(NoBlocks)
    case Block(scopes, _, next) =>
      var m := AnyMatch(e, scopes, s);
      if m.None? then None else if m.value then Some(blocks) else Reached(e, next, s)
  }

  /** The same for the block that the optimizer chooses. */
  function Chosen(n: int32, blocks: Blocks): Blocks {
    match blocks
    case NoBlocks => NoBlocks
    case Block(scopes, _, next) => if SomeTakes(n, scopes) then blocks else Chosen(n, next)
  }

  function BodyOf(blocks: Blocks): Stmt {
    match blocks
    case NoBlocks => Empty
    case Block(_, body, _) => body
  }

  /** Up to the block the optimizer chooses no label that is an expression decides otherwise. */
  predicate HarmlessB(n: int32, blocks: Blocks, s: Store) {
    match blocks
    case NoBlocks => true
    case Block(scopes, _, next) => Harmless(n, scopes, s) && (SomeTakes(n, scopes) || HarmlessB(n, next, s))
  }

  /** On a constant the optimizer chooses the block that the program runs exactly when no label
      that is an expression, up to that block, would decide otherwise. */
  lemma {:induction false} ConstantSwitchExactly(e: Expr, n: int32, blocks: Blocks, s: Store)
    requires Eval(e, s) == Some(n)
    ensures Reached(e, blocks, s) == Some(Chosen(n, blocks)) <==> HarmlessB(n, blocks, s)
  {
    hide Eval, AnyMatch, SomeTakes, Harmless;
    match blocks
    case NoBlocks =>
    case Block(scopes, _, next) =>
      ConstantMatchExactly(e, n, scopes, s);
      ConstantSwitchExactly(e, n, next, s);
      ReachedSmaller(e, n, next, s);
  }

  lemma {:induction false} ReachedSmaller(e: Expr, n: int32, blocks: Blocks, s: Store)
    ensures BlockCount(Chosen(n, blocks)) <= BlockCount(blocks)
    ensures Reached(e, blocks, s).Some? ==> BlockCount(Reached(e, blocks, s).value) <= BlockCount(blocks)
  {
    match blocks
    case NoBlocks =>
    case Block(_, _, next) => ReachedSmaller(e, n, next, s);
  }

  function BlockCount(blocks: Blocks): nat {
    match blocks
    case NoBlocks => 0
    case Block(_, _, next) => 1 + BlockCount(next)
  }

  /** The bodies of these blocks are what is run and what is optimized. */
  lemma {:induction false} ChosenBodies(e: Expr, n: int32, blocks: Blocks, s: Store)
    ensures Select(e, blocks, s) == (var r := Reached(e, blocks, s); if r.None? then None else Some(BodyOf(r.value)))
    ensures OptChosen(n, blocks) == OptS(BodyOf(Chosen(n, blocks)))
  {
    hide AnyMatch, SomeTakes;
    match blocks
    case NoBlocks =>
    case Block(_, _, next) => ChosenBodies(e, n, next, s);
  }

  /** A label that is an expression is passed over when the switch is on a constant. */
  lemma ExpressionLabelSkipped()
    ensures var x := Case(Numb(2), Block([Equals(Var(Local(0)))], Write(Numb(5)), NoBlocks));
            var s := Store([], [Some(2)], []);
            OptS(x) == Some(Empty) && Exec(x, s, 1) == Normal(s.(out := [5])) && !Safe(x)
  {
    var l := Var(Local(0));
    var s := Store([], [Some(2)], []);
    assert Eval(l, s) == Some(2);
    assert [Equals(l)][1..] == [];
    assert SomeTakes(2, [Equals(l)]) == false;
    assert AnyMatch(Numb(2), [Equals(l)], s) == Some(true);
    assert Select(Numb(2), Block([Equals(l)], Write(Numb(5)), NoBlocks), s) == Some(Write(Numb(5)));
    assert Exec(Write(Numb(5)), s, 1) == Normal(Store([], [Some(2)], [5]));
  }

  /** Removing an empty range may remove the only test of a scrutinee that has no value. */
  lemma EmptyRangeHidesFault()
    ensures var x := Case(Var(Local(0)), Block([Range(4, 2)], Break, NoBlocks));
            var s := Store([], [None], []);
            OptS(x).Some? && Safe(x) && Exec(x, s, 1) == Fault && Exec(OptS(x).value, s, 1) == Normal(s)
  {
    var s := Store([], [None], []);
    assert [Range(4, 2)][1..] == [];
    assert Trim([Range(4, 2)]) == [];
    assert AnyMatch(Var(Local(0)), [Range(4, 2)], s) == None;
    assert AnyMatch(Var(Local(0)), [], s) == Some(false);
    assert OptB(Block([Range(4, 2)], Break, NoBlocks)) == Some(Block([], Break, NoBlocks));
    assert Select(Var(Local(0)), Block([], Break, NoBlocks), s) == Some(Empty);
  }
}
