/** Where the jumps of compiled code land: on the first byte of an instruction or at the
    end of the code, breaks that are still unresolved aside. */
module JumpTargets {
  import opened Basics
  import opened Operators
  import opened SourceLanguage
  import opened ConstTable
  import opened Bytecode

  function InstrSize(op: byte): (n: nat)
    ensures 1 <= n <= 3
  {
    if IsLong(op) then 3 else if op == BOP then 2 else 1
  }

  /** The bytes are whole instructions. */
  predicate Whole(code: seq<byte>) {
    code == [] || (InstrSize(code[0]) <= |code| && Whole(code[InstrSize(code[0])..]))
  }

  /** The addresses at which instructions start, and the end. */
  function Boundaries(code: seq<byte>, org: nat): (b: set<nat>)
    requires Whole(code)
    ensures org in b && org + |code| in b
  {
    {org} + if code == [] then {} else Boundaries(code[InstrSize(code[0])..], org + InstrSize(code[0]))
  }

  /** Every jump goes to an allowed address. */
  predicate JumpsTo(code: seq<byte>, allowed: set<nat>)
    requires Whole(code)
  {
    code == [] ||
    ((code[0] == JU || code[0] == IFNJ ==> WordAt(code, 1) in allowed) && JumpsTo(code[InstrSize(code[0])..], allowed))
  }

  lemma {:induction false} AppendWhole(a: seq<byte>, b: seq<byte>)
    requires Whole(a) && Whole(b)
    ensures Whole(a + b)
    decreases |a|
  {
    if a == [] {
      assert a + b == b;
    } else {
      var n := InstrSize(a[0]);
      assert (a + b)[n..] == a[n..] + b;
      AppendWhole(a[n..], b);
    }
  }

  /** One instruction off the front. */
  lemma StepOver(code: seq<byte>, n: nat, org: nat, allowed: set<nat>)
    requires code != [] && n == InstrSize(code[0]) && Whole(code)
    ensures n <= |code| && Whole(code[n..])
    ensures Boundaries(code, org) == {org} + Boundaries(code[n..], org + n)
    ensures JumpsTo(code, allowed) <==>
              (n == 3 && (code[0] == JU || code[0] == IFNJ) ==> WordAt(code, 1) in allowed) && JumpsTo(code[n..], allowed)
  {
    hide WordAt;
    assert IsLong(JU) && IsLong(IFNJ);
  }

  lemma FirstOf(a: seq<byte>, b: seq<byte>, n: nat)
    requires a != [] && n <= |a|
    ensures (a + b)[0] == a[0] && (a + b)[n..] == a[n..] + b
    ensures n == 3 ==> WordAt(a + b, 1) == WordAt(a, 1)
  {
    assert (a + b)[n..] == a[n..] + b;
  }

  lemma {:induction false} AppendParts(a: seq<byte>, b: seq<byte>, org: nat, allowed: set<nat>)
    requires Whole(a) && Whole(b) && Whole(a + b)
    ensures Boundaries(a + b, org) == Boundaries(a, org) + Boundaries(b, org + |a|)
    ensures JumpsTo(a, allowed) && JumpsTo(b, allowed) ==> JumpsTo(a + b, allowed)
    decreases |a|
  {
    hide Boundaries, JumpsTo, Whole, InstrSize, WordAt;
    if a == [] {
      assert a + b == b;
      EmptyParts(org, allowed);
    } else {
      var n := InstrSize(a[0]);
      StepOver(a, n, org, allowed);
      FirstOf(a, b, n);
      StepOver(a + b, n, org, allowed);
      AppendParts(a[n..], b, org + n, allowed);
    }
  }

  lemma EmptyParts(org: nat, allowed: set<nat>)
    ensures Whole([]) && Boundaries([], org) == {org} && JumpsTo([], allowed)
  {
  }

  /** The boundaries of both pieces are among the allowed addresses. */
  lemma Append(a: seq<byte>, b: seq<byte>, org: nat, allowed: set<nat>)
    requires Whole(a) && Whole(b)
    ensures Whole(a + b)
    ensures Boundaries(a + b, org) <= allowed ==> Boundaries(a, org) <= allowed && Boundaries(b, org + |a|) <= allowed
    ensures JumpsTo(a, allowed) && JumpsTo(b, allowed) ==> JumpsTo(a + b, allowed)
  {
    hide Whole, Boundaries, JumpsTo;
    AppendWhole(a, b);
    AppendParts(a, b, org, allowed);
  }

  lemma {:induction false} Allow(code: seq<byte>, s: set<nat>, t: set<nat>)
    requires Whole(code) && JumpsTo(code, s) && s <= t
    ensures JumpsTo(code, t)
  {
    if code != [] { Allow(code[InstrSize(code[0])..], s, t); }
  }

  lemma OneWord(op: byte, arg: nat, allowed: set<nat>)
    requires IsLong(op) && arg < 0x1_0000 && (op == JU || op == IFNJ ==> arg in allowed)
    ensures Whole(Word(op, arg)) && JumpsTo(Word(op, arg), allowed)
  {
    assert Word(op, arg)[3..] == [];
  }

  /** Code without jumps. */
  predicate Straight(code: seq<byte>) { Whole(code) && JumpsTo(code, {}) }

  lemma StraightAppend(a: seq<byte>, b: seq<byte>)
    requires Straight(a) && Straight(b)
    ensures Straight(a + b)
  {
    Append(a, b, 0, {});
  }

  lemma ShortInstructions(op: Operator)
    ensures Straight([BOP, OpCode(op)]) && Straight([UNM]) && Straight([NOT]) && Straight([ST]) && Straight([WRT])
    ensures Straight([DUP, DR]) && Straight([BOP, OpCode(op), ST])
  {
    assert [BOP, OpCode(op)][2..] == [] && [UNM][1..] == [] && [NOT][1..] == [] && [ST][1..] == [] && [WRT][1..] == [];
    InstructionPairs(op);
  }

  lemma InstructionPairs(op: Operator)
    ensures Straight([DUP, DR]) && Straight([BOP, OpCode(op), ST])
  {
    assert [DUP, DR][1..] == [DR] && [DR][1..] == [];
    assert [BOP, OpCode(op), ST][2..] == [ST] && [ST][1..] == [];
  }

  lemma StraightWord(op: byte, arg: nat)
    requires IsLong(op) && op != JU && op != IFNJ
    ensures Straight(Word(op, arg))
  {
    assert Word(op, arg)[3..] == [];
  }

  lemma {:induction false} ExprStraight(e: Expr, t: Table)
    ensures Straight(CodeE(e, t))
  {
    hide Straight, InternedAt, OpCode;
    match e
    case Numb(n) => StraightWord(LVBI_C, InternedAt(t, IntKey(n)));
    case Var(v) => StraightLoad(v);
    case Bin(op, l, r) =>
      ExprStraight(l, t);
      ExprStraight(r, t);
      ShortInstructions(op);
      StraightAppend(CodeE(l, t), CodeE(r, t));
      StraightAppend(CodeE(l, t) + CodeE(r, t), [BOP, OpCode(op)]);
    case UnMinus(x) => ExprStraight(x, t); ShortInstructions(Plus); StraightAppend(CodeE(x, t), [UNM]);
    case Not(x) => ExprStraight(x, t); ShortInstructions(Plus); StraightAppend(CodeE(x, t), [NOT]);
  }

  lemma StraightLoad(v: Variable)
    ensures Straight(Load(v)) && Straight(LoadAddress(v))
  {
    match v
    case Local(i) => StraightWord(LVBI_LOC, i); StraightWord(LABI_LOC, i);
    case Arg(i) => StraightWord(LVBI_ARG, i); StraightWord(LABI_ARG, i);
  }

  lemma AssignStraight(a: Assignment, t: Table)
    ensures Straight(CodeA(a, t))
  {
    hide Straight, OpCode, LoadAddress, CodeE;
    StraightLoad(a.v);
    ExprStraight(a.e, t);
    match a
    case Assign(v, e) =>
      ShortInstructions(Plus);
      StraightAppend(LoadAddress(v), CodeE(e, t));
      StraightAppend(LoadAddress(v) + CodeE(e, t), [ST]);
    case AssignWithBop(op, v, e) =>
      ShortInstructions(op);
      StraightAppend(LoadAddress(v), [DUP, DR]);
      StraightAppend(LoadAddress(v) + [DUP, DR], CodeE(e, t));
      StraightAppend(LoadAddress(v) + [DUP, DR] + CodeE(e, t), [BOP, OpCode(op), ST]);
  }

  // ----- pieces in a row ------------------------------------------------------------

  /** Up to five pieces: they are whole together, boundaries of each are boundaries of all,
      and the jumps of all are the jumps of each. */
  lemma Five(a: seq<byte>, b: seq<byte>, c: seq<byte>, d: seq<byte>, f: seq<byte>, org: nat, allowed: set<nat>)
    requires Whole(a) && Whole(b) && Whole(c) && Whole(d) && Whole(f)
    ensures Whole(a + b + c + d + f)
    ensures Boundaries(a + b + c + d + f, org) <= allowed ==>
              && Boundaries(a, org) <= allowed && Boundaries(b, org + |a|) <= allowed
              && Boundaries(c, org + |a| + |b|) <= allowed && Boundaries(d, org + |a| + |b| + |c|) <= allowed
              && Boundaries(f, org + |a| + |b| + |c| + |d|) <= allowed
    ensures JumpsTo(a, allowed) && JumpsTo(b, allowed) && JumpsTo(c, allowed) && JumpsTo(d, allowed) && JumpsTo(f, allowed) ==>
              JumpsTo(a + b + c + d + f, allowed)
  {
    hide Whole, Boundaries, JumpsTo;
    Append(a, b, org, allowed);
    Append(a + b, c, org, allowed);
    Append(a + b + c, d, org, allowed);
    Append(a + b + c + d, f, org, allowed);
  }

  lemma Nothing(s: seq<byte>, org: nat, allowed: set<nat>)
    ensures Whole([]) && JumpsTo([], allowed) && s + [] == s && s + [] + [] == s
  {
    assert s + [] == s;
  }

  lemma StraightJumps(code: seq<byte>, allowed: set<nat>)
    requires Straight(code)
    ensures Whole(code) && JumpsTo(code, allowed)
  {
    Allow(code, {}, allowed);
  }

  lemma WordSize(op: byte, arg: nat)
    ensures |Word(op, arg)| == 3 && (IsLong(op) ==> Whole(Word(op, arg)))
  {
    assert Word(op, arg)[3..] == [];
  }

  /** Where a piece starts and ends is among its boundaries. */
  lemma Ends(code: seq<byte>, org: nat, allowed: set<nat>)
    requires Whole(code) && Boundaries(code, org) <= allowed
    ensures org in allowed && org + |code| in allowed
  {
  }

  /** A condition with its jump. */
  lemma CondJumps(e: Expr, target: nat, t: Table, org: nat, allowed: set<nat>)
    ensures Whole(CodeE(e, t) + Word(IFNJ, target))
    ensures target < 0x1_0000 && target in allowed ==> JumpsTo(CodeE(e, t) + Word(IFNJ, target), allowed)
  {
    hide CodeE, Whole, JumpsTo, Straight, Word;
    ExprStraight(e, t);
    StraightJumps(CodeE(e, t), allowed);
    WordSize(IFNJ, target);
    if target < 0x1_0000 && target in allowed { OneWord(IFNJ, target, allowed); }
    Append(CodeE(e, t), Word(IFNJ, target), org, allowed);
  }

  // ----- whole instructions ---------------------------------------------------------

  lemma ScopeWhole(e: Expr, scope: Scope, org: nat, target: nat, t: Table)
    ensures Whole(CodeScope(e, scope, org, target, t))
  {
    hide Whole, CodeE, Word, SizeE;
    match scope
    case Default => WordSize(JU, target);
    case Equals(l) => CondJumps(Bin(NotEq, e, l), target, t, org, {});
    case Range(lo, hi) =>
      var skip := org + SizeScope(e, scope);
      var low, high := Bin(GreaterOrEq, e, Numb(lo)), Bin(Greater, e, Numb(hi));
      CondJumps(low, skip, t, org, {});
      CondJumps(high, target, t, org, {});
      AppendWhole(CodeE(low, t) + Word(IFNJ, skip), CodeE(high, t) + Word(IFNJ, target));
      Join2(CodeE(low, t) + Word(IFNJ, skip), CodeE(high, t), Word(IFNJ, target));
  }

  lemma {:induction false} ScopesWhole(e: Expr, scopes: seq<Scope>, org: nat, target: nat, t: Table)
    ensures Whole(CodeScopes(e, scopes, org, target, t))
    decreases |scopes|
  {
    hide CodeScope, SizeScope;
    if scopes != [] {
      ScopeWhole(e, scopes[0], org, target, t);
      ScopesWhole(e, scopes[1..], org + SizeScope(e, scopes[0]), target, t);
      AppendWhole(CodeScope(e, scopes[0], org, target, t),
                  CodeScopes(e, scopes[1..], org + SizeScope(e, scopes[0]), target, t));
    }
  }

  lemma {:induction false} StmtWhole(x: Stmt, org: nat, brk: nat, t: Table)
    ensures Whole(CodeS(x, org, brk, t))
    decreases x, 3
  {
    hide Whole, Boundaries, JumpsTo, CodeE, CodeA, CodeB, CodeTurns, SizeE, SizeA, SizeB, Straight, Word;
    Nothing([], 0, {});
    match x
    case Empty =>
    case Simple(a) => AssignStraight(a, t); StraightJumps(CodeA(a, t), {});
    case Write(e) => WriteStraight(e, t); StraightJumps(CodeE(e, t) + [WRT], {});
    case If(c, y) =>
      var at, end := org + SizeE(c) + 3, org + SizeS(x);
      CondJumps(c, end, t, org, {});
      StmtWhole(y, at, brk, t);
      AppendWhole(CodeE(c, t) + Word(IFNJ, end), CodeS(y, at, brk, t));
    case IfElse(c, y, z) =>
      var at, end := org + SizeE(c) + 3, org + SizeS(x);
      var bt := at + SizeS(y) + 3;
      CondJumps(c, bt, t, org, {});
      StmtWhole(y, at, brk, t);
      WordSize(JU, end);
      StmtWhole(z, bt, brk, t);
      Nothing(CodeE(c, t) + Word(IFNJ, bt) + CodeS(y, at, brk, t) + Word(JU, end) + CodeS(z, bt, brk, t), 0, {});
      Five(CodeE(c, t) + Word(IFNJ, bt), CodeS(y, at, brk, t), Word(JU, end), CodeS(z, bt, brk, t), [], org, {});
    case While(c, body) =>
      var at, end := org + SizeE(c) + 3, org + SizeS(x);
      CondJumps(c, end, t, org, {});
      StmtWhole(body, at, end, t);
      WordSize(JU, org);
      AppendWhole(CodeE(c, t) + Word(IFNJ, end), CodeS(body, at, end, t));
      AppendWhole(CodeE(c, t) + Word(IFNJ, end) + CodeS(body, at, end, t), Word(JU, org));
    case For(init, c, step, body) =>
      AssignStraight(init, t);
      StraightJumps(CodeA(init, t), {});
      TurnsWhole(c, step, body, org + SizeA(init), t);
      AppendWhole(CodeA(init, t), CodeTurns(c, step, body, org + SizeA(init), t));
    case Break => WordSize(JU, brk);
    case Then(a, b) =>
      StmtWhole(a, org, brk, t);
      StmtWhole(b, org + SizeS(a), brk, t);
      AppendWhole(CodeS(a, org, brk, t), CodeS(b, org + SizeS(a), brk, t));
    case Case(e, blocks) => BlocksWhole(e, blocks, org, brk, org + SizeS(x), t);
  }

  lemma WriteStraight(e: Expr, t: Table)
    ensures Straight(CodeE(e, t) + [WRT])
  {
    hide Straight, CodeE;
    ExprStraight(e, t);
    ShortInstructions(Plus);
    StraightAppend(CodeE(e, t), [WRT]);
  }

  lemma {:induction false} TurnsWhole(c: Expr, step: Assignment, body: Stmt, org: nat, t: Table)
    ensures Whole(CodeTurns(c, step, body, org, t))
    decreases body, 4
  {
    hide Whole, CodeE, CodeA, CodeS, SizeS, SizeE, SizeA, Straight, Word;
    var at, end := org + SizeE(c) + 3, org + SizeTurns(c, step, body);
    CondJumps(c, end, t, org, {});
    StmtWhole(body, at, end, t);
    AssignStraight(step, t);
    StraightJumps(CodeA(step, t), {});
    WordSize(JU, org);
    AppendWhole(CodeE(c, t) + Word(IFNJ, end), CodeS(body, at, end, t));
    AppendWhole(CodeE(c, t) + Word(IFNJ, end) + CodeS(body, at, end, t), CodeA(step, t));
    AppendWhole(CodeE(c, t) + Word(IFNJ, end) + CodeS(body, at, end, t) + CodeA(step, t), Word(JU, org));
  }

  lemma {:induction false} BlocksWhole(e: Expr, blocks: Blocks, org: nat, brk: nat, fin: nat, t: Table)
    ensures Whole(CodeB(e, blocks, org, brk, fin, t))
    decreases blocks, 0
  {
    hide Whole, CodeScopes, SizeScopes, CodeS, SizeS, Word, Boundaries, JumpsTo;
    Nothing([], 0, {});
    match blocks
    case NoBlocks =>
    case Block(scopes, body, next) =>
      var start := org + SizeScopes(e, scopes) + 3;
      var over := start + SizeS(body) + (if next.Block? then 3 else 0);
      ScopesWhole(e, scopes, org, start, t);
      WordSize(JU, over);
      WordSize(JU, fin);
      StmtWhole(body, start, brk, t);
      BlocksWhole(e, next, over, brk, fin, t);
      Five(CodeScopes(e, scopes, org, start, t), Word(JU, over), CodeS(body, start, brk, t),
           if next.Block? then Word(JU, fin) else [], CodeB(e, next, over, brk, fin, t), org, {});
  }

  // ----- where jumps land -----------------------------------------------------------

  lemma ScopeJump(e: Expr, scope: Scope, org: nat, target: nat, t: Table, allowed: set<nat>)
    requires Whole(CodeScope(e, scope, org, target, t)) && Boundaries(CodeScope(e, scope, org, target, t), org) <= allowed
    requires target in allowed && target < 0x1_0000 && org + SizeScope(e, scope) < 0x1_0000
    ensures JumpsTo(CodeScope(e, scope, org, target, t), allowed)
  {
    hide Whole, CodeE, Word, SizeE, Boundaries, JumpsTo;
    Ends(CodeScope(e, scope, org, target, t), org, allowed);
    match scope
    case Default => OneWord(JU, target, allowed);
    case Equals(l) => CondJumps(Bin(NotEq, e, l), target, t, org, allowed);
    case Range(lo, hi) =>
      var skip := org + SizeScope(e, scope);
      var low, high := Bin(GreaterOrEq, e, Numb(lo)), Bin(Greater, e, Numb(hi));
      CondJumps(low, skip, t, org, allowed);
      CondJumps(high, target, t, org, allowed);
      Join2(CodeE(low, t) + Word(IFNJ, skip), CodeE(high, t), Word(IFNJ, target));
      Append(CodeE(low, t) + Word(IFNJ, skip), CodeE(high, t) + Word(IFNJ, target), org, allowed);
  }

  lemma {:induction false} ScopesJump(e: Expr, scopes: seq<Scope>, org: nat, target: nat, t: Table, allowed: set<nat>)
    requires Whole(CodeScopes(e, scopes, org, target, t)) && Boundaries(CodeScopes(e, scopes, org, target, t), org) <= allowed
    requires target in allowed && target < 0x1_0000 && org + SizeScopes(e, scopes) < 0x1_0000
    ensures JumpsTo(CodeScopes(e, scopes, org, target, t), allowed)
    decreases |scopes|
  {
    hide CodeScope, SizeScope, Whole, Boundaries, JumpsTo;
    if scopes == [] {
      Nothing([], 0, allowed);
    } else {
      var next := org + SizeScope(e, scopes[0]);
      var a, b := CodeScope(e, scopes[0], org, target, t), CodeScopes(e, scopes[1..], next, target, t);
      ScopeWhole(e, scopes[0], org, target, t);
      ScopesWhole(e, scopes[1..], next, target, t);
      Append(a, b, org, allowed);
      ScopeJump(e, scopes[0], org, target, t, allowed);
      ScopesJump(e, scopes[1..], next, target, t, allowed);
    }
  }

  /** In the code of a statement every jump lands on the first byte of an instruction of that
      code or at its end -- or, as a break of an outer loop, at `brk`. */
  lemma {:induction false} JumpsLand(x: Stmt, org: nat, brk: nat, t: Table, allowed: set<nat>)
    requires org + SizeS(x) < 0x1_0000 && brk < 0x1_0000 && brk in allowed
    requires Whole(CodeS(x, org, brk, t)) && Boundaries(CodeS(x, org, brk, t), org) <= allowed
    ensures JumpsTo(CodeS(x, org, brk, t), allowed)
    decreases x, 3
  {
    hide Whole, Boundaries, JumpsTo, CodeE, CodeA, CodeB, CodeTurns, SizeE, SizeA, SizeB, Straight, Word;
    Ends(CodeS(x, org, brk, t), org, allowed);
    Nothing([], 0, allowed);
    match x
    case Empty =>
    case Simple(a) => AssignStraight(a, t); StraightJumps(CodeA(a, t), allowed);
    case Write(e) => WriteStraight(e, t); StraightJumps(CodeE(e, t) + [WRT], allowed);
    case If(c, y) => IfJumps(c, y, org, brk, t, allowed);
    case IfElse(c, y, z) => IfElseJumps(c, y, z, org, brk, t, allowed);
    case While(c, body) => WhileJumps(c, body, org, brk, t, allowed);
    case For(init, c, step, body) =>
      var at := org + SizeA(init);
      AssignStraight(init, t);
      StraightJumps(CodeA(init, t), allowed);
      TurnsWhole(c, step, body, at, t);
      Append(CodeA(init, t), CodeTurns(c, step, body, at, t), org, allowed);
      TurnsJump(c, step, body, at, t, allowed);
    case Break => OneWord(JU, brk, allowed);
    case Then(a, b) =>
      StmtWhole(a, org, brk, t);
      StmtWhole(b, org + SizeS(a), brk, t);
      Append(CodeS(a, org, brk, t), CodeS(b, org + SizeS(a), brk, t), org, allowed);
      JumpsLand(a, org, brk, t, allowed);
      JumpsLand(b, org + SizeS(a), brk, t, allowed);
    case Case(e, blocks) => BlocksJump(e, blocks, org, brk, org + SizeS(x), t, allowed);
  }

  lemma {:induction false} IfJumps(c: Expr, y: Stmt, org: nat, brk: nat, t: Table, allowed: set<nat>)
    requires org + SizeS(If(c, y)) < 0x1_0000 && brk < 0x1_0000 && brk in allowed && org + SizeS(If(c, y)) in allowed
    requires Whole(CodeS(If(c, y), org, brk, t)) && Boundaries(CodeS(If(c, y), org, brk, t), org) <= allowed
    ensures JumpsTo(CodeS(If(c, y), org, brk, t), allowed)
    decreases If(c, y), 2
  {
    hide Whole, Boundaries, JumpsTo, CodeE, CodeB, CodeTurns, SizeE, SizeB, Word;
    var at, end := org + SizeE(c) + 3, org + SizeS(If(c, y));
    WordSize(IFNJ, end);
    CondJumps(c, end, t, org, allowed);
    StmtWhole(y, at, brk, t);
    Append(CodeE(c, t) + Word(IFNJ, end), CodeS(y, at, brk, t), org, allowed);
    JumpsLand(y, at, brk, t, allowed);
  }

  lemma {:induction false} IfElseJumps(c: Expr, y: Stmt, z: Stmt, org: nat, brk: nat, t: Table, allowed: set<nat>)
    requires var x := IfElse(c, y, z);
             org + SizeS(x) < 0x1_0000 && brk < 0x1_0000 && brk in allowed && org + SizeS(x) in allowed
             && Whole(CodeS(x, org, brk, t)) && Boundaries(CodeS(x, org, brk, t), org) <= allowed
    ensures JumpsTo(CodeS(IfElse(c, y, z), org, brk, t), allowed)
    decreases IfElse(c, y, z), 2
  {
    hide Whole, Boundaries, JumpsTo, CodeE, CodeB, CodeTurns, SizeE, SizeB, Word;
    var at, end := org + SizeE(c) + 3, org + SizeS(IfElse(c, y, z));
    var bt := at + SizeS(y) + 3;
    var a, b, d, f := CodeE(c, t) + Word(IFNJ, bt), CodeS(y, at, brk, t), Word(JU, end), CodeS(z, bt, brk, t);
    WordSize(IFNJ, bt);
    WordSize(JU, end);
    CondJumps(c, bt, t, org, allowed);
    StmtWhole(y, at, brk, t);
    StmtWhole(z, bt, brk, t);
    Nothing(a + b + d + f, 0, allowed);
    Five(a, b, d, f, [], org, allowed);
    Ends(f, bt, allowed);
    OneWord(JU, end, allowed);
    JumpsLand(y, at, brk, t, allowed);
    JumpsLand(z, bt, brk, t, allowed);
  }

  lemma {:induction false} WhileJumps(c: Expr, body: Stmt, org: nat, brk: nat, t: Table, allowed: set<nat>)
    requires var x := While(c, body);
             org + SizeS(x) < 0x1_0000 && org in allowed && org + SizeS(x) in allowed
             && Whole(CodeS(x, org, brk, t)) && Boundaries(CodeS(x, org, brk, t), org) <= allowed
    ensures JumpsTo(CodeS(While(c, body), org, brk, t), allowed)
    decreases While(c, body), 2
  {
    hide Whole, Boundaries, JumpsTo, CodeE, CodeB, CodeTurns, SizeE, SizeB, Word;
    var at, end := org + SizeE(c) + 3, org + SizeS(While(c, body));
    var a, b, d := CodeE(c, t) + Word(IFNJ, end), CodeS(body, at, end, t), Word(JU, org);
    WordSize(IFNJ, end);
    WordSize(JU, org);
    CondJumps(c, end, t, org, allowed);
    StmtWhole(body, at, end, t);
    Append(a, b, org, allowed);
    Append(a + b, d, org, allowed);
    OneWord(JU, org, allowed);
    JumpsLand(body, at, end, t, allowed);
  }

  lemma {:induction false} TurnsJump(c: Expr, step: Assignment, body: Stmt, org: nat, t: Table, allowed: set<nat>)
    requires org + SizeTurns(c, step, body) < 0x1_0000
    requires Whole(CodeTurns(c, step, body, org, t)) && Boundaries(CodeTurns(c, step, body, org, t), org) <= allowed
    ensures JumpsTo(CodeTurns(c, step, body, org, t), allowed)
    decreases body, 4
  {
    hide Whole, Boundaries, JumpsTo, CodeE, CodeA, CodeS, SizeS, SizeE, SizeA, Straight, Word;
    Ends(CodeTurns(c, step, body, org, t), org, allowed);
    var at, end := org + SizeE(c) + 3, org + SizeTurns(c, step, body);
    var a, b, d, f := CodeE(c, t) + Word(IFNJ, end), CodeS(body, at, end, t), CodeA(step, t), Word(JU, org);
    WordSize(IFNJ, end);
    WordSize(JU, org);
    CondJumps(c, end, t, org, allowed);
    StmtWhole(body, at, end, t);
    AssignStraight(step, t);
    StraightJumps(d, allowed);
    Nothing(a + b + d + f, 0, allowed);
    Five(a, b, d, f, [], org, allowed);
    OneWord(JU, org, allowed);
    JumpsLand(body, at, end, t, allowed);
  }

  lemma {:induction false} BlocksJump(e: Expr, blocks: Blocks, org: nat, brk: nat, fin: nat, t: Table, allowed: set<nat>)
    requires org + SizeB(e, blocks) < 0x1_0000 && brk < 0x1_0000 && fin < 0x1_0000 && brk in allowed && fin in allowed
    requires Whole(CodeB(e, blocks, org, brk, fin, t)) && Boundaries(CodeB(e, blocks, org, brk, fin, t), org) <= allowed
    ensures JumpsTo(CodeB(e, blocks, org, brk, fin, t), allowed)
    decreases blocks, 0
  {
    hide Whole, Boundaries, JumpsTo, CodeScopes, SizeScopes, CodeS, SizeS, Word;
    Nothing([], 0, allowed);
    match blocks
    case NoBlocks =>
    case Block(scopes, body, next) =>
      var start := org + SizeScopes(e, scopes) + 3;
      var over := start + SizeS(body) + (if next.Block? then 3 else 0);
      var a, b, c := CodeScopes(e, scopes, org, start, t), Word(JU, over), CodeS(body, start, brk, t);
      var d, f := if next.Block? then Word(JU, fin) else [], CodeB(e, next, over, brk, fin, t);
      WordSize(JU, over);
      WordSize(JU, fin);
      ScopesWhole(e, scopes, org, start, t);
      StmtWhole(body, start, brk, t);
      BlocksWhole(e, next, over, brk, fin, t);
      Five(a, b, c, d, f, org, allowed);
      Ends(c, start, allowed);
      Ends(f, over, allowed);
      ScopesJump(e, scopes, org, start, t, allowed);
      OneWord(JU, over, allowed);
      OneWord(JU, fin, allowed);
      JumpsLand(body, start, brk, t, allowed);
      BlocksJump(e, next, over, brk, fin, t, allowed);
  }

  /** The whole code of a statement: whole instructions, and no jump into the middle of one. */
  lemma AllJumpsLand(x: Stmt, org: nat, brk: nat, t: Table)
    requires org + SizeS(x) < 0x1_0000 && brk < 0x1_0000
    ensures Whole(CodeS(x, org, brk, t))
    ensures JumpsTo(CodeS(x, org, brk, t), Boundaries(CodeS(x, org, brk, t), org) + {brk})
  {
    hide CodeS, SizeS, Boundaries, JumpsTo;
    StmtWhole(x, org, brk, t);
    JumpsLand(x, org, brk, t, Boundaries(CodeS(x, org, brk, t), org) + {brk});
  }
}
