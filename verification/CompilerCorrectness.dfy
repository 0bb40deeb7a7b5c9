/** Compiler correctness: the machine running the code of a statement does what the
    statement means, and terminates exactly when it does. */
module CompilerCorrectness {
  import opened Basics
  import opened Operators
  import opened SourceLanguage
  import opened ConstTable
  import opened Bytecode
  import opened CompiledCode

  /** The machine stands before the code of `x`, which lies in [lo, hi), with a frame
      that holds the store and room for the operands. */
  ghost predicate Ready(p: Image, x: Stmt, s: Store, m: Vm, brk: nat, lo: nat, hi: nat) {
    && Fits(p) && Sits(p, m.ip, CodeS(x, m.ip, brk, p.table)) && CoversS(x, p.table)
    && Rel(s, m) && ScopedS(x, |s.args|, |s.locals|) && |m.stack| + DepthS(x) <= STACK_SIZE
    && lo <= m.ip && m.ip + SizeS(x) <= hi <= |p.code| && brk < 0x1_0000
  }

  /** A piece that ran to the state `w`, then another. */
  lemma Chain(p: Image, m: Vm, a: nat, lo: nat, hi: nat, s: Store, t: Store, b: nat, o: Outcome,
              before: nat, fuel: nat, end: nat, brk: nat)
    requires Go(p, m, a, lo, hi).Running? && Done(s, t, m, Go(p, m, a, lo, hi).m)
    requires Ends(p, Go(p, m, a, lo, hi).m, b, lo, hi, t, o, before, end, brk) && fuel <= before + a
    ensures Ends(p, m, a + b, lo, hi, s, o, fuel, end, brk)
  {
    hide Go, Done;
    GoJoin(p, m, a, b, lo, hi);
    match o
    case Normal(u) => DoneTrans(s, t, u, m, Go(p, m, a, lo, hi).m, Go(p, m, a + b, lo, hi).m);
    case Broke(u) => DoneTrans(s, t, u, m, Go(p, m, a, lo, hi).m, Go(p, m, a + b, lo, hi).m);
    case _ =>
  }

  /** A jump that changes nothing else, then another piece. */
  lemma ChainJump(p: Image, m: Vm, a: nat, lo: nat, hi: nat, s: Store, ip: nat, b: nat, o: Outcome,
                  before: nat, fuel: nat, end: nat, brk: nat)
    requires Go(p, m, a, lo, hi) == Running(m.(ip := ip)) && Rel(s, m)
    requires Ends(p, m.(ip := ip), b, lo, hi, s, o, before, end, brk) && fuel <= before + a
    ensures Ends(p, m, a + b, lo, hi, s, o, fuel, end, brk)
  {
    hide Go, Done, Rel;
    DoneSame(s, m, ip);
    Chain(p, m, a, lo, hi, s, s, b, o, before, fuel, end, brk);
  }

  /** A jump at the end of a piece that ended normally. */
  lemma EndJump(p: Image, m: Vm, n: nat, lo: nat, hi: nat, s: Store, o: Outcome, fuel: nat, end: nat, brk: nat,
                target: nat) returns (k: nat)
    requires Ends(p, m, n, lo, hi, s, o, fuel, end, brk)
    requires Sits(p, end, Word(JU, target)) && target < 0x1_0000 && lo <= end < hi
    ensures Ends(p, m, k, lo, hi, s, o, fuel, target, brk) && n <= k
  {
    hide Go, Step, Sits;
    k := n;
    if o.Normal? {
      var w := Go(p, m, n, lo, hi).m;
      StepJump(p, w, target);
      OneTurn(p, m, n, lo, hi);
      k := n + 1;
      RelMove(o.s, w, target);
    }
  }

  lemma RelMove(s: Store, m: Vm, ip: nat)
    requires Rel(s, m)
    ensures Rel(s, m.(ip := ip))
  {
  }

  /** An empty piece. */
  lemma NothingRuns(p: Image, m: Vm, lo: nat, hi: nat, s: Store, fuel: nat, brk: nat)
    requires Rel(s, m)
    ensures Ends(p, m, 0, lo, hi, s, Normal(s), fuel, m.ip, brk)
  {
    hide Rel;
    DoneSame(s, m, m.ip);
  }

  lemma FaultRuns(p: Image, m: Vm, n: nat, lo: nat, hi: nat, s: Store, fuel: nat, end: nat, brk: nat)
    requires Go(p, m, n, lo, hi).Crashed?
    ensures Ends(p, m, n, lo, hi, s, Fault, fuel, end, brk)
  {
  }

  // ----- compound statements --------------------------------------------------------

  lemma PartsThen(p: Image, a: Stmt, b: Stmt, org: nat, brk: nat)
    requires Sits(p, org, CodeS(Then(a, b), org, brk, p.table))
    ensures Sits(p, org, CodeS(a, org, brk, p.table))
    ensures Sits(p, org + SizeS(a), CodeS(b, org + SizeS(a), brk, p.table))
  {
    hide Sits, CodeE, CodeB, CodeTurns, CodeA, SizeA, SizeB, SizeE;
    SitsSplit(p, org, CodeS(a, org, brk, p.table), CodeS(b, org + SizeS(a), brk, p.table));
  }

  lemma ReadyThen(p: Image, a: Stmt, b: Stmt, s: Store, m: Vm, brk: nat, lo: nat, hi: nat)
    requires Ready(p, Then(a, b), s, m, brk, lo, hi)
    ensures Ready(p, a, s, m, brk, lo, hi)
    ensures forall t, w :: Done(s, t, m, w) && w.ip == m.ip + SizeS(a) ==> Ready(p, b, t, w, brk, lo, hi)
  {
    hide Ready, Rel, IsVariable;
    ReadyParts(p, a, b, s, m, brk, lo, hi);
    forall t, w | Done(s, t, m, w) && w.ip == m.ip + SizeS(a) ensures Ready(p, b, t, w, brk, lo, hi) {
      ReadyAfter(p, b, s, m.(ip := m.ip + SizeS(a)), t, w, brk, lo, hi);
    }
  }

  lemma ReadyParts(p: Image, a: Stmt, b: Stmt, s: Store, m: Vm, brk: nat, lo: nat, hi: nat)
    requires Ready(p, Then(a, b), s, m, brk, lo, hi)
    ensures Ready(p, a, s, m, brk, lo, hi) && Ready(p, b, s, m.(ip := m.ip + SizeS(a)), brk, lo, hi)
  {
    hide Rel, Sits, CodeS, SizeS, CoversS, ScopedS, DepthS;
    PartsThen(p, a, b, m.ip, brk);
    ThenUnfolds(a, b, p.table, |s.args|, |s.locals|);
    RelMove(s, m, m.ip + SizeS(a));
  }

  lemma ThenUnfolds(a: Stmt, b: Stmt, t: Table, args: nat, locals: nat)
    ensures SizeS(Then(a, b)) == SizeS(a) + SizeS(b)
    ensures DepthS(a) <= DepthS(Then(a, b)) && DepthS(b) <= DepthS(Then(a, b))
    ensures CoversS(Then(a, b), t) ==> CoversS(a, t) && CoversS(b, t)
    ensures ScopedS(Then(a, b), args, locals) ==> ScopedS(a, args, locals) && ScopedS(b, args, locals)
  {
    hide SizeE, SizeA, SizeB, DepthE, DepthA, DepthB, CoversE, CoversB, ScopedE, ScopedA, ScopedB;
  }

  /** Running on does not make code unready. */
  lemma ReadyAfter(p: Image, b: Stmt, s: Store, m: Vm, t: Store, w: Vm, brk: nat, lo: nat, hi: nat)
    requires Ready(p, b, s, m, brk, lo, hi) && Rel(t, w) && w.ip == m.ip && |w.stack| == |m.stack|
    requires |t.args| == |s.args| && |t.locals| == |s.locals|
    ensures Ready(p, b, t, w, brk, lo, hi)
  {
    hide Rel, Sits, CodeS, SizeS, DepthS, ScopedS, CoversS;
  }

  lemma PartsIf(p: Image, c: Expr, y: Stmt, org: nat, brk: nat)
    requires Sits(p, org, CodeS(If(c, y), org, brk, p.table))
    ensures Sits(p, org, CodeE(c, p.table) + Word(IFNJ, org + SizeS(If(c, y))))
    ensures Sits(p, org + SizeE(c) + 3, CodeS(y, org + SizeE(c) + 3, brk, p.table))
  {
    hide Sits, CodeE, CodeB, CodeTurns, CodeA, SizeA, SizeB, SizeE;
    SitsSplit(p, org, CodeE(c, p.table) + Word(IFNJ, org + SizeS(If(c, y))), CodeS(y, org + SizeE(c) + 3, brk, p.table));
  }

  lemma ReadyIf(p: Image, c: Expr, y: Stmt, s: Store, m: Vm, brk: nat, lo: nat, hi: nat)
    requires Ready(p, If(c, y), s, m, brk, lo, hi)
    ensures Sits(p, m.ip, CodeE(c, p.table) + Word(IFNJ, m.ip + SizeS(If(c, y))))
    ensures Ready(p, y, s, m.(ip := m.ip + SizeE(c) + 3), brk, lo, hi)
  {
    hide Rel, Sits, CodeS, CodeE, CodeB, SizeB, SizeE, DepthB, DepthE, ScopedB, ScopedE, CoversB, CoversE;
    PartsIf(p, c, y, m.ip, brk);
    RelMove(s, m, m.ip + SizeE(c) + 3);
  }

  lemma PartsIfElse(p: Image, c: Expr, y: Stmt, z: Stmt, org: nat, brk: nat)
    requires Sits(p, org, CodeS(IfElse(c, y, z), org, brk, p.table))
    ensures var at := org + SizeE(c) + 3;
            && Sits(p, org, CodeE(c, p.table) + Word(IFNJ, at + SizeS(y) + 3))
            && Sits(p, at, CodeS(y, at, brk, p.table))
            && Sits(p, at + SizeS(y), Word(JU, org + SizeS(IfElse(c, y, z))))
            && Sits(p, at + SizeS(y) + 3, CodeS(z, at + SizeS(y) + 3, brk, p.table))
  {
    hide *;
    var at := org + SizeE(c) + 3;
    IfElsePieces(c, y, z, org, brk, at, p.table);
    JumpLength(CodeE(c, p.table), IFNJ, at + SizeS(y) + 3);
    JumpLength([], JU, org + SizeS(IfElse(c, y, z)));
    SitsSplit4(p, org, CodeE(c, p.table) + Word(IFNJ, at + SizeS(y) + 3), CodeS(y, at, brk, p.table),
               Word(JU, org + SizeS(IfElse(c, y, z))), CodeS(z, at + SizeS(y) + 3, brk, p.table));
  }

  /** The four pieces of an if with else and their lengths. */
  lemma IfElsePieces(c: Expr, y: Stmt, z: Stmt, org: nat, brk: nat, at: nat, t: Table)
    requires at == org + SizeE(c) + 3
    ensures CodeS(IfElse(c, y, z), org, brk, t)
         == CodeE(c, t) + Word(IFNJ, at + SizeS(y) + 3) + CodeS(y, at, brk, t) + Word(JU, org + SizeS(IfElse(c, y, z)))
            + CodeS(z, at + SizeS(y) + 3, brk, t)
  {
    hide CodeE, CodeB, CodeTurns, CodeA, SizeA, SizeB, SizeE, Word, LoadAddress;
  }

  lemma JumpLength(c: seq<byte>, op: byte, arg: nat)
    ensures |c + Word(op, arg)| == |c| + 3 && |Word(op, arg)| == 3
  {
  }

  lemma ReadyIfElse(p: Image, c: Expr, y: Stmt, z: Stmt, s: Store, m: Vm, brk: nat, lo: nat, hi: nat)
    requires Ready(p, IfElse(c, y, z), s, m, brk, lo, hi)
    ensures Sits(p, m.ip, CodeE(c, p.table) + Word(IFNJ, m.ip + SizeE(c) + 3 + SizeS(y) + 3))
    ensures Ready(p, y, s, m.(ip := m.ip + SizeE(c) + 3), brk, lo, hi)
    ensures Sits(p, m.ip + SizeE(c) + 3 + SizeS(y), Word(JU, m.ip + SizeS(IfElse(c, y, z))))
    ensures Ready(p, z, s, m.(ip := m.ip + SizeE(c) + 3 + SizeS(y) + 3), brk, lo, hi)
  {
    hide Rel, Sits, CodeS, CodeE, CodeB, SizeB, SizeE, DepthB, DepthE, ScopedB, ScopedE, CoversB, CoversE;
    PartsIfElse(p, c, y, z, m.ip, brk);
    RelMove(s, m, m.ip + SizeE(c) + 3);
    RelMove(s, m, m.ip + SizeE(c) + 3 + SizeS(y) + 3);
  }

  lemma PartsWhile(p: Image, c: Expr, body: Stmt, org: nat, brk: nat)
    requires Sits(p, org, CodeS(While(c, body), org, brk, p.table))
    ensures var at, end := org + SizeE(c) + 3, org + SizeS(While(c, body));
            && Sits(p, org, CodeE(c, p.table) + Word(IFNJ, end))
            && Sits(p, at, CodeS(body, at, end, p.table))
            && Sits(p, at + SizeS(body), Word(JU, org))
  {
    hide Sits, CodeE, CodeB, CodeTurns, CodeA, SizeA, SizeB, SizeE;
    var at, end := org + SizeE(c) + 3, org + SizeS(While(c, body));
    SitsSplit3(p, org, CodeE(c, p.table) + Word(IFNJ, end), CodeS(body, at, end, p.table), Word(JU, org));
  }

  lemma ReadyWhile(p: Image, c: Expr, body: Stmt, s: Store, m: Vm, brk: nat, lo: nat, hi: nat)
    requires Ready(p, While(c, body), s, m, brk, lo, hi)
    ensures Sits(p, m.ip, CodeE(c, p.table) + Word(IFNJ, m.ip + SizeS(While(c, body))))
    ensures Ready(p, body, s, m.(ip := m.ip + SizeE(c) + 3), m.ip + SizeS(While(c, body)), lo, hi)
    ensures Sits(p, m.ip + SizeE(c) + 3 + SizeS(body), Word(JU, m.ip))
  {
    hide Rel, Sits, CodeS, CodeE, CodeB, SizeB, SizeE, DepthB, DepthE, ScopedB, ScopedE, CoversB, CoversE;
    PartsWhile(p, c, body, m.ip, brk);
    RelMove(s, m, m.ip + SizeE(c) + 3);
  }

  // ----- for loops ------------------------------------------------------------------

  /** The machine stands before the condition of a for loop. */
  ghost predicate ReadyTurns(p: Image, c: Expr, step: Assignment, body: Stmt, s: Store, m: Vm, lo: nat, hi: nat) {
    && Fits(p) && Sits(p, m.ip, CodeTurns(c, step, body, m.ip, p.table))
    && CoversE(c, p.table) && CoversE(step.e, p.table) && CoversS(body, p.table)
    && Rel(s, m) && ScopedE(c, |s.args|, |s.locals|) && ScopedA(step, |s.args|, |s.locals|)
    && ScopedS(body, |s.args|, |s.locals|)
    && |m.stack| + Max(DepthE(c), Max(DepthS(body), DepthA(step))) <= STACK_SIZE
    && lo <= m.ip && m.ip + SizeTurns(c, step, body) <= hi <= |p.code|
  }

  lemma PartsFor(p: Image, init: Assignment, c: Expr, step: Assignment, body: Stmt, org: nat, brk: nat)
    requires Sits(p, org, CodeS(For(init, c, step, body), org, brk, p.table))
    ensures Sits(p, org, CodeA(init, p.table))
    ensures Sits(p, org + SizeA(init), CodeTurns(c, step, body, org + SizeA(init), p.table))
  {
    hide Sits, CodeE, CodeB, CodeTurns, CodeA, SizeA, SizeB, SizeE;
    SitsSplit(p, org, CodeA(init, p.table), CodeTurns(c, step, body, org + SizeA(init), p.table));
  }

  lemma ReadyFor(p: Image, init: Assignment, c: Expr, step: Assignment, body: Stmt, s: Store, m: Vm, brk: nat, lo: nat, hi: nat)
    requires Ready(p, For(init, c, step, body), s, m, brk, lo, hi)
    ensures Sits(p, m.ip, CodeA(init, p.table))
    ensures forall t, w :: Done(s, t, m, w) && w.ip == m.ip + SizeA(init) ==> ReadyTurns(p, c, step, body, t, w, lo, hi)
  {
    hide Rel, Sits, CodeS, CodeA, CodeTurns;
    PartsFor(p, init, c, step, body, m.ip, brk);
  }

  lemma PartsTurns(p: Image, c: Expr, step: Assignment, body: Stmt, org: nat)
    requires Sits(p, org, CodeTurns(c, step, body, org, p.table))
    ensures var at, end := org + SizeE(c) + 3, org + SizeTurns(c, step, body);
            && Sits(p, org, CodeE(c, p.table) + Word(IFNJ, end))
            && Sits(p, at, CodeS(body, at, end, p.table))
            && Sits(p, at + SizeS(body), CodeA(step, p.table))
            && Sits(p, at + SizeS(body) + SizeA(step), Word(JU, org))
  {
    hide Sits, CodeE, CodeB, CodeS, CodeA, SizeA, SizeB, SizeE, SizeS;
    var at, end := org + SizeE(c) + 3, org + SizeTurns(c, step, body);
    SitsSplit4(p, org, CodeE(c, p.table) + Word(IFNJ, end), CodeS(body, at, end, p.table), CodeA(step, p.table), Word(JU, org));
  }

  lemma TurnsBody(p: Image, c: Expr, step: Assignment, body: Stmt, s: Store, m: Vm, lo: nat, hi: nat)
    requires ReadyTurns(p, c, step, body, s, m, lo, hi)
    ensures var at, end := m.ip + SizeE(c) + 3, m.ip + SizeTurns(c, step, body);
            && Sits(p, m.ip, CodeE(c, p.table) + Word(IFNJ, end))
            && Ready(p, body, s, m.(ip := at), end, lo, hi)
            && Sits(p, at + SizeS(body), CodeA(step, p.table))
            && Sits(p, at + SizeS(body) + SizeA(step), Word(JU, m.ip))
  {
    hide Rel, Sits, CodeS, CodeE, CodeA, CodeTurns, SizeS, SizeE, SizeA, DepthS, DepthE, DepthA, ScopedS, ScopedE, ScopedA, CoversS, CoversE;
    PartsTurns(p, c, step, body, m.ip);
    RelMove(s, m, m.ip + SizeE(c) + 3);
  }

  lemma TurnsAgain(p: Image, c: Expr, step: Assignment, body: Stmt, s: Store, m: Vm, t: Store, w: Vm, lo: nat, hi: nat)
    requires ReadyTurns(p, c, step, body, s, m, lo, hi) && Done(s, t, m, w) && w.ip == m.ip
    ensures ReadyTurns(p, c, step, body, t, w, lo, hi)
  {
    hide Rel, Sits, CodeTurns;
  }

  // ----- switches -------------------------------------------------------------------

  /** The machine stands before the first of the remaining blocks of a switch. */
  ghost predicate ReadyB(p: Image, e: Expr, blocks: Blocks, s: Store, m: Vm, brk: nat, fin: nat, lo: nat, hi: nat) {
    && Fits(p) && Sits(p, m.ip, CodeB(e, blocks, m.ip, brk, fin, p.table)) && CoversB(e, blocks, p.table)
    && Rel(s, m) && ScopedB(e, blocks, |s.args|, |s.locals|) && |m.stack| + DepthB(e, blocks) <= STACK_SIZE
    && lo <= m.ip && m.ip + SizeB(e, blocks) == fin <= hi <= |p.code| && brk < 0x1_0000
  }

  /** The test of one scope. */
  lemma ScopeRuns(p: Image, e: Expr, scope: Scope, target: nat, s: Store, m: Vm, lo: nat, hi: nat) returns (n: nat)
    requires Fits(p) && Sits(p, m.ip, CodeScope(e, scope, m.ip, target, p.table)) && CoversScope(e, scope, p.table)
    requires Rel(s, m) && ScopedScopes(e, [scope], |s.args|, |s.locals|) && |m.stack| + DepthScopes(e, [scope]) <= STACK_SIZE
    requires lo <= m.ip && m.ip + SizeScope(e, scope) <= hi <= |p.code| && target < 0x1_0000
    ensures var r := Matches(e, scope, s);
            Go(p, m, n, lo, hi) == if r.None? then Crashed
                                   else Running(m.(ip := if r.value then target else m.ip + SizeScope(e, scope)))
  {
    hide Go, Rel, Sits, Step, CodeE, DepthE, ScopedE;
    match scope
    case Default =>
      StepJump(p, m, target);
      GoZero(p, m, lo, hi);
      OneTurn(p, m, 0, lo, hi);
      n := 1;
    case Equals(l) =>
      BinNeeds(e, NotEq, l, s, p.table);
      n := CondRuns(p, Bin(NotEq, e, l), target, s, m, lo, hi);
    case Range(a, b) => n := RangeRuns(p, e, a, b, target, s, m, lo, hi);
  }

  lemma GoZero(p: Image, m: Vm, lo: nat, hi: nat)
    ensures Go(p, m, 0, lo, hi) == Running(m)
  {
  }

  lemma BinNeeds(e: Expr, op: Operator, l: Expr, s: Store, t: Table)
    ensures CoversE(e, t) && CoversE(l, t) ==> CoversE(Bin(op, e, l), t)
    ensures ScopedE(e, |s.args|, |s.locals|) && ScopedE(l, |s.args|, |s.locals|) ==> ScopedE(Bin(op, e, l), |s.args|, |s.locals|)
    ensures DepthE(Bin(op, e, l)) == Max(DepthE(e), 1 + DepthE(l))
    ensures Eval(Bin(op, e, l), s) == Both(op, Eval(e, s), Eval(l, s))
  {
  }

  lemma NumbNeeds(v: int32, s: Store, t: Table)
    ensures CoversE(Numb(v), t) <==> Known(v, t)
    ensures ScopedE(Numb(v), |s.args|, |s.locals|) && DepthE(Numb(v)) == 1 && Eval(Numb(v), s) == Some(v)
  {
  }

  lemma RangeRuns(p: Image, e: Expr, a: int32, b: int32, target: nat, s: Store, m: Vm, lo: nat, hi: nat) returns (n: nat)
    requires Fits(p) && Sits(p, m.ip, CodeScope(e, Range(a, b), m.ip, target, p.table)) && CoversScope(e, Range(a, b), p.table)
    requires Rel(s, m) && ScopedE(e, |s.args|, |s.locals|) && |m.stack| + Max(DepthE(e), 2) <= STACK_SIZE
    requires lo <= m.ip && m.ip + SizeScope(e, Range(a, b)) <= hi <= |p.code| && target < 0x1_0000
    ensures var r := Matches(e, Range(a, b), s);
            Go(p, m, n, lo, hi) == if r.None? then Crashed
                                   else Running(m.(ip := if r.value then target else m.ip + SizeScope(e, Range(a, b))))
  {
    hide Go, Rel, Sits, Step, CodeE, DepthE, ScopedE, CoversE, Eval, SizeE;
    NumbNeeds(a, s, p.table);
    NumbNeeds(b, s, p.table);
    BinNeeds(e, GreaterOrEq, Numb(a), s, p.table);
    BinNeeds(e, Greater, Numb(b), s, p.table);
    var low, high := Bin(GreaterOrEq, e, Numb(a)), Bin(Greater, e, Numb(b));
    var skip := m.ip + SizeScope(e, Range(a, b));
    assert CodeE(low, p.table) + Word(IFNJ, skip) + CodeE(high, p.table) + Word(IFNJ, target)
        == (CodeE(low, p.table) + Word(IFNJ, skip)) + (CodeE(high, p.table) + Word(IFNJ, target));
    SitsSplit(p, m.ip, CodeE(low, p.table) + Word(IFNJ, skip), CodeE(high, p.table) + Word(IFNJ, target));
    n := CondRuns(p, low, skip, s, m, lo, hi);
    var at := m.ip + SizeE(low) + 3;
    if Go(p, m, n, lo, hi) == Running(m.(ip := at)) && at != skip {
      RelMove(s, m, at);
      var k := CondRuns(p, high, target, s, m.(ip := at), lo, hi);
      GoJoin(p, m, n, k, lo, hi);
      n := n + k;
    }
  }

  lemma {:induction false} ScopesRun(p: Image, e: Expr, scopes: seq<Scope>, target: nat, s: Store, m: Vm, lo: nat, hi: nat)
    returns (n: nat)
    requires Fits(p) && Sits(p, m.ip, CodeScopes(e, scopes, m.ip, target, p.table)) && CoversScopes(e, scopes, p.table)
    requires Rel(s, m) && ScopedScopes(e, scopes, |s.args|, |s.locals|) && |m.stack| + DepthScopes(e, scopes) <= STACK_SIZE
    requires lo <= m.ip && m.ip + SizeScopes(e, scopes) <= hi <= |p.code| && target < 0x1_0000
    ensures var r := AnyMatch(e, scopes, s);
            Go(p, m, n, lo, hi) == if r.None? then Crashed
                                   else Running(m.(ip := if r.value then target else m.ip + SizeScopes(e, scopes)))
    decreases |scopes|
  {
    hide Go, Rel, Sits, Step, CodeScope, SizeScope, CoversScope, Matches;
    if scopes == [] {
      GoZero(p, m, lo, hi);
      n := 0;
    } else {
      var next := m.ip + SizeScope(e, scopes[0]);
      SitsSplit(p, m.ip, CodeScope(e, scopes[0], m.ip, target, p.table), CodeScopes(e, scopes[1..], next, target, p.table));
      OneScope(e, scopes, |s.args|, |s.locals|);
      n := ScopeRuns(p, e, scopes[0], target, s, m, lo, hi);
      var r := Matches(e, scopes[0], s);
      if r == Some(false) {
        RelMove(s, m, next);
        var k := ScopesRun(p, e, scopes[1..], target, s, m.(ip := next), lo, hi);
        GoJoin(p, m, n, k, lo, hi);
        n := n + k;
      }
    }
  }

  lemma OneScope(e: Expr, scopes: seq<Scope>, args: nat, locals: nat)
    requires scopes != [] && ScopedScopes(e, scopes, args, locals)
    ensures ScopedScopes(e, [scopes[0]], args, locals) && DepthScopes(e, [scopes[0]]) <= DepthScopes(e, scopes)
  {
    assert [scopes[0]][1..] == [];
  }

  lemma PartsB(p: Image, e: Expr, scopes: seq<Scope>, body: Stmt, next: Blocks, org: nat, brk: nat, fin: nat)
    requires Sits(p, org, CodeB(e, Block(scopes, body, next), org, brk, fin, p.table))
    ensures var start := org + SizeScopes(e, scopes) + 3;
            var over := start + SizeS(body) + (if next.Block? then 3 else 0);
            && Sits(p, org, CodeScopes(e, scopes, org, start, p.table))
            && Sits(p, start - 3, Word(JU, over))
            && Sits(p, start, CodeS(body, start, brk, p.table))
            && (next.Block? ==> Sits(p, start + SizeS(body), Word(JU, fin)))
            && Sits(p, over, CodeB(e, next, over, brk, fin, p.table))
  {
    hide *;
    var start := org + SizeScopes(e, scopes) + 3;
    var over := start + SizeS(body) + (if next.Block? then 3 else 0);
    var tail := if next.Block? then Word(JU, fin) else [];
    BlockPieces(e, scopes, body, next, org, brk, fin, start, over, tail, p.table);
    SitsSplit5(p, org, CodeScopes(e, scopes, org, start, p.table), Word(JU, over), CodeS(body, start, brk, p.table),
               tail, CodeB(e, next, over, brk, fin, p.table));
  }

  /** The five pieces of a block and their lengths. */
  lemma BlockPieces(e: Expr, scopes: seq<Scope>, body: Stmt, next: Blocks, org: nat, brk: nat, fin: nat,
                    start: nat, over: nat, tail: seq<byte>, t: Table)
    requires start == org + SizeScopes(e, scopes) + 3 && over == start + SizeS(body) + (if next.Block? then 3 else 0)
    requires tail == if next.Block? then Word(JU, fin) else []
    ensures CodeB(e, Block(scopes, body, next), org, brk, fin, t)
         == CodeScopes(e, scopes, org, start, t) + Word(JU, over) + CodeS(body, start, brk, t) + tail
            + CodeB(e, next, over, brk, fin, t)
    ensures |Word(JU, over)| == 3 && |tail| == if next.Block? then 3 else 0
  {
    hide CodeScopes, CodeS, SizeScopes, SizeS, CodeE, SizeE, CodeTurns, SizeB;
  }

  lemma ReadyBlock(p: Image, e: Expr, scopes: seq<Scope>, body: Stmt, next: Blocks, s: Store, m: Vm, brk: nat, fin: nat, lo: nat, hi: nat)
    requires ReadyB(p, e, Block(scopes, body, next), s, m, brk, fin, lo, hi)
    ensures var start := m.ip + SizeScopes(e, scopes) + 3;
            var over := start + SizeS(body) + (if next.Block? then 3 else 0);
            && Sits(p, m.ip, CodeScopes(e, scopes, m.ip, start, p.table))
            && Sits(p, start - 3, Word(JU, over))
            && Ready(p, body, s, m.(ip := start), brk, lo, hi)
            && (next.Block? ==> Sits(p, start + SizeS(body), Word(JU, fin)))
            && (next.NoBlocks? ==> start + SizeS(body) == fin)
            && ReadyB(p, e, next, s, m.(ip := over), brk, fin, lo, hi)
            && CoversScopes(e, scopes, p.table) && ScopedScopes(e, scopes, |s.args|, |s.locals|)
            && |m.stack| + DepthScopes(e, scopes) <= STACK_SIZE
  {
    hide Rel, Sits, CodeS, CodeB, CodeScopes, SizeS, SizeScopes, DepthS, DepthScopes, ScopedS, ScopedScopes, CoversS, CoversScopes;
    PartsB(p, e, scopes, body, next, m.ip, brk, fin);
    var start := m.ip + SizeScopes(e, scopes) + 3;
    RelMove(s, m, start);
    RelMove(s, m, start + SizeS(body) + (if next.Block? then 3 else 0));
  }

  // ----- the theorem ----------------------------------------------------------------

  /** An assignment, for any fuel. */
  lemma SimpleRuns(p: Image, a: Assignment, s: Store, m: Vm, lo: nat, hi: nat, fuel: nat, brk: nat) returns (n: nat)
    requires Fits(p) && Sits(p, m.ip, CodeA(a, p.table)) && CoversE(a.e, p.table)
    requires Rel(s, m) && ScopedA(a, |s.args|, |s.locals|) && |m.stack| + DepthA(a) <= STACK_SIZE
    requires lo <= m.ip && m.ip + SizeA(a) <= hi
    ensures Ends(p, m, n, lo, hi, s, ExecAssignment(a, s), fuel, m.ip + SizeA(a), brk)
  {
    hide Go, Rel, Done, Sits, CodeA;
    n := AssignRuns(p, a, s, m, lo, hi);
  }

  /** Ready does not depend on more of the store than the frame holds. */
  lemma ReadyAgain(p: Image, x: Stmt, s: Store, t: Store, m: Vm, w: Vm, brk: nat, lo: nat, hi: nat)
    requires Ready(p, x, s, m, brk, lo, hi) && Done(s, t, m, w) && w.ip == m.ip
    ensures Ready(p, x, t, w, brk, lo, hi)
  {
    hide Rel, Sits, CodeS;
  }

  /** Running the code of a statement from its start does what the statement means. */
  lemma {:induction false} StmtRuns(p: Image, x: Stmt, s: Store, m: Vm, brk: nat, lo: nat, hi: nat, fuel: nat) returns (n: nat)
    requires Ready(p, x, s, m, brk, lo, hi)
    ensures Ends(p, m, n, lo, hi, s, Exec(x, s, fuel), fuel, m.ip + SizeS(x), brk)
    decreases fuel, x, 4
  {
    hide Go, Rel, Done, Sits, Ends, CodeE, CodeA, CodeS, CodeB, CodeTurns, SizeB, ScopedB, DepthB, CoversB;
    match x
    case Empty =>
      NothingRuns(p, m, lo, hi, s, fuel, brk);
      n := 0;
    case Simple(a) =>
      assert CodeS(x, m.ip, brk, p.table) == CodeA(a, p.table) by { CodeSimple(a, m.ip, brk, p.table); }
      n := SimpleRuns(p, a, s, m, lo, hi, fuel, brk);
    case Write(e) => n := OutputRuns(p, e, s, m, brk, lo, hi, fuel);
    case If(c, y) => n := IfRuns(p, c, y, s, m, brk, lo, hi, fuel);
    case IfElse(c, y, z) => n := IfElseRuns(p, c, y, z, s, m, brk, lo, hi, fuel);
    case While(c, body) => n := WhileRuns(p, c, body, s, m, brk, lo, hi, fuel);
    case For(init, c, step, body) => n := ForRuns(p, init, c, step, body, s, m, brk, lo, hi, fuel);
    case Break => n := BreakRuns(p, s, m, brk, lo, hi, fuel);
    case Then(a, b) => n := ThenRuns(p, a, b, s, m, brk, lo, hi, fuel);
    case Case(e, blocks) =>
      ReadyCase(p, e, blocks, s, m, brk, lo, hi);
      n := BlocksRun(p, e, blocks, s, m, brk, m.ip + SizeS(x), lo, hi, fuel);
  }

  lemma CodeSimple(a: Assignment, org: nat, brk: nat, t: Table)
    ensures CodeS(Simple(a), org, brk, t) == CodeA(a, t) && SizeS(Simple(a)) == SizeA(a)
  {
  }

  lemma ReadyCase(p: Image, e: Expr, blocks: Blocks, s: Store, m: Vm, brk: nat, lo: nat, hi: nat)
    requires Ready(p, Case(e, blocks), s, m, brk, lo, hi)
    ensures ReadyB(p, e, blocks, s, m, brk, m.ip + SizeS(Case(e, blocks)), lo, hi)
  {
    hide Rel, Sits;
  }

  lemma OutputRuns(p: Image, e: Expr, s: Store, m: Vm, brk: nat, lo: nat, hi: nat, fuel: nat) returns (n: nat)
    requires Ready(p, Write(e), s, m, brk, lo, hi)
    ensures Ends(p, m, n, lo, hi, s, Exec(Write(e), s, fuel), fuel, m.ip + SizeS(Write(e)), brk)
  {
    hide Go, Sits, CodeE, Rel, Eval;
    n := WriteRuns(p, e, s, m, lo, hi);
    var v := Eval(e, s);
    if v.Some? { OutputDone(s, m, v.value, m.ip + SizeE(e) + 1); }
  }

  lemma OutputDone(s: Store, m: Vm, v: int32, ip: nat)
    requires Rel(s, m)
    ensures Done(s, s.(out := s.out + [v]), m, m.(ip := ip, out := m.out + [v]))
  {
  }

  lemma BreakRuns(p: Image, s: Store, m: Vm, brk: nat, lo: nat, hi: nat, fuel: nat) returns (n: nat)
    requires Ready(p, Break, s, m, brk, lo, hi)
    ensures Ends(p, m, n, lo, hi, s, Exec(Break, s, fuel), fuel, m.ip + 3, brk)
  {
    hide Step, Rel;
    StepJump(p, m, brk);
    OneTurn(p, m, 0, lo, hi);
    DoneSame(s, m, brk);
    n := 1;
  }

  /** Where a piece ends matters only for the outcome it has. */
  lemma Relabel(p: Image, m: Vm, n: nat, lo: nat, hi: nat, s: Store, o: Outcome, fuel: nat, end: nat, brk: nat, end2: nat, brk2: nat)
    requires Ends(p, m, n, lo, hi, s, o, fuel, end, brk)
    requires (o.Normal? ==> end == end2) && (o.Broke? ==> brk == brk2)
    ensures Ends(p, m, n, lo, hi, s, o, fuel, end2, brk2)
  {
    hide Go, Done;
  }

  /** A break of the body ends its loop normally. */
  lemma BreakOut(p: Image, m: Vm, n: nat, lo: nat, hi: nat, s: Store, t: Store, fuel: nat, end: nat, brk: nat, brk2: nat)
    requires Ends(p, m, n, lo, hi, s, Broke(t), fuel, end, brk)
    ensures Ends(p, m, n, lo, hi, s, Normal(t), fuel, brk, brk2)
  {
    hide Go, Done;
  }

  /** A jump that ends the statement. */
  lemma JumpOut(p: Image, m: Vm, n: nat, lo: nat, hi: nat, s: Store, fuel: nat, end: nat, brk: nat)
    requires Go(p, m, n, lo, hi) == Running(m.(ip := end)) && Rel(s, m)
    ensures Ends(p, m, n, lo, hi, s, Normal(s), fuel, end, brk)
  {
    hide Go, Rel;
    DoneSame(s, m, end);
  }

  lemma EndsNormal(p: Image, m: Vm, n: nat, lo: nat, hi: nat, s: Store, t: Store, fuel: nat, end: nat, brk: nat)
    requires Ends(p, m, n, lo, hi, s, Normal(t), fuel, end, brk)
    ensures Go(p, m, n, lo, hi).Running? && Go(p, m, n, lo, hi).m.ip == end && Done(s, t, m, Go(p, m, n, lo, hi).m)
  {
    hide Go, Done;
  }

  lemma {:induction false} ThenRuns(p: Image, a: Stmt, b: Stmt, s: Store, m: Vm, brk: nat, lo: nat, hi: nat, fuel: nat) returns (n: nat)
    requires Ready(p, Then(a, b), s, m, brk, lo, hi)
    ensures Ends(p, m, n, lo, hi, s, Exec(Then(a, b), s, fuel), fuel, m.ip + SizeS(Then(a, b)), brk)
    decreases fuel, Then(a, b), 3
  {
    hide Go, Done, Ready, Ends;
    var end := m.ip + SizeS(Then(a, b));
    ReadyThen(p, a, b, s, m, brk, lo, hi);
    n := StmtRuns(p, a, s, m, brk, lo, hi, fuel);
    var r := Exec(a, s, fuel);
    if r.Normal? {
      EndsNormal(p, m, n, lo, hi, s, r.s, fuel, m.ip + SizeS(a), brk);
      var w := Go(p, m, n, lo, hi).m;
      var k := StmtRuns(p, b, r.s, w, brk, lo, hi, fuel);
      Chain(p, m, n, lo, hi, s, r.s, k, Exec(b, r.s, fuel), fuel, fuel, end, brk);
      n := n + k;
    } else {
      Relabel(p, m, n, lo, hi, s, r, fuel, m.ip + SizeS(a), brk, end, brk);
    }
  }

  /** What holds after the condition of a statement and its jump. */
  predicate Guarded(p: Image, m: Vm, n: nat, lo: nat, hi: nat, v: Option<int32>, at: nat, target: nat) {
    && n > 0
    && Go(p, m, n, lo, hi) == if v.None? then Crashed else Running(m.(ip := if v.value == 0 then target else at))
  }

  lemma GuardRuns(p: Image, c: Expr, target: nat, s: Store, m: Vm, lo: nat, hi: nat) returns (n: nat)
    requires Fits(p) && Sits(p, m.ip, CodeE(c, p.table) + Word(IFNJ, target)) && CoversE(c, p.table)
    requires Rel(s, m) && ScopedE(c, |s.args|, |s.locals|) && |m.stack| + DepthE(c) <= STACK_SIZE
    requires lo <= m.ip && m.ip + SizeE(c) + 3 <= hi && target < 0x1_0000
    ensures Guarded(p, m, n, lo, hi, Eval(c, s), m.ip + SizeE(c) + 3, target)
  {
    hide Go, Rel, Sits, Eval;
    n := CondRuns(p, c, target, s, m, lo, hi);
  }

  lemma IfGuard(p: Image, c: Expr, y: Stmt, s: Store, m: Vm, brk: nat, lo: nat, hi: nat) returns (n: nat)
    requires Ready(p, If(c, y), s, m, brk, lo, hi)
    ensures Rel(s, m) && Ready(p, y, s, m.(ip := m.ip + SizeE(c) + 3), brk, lo, hi)
    ensures Guarded(p, m, n, lo, hi, Eval(c, s), m.ip + SizeE(c) + 3, m.ip + SizeS(If(c, y)))
  {
    hide Go, Rel, Sits, CodeE, CodeS, Eval;
    ReadyIf(p, c, y, s, m, brk, lo, hi);
    n := CondRuns(p, c, m.ip + SizeS(If(c, y)), s, m, lo, hi);
  }

  lemma {:induction false} IfRuns(p: Image, c: Expr, y: Stmt, s: Store, m: Vm, brk: nat, lo: nat, hi: nat, fuel: nat) returns (n: nat)
    requires Ready(p, If(c, y), s, m, brk, lo, hi)
    ensures Ends(p, m, n, lo, hi, s, Exec(If(c, y), s, fuel), fuel, m.ip + SizeS(If(c, y)), brk)
    decreases fuel, If(c, y), 3
  {
    hide Go, Done, Ready, Rel, Ends, SizeE, Eval;
    var at, end := m.ip + SizeE(c) + 3, m.ip + SizeS(If(c, y));
    n := IfGuard(p, c, y, s, m, brk, lo, hi);
    var v := Eval(c, s);
    if v.None? {
      FaultRuns(p, m, n, lo, hi, s, fuel, end, brk);
    } else if v.value == 0 {
      JumpOut(p, m, n, lo, hi, s, fuel, end, brk);
    } else {
      var k := StmtRuns(p, y, s, m.(ip := at), brk, lo, hi, fuel);
      ChainJump(p, m, n, lo, hi, s, at, k, Exec(y, s, fuel), fuel, fuel, end, brk);
      n := n + k;
    }
  }

  lemma IfElseGuard(p: Image, c: Expr, y: Stmt, z: Stmt, s: Store, m: Vm, brk: nat, lo: nat, hi: nat) returns (n: nat)
    requires Ready(p, IfElse(c, y, z), s, m, brk, lo, hi)
    ensures var at := m.ip + SizeE(c) + 3;
            && Rel(s, m) && Ready(p, y, s, m.(ip := at), brk, lo, hi) && Ready(p, z, s, m.(ip := at + SizeS(y) + 3), brk, lo, hi)
            && Sits(p, at + SizeS(y), Word(JU, m.ip + SizeS(IfElse(c, y, z))))
            && Guarded(p, m, n, lo, hi, Eval(c, s), at, at + SizeS(y) + 3)
            && lo <= m.ip && m.ip + SizeS(IfElse(c, y, z)) <= hi < 0x1_0000
  {
    hide *;
    IfElseBounds(p, c, y, z, s, m, brk, lo, hi);
    ReadyIfElse(p, c, y, z, s, m, brk, lo, hi);
    n := GuardRuns(p, c, m.ip + SizeE(c) + 3 + SizeS(y) + 3, s, m, lo, hi);
  }

  lemma IfElseBounds(p: Image, c: Expr, y: Stmt, z: Stmt, s: Store, m: Vm, brk: nat, lo: nat, hi: nat)
    requires Ready(p, IfElse(c, y, z), s, m, brk, lo, hi)
    ensures Fits(p) && CoversE(c, p.table) && Rel(s, m) && ScopedE(c, |s.args|, |s.locals|)
    ensures |m.stack| + DepthE(c) <= STACK_SIZE && lo <= m.ip && m.ip + SizeS(IfElse(c, y, z)) <= hi <= |p.code| < 0x1_0000
    ensures SizeS(IfElse(c, y, z)) == SizeE(c) + 3 + SizeS(y) + 3 + SizeS(z)
  {
    hide Rel, Sits, CodeS, SizeE, CoversE, ScopedE, DepthE;
  }

  lemma {:induction false} IfElseRuns(p: Image, c: Expr, y: Stmt, z: Stmt, s: Store, m: Vm, brk: nat, lo: nat, hi: nat, fuel: nat) returns (n: nat)
    requires Ready(p, IfElse(c, y, z), s, m, brk, lo, hi)
    ensures Ends(p, m, n, lo, hi, s, Exec(IfElse(c, y, z), s, fuel), fuel, m.ip + SizeS(IfElse(c, y, z)), brk)
    decreases fuel, IfElse(c, y, z), 3
  {
    hide Go, Done, Ready, Rel, Ends, SizeE, Eval, Sits;
    var at, end := m.ip + SizeE(c) + 3, m.ip + SizeS(IfElse(c, y, z));
    var other := at + SizeS(y) + 3;
    n := IfElseGuard(p, c, y, z, s, m, brk, lo, hi);
    var v := Eval(c, s);
    if v.None? {
      FaultRuns(p, m, n, lo, hi, s, fuel, end, brk);
    } else if v.value == 0 {
      var k := StmtRuns(p, z, s, m.(ip := other), brk, lo, hi, fuel);
      ChainJump(p, m, n, lo, hi, s, other, k, Exec(z, s, fuel), fuel, fuel, end, brk);
      n := n + k;
    } else {
      var k := StmtRuns(p, y, s, m.(ip := at), brk, lo, hi, fuel);
      ChainJump(p, m, n, lo, hi, s, at, k, Exec(y, s, fuel), fuel, fuel, at + SizeS(y), brk);
      n := EndJump(p, m, n + k, lo, hi, s, Exec(y, s, fuel), fuel, at + SizeS(y), brk, end);
    }
  }

  lemma WhileGuard(p: Image, c: Expr, body: Stmt, s: Store, m: Vm, brk: nat, lo: nat, hi: nat) returns (n: nat)
    requires Ready(p, While(c, body), s, m, brk, lo, hi)
    ensures var at, end := m.ip + SizeE(c) + 3, m.ip + SizeS(While(c, body));
            && Rel(s, m) && Ready(p, body, s, m.(ip := at), end, lo, hi)
            && Sits(p, at + SizeS(body), Word(JU, m.ip))
            && Guarded(p, m, n, lo, hi, Eval(c, s), at, end)
            && lo <= m.ip && at + SizeS(body) < end <= hi < 0x1_0000
  {
    hide Go, Rel, Sits, CodeE, CodeS, Eval;
    ReadyWhile(p, c, body, s, m, brk, lo, hi);
    n := CondRuns(p, c, m.ip + SizeS(While(c, body)), s, m, lo, hi);
  }

  lemma {:induction false} WhileRuns(p: Image, c: Expr, body: Stmt, s: Store, m: Vm, brk: nat, lo: nat, hi: nat, fuel: nat) returns (n: nat)
    requires Ready(p, While(c, body), s, m, brk, lo, hi)
    ensures Ends(p, m, n, lo, hi, s, Exec(While(c, body), s, fuel), fuel, m.ip + SizeS(While(c, body)), brk)
    decreases fuel, While(c, body), 3
  {
    hide Go, Done, Ready, Rel, Ends, SizeE, Eval, Sits, SizeS;
    var x, at, end := While(c, body), m.ip + SizeE(c) + 3, m.ip + SizeS(While(c, body));
    n := 0;
    if fuel == 0 {
      NoFuel(p, m, lo, hi, s, end, brk);
      return;
    }
    n := WhileGuard(p, c, body, s, m, brk, lo, hi);
    var v := Eval(c, s);
    if v.None? {
      FaultRuns(p, m, n, lo, hi, s, fuel, end, brk);
    } else if v.value == 0 {
      JumpOut(p, m, n, lo, hi, s, fuel, end, brk);
    } else {
      var k := StmtRuns(p, body, s, m.(ip := at), end, lo, hi, fuel - 1);
      var o := Exec(body, s, fuel - 1);
      ChainJump(p, m, n, lo, hi, s, at, k, o, fuel - 1, fuel, at + SizeS(body), end);
      n := EndJump(p, m, n + k, lo, hi, s, o, fuel, at + SizeS(body), end, m.ip);
      if o.Normal? {
        EndsNormal(p, m, n, lo, hi, s, o.s, fuel, m.ip, end);
        var w := Go(p, m, n, lo, hi).m;
        ReadyAgain(p, x, s, o.s, m, w, brk, lo, hi);
        k := WhileRuns(p, c, body, o.s, w, brk, lo, hi, fuel - 1);
        Chain(p, m, n, lo, hi, s, o.s, k, Exec(x, o.s, fuel - 1), fuel - 1, fuel, end, brk);
        n := n + k;
      } else if o.Broke? {
        BreakOut(p, m, n, lo, hi, s, o.s, fuel, m.ip, end, brk);
      } else {
        Relabel(p, m, n, lo, hi, s, o, fuel, m.ip, end, end, brk);
      }
    }
  }

  lemma NoFuel(p: Image, m: Vm, lo: nat, hi: nat, s: Store, end: nat, brk: nat)
    ensures Ends(p, m, 0, lo, hi, s, OutOfFuel, 0, end, brk)
  {
  }

  lemma {:induction false} ForRuns(p: Image, init: Assignment, c: Expr, step: Assignment, body: Stmt, s: Store, m: Vm,
                                   brk: nat, lo: nat, hi: nat, fuel: nat) returns (n: nat)
    requires Ready(p, For(init, c, step, body), s, m, brk, lo, hi)
    ensures var x := For(init, c, step, body);
            Ends(p, m, n, lo, hi, s, Exec(x, s, fuel), fuel, m.ip + SizeS(x), brk)
    decreases fuel, For(init, c, step, body), 3
  {
    hide Go, Done, Ready, ReadyTurns, Rel, Ends, SizeE, SizeA;
    var x := For(init, c, step, body);
    n := InitRuns(p, init, c, step, body, s, m, brk, lo, hi, fuel);
    var r := ExecAssignment(init, s);
    if r.Normal? {
      EndsNormal(p, m, n, lo, hi, s, r.s, fuel, m.ip + SizeA(init), brk);
      var w := Go(p, m, n, lo, hi).m;
      var k := TurnsRun(p, c, step, body, r.s, w, brk, lo, hi, fuel);
      Chain(p, m, n, lo, hi, s, r.s, k, ExecFor(c, step, body, r.s, fuel), fuel, fuel, m.ip + SizeS(x), brk);
      n := n + k;
    } else {
      Relabel(p, m, n, lo, hi, s, r, fuel, m.ip + SizeA(init), brk, m.ip + SizeS(x), brk);
    }
  }

  lemma InitRuns(p: Image, init: Assignment, c: Expr, step: Assignment, body: Stmt, s: Store, m: Vm,
                 brk: nat, lo: nat, hi: nat, fuel: nat) returns (n: nat)
    requires Ready(p, For(init, c, step, body), s, m, brk, lo, hi)
    ensures Ends(p, m, n, lo, hi, s, ExecAssignment(init, s), fuel, m.ip + SizeA(init), brk)
    ensures forall t, w :: Done(s, t, m, w) && w.ip == m.ip + SizeA(init) ==> ReadyTurns(p, c, step, body, t, w, lo, hi)
  {
    hide Go, Rel, Sits, CodeA, CodeS, CodeTurns, Done, Ends, ReadyTurns;
    ReadyFor(p, init, c, step, body, s, m, brk, lo, hi);
    n := SimpleRuns(p, init, s, m, lo, hi, fuel, brk);
  }

  lemma TurnsGuard(p: Image, c: Expr, step: Assignment, body: Stmt, s: Store, m: Vm, lo: nat, hi: nat) returns (n: nat)
    requires ReadyTurns(p, c, step, body, s, m, lo, hi)
    ensures Rel(s, m) && Guarded(p, m, n, lo, hi, Eval(c, s), m.ip + SizeE(c) + 3, m.ip + SizeTurns(c, step, body))
  {
    hide Go, Rel, Sits, CodeE, CodeS, CodeTurns, Eval;
    TurnsBody(p, c, step, body, s, m, lo, hi);
    n := CondRuns(p, c, m.ip + SizeTurns(c, step, body), s, m, lo, hi);
  }

  lemma {:induction false} TurnsRun(p: Image, c: Expr, step: Assignment, body: Stmt, s: Store, m: Vm, brk: nat, lo: nat, hi: nat, fuel: nat)
    returns (n: nat)
    requires ReadyTurns(p, c, step, body, s, m, lo, hi)
    ensures Ends(p, m, n, lo, hi, s, ExecFor(c, step, body, s, fuel), fuel, m.ip + SizeTurns(c, step, body), brk)
    decreases fuel, body, 5
  {
    hide Go, Done, ReadyTurns, Rel, Ends, SizeE, Eval, SizeTurns, Exec;
    var end := m.ip + SizeTurns(c, step, body);
    n := 0;
    if fuel == 0 {
      NoFuel(p, m, lo, hi, s, end, brk);
      return;
    }
    n := TurnsGuard(p, c, step, body, s, m, lo, hi);
    var v := Eval(c, s);
    if v.None? {
      FaultRuns(p, m, n, lo, hi, s, fuel, end, brk);
    } else if v.value == 0 {
      JumpOut(p, m, n, lo, hi, s, fuel, end, brk);
    } else {
      n := TurnRuns(p, c, step, body, s, m, brk, lo, hi, fuel, n);
    }
  }

  /** One turn whose condition held after `n0` steps, and the turns after it. */
  lemma {:induction false} TurnRuns(p: Image, c: Expr, step: Assignment, body: Stmt, s: Store, m: Vm, brk: nat, lo: nat, hi: nat,
                                    fuel: nat, n0: nat) returns (n: nat)
    requires ReadyTurns(p, c, step, body, s, m, lo, hi) && fuel > 0 && n0 > 0
    requires Eval(c, s).Some? && Eval(c, s).value != 0
    requires Go(p, m, n0, lo, hi) == Running(m.(ip := m.ip + SizeE(c) + 3))
    ensures Ends(p, m, n, lo, hi, s, ExecFor(c, step, body, s, fuel), fuel, m.ip + SizeTurns(c, step, body), brk)
    decreases fuel, body, 4
  {
    hide *;
    ForTurn(c, step, body, s, fuel);
    var at, end := m.ip + SizeE(c) + 3, m.ip + SizeTurns(c, step, body);
    TurnsBody(p, c, step, body, s, m, lo, hi);
    TurnsRel(p, c, step, body, s, m, lo, hi);
    var k := StmtRuns(p, body, s, m.(ip := at), end, lo, hi, fuel - 1);
    var o := Exec(body, s, fuel - 1);
    ChainJump(p, m, n0, lo, hi, s, at, k, o, fuel - 1, fuel, at + SizeS(body), end);
    n := n0 + k;
    if o.Normal? {
      EndsNormal(p, m, n, lo, hi, s, o.s, fuel, at + SizeS(body), end);
      k := StepRuns(p, c, step, body, s, m, o.s, Go(p, m, n, lo, hi).m, lo, hi, fuel, end);
      var u := ExecAssignment(step, o.s);
      Chain(p, m, n, lo, hi, s, o.s, k, u, fuel, fuel, m.ip, end);
      n := n + k;
      AssignmentEnds(step, o.s);
      n := NextTurn(p, c, step, body, s, m, brk, lo, hi, fuel, n, u);
    } else if o.Broke? {
      BreakOut(p, m, n, lo, hi, s, o.s, fuel, at + SizeS(body), end, brk);
    } else {
      Relabel(p, m, n, lo, hi, s, o, fuel, at + SizeS(body), end, end, brk);
    }
  }

  /** The turns after one that has stepped its counter. */
  lemma {:induction false} NextTurn(p: Image, c: Expr, step: Assignment, body: Stmt, s: Store, m: Vm, brk: nat, lo: nat, hi: nat,
                                    fuel: nat, n0: nat, u: Outcome) returns (n: nat)
    requires ReadyTurns(p, c, step, body, s, m, lo, hi) && fuel > 0 && n0 > 0 && (u.Normal? || u.Fault?)
    requires Ends(p, m, n0, lo, hi, s, u, fuel, m.ip, m.ip + SizeTurns(c, step, body))
    ensures Ends(p, m, n, lo, hi, s, if u.Normal? then ExecFor(c, step, body, u.s, fuel - 1) else u, fuel,
                 m.ip + SizeTurns(c, step, body), brk)
    decreases fuel, body, 3
  {
    hide Go, Done, ReadyTurns, Ends, SizeTurns, Exec, ExecFor;
    var end := m.ip + SizeTurns(c, step, body);
    n := n0;
    if u.Normal? {
      EndsNormal(p, m, n, lo, hi, s, u.s, fuel, m.ip, end);
      var w := Go(p, m, n, lo, hi).m;
      TurnsAgain(p, c, step, body, s, m, u.s, w, lo, hi);
      var k := TurnsRun(p, c, step, body, u.s, w, brk, lo, hi, fuel - 1);
      Chain(p, m, n, lo, hi, s, u.s, k, ExecFor(c, step, body, u.s, fuel - 1), fuel - 1, fuel, end, brk);
      n := n + k;
    } else {
      Relabel(p, m, n, lo, hi, s, u, fuel, m.ip, end, end, brk);
    }
  }

  lemma AssignmentEnds(a: Assignment, s: Store)
    ensures ExecAssignment(a, s).Normal? || ExecAssignment(a, s).Fault?
  {
  }

  lemma TurnsRel(p: Image, c: Expr, step: Assignment, body: Stmt, s: Store, m: Vm, lo: nat, hi: nat)
    requires ReadyTurns(p, c, step, body, s, m, lo, hi)
    ensures Rel(s, m)
  {
  }

  /** The step of a for loop and the jump back to its condition. */
  lemma StepRuns(p: Image, c: Expr, step: Assignment, body: Stmt, s: Store, m: Vm, t: Store, w: Vm, lo: nat, hi: nat, fuel: nat, brk: nat)
    returns (n: nat)
    requires ReadyTurns(p, c, step, body, s, m, lo, hi) && Done(s, t, m, w) && w.ip == m.ip + SizeE(c) + 3 + SizeS(body)
    ensures Ends(p, w, n, lo, hi, t, ExecAssignment(step, t), fuel, m.ip, brk)
  {
    hide Go, Rel, Ends, CodeA, CodeTurns, Sits, ExecAssignment, Ready, CodeE, SizeE, SizeS, SizeA;
    TurnsBody(p, c, step, body, s, m, lo, hi);
    n := SimpleRuns(p, step, t, w, lo, hi, fuel, brk);
    n := EndJump(p, w, n, lo, hi, t, ExecAssignment(step, t), fuel, w.ip + SizeA(step), brk, m.ip);
  }

  /** What a switch does from some block on. */
  function ExecBlocks(e: Expr, blocks: Blocks, s: Store, fuel: nat): Outcome {
    var b := Select(e, blocks, s);
    if b.None? then Fault else Exec(b.value, s, fuel)
  }

  lemma {:induction false} BlocksRun(p: Image, e: Expr, blocks: Blocks, s: Store, m: Vm, brk: nat, fin: nat, lo: nat, hi: nat, fuel: nat)
    returns (n: nat)
    requires ReadyB(p, e, blocks, s, m, brk, fin, lo, hi)
    ensures Ends(p, m, n, lo, hi, s, ExecBlocks(e, blocks, s, fuel), fuel, fin, brk)
    decreases fuel, blocks, 3
  {
    hide Go, Done, Ready, ReadyB, Rel, Ends, Sits, SizeScopes, SizeS, AnyMatch;
    match blocks
    case NoBlocks =>
      n := 0;
      EmptyB(p, e, s, m, brk, fin, lo, hi);
      NothingRuns(p, m, lo, hi, s, fuel, brk);
    case Block(scopes, body, next) =>
      var start := m.ip + SizeScopes(e, scopes) + 3;
      var over := start + SizeS(body) + (if next.Block? then 3 else 0);
      n := ScopesGuard(p, e, scopes, body, next, s, m, brk, fin, lo, hi);
      var r := AnyMatch(e, scopes, s);
      if r.None? {
        FaultRuns(p, m, n, lo, hi, s, fuel, fin, brk);
      } else if r.value {
        var k := StmtRuns(p, body, s, m.(ip := start), brk, lo, hi, fuel);
        ChainJump(p, m, n, lo, hi, s, start, k, Exec(body, s, fuel), fuel, fuel, start + SizeS(body), brk);
        n := n + k;
        if next.Block? { n := EndJump(p, m, n, lo, hi, s, Exec(body, s, fuel), fuel, start + SizeS(body), brk, fin); }
      } else {
        var k := BlocksRun(p, e, next, s, m.(ip := over), brk, fin, lo, hi, fuel);
        ChainJump(p, m, n, lo, hi, s, over, k, ExecBlocks(e, next, s, fuel), fuel, fuel, fin, brk);
        n := n + k;
      }
  }

  lemma EmptyB(p: Image, e: Expr, s: Store, m: Vm, brk: nat, fin: nat, lo: nat, hi: nat)
    requires ReadyB(p, e, NoBlocks, s, m, brk, fin, lo, hi)
    ensures Rel(s, m) && fin == m.ip
  {
  }

  /** The scopes of a block, and when none takes the value, the jump over it. */
  lemma ScopesGuard(p: Image, e: Expr, scopes: seq<Scope>, body: Stmt, next: Blocks, s: Store, m: Vm, brk: nat, fin: nat, lo: nat, hi: nat)
    returns (n: nat)
    requires ReadyB(p, e, Block(scopes, body, next), s, m, brk, fin, lo, hi)
    ensures var start := m.ip + SizeScopes(e, scopes) + 3;
            var over := start + SizeS(body) + (if next.Block? then 3 else 0);
            var r := AnyMatch(e, scopes, s);
            && Rel(s, m) && Ready(p, body, s, m.(ip := start), brk, lo, hi)
            && ReadyB(p, e, next, s, m.(ip := over), brk, fin, lo, hi)
            && (if next.Block? then Sits(p, start + SizeS(body), Word(JU, fin)) else start + SizeS(body) == fin)
            && lo <= m.ip && start + SizeS(body) <= fin <= hi < 0x1_0000 && (next.Block? ==> start + SizeS(body) < hi)
            && Go(p, m, n, lo, hi) == if r.None? then Crashed else Running(m.(ip := if r.value then start else over))
  {
    hide *;
    BlockBounds(p, e, scopes, body, next, s, m, brk, fin, lo, hi);
    ReadyBlock(p, e, scopes, body, next, s, m, brk, fin, lo, hi);
    var start := m.ip + SizeScopes(e, scopes) + 3;
    n := ScopesRun(p, e, scopes, start, s, m, lo, hi);
    if AnyMatch(e, scopes, s) == Some(false) {
      n := SkipBlock(p, m, n, lo, hi, start - 3, start + SizeS(body) + (if next.Block? then 3 else 0));
    }
  }

  /** The addresses of a block lie inside the code. */
  lemma BlockBounds(p: Image, e: Expr, scopes: seq<Scope>, body: Stmt, next: Blocks, s: Store, m: Vm, brk: nat, fin: nat, lo: nat, hi: nat)
    requires ReadyB(p, e, Block(scopes, body, next), s, m, brk, fin, lo, hi)
    ensures var start := m.ip + SizeScopes(e, scopes) + 3;
            && Fits(p) && Rel(s, m) && lo <= m.ip && start + SizeS(body) <= fin <= hi <= |p.code| && hi < 0x1_0000
            && (next.Block? ==> start + SizeS(body) + 3 <= fin)
  {
    hide Rel, Sits, CodeB, SizeScopes, SizeS, DepthB, CoversB, ScopedB;
  }

  lemma SkipBlock(p: Image, m: Vm, n0: nat, lo: nat, hi: nat, at: nat, over: nat) returns (n: nat)
    requires Go(p, m, n0, lo, hi) == Running(m.(ip := at)) && lo <= at < hi
    requires Sits(p, at, Word(JU, over)) && over < 0x1_0000
    ensures Go(p, m, n, lo, hi) == Running(m.(ip := over))
  {
    hide Go, Step, Sits;
    StepJump(p, m.(ip := at), over);
    OneTurn(p, m, n0, lo, hi);
    n := n0 + 1;
  }

  // ----- whole runs -----------------------------------------------------------------

  /** The machine has left the code, or has stopped with an error. */
  ghost predicate Stopped(p: Image, m: Vm, n: nat, lo: nat, hi: nat) {
    var r := Go(p, m, n, lo, hi);
    r.Crashed? || (r.Running? && !(lo <= r.m.ip < hi))
  }

  ghost predicate Stops(p: Image, m: Vm, lo: nat, hi: nat) {
    exists n :: Stopped(p, m, n, lo, hi)
  }

  lemma {:induction false} StopsOnce(p: Image, m: Vm, n: nat, k: nat, lo: nat, hi: nat)
    requires Stopped(p, m, n, lo, hi) && Go(p, m, k, lo, hi) != Outside
    ensures k <= n || Go(p, m, k, lo, hi) == Go(p, m, n, lo, hi)
    ensures k > n ==> Go(p, m, n, lo, hi).Crashed?
    ensures Stopped(p, m, k, lo, hi) ==> Go(p, m, k, lo, hi) == Go(p, m, n, lo, hi)
    decreases n
  {
    hide Step;
    if n > 0 && k > 0 && Step(p, m).Some? {
      StopsOnce(p, Step(p, m).value, n - 1, k - 1, lo, hi);
    }
  }

  /** What the machine must show for an outcome of the source. */
  ghost predicate Agrees(r: Run, s: Store, o: Outcome, m: Vm, end: nat, brk: nat) {
    match o
    case OutOfFuel => false
    case Fault => r.Crashed?
    case Normal(t) => r.Running? && r.m.ip == end && Done(s, t, m, r.m)
    case Broke(t) => r.Running? && r.m.ip == brk && Done(s, t, m, r.m)
  }

  /** The compiled code stops exactly when the source terminates, and then the frame
      holds the variables the source computes, the output is the same, the operand stack
      is as deep as before, and nothing else in it has changed. */
  lemma CompilerCorrect(p: Image, x: Stmt, s: Store, m: Vm, brk: nat, fuel: nat, n: nat)
    requires Ready(p, x, s, m, brk, m.ip, m.ip + SizeS(x))
    requires !(m.ip <= brk < m.ip + SizeS(x))
    ensures Stopped(p, m, n, m.ip, m.ip + SizeS(x)) ==> Exec(x, s, n + 1) != OutOfFuel
    ensures Exec(x, s, fuel) != OutOfFuel ==> Stops(p, m, m.ip, m.ip + SizeS(x))
    ensures Stopped(p, m, n, m.ip, m.ip + SizeS(x)) && Exec(x, s, fuel) != OutOfFuel ==>
              Agrees(Go(p, m, n, m.ip, m.ip + SizeS(x)), s, Exec(x, s, fuel), m, m.ip + SizeS(x), brk)
  {
    hide Go, Ready, Done, SizeS, Exec;
    var lo, hi := m.ip, m.ip + SizeS(x);
    if Stopped(p, m, n, lo, hi) {
      var k := StmtRuns(p, x, s, m, brk, lo, hi, n + 1);
      StopsBefore(p, m, n, k, lo, hi, s, Exec(x, s, n + 1), brk);
    }
    if Exec(x, s, fuel) != OutOfFuel {
      var k := StmtRuns(p, x, s, m, brk, lo, hi, fuel);
      assert Stopped(p, m, k, lo, hi);
      if Stopped(p, m, n, lo, hi) { StopsOnce(p, m, n, k, lo, hi); }
    }
  }

  lemma StopsBefore(p: Image, m: Vm, n: nat, k: nat, lo: nat, hi: nat, s: Store, o: Outcome, brk: nat)
    requires Stopped(p, m, n, lo, hi) && Ends(p, m, k, lo, hi, s, o, n + 1, hi, brk)
    ensures o != OutOfFuel
  {
    hide Go;
    if o == OutOfFuel { StopsOnce(p, m, n, k, lo, hi); }
  }
}
