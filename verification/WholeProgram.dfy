/** The pipeline: a method body is optimized, translated with backpatching, and run. */
module WholeProgram {
  import opened Operators
  import opened SourceLanguage
  import opened ConstTable
  import opened Bytecode
  import opened Backpatching
  import opened BytecodeOutput
  import opened CompiledCode
  import opened CompilerCorrectness
  import Optimizer
  import opened JumpTargets

  // ----- breaks ---------------------------------------------------------------------

  /** Every break is inside a loop. */
  predicate Closed(x: Stmt)
    decreases x
  {
    match x
    case If(_, y) => Closed(y)
    case IfElse(_, y, z) => Closed(y) && Closed(z)
    case Then(a, b) => Closed(a) && Closed(b)
    case Case(_, blocks) => ClosedB(blocks)
    case Break => false
    case _ => true
  }

  predicate ClosedB(blocks: Blocks)
    decreases blocks
  {
    match blocks
    case NoBlocks => true
    case Block(_, body, next) => Closed(body) && ClosedB(next)
  }

  /** After translating, a BRK label is left exactly when a break is outside all loops:
      loops resolve every break of their body. */
  lemma {:induction false} LabelsLeft(x: Stmt)
    ensures BRK in LabS(x) <==> !Closed(x)
    decreases x, 1
  {
    hide SizeE, SizeA, SizeB, SizeS, LabB, Plain;
    match x
    case Simple(a) => PlainClean(SizeA(a));
    case Write(e) => PlainClean(SizeE(e) + 1);
    case If(c, y) => PlainClean(SizeE(c) + 3); LabelsLeft(y);
    case IfElse(c, y, z) => PlainClean(SizeE(c) + 3); PlainClean(3); LabelsLeft(y); LabelsLeft(z);
    case While(_, _) => PlainClean(SizeS(x));
    case For(_, _, _, _) => PlainClean(SizeS(x));
    case Break => assert LabS(x)[0] == BRK;
    case Then(a, b) => LabelsLeft(a); LabelsLeft(b);
    case Case(e, blocks) => LabelsLeftB(e, blocks);
    case Empty =>
  }

  lemma {:induction false} LabelsLeftB(e: Expr, blocks: Blocks)
    ensures BRK in LabB(e, blocks) <==> !ClosedB(blocks)
    decreases blocks, 0
  {
    hide SizeScopes, SizeS, SizeB, LabS, Plain;
    match blocks
    case NoBlocks =>
    case Block(scopes, body, next) =>
      PlainClean(SizeScopes(e, scopes) + 3);
      PlainClean(if next.Block? then 3 else 0);
      LabelsLeft(body);
      LabelsLeftB(e, next);
  }

  lemma PlainClean(n: nat)
    ensures BRK !in Plain(n)
  {
  }

  /** A body without stray breaks never ends by a break. */
  lemma {:induction false} ClosedNeverBreaks(x: Stmt, s: Store, f: nat)
    requires Closed(x)
    ensures !Exec(x, s, f).Broke?
    decreases f, x, 1
  {
    hide Eval, Select;
    match x
    case If(_, y) => ClosedNeverBreaks(y, s, f);
    case IfElse(_, y, z) => ClosedNeverBreaks(y, s, f); ClosedNeverBreaks(z, s, f);
    case While(c, body) =>
      if f > 0 {
        var r := Exec(body, s, f - 1);
        if r.Normal? { ClosedNeverBreaks(x, r.s, f - 1); }
      }
    case For(init, c, step, body) =>
      var r := ExecAssignment(init, s);
      if r.Normal? { TurnsNeverBreak(c, step, body, r.s, f); }
    case Then(a, b) =>
      ClosedNeverBreaks(a, s, f);
      var r := Exec(a, s, f);
      if r.Normal? { ClosedNeverBreaks(b, r.s, f); }
    case Case(e, blocks) =>
      SelectSmaller(e, blocks, s);
      SelectClosed(e, blocks, s);
      var b := Select(e, blocks, s);
      if b.Some? && b.value != Empty { ClosedNeverBreaks(b.value, s, f); }
    case _ =>
  }

  lemma {:induction false} TurnsNeverBreak(c: Expr, step: Assignment, body: Stmt, s: Store, f: nat)
    ensures !ExecFor(c, step, body, s, f).Broke?
    decreases f, body, 2
  {
    hide Eval, Exec;
    if f > 0 {
      var r := Exec(body, s, f - 1);
      if r.Normal? {
        var k := ExecAssignment(step, r.s);
        if k.Normal? { TurnsNeverBreak(c, step, body, k.s, f - 1); }
      }
    }
  }

  lemma {:induction false} SelectClosed(e: Expr, blocks: Blocks, s: Store)
    requires ClosedB(blocks)
    ensures var b := Select(e, blocks, s); b.Some? ==> Closed(b.value)
  {
    hide AnyMatch;
    match blocks
    case NoBlocks =>
    case Block(_, _, next) => SelectClosed(e, next, s);
  }

  /** The optimizer moves no break out of its loop. */
  lemma {:induction false} OptimizedClosed(x: Stmt)
    requires Closed(x) && Optimizer.OptS(x).Some?
    ensures Closed(Optimizer.OptS(x).value)
    decreases x, 1
  {
    hide Optimizer.OptE, Optimizer.OptA;
    match x
    case If(_, y) => OptimizedClosed(y);
    case IfElse(_, y, z) => OptimizedClosed(y); OptimizedClosed(z);
    case Then(a, b) => OptimizedClosed(a); OptimizedClosed(b);
    case Case(e, blocks) =>
      var a := Optimizer.OptE(e).value;
      if a.Numb? { ChosenClosed(a.value, blocks); } else { OptimizedClosedB(blocks); }
    case _ =>
  }

  lemma {:induction false} OptimizedClosedB(blocks: Blocks)
    requires ClosedB(blocks) && Optimizer.OptB(blocks).Some?
    ensures ClosedB(Optimizer.OptB(blocks).value)
    decreases blocks, 0
  {
    hide Optimizer.OptS, Closed;
    match blocks
    case NoBlocks =>
    case Block(_, body, next) => OptimizedClosed(body); OptimizedClosedB(next);
  }

  lemma {:induction false} ChosenClosed(n: int32, blocks: Blocks)
    requires ClosedB(blocks) && Optimizer.OptChosen(n, blocks).Some?
    ensures Closed(Optimizer.OptChosen(n, blocks).value)
    decreases blocks, 0
  {
    match blocks
    case NoBlocks =>
    case Block(scopes, body, next) =>
      if Optimizer.SomeTakes(n, scopes) { OptimizedClosed(body); } else { ChosenClosed(n, next); }
  }

  /** Code without unresolved breaks is final. */
  lemma ClosedIsFinal(x: Stmt, org: nat, brk: nat, t: Table)
    requires Closed(x)
    ensures CodeS(x, org, brk, t) == CodeS(x, org, 0, t)
  {
    hide CodeS, LabS, Closed, PatchAll;
    LabelsLeft(x);
    NoneMarked(LabS(x), org);
    var pre: seq<byte> := seq(org, i => 0);
    PatchBreaks(pre, x, org, [], brk, t);
    NothingPatched(pre + CodeS(x, org, 0, t) + [], brk);
    var a, b := CodeS(x, org, 0, t), CodeS(x, org, brk, t);
    assert (pre + a + [])[org..] == a && (pre + b + [])[org..] == b;
  }

  lemma NothingPatched(code: seq<byte>, target: nat)
    ensures PatchAll(code, [], target) == code
  {
  }

  lemma {:induction false} NoneMarked(l: seq<Label>, org: nat)
    requires BRK !in l
    ensures Marked(l, org) == []
  {
    if l != [] { NoneMarked(l[1..], org + 1); }
  }

  /** A body without stray breaks never jumps out of its own code, nor into the middle of
      an instruction. */
  lemma ClosedJumpsLand(x: Stmt, org: nat, t: Table)
    requires Closed(x) && org + SizeS(x) < 0x1_0000
    ensures Whole(CodeS(x, org, 0, t))
    ensures JumpsTo(CodeS(x, org, 0, t), Boundaries(CodeS(x, org, 0, t), org))
  {
    hide CodeS, SizeS, Closed, Whole, Boundaries, JumpsTo;
    var end := org + SizeS(x);
    AllJumpsLand(x, org, end, t);
    ClosedIsFinal(x, org, end, t);
    var b := Boundaries(CodeS(x, org, end, t), org);
    assert b + {end} == b;
  }

  // ----- the pipeline ---------------------------------------------------------------

  /** Optimizes and translates a method body into an empty output buffer. */
  method Compile(x: Stmt) returns (p: Image)
    requires Optimizer.OptS(x).Some?
    ensures var y := Optimizer.OptS(x).value;
            p.code == CodeS(y, 0, 0, p.table) && CoversS(y, p.table) && Consistent(p.table)
  {
    var y := Optimizer.OptS(x).value;
    var out := new Bcout();
    out.TranslateS(y);
    p := Image(out.arr, out.table);
    assert [] + out.arr == out.arr;
  }

  /** The machine stands before the optimized code of `x`: its frame holds the store, the
      operands have room, and addresses and offsets fit into 16 bits. */
  ghost predicate Loaded(p: Image, x: Stmt, s: Store, m: Vm)
    requires Optimizer.OptS(x).Some?
  {
    Ready(p, Optimizer.OptS(x).value, s, m, 0, m.ip, m.ip + SizeS(Optimizer.OptS(x).value))
  }

  /** What Compile answers can be loaded at address 0, before any frame for the body. */
  lemma CompiledLoads(x: Stmt, p: Image, s: Store, m: Vm)
    requires Optimizer.OptS(x).Some? && p.code == CodeS(Optimizer.OptS(x).value, 0, 0, p.table)
    requires CoversS(Optimizer.OptS(x).value, p.table) && Fits(p) && m.ip == 0 && Rel(s, m)
    requires ScopedS(Optimizer.OptS(x).value, |s.args|, |s.locals|)
    requires |m.stack| + DepthS(Optimizer.OptS(x).value) <= STACK_SIZE
    ensures Loaded(p, x, s, m)
  {
    hide CodeS, CoversS, ScopedS, DepthS, Rel, SizeS;
    assert p.code[0..|p.code|] == p.code;
  }

  /** The compiled program against its source, or rather what the optimizer keeps of it, which
      is all of it exactly when it is safe.  When the source ends, the machine stops with the
      same variables, output and operand depth; when the machine stops, the source ends, at
      worst in a fault the optimizer has removed.  When no switch loses all its tests faults
      are kept as well: the machine stops exactly when the source ends, and in the same way. */
  lemma PipelineCorrect(x: Stmt, p: Image, s: Store, m: Vm, f: nat, n: nat)
    requires Optimizer.OptS(x).Some? && Closed(x) && Loaded(p, x, s, m)
    ensures Optimizer.Kept(x) == x <==> Optimizer.Safe(x)
    ensures var k, hi := Optimizer.Kept(x), m.ip + SizeS(Optimizer.OptS(x).value);
            && (Exec(k, s, f).Normal? || (Optimizer.KeepsTests(k) && Exec(k, s, f) != OutOfFuel) ==>
                  Stops(p, m, m.ip, hi)
                  && (Stopped(p, m, n, m.ip, hi) ==> Agrees(Go(p, m, n, m.ip, hi), s, Exec(k, s, f), m, hi, hi)))
            && (Stopped(p, m, n, m.ip, hi) ==>
                  var r := Exec(k, s, n + 2);
                  r != OutOfFuel && (r == Fault || Agrees(Go(p, m, n, m.ip, hi), s, r, m, hi, hi))
                  && (Optimizer.KeepsTests(k) ==> Agrees(Go(p, m, n, m.ip, hi), s, r, m, hi, hi)))
  {
    hide *;
    Optimizer.KeptSame(x);
    Optimizer.KeptIsSafe(x);
    KeptClosed(x);
    LoadedKept(p, x, s, m);
    SafePipeline(Optimizer.Kept(x), p, s, m, f, n);
  }

  lemma LoadedKept(p: Image, x: Stmt, s: Store, m: Vm)
    requires Optimizer.OptS(x).Some? && Loaded(p, x, s, m) && Optimizer.OptS(Optimizer.Kept(x)) == Optimizer.OptS(x)
    ensures Loaded(p, Optimizer.Kept(x), s, m)
  {
    hide Ready, SizeS, Optimizer.OptS, Optimizer.Kept;
  }

  lemma {:induction false} KeptClosed(x: Stmt)
    requires Closed(x)
    ensures Closed(Optimizer.Kept(x))
    decreases x
  {
    hide Optimizer.OptE;
    match x
    case If(_, y) => KeptClosed(y);
    case IfElse(_, y, z) => KeptClosed(y); KeptClosed(z);
    case Then(a, b) => KeptClosed(a); KeptClosed(b);
    case Case(e, blocks) => KeptClosedB(blocks, Optimizer.OptE(e).Some? && Optimizer.OptE(e).value.Numb?);
    case _ =>
  }

  lemma {:induction false} KeptClosedB(blocks: Blocks, constant: bool)
    requires ClosedB(blocks)
    ensures ClosedB(Optimizer.KeptB(blocks, constant))
    decreases blocks
  {
    match blocks
    case NoBlocks =>
    case Block(_, body, next) => KeptClosed(body); KeptClosedB(next, constant);
  }

  lemma SafePipeline(x: Stmt, p: Image, s: Store, m: Vm, f: nat, n: nat)
    requires Optimizer.OptS(x).Some? && Optimizer.Safe(x) && Closed(x) && Loaded(p, x, s, m)
    ensures var hi := m.ip + SizeS(Optimizer.OptS(x).value);
            && (Exec(x, s, f).Normal? || (Optimizer.KeepsTests(x) && Exec(x, s, f) != OutOfFuel) ==>
                  Stops(p, m, m.ip, hi)
                  && (Stopped(p, m, n, m.ip, hi) ==> Agrees(Go(p, m, n, m.ip, hi), s, Exec(x, s, f), m, hi, hi)))
            && (Stopped(p, m, n, m.ip, hi) ==>
                  var r := Exec(x, s, n + 2);
                  r != OutOfFuel && (r == Fault || Agrees(Go(p, m, n, m.ip, hi), s, r, m, hi, hi))
                  && (Optimizer.KeepsTests(x) ==> Agrees(Go(p, m, n, m.ip, hi), s, r, m, hi, hi)))
  {
    hide Ready, Go, Done, Exec, SizeS, Stopped, Optimizer.OptS, Optimizer.Safe, Optimizer.KeepsTests, Closed, Agrees;
    var y := Optimizer.OptS(x).value;
    var hi := m.ip + SizeS(y);
    OptimizedClosed(x);
    FinalReady(p, y, s, m, hi);
    CompilerCorrect(p, y, s, m, hi, n + 1, n);
    if Exec(x, s, f).Normal? || (Optimizer.KeepsTests(x) && Exec(x, s, f) != OutOfFuel) {
      if Exec(x, s, f).Normal? {
        Optimizer.OptimizerPreserves(x, s, f);
      } else {
        Optimizer.OptimizerKeepsFaults(x, s, f);
      }
      CompilerCorrect(p, y, s, m, hi, f, n);
    }
    if Stopped(p, m, n, m.ip, hi) {
      Optimizer.OptimizerReflects(x, s, n + 1);
      if Optimizer.KeepsTests(x) { Optimizer.OptimizerKeepsFaults(x, s, n + 1); }
    }
  }

  lemma FinalReady(p: Image, y: Stmt, s: Store, m: Vm, brk: nat)
    requires Ready(p, y, s, m, 0, m.ip, m.ip + SizeS(y)) && Closed(y) && brk == m.ip + SizeS(y)
    ensures Ready(p, y, s, m, brk, m.ip, m.ip + SizeS(y))
  {
    hide Rel, CodeS, CoversS, ScopedS, DepthS, SizeS, Sits;
    ClosedIsFinal(y, m.ip, brk, p.table);
  }
}
