/** Forward jumps are emitted with a placeholder and patched when their target is
    known (compiler/bcout.cpp).  Patching the code laid out for the placeholder gives
    the code laid out for the target. */
module Backpatching {
  import opened Operators
  import opened SourceLanguage
  import opened ConstTable
  import opened Bytecode

  datatype Label = NIL | BRK

  // ----- labels ---------------------------------------------------------------------

  function Plain(n: nat): (l: seq<Label>)
    ensures |l| == n && forall i :: 0 <= i < n ==> l[i] == NIL
  {
    seq(n, i => NIL)
  }

  /** The labels of a statement's bytes: the opcodes of its unresolved breaks. */
  function LabS(x: Stmt): (l: seq<Label>)
    ensures |l| == SizeS(x)
    decreases x
  {
    match x
    case Empty => []
    case Simple(a) => Plain(SizeA(a))
    case Write(e) => Plain(SizeE(e) + 1)
    case If(c, y) => Plain(SizeE(c) + 3) + LabS(y)
    case IfElse(c, y, z) => Plain(SizeE(c) + 3) + LabS(y) + Plain(3) + LabS(z)
    case While(c, body) => Plain(SizeS(x))
    case For(init, c, step, body) => Plain(SizeS(x))
    case Break => [BRK, NIL, NIL]
    case Then(a, b) => LabS(a) + LabS(b)
    case Case(e, blocks) => LabB(e, blocks)
  }

  function LabB(e: Expr, blocks: Blocks): (l: seq<Label>)
    ensures |l| == SizeB(e, blocks)
    decreases blocks
  {
    match blocks
    case NoBlocks => []
    case Block(scopes, body, next) =>
      Plain(SizeScopes(e, scopes) + 3) + LabS(body) + Plain(if next.Block? then 3 else 0) + LabB(e, next)
  }

  /** The addresses of the labelled bytes. */
  function Marked(l: seq<Label>, org: nat): seq<nat> {
    if l == [] then [] else (if l[0] == BRK then [org] else []) + Marked(l[1..], org + 1)
  }

  lemma {:induction false} MarkedAppend(a: seq<Label>, b: seq<Label>, org: nat)
    ensures Marked(a + b, org) == Marked(a, org) + Marked(b, org + |a|)
  {
    if a == [] {
      assert a + b == b;
    } else {
      assert (a + b)[1..] == a[1..] + b;
      MarkedAppend(a[1..], b, org + 1);
    }
  }

  lemma {:induction false} MarkedPlain(n: nat, org: nat)
    ensures Marked(Plain(n), org) == []
  {
    if n > 0 {
      assert Plain(n)[1..] == Plain(n - 1);
      MarkedPlain(n - 1, org + 1);
    }
  }

  // ----- patching -------------------------------------------------------------------

  /** The 16-bit operand of the instruction at `at`, overwritten. */
  function Patch(code: seq<byte>, at: nat, target: nat): (r: seq<byte>)
    ensures |r| == |code|
  {
    if at + 2 >= |code| then code
    else code[at + 1 := target % 256][at + 2 := target / 256 % 256]
  }

  function PatchAll(code: seq<byte>, at: seq<nat>, target: nat): (r: seq<byte>)
    ensures |r| == |code|
    decreases |at|
  {
    if at == [] then code else PatchAll(Patch(code, at[0], target), at[1..], target)
  }

  lemma PatchMiddle(a: seq<byte>, op: byte, arg: nat, b: seq<byte>, target: nat)
    ensures Patch(a + Word(op, arg) + b, |a|, target) == a + Word(op, target) + b
  {
    var c, d := a + Word(op, arg) + b, a + Word(op, target) + b;
    forall i | 0 <= i < |c| ensures Patch(c, |a|, target)[i] == d[i] { }
  }

  lemma {:induction false} PatchAllAppend(code: seq<byte>, a: seq<nat>, b: seq<nat>, target: nat)
    ensures PatchAll(code, a + b, target) == PatchAll(PatchAll(code, a, target), b, target)
    decreases |a|
  {
    if a == [] {
      assert a + b == b;
    } else {
      assert (a + b)[1..] == a[1..] + b;
      PatchAllAppend(Patch(code, a[0], target), a[1..], b, target);
    }
  }

  // ----- scopes ---------------------------------------------------------------------

  /** The jumps of the scopes to their block. */
  function ScopeJumps(e: Expr, scopes: seq<Scope>, org: nat): seq<nat> {
    if scopes == [] then []
    else [org + SizeScope(e, scopes[0]) - 3] + ScopeJumps(e, scopes[1..], org + SizeScope(e, scopes[0]))
  }

  function ScopeHead(e: Expr, scope: Scope, org: nat, t: Table): (c: seq<byte>)
    ensures |c| == SizeScope(e, scope) - 3
  {
    match scope
    case Default => []
    case Equals(l) => CodeE(Bin(NotEq, e, l), t)
    case Range(lo, hi) =>
      CodeE(Bin(GreaterOrEq, e, Numb(lo)), t) + Word(IFNJ, org + SizeScope(e, scope))
      + CodeE(Bin(Greater, e, Numb(hi)), t)
  }

  lemma ScopeShape(e: Expr, scope: Scope, org: nat, target: nat, t: Table)
    ensures CodeScope(e, scope, org, target, t)
         == ScopeHead(e, scope, org, t) + Word(if scope.Default? then JU else IFNJ, target)
  {
    hide CodeE;
    if scope.Default? { assert [] + Word(JU, target) == Word(JU, target); }
  }

  lemma PatchScope(pre: seq<byte>, e: Expr, scope: Scope, org: nat, post: seq<byte>, target: nat, t: Table)
    requires |pre| == org
    ensures Patch(pre + CodeScope(e, scope, org, 0, t) + post, org + SizeScope(e, scope) - 3, target)
         == pre + CodeScope(e, scope, org, target, t) + post
  {
    hide CodeScope, ScopeHead;
    ScopeShape(e, scope, org, 0, t);
    ScopeShape(e, scope, org, target, t);
    var head, op := ScopeHead(e, scope, org, t), if scope.Default? then JU else IFNJ;
    PatchMiddle(pre + head, op, 0, post, target);
    assert pre + (head + Word(op, 0)) + post == pre + head + Word(op, 0) + post;
    assert pre + (head + Word(op, target)) + post == pre + head + Word(op, target) + post;
  }

  lemma {:induction false} PatchScopes(pre: seq<byte>, e: Expr, scopes: seq<Scope>, org: nat, post: seq<byte>, target: nat, t: Table)
    requires |pre| == org
    ensures PatchAll(pre + CodeScopes(e, scopes, org, 0, t) + post, ScopeJumps(e, scopes, org), target)
         == pre + CodeScopes(e, scopes, org, target, t) + post
    decreases |scopes|
  {
    hide CodeScope, SizeScope, Patch;
    if scopes != [] {
      var n := SizeScope(e, scopes[0]);
      var first0, first := CodeScope(e, scopes[0], org, 0, t), CodeScope(e, scopes[0], org, target, t);
      var rest0, rest := CodeScopes(e, scopes[1..], org + n, 0, t), CodeScopes(e, scopes[1..], org + n, target, t);
      PatchScope(pre, e, scopes[0], org, rest0 + post, target, t);
      PatchScopes(pre + first, e, scopes[1..], org + n, post, target, t);
      assert pre + (first0 + rest0) + post == pre + first0 + (rest0 + post);
      assert pre + first + (rest0 + post) == pre + first + rest0 + post;
      assert pre + first + rest + post == pre + (first + rest) + post;
    }
  }

  // ----- breaks ---------------------------------------------------------------------

  /** Two pieces patched one after the other, with untouched code between them. */
  lemma PatchTwo(pre: seq<byte>, a0: seq<byte>, a1: seq<byte>, mid: seq<byte>, b0: seq<byte>, b1: seq<byte>, post: seq<byte>,
                 j: seq<nat>, k: seq<nat>, target: nat)
    requires PatchAll(pre + a0 + (mid + b0 + post), j, target) == pre + a1 + (mid + b0 + post)
    requires PatchAll(pre + a1 + mid + b0 + post, k, target) == pre + a1 + mid + b1 + post
    ensures PatchAll(pre + (a0 + mid + b0) + post, j + k, target) == pre + (a1 + mid + b1) + post
  {
    hide PatchAll;
    PatchAllAppend(pre + (a0 + mid + b0) + post, j, k, target);
    assert pre + (a0 + mid + b0) + post == pre + a0 + (mid + b0 + post);
    assert pre + a1 + (mid + b0 + post) == pre + a1 + mid + b0 + post;
    assert pre + (a1 + mid + b1) + post == pre + a1 + mid + b1 + post;
  }

  /** A piece after untouched code. */
  lemma PatchAfter(pre: seq<byte>, head: seq<byte>, b0: seq<byte>, b1: seq<byte>, post: seq<byte>, k: seq<nat>, target: nat)
    requires PatchAll(pre + head + b0 + post, k, target) == pre + head + b1 + post
    ensures PatchAll(pre + (head + b0) + post, k, target) == pre + (head + b1) + post
  {
    hide PatchAll;
    assert pre + (head + b0) + post == pre + head + b0 + post;
    assert pre + (head + b1) + post == pre + head + b1 + post;
  }

  /** The patched breaks of a statement are the breaks laid out for `target`. */
  lemma {:induction false} PatchBreaks(pre: seq<byte>, x: Stmt, org: nat, post: seq<byte>, target: nat, t: Table)
    requires |pre| == org
    ensures PatchAll(pre + CodeS(x, org, 0, t) + post, Marked(LabS(x), org), target)
         == pre + CodeS(x, org, target, t) + post
    decreases x, 1
  {
    hide Patch, PatchAll, Marked, CodeE, CodeA, CodeTurns, SizeE, SizeA, CodeS, LabS, SizeS, SizeB, Word;
    match x
    case If(c, y) => PatchIf(pre, c, y, org, post, target, t);
    case IfElse(c, y, z) => PatchIfElse(pre, c, y, z, org, post, target, t);
    case Break => PatchBreak(pre, org, post, target, t);
    case Then(a, b) => PatchThen(pre, a, b, org, post, target, t);
    case Case(e, blocks) =>
      CaseShape(e, blocks, org, 0, t);
      CaseShape(e, blocks, org, target, t);
      PatchBlockBreaks(pre, e, blocks, org, org + SizeS(x), post, target, t);
    case _ => PatchNothing(pre, x, org, post, target, t);
  }

  lemma CaseShape(e: Expr, blocks: Blocks, org: nat, brk: nat, t: Table)
    ensures var x := Case(e, blocks);
            CodeS(x, org, brk, t) == CodeB(e, blocks, org, brk, org + SizeS(x), t) && LabS(x) == LabB(e, blocks)
  {
    hide CodeB, LabB;
  }

  /** A statement whose breaks, if any, are resolved inside it. */
  lemma PatchNothing(pre: seq<byte>, x: Stmt, org: nat, post: seq<byte>, target: nat, t: Table)
    requires x.Empty? || x.Simple? || x.Write? || x.While? || x.For?
    ensures PatchAll(pre + CodeS(x, org, 0, t) + post, Marked(LabS(x), org), target)
         == pre + CodeS(x, org, target, t) + post
  {
    hide CodeE, CodeA, CodeTurns, Marked, Patch, CodeB, LabB, SizeB, SizeE, SizeA, Word, Plain;
    NoLabels(x);
    MarkedPlain(SizeS(x), org);
  }

  lemma NoLabels(x: Stmt)
    requires x.Empty? || x.Simple? || x.Write? || x.While? || x.For?
    ensures LabS(x) == Plain(SizeS(x))
  {
    hide SizeE, SizeA, LabB, SizeB;
  }

  lemma {:induction false} PatchIf(pre: seq<byte>, c: Expr, y: Stmt, org: nat, post: seq<byte>, target: nat, t: Table)
    requires |pre| == org
    ensures PatchAll(pre + CodeS(If(c, y), org, 0, t) + post, Marked(LabS(If(c, y)), org), target)
         == pre + CodeS(If(c, y), org, target, t) + post
    decreases If(c, y), 0
  {
    hide Patch, PatchAll, Marked, CodeE, CodeS, LabS, SizeS, SizeB, Word, SizeE, Plain;
    var head, at := CodeE(c, t) + Word(IFNJ, org + SizeS(If(c, y))), org + SizeE(c) + 3;
    IfShape(c, y, org, 0, t);
    IfShape(c, y, org, target, t);
    MarkedPlain(SizeE(c) + 3, org);
    MarkedAppend(Plain(SizeE(c) + 3), LabS(y), org);
    PatchBreaks(pre + head, y, at, post, target, t);
    PatchAfter(pre, head, CodeS(y, at, 0, t), CodeS(y, at, target, t), post, Marked(LabS(y), at), target);
    assert [] + Marked(LabS(y), at) == Marked(LabS(y), at);
  }

  lemma IfShape(c: Expr, y: Stmt, org: nat, brk: nat, t: Table)
    ensures var head, at := CodeE(c, t) + Word(IFNJ, org + SizeS(If(c, y))), org + SizeE(c) + 3;
            && |head| == SizeE(c) + 3 && CodeS(If(c, y), org, brk, t) == head + CodeS(y, at, brk, t)
            && LabS(If(c, y)) == Plain(SizeE(c) + 3) + LabS(y)
  {
    hide CodeE, SizeE, Word, Plain, SizeB, CodeB, LabB, CodeTurns, CodeA, SizeA;
    WordLength(IFNJ, org + SizeS(If(c, y)));
  }

  lemma {:induction false} PatchThen(pre: seq<byte>, a: Stmt, b: Stmt, org: nat, post: seq<byte>, target: nat, t: Table)
    requires |pre| == org
    ensures PatchAll(pre + CodeS(Then(a, b), org, 0, t) + post, Marked(LabS(Then(a, b)), org), target)
         == pre + CodeS(Then(a, b), org, target, t) + post
    decreases Then(a, b), 0
  {
    hide Patch, PatchAll, Marked, CodeS, LabS, SizeS;
    var at := org + SizeS(a);
    var a0, a1 := CodeS(a, org, 0, t), CodeS(a, org, target, t);
    var b0, b1 := CodeS(b, at, 0, t), CodeS(b, at, target, t);
    ThenShape(a, b, org, 0, t);
    ThenShape(a, b, org, target, t);
    MarkedAppend(LabS(a), LabS(b), org);
    PatchBreaks(pre, a, org, [] + b0 + post, target, t);
    assert pre + a1 + [] == pre + a1;
    PatchBreaks(pre + a1, b, at, post, target, t);
    PatchTwo(pre, a0, a1, [], b0, b1, post, Marked(LabS(a), org), Marked(LabS(b), at), target);
  }

  lemma ThenShape(a: Stmt, b: Stmt, org: nat, brk: nat, t: Table)
    ensures CodeS(Then(a, b), org, brk, t) == CodeS(a, org, brk, t) + [] + CodeS(b, org + SizeS(a), brk, t)
    ensures LabS(Then(a, b)) == LabS(a) + LabS(b)
  {
    hide SizeB, CodeB, LabB, CodeTurns, CodeE, CodeA, SizeE, SizeA, Word, Plain;
    EmptyMiddle(CodeS(a, org, brk, t), CodeS(b, org + SizeS(a), brk, t));
  }

  lemma EmptyMiddle(c: seq<byte>, d: seq<byte>)
    ensures c + [] + d == c + d
  {
    assert c + [] == c;
  }

  lemma WordLength(op: byte, arg: nat)
    ensures |Word(op, arg)| == 3
  {
  }

  lemma PatchBreak(pre: seq<byte>, org: nat, post: seq<byte>, target: nat, t: Table)
    requires |pre| == org
    ensures PatchAll(pre + CodeS(Break, org, 0, t) + post, Marked(LabS(Break), org), target)
         == pre + CodeS(Break, org, target, t) + post
  {
    hide Patch, Word;
    var l := LabS(Break);
    assert l[1..] == Plain(2);
    MarkedPlain(2, org + 1);
    assert Marked(l, org) == [org];
    PatchMiddle(pre, JU, 0, post, target);
    assert [org][1..] == [];
  }

  lemma {:induction false} PatchIfElse(pre: seq<byte>, c: Expr, y: Stmt, z: Stmt, org: nat, post: seq<byte>, target: nat, t: Table)
    requires |pre| == org
    ensures PatchAll(pre + CodeS(IfElse(c, y, z), org, 0, t) + post, Marked(LabS(IfElse(c, y, z)), org), target)
         == pre + CodeS(IfElse(c, y, z), org, target, t) + post
    decreases IfElse(c, y, z), 0
  {
    hide Patch, CodeE, CodeTurns, SizeE, CodeB, LabB, SizeB, Word, Plain, PatchAll, Marked, CodeS, SizeS, LabS;
    var x := IfElse(c, y, z);
    var at := org + SizeE(c) + 3;
    var bt := at + SizeS(y) + 3;
    var head, mid := CodeE(c, t) + Word(IFNJ, bt), Word(JU, org + SizeS(x));
    IfElseShape(c, y, z, org, 0, t, at, bt, org + SizeS(x));
    IfElseShape(c, y, z, org, target, t, at, bt, org + SizeS(x));
    var y0, y1, z0, z1 := CodeS(y, at, 0, t), CodeS(y, at, target, t), CodeS(z, bt, 0, t), CodeS(z, bt, target, t);
    LabelsIfElse(c, y, z, org);
    PatchBreaks(pre + head, y, at, mid + z0 + post, target, t);
    PatchBreaks(pre + head + y1 + mid, z, bt, post, target, t);
    PatchTwo(pre + head, y0, y1, mid, z0, z1, post, Marked(LabS(y), at), Marked(LabS(z), bt), target);
    PatchAfter(pre, head, y0 + mid + z0, y1 + mid + z1, post, Marked(LabS(x), org), target);
  }

  lemma IfElseShape(c: Expr, y: Stmt, z: Stmt, org: nat, brk: nat, t: Table, at: nat, bt: nat, end: nat)
    requires at == org + SizeE(c) + 3 && bt == at + SizeS(y) + 3 && end == org + SizeS(IfElse(c, y, z))
    ensures |CodeE(c, t) + Word(IFNJ, bt)| == SizeE(c) + 3 && |Word(JU, end)| == 3
    ensures CodeS(IfElse(c, y, z), org, brk, t)
         == (CodeE(c, t) + Word(IFNJ, bt)) + (CodeS(y, at, brk, t) + Word(JU, end) + CodeS(z, bt, brk, t))
  {
    hide CodeE, CodeTurns, CodeB, SizeB, SizeE, Word, CodeA, SizeA;
    WordLength(IFNJ, bt);
    WordLength(JU, end);
    Regroup(CodeE(c, t), Word(IFNJ, bt), CodeS(y, at, brk, t), Word(JU, end), CodeS(z, bt, brk, t));
  }

  lemma LabelsIfElse(c: Expr, y: Stmt, z: Stmt, org: nat)
    ensures var at := org + SizeE(c) + 3;
            Marked(LabS(IfElse(c, y, z)), org) == Marked(LabS(y), at) + Marked(LabS(z), at + SizeS(y) + 3)
  {
    hide Marked, SizeE, Plain, SizeB;
    var n := SizeE(c) + 3;
    MarkedFour(Plain(n), LabS(y), Plain(3), LabS(z), org);
    MarkedPlain(n, org);
    MarkedPlain(3, org + n + SizeS(y));
  }

  lemma LabelsBlock(e: Expr, scopes: seq<Scope>, body: Stmt, next: Blocks, org: nat)
    ensures var start := org + SizeScopes(e, scopes) + 3;
            var over := start + SizeS(body) + (if next.Block? then 3 else 0);
            Marked(LabB(e, Block(scopes, body, next)), org) == Marked(LabS(body), start) + Marked(LabB(e, next), over)
  {
    hide Marked, SizeScopes, SizeS, Plain, LabS, SizeB;
    var n, k := SizeScopes(e, scopes) + 3, if next.Block? then 3 else 0;
    MarkedFour(Plain(n), LabS(body), Plain(k), LabB(e, next), org);
    MarkedPlain(n, org);
    MarkedPlain(k, org + n + SizeS(body));
  }

  lemma MarkedFour(a: seq<Label>, b: seq<Label>, c: seq<Label>, d: seq<Label>, org: nat)
    ensures Marked(a + b + c + d, org)
         == Marked(a, org) + Marked(b, org + |a|) + Marked(c, org + |a| + |b|) + Marked(d, org + |a| + |b| + |c|)
  {
    hide Marked;
    MarkedAppend(a + b + c, d, org);
    MarkedAppend(a + b, c, org);
    MarkedAppend(a, b, org);
  }

  /** The code of a block in front of its body, and behind it. */
  function BlockHead(e: Expr, scopes: seq<Scope>, over: nat, org: nat, t: Table): seq<byte> {
    CodeScopes(e, scopes, org, org + SizeScopes(e, scopes) + 3, t) + Word(JU, over)
  }

  lemma BlockShape(e: Expr, scopes: seq<Scope>, body: Stmt, next: Blocks, org: nat, brk: nat, fin: nat, t: Table)
    ensures var start := org + SizeScopes(e, scopes) + 3;
            var over := start + SizeS(body) + (if next.Block? then 3 else 0);
            && |BlockHead(e, scopes, over, org, t)| == SizeScopes(e, scopes) + 3
            && CodeB(e, Block(scopes, body, next), org, brk, fin, t)
            == BlockHead(e, scopes, over, org, t) + (CodeS(body, start, brk, t)
               + (if next.Block? then Word(JU, fin) else []) + CodeB(e, next, over, brk, fin, t))
  {
    hide CodeScopes, CodeS, SizeScopes, SizeS, Word, SizeB, CodeTurns;
    var start := org + SizeScopes(e, scopes) + 3;
    var over := start + SizeS(body) + (if next.Block? then 3 else 0);
    WordLength(JU, over);
    Regroup(CodeScopes(e, scopes, org, start, t), Word(JU, over), CodeS(body, start, brk, t),
            if next.Block? then Word(JU, fin) else [], CodeB(e, next, over, brk, fin, t));
  }

  lemma Regroup(a: seq<byte>, b: seq<byte>, c: seq<byte>, d: seq<byte>, f: seq<byte>)
    ensures a + b + c + d + f == (a + b) + (c + d + f)
  {
    assert a + b + c + d + f == (a + b) + (c + d + f);
  }

  lemma NoBreaks(pre: seq<byte>, e: Expr, org: nat, fin: nat, post: seq<byte>, target: nat, t: Table)
    ensures PatchAll(pre + CodeB(e, NoBlocks, org, 0, fin, t) + post, Marked(LabB(e, NoBlocks), org), target)
         == pre + CodeB(e, NoBlocks, org, target, fin, t) + post
  {
  }

  lemma {:induction false} PatchBlockBreaks(pre: seq<byte>, e: Expr, blocks: Blocks, org: nat, fin: nat, post: seq<byte>, target: nat, t: Table)
    requires |pre| == org
    ensures PatchAll(pre + CodeB(e, blocks, org, 0, fin, t) + post, Marked(LabB(e, blocks), org), target)
         == pre + CodeB(e, blocks, org, target, fin, t) + post
    decreases blocks, 0
  {
    hide Patch, CodeE, CodeTurns, SizeE, CodeB, LabB, SizeB, Plain, PatchAll, Marked, CodeS, SizeS, SizeScopes, BlockHead, Word;
    match blocks
    case NoBlocks => NoBreaks(pre, e, org, fin, post, target, t);
    case Block(scopes, body, next) =>
      var start := org + SizeScopes(e, scopes) + 3;
      var over := start + SizeS(body) + (if next.Block? then 3 else 0);
      var head, mid := BlockHead(e, scopes, over, org, t), if next.Block? then Word(JU, fin) else [];
      BlockShape(e, scopes, body, next, org, 0, fin, t);
      BlockShape(e, scopes, body, next, org, target, fin, t);
      var y0, y1 := CodeS(body, start, 0, t), CodeS(body, start, target, t);
      var z0, z1 := CodeB(e, next, over, 0, fin, t), CodeB(e, next, over, target, fin, t);
      LabelsBlock(e, scopes, body, next, org);
      WordLength(JU, fin);
      PatchBreaks(pre + head, body, start, mid + z0 + post, target, t);
      PatchBlockBreaks(pre + head + y1 + mid, e, next, over, fin, post, target, t);
      PatchTwo(pre + head, y0, y1, mid, z0, z1, post, Marked(LabS(body), start), Marked(LabB(e, next), over), target);
      PatchAfter(pre, head, y0 + mid + z0, y1 + mid + z1, post, Marked(LabB(e, blocks), org), target);
  }

  // ----- jumps to the end of a switch -----------------------------------------------

  /** The jumps behind the bodies of a switch. */
  function FinalJumps(e: Expr, blocks: Blocks, org: nat): seq<nat> {
    match blocks
    case NoBlocks => []
    case Block(scopes, body, next) =>
      var at := org + SizeScopes(e, scopes) + 3 + SizeS(body);
      if next.Block? then [at] + FinalJumps(e, next, at + 3) else []
  }

  lemma {:induction false} PatchFinalJumps(pre: seq<byte>, e: Expr, blocks: Blocks, org: nat, brk: nat, post: seq<byte>, fin: nat, t: Table)
    requires |pre| == org
    ensures PatchAll(pre + CodeB(e, blocks, org, brk, 0, t) + post, FinalJumps(e, blocks, org), fin)
         == pre + CodeB(e, blocks, org, brk, fin, t) + post
    decreases blocks
  {
    hide Patch, CodeE, CodeTurns, SizeE, CodeB, SizeB, PatchAll, CodeS, SizeS, SizeScopes, BlockHead, Word;
    match blocks
    case NoBlocks => NoFinal(pre, e, blocks, post, fin, t);
    case Block(scopes, body, next) =>
      BlockShape(e, scopes, body, next, org, brk, 0, t);
      BlockShape(e, scopes, body, next, org, brk, fin, t);
      if next.Block? {
        var start := org + SizeScopes(e, scopes) + 3;
        var at := start + SizeS(body);
        var head, y := BlockHead(e, scopes, at + 3, org, t), CodeS(body, start, brk, t);
        var z0, z1 := CodeB(e, next, at + 3, brk, 0, t), CodeB(e, next, at + 3, brk, fin, t);
        OnePatch(pre + head + y, Word(JU, 0), Word(JU, fin), z0 + post, at, fin) by {
          PatchMiddle(pre + head + y, JU, 0, z0 + post, fin);
        }
        WordLength(JU, fin);
        PatchFinalJumps(pre + head + y + Word(JU, fin), e, next, at + 3, brk, post, fin, t);
        RegroupFinal(pre, head, y, Word(JU, 0), Word(JU, fin), z0, z1, post, at, FinalJumps(e, next, at + 3), fin);
      } else {
        NoFinal(pre, e, next, post, fin, t);
      }
  }

  lemma OnePatch(pre: seq<byte>, a0: seq<byte>, a1: seq<byte>, post: seq<byte>, at: nat, target: nat)
    requires Patch(pre + a0 + post, at, target) == pre + a1 + post
    ensures PatchAll(pre + a0 + post, [at], target) == pre + a1 + post
  {
    hide Patch;
    assert [at][1..] == [];
  }

  lemma RegroupFinal(pre: seq<byte>, head: seq<byte>, y: seq<byte>, a0: seq<byte>, a1: seq<byte>, z0: seq<byte>, z1: seq<byte>,
                     post: seq<byte>, at: nat, j: seq<nat>, fin: nat)
    requires PatchAll(pre + head + y + a0 + (z0 + post), [at], fin) == pre + head + y + a1 + (z0 + post)
    requires PatchAll(pre + head + y + a1 + z0 + post, j, fin) == pre + head + y + a1 + z1 + post
    ensures PatchAll(pre + (head + (y + a0 + z0)) + post, [at] + j, fin) == pre + (head + (y + a1 + z1)) + post
  {
    hide PatchAll;
    PatchAllAppend(pre + (head + (y + a0 + z0)) + post, [at], j, fin);
    assert pre + (head + (y + a0 + z0)) + post == pre + head + y + a0 + (z0 + post);
    assert pre + head + y + a1 + (z0 + post) == pre + head + y + a1 + z0 + post;
    assert pre + (head + (y + a1 + z1)) + post == pre + head + y + a1 + z1 + post;
  }

  lemma NoFinal(pre: seq<byte>, e: Expr, next: Blocks, post: seq<byte>, fin: nat, t: Table)
    requires next.NoBlocks?
    ensures forall code: seq<byte> :: PatchAll(code, [], fin) == code
    ensures forall over, brk, f :: CodeB(e, next, over, brk, f, t) == []
  {
  }
}
