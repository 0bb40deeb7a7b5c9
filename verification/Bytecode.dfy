/** The bytecode of a method body, as the Translate methods lay it out
    (compiler/strom.cpp) with all jumps patched, and the dispatch loop of the virtual
    machine that runs it (vm/vm.c). */
module Bytecode {
  import opened Basics
  import opened Operators
  import opened SourceLanguage
  import opened ConstTable

  type byte = x: int | 0 <= x < 256

  const BOP: byte := 1
  const UNM: byte := 2
  const DR: byte := 3
  const ST: byte := 4
  const IFNJ: byte := 5
  const JU: byte := 6
  const WRT: byte := 7
  const DUP: byte := 9
  const NOT: byte := 11
  const LVBI_C: byte := 17
  const LVBI_ARG: byte := 18
  const LVBI_LOC: byte := 19
  const LABI_ARG: byte := 27
  const LABI_LOC: byte := 28

  const STACK_SIZE := 4096

  // ----- layout ---------------------------------------------------------------------

  /** An instruction with a 16-bit operand, low byte first; a larger operand is cut. */
  function Word(op: byte, arg: nat): seq<byte> { [op, arg % 256, arg / 256 % 256] }

  function SizeE(e: Expr): (n: nat)
    ensures n > 0
  {
    match e
    case Numb(_) => 3
    case Var(_) => 3
    case Bin(_, l, r) => SizeE(l) + SizeE(r) + 2
    case UnMinus(x) => SizeE(x) + 1
    case Not(x) => SizeE(x) + 1
  }

  function Load(v: Variable): seq<byte> {
    match v
    case Local(i) => Word(LVBI_LOC, i)
    case Arg(i) => Word(LVBI_ARG, i)
  }

  function LoadAddress(v: Variable): seq<byte> {
    match v
    case Local(i) => Word(LABI_LOC, i)
    case Arg(i) => Word(LABI_ARG, i)
  }

  function CodeE(e: Expr, t: Table): (c: seq<byte>)
    ensures |c| == SizeE(e)
  {
    match e
    case Numb(n) => Word(LVBI_C, InternedAt(t, IntKey(n)))
    case Var(v) => Load(v)
    case Bin(op, l, r) => CodeE(l, t) + CodeE(r, t) + [BOP, OpCode(op)]
    case UnMinus(x) => CodeE(x, t) + [UNM]
    case Not(x) => CodeE(x, t) + [NOT]
  }

  function SizeA(a: Assignment): (n: nat)
    ensures n > 0
  {
    if a.Assign? then 3 + SizeE(a.e) + 1 else 3 + 2 + SizeE(a.e) + 2 + 1
  }

  function CodeA(a: Assignment, t: Table): (c: seq<byte>)
    ensures |c| == SizeA(a)
  {
    match a
    case Assign(v, e) => LoadAddress(v) + CodeE(e, t) + [ST]
    case AssignWithBop(op, v, e) => LoadAddress(v) + [DUP, DR] + CodeE(e, t) + [BOP, OpCode(op), ST]
  }

  function SizeScope(e: Expr, scope: Scope): nat {
    match scope
    case Default => 3
    case Equals(l) => SizeE(Bin(NotEq, e, l)) + 3
    case Range(lo, hi) => SizeE(Bin(GreaterOrEq, e, Numb(lo))) + 3 + SizeE(Bin(Greater, e, Numb(hi))) + 3
  }

  function SizeScopes(e: Expr, scopes: seq<Scope>): nat {
    if scopes == [] then 0 else SizeScope(e, scopes[0]) + SizeScopes(e, scopes[1..])
  }

  /** The test of one scope: to `target` when the value is taken, else on. */
  function CodeScope(e: Expr, scope: Scope, org: nat, target: nat, t: Table): (c: seq<byte>)
    ensures |c| == SizeScope(e, scope)
  {
    match scope
    case Default => Word(JU, target)
    case Equals(l) => CodeE(Bin(NotEq, e, l), t) + Word(IFNJ, target)
    case Range(lo, hi) =>
      CodeE(Bin(GreaterOrEq, e, Numb(lo)), t) + Word(IFNJ, org + SizeScope(e, scope))
      + CodeE(Bin(Greater, e, Numb(hi)), t) + Word(IFNJ, target)
  }

  function CodeScopes(e: Expr, scopes: seq<Scope>, org: nat, target: nat, t: Table): (c: seq<byte>)
    ensures |c| == SizeScopes(e, scopes)
  {
    if scopes == [] then []
    else CodeScope(e, scopes[0], org, target, t)
         + CodeScopes(e, scopes[1..], org + SizeScope(e, scopes[0]), target, t)
  }

  function SizeS(x: Stmt): nat
    decreases x
  {
    match x
    case Empty => 0
    case Simple(a) => SizeA(a)
    case Write(e) => SizeE(e) + 1
    case If(c, t) => SizeE(c) + 3 + SizeS(t)
    case IfElse(c, t, f) => SizeE(c) + 3 + SizeS(t) + 3 + SizeS(f)
    case While(c, body) => SizeE(c) + 3 + SizeS(body) + 3
    case For(init, c, step, body) => SizeA(init) + SizeE(c) + 3 + SizeS(body) + SizeA(step) + 3
    case Break => 3
    case Then(a, b) => SizeS(a) + SizeS(b)
    case Case(e, blocks) => SizeB(e, blocks)
  }

  /** A block: the scopes, the jump over it, its body and, when blocks follow, the jump
      to the end of the switch. */
  function SizeB(e: Expr, blocks: Blocks): nat
    decreases blocks
  {
    match blocks
    case NoBlocks => 0
    case Block(scopes, body, next) =>
      SizeScopes(e, scopes) + 3 + SizeS(body) + (if next.Block? then 3 else 0) + SizeB(e, next)
  }

  /** The code of a statement at address `org`, with breaks to `brk`. */
  function CodeS(x: Stmt, org: nat, brk: nat, t: Table): (c: seq<byte>)
    ensures |c| == SizeS(x)
    decreases x, 0
  {
    match x
    case Empty => []
    case Simple(a) => CodeA(a, t)
    case Write(e) => CodeE(e, t) + [WRT]
    case If(c, y) => CodeE(c, t) + Word(IFNJ, org + SizeS(x)) + CodeS(y, org + SizeE(c) + 3, brk, t)
    case IfElse(c, y, z) =>
      CodeE(c, t) + Word(IFNJ, org + SizeE(c) + 3 + SizeS(y) + 3) + CodeS(y, org + SizeE(c) + 3, brk, t)
      + Word(JU, org + SizeS(x)) + CodeS(z, org + SizeE(c) + 3 + SizeS(y) + 3, brk, t)
    case While(c, body) =>
      CodeE(c, t) + Word(IFNJ, org + SizeS(x)) + CodeS(body, org + SizeE(c) + 3, org + SizeS(x), t)
      + Word(JU, org)
    case For(init, c, step, body) =>
      CodeA(init, t) + CodeTurns(c, step, body, org + SizeA(init), t)
    case Break => Word(JU, brk)
    case Then(a, b) => CodeS(a, org, brk, t) + CodeS(b, org + SizeS(a), brk, t)
    case Case(e, blocks) => CodeB(e, blocks, org, brk, org + SizeS(x), t)
  }

  function SizeTurns(c: Expr, step: Assignment, body: Stmt): nat {
    SizeE(c) + 3 + SizeS(body) + SizeA(step) + 3
  }

  /** A for loop without its initialisation. */
  function CodeTurns(c: Expr, step: Assignment, body: Stmt, org: nat, t: Table): (code: seq<byte>)
    ensures |code| == SizeTurns(c, step, body)
    decreases body, 1
  {
    var end := org + SizeTurns(c, step, body);
    CodeE(c, t) + Word(IFNJ, end) + CodeS(body, org + SizeE(c) + 3, end, t) + CodeA(step, t) + Word(JU, org)
  }

  function CodeB(e: Expr, blocks: Blocks, org: nat, brk: nat, fin: nat, t: Table): (c: seq<byte>)
    ensures |c| == SizeB(e, blocks)
    decreases blocks, 0
  {
    match blocks
    case NoBlocks => []
    case Block(scopes, body, next) =>
      var start := org + SizeScopes(e, scopes) + 3;
      var over := start + SizeS(body) + (if next.Block? then 3 else 0);
      CodeScopes(e, scopes, org, start, t) + Word(JU, over) + CodeS(body, start, brk, t)
      + (if next.Block? then Word(JU, fin) else []) + CodeB(e, next, over, brk, fin, t)
  }

  // ----- what the code needs --------------------------------------------------------

  predicate Known(n: int32, t: Table) { Find(t.consts, t.items, IntKey(n)).Some? }

  /** Every number has been interned. */
  predicate CoversE(e: Expr, t: Table) {
    match e
    case Numb(n) => Known(n, t)
    case Var(_) => true
    case Bin(_, l, r) => CoversE(l, t) && CoversE(r, t)
    case UnMinus(x) => CoversE(x, t)
    case Not(x) => CoversE(x, t)
  }

  predicate CoversScope(e: Expr, scope: Scope, t: Table) {
    match scope
    case Default => true
    case Equals(l) => CoversE(e, t) && CoversE(l, t)
    case Range(lo, hi) => CoversE(e, t) && Known(lo, t) && Known(hi, t)
  }

  predicate CoversScopes(e: Expr, scopes: seq<Scope>, t: Table) {
    scopes == [] || (CoversScope(e, scopes[0], t) && CoversScopes(e, scopes[1..], t))
  }

  predicate CoversS(x: Stmt, t: Table)
    decreases x
  {
    match x
    case Empty => true
    case Simple(a) => CoversE(a.e, t)
    case Write(e) => CoversE(e, t)
    case If(c, y) => CoversE(c, t) && CoversS(y, t)
    case IfElse(c, y, z) => CoversE(c, t) && CoversS(y, t) && CoversS(z, t)
    case While(c, body) => CoversE(c, t) && CoversS(body, t)
    case For(init, c, step, body) => CoversE(init.e, t) && CoversE(c, t) && CoversS(body, t) && CoversE(step.e, t)
    case Break => true
    case Then(a, b) => CoversS(a, t) && CoversS(b, t)
    case Case(e, blocks) => CoversB(e, blocks, t)
  }

  predicate CoversB(e: Expr, blocks: Blocks, t: Table)
    decreases blocks
  {
    match blocks
    case NoBlocks => true
    case Block(scopes, body, next) => CoversScopes(e, scopes, t) && CoversS(body, t) && CoversB(e, next, t)
  }

  function Max(a: nat, b: nat): nat { if a > b then a else b }

  /** The operands that evaluating an expression may have on the stack. */
  function DepthE(e: Expr): (n: nat)
    ensures n > 0
  {
    match e
    case Numb(_) => 1
    case Var(_) => 1
    case Bin(_, l, r) => Max(DepthE(l), 1 + DepthE(r))
    case UnMinus(x) => DepthE(x)
    case Not(x) => DepthE(x)
  }

  function DepthA(a: Assignment): nat {
    if a.Assign? then 2 + DepthE(a.e) else 3 + DepthE(a.e)
  }

  function DepthScopes(e: Expr, scopes: seq<Scope>): nat {
    if scopes == [] then 0
    else Max(match scopes[0]
             case Default => 0
             case Equals(l) => Max(DepthE(e), 1 + DepthE(l))
             case Range(_, _) => Max(DepthE(e), 2),
             DepthScopes(e, scopes[1..]))
  }

  function DepthS(x: Stmt): nat
    decreases x
  {
    match x
    case Empty => 0
    case Simple(a) => DepthA(a)
    case Write(e) => DepthE(e)
    case If(c, y) => Max(DepthE(c), DepthS(y))
    case IfElse(c, y, z) => Max(DepthE(c), Max(DepthS(y), DepthS(z)))
    case While(c, body) => Max(DepthE(c), DepthS(body))
    case For(init, c, step, body) => Max(DepthA(init), Max(DepthE(c), Max(DepthS(body), DepthA(step))))
    case Break => 0
    case Then(a, b) => Max(DepthS(a), DepthS(b))
    case Case(e, blocks) => DepthB(e, blocks)
  }

  function DepthB(e: Expr, blocks: Blocks): nat
    decreases blocks
  {
    match blocks
    case NoBlocks => 0
    case Block(scopes, body, next) => Max(DepthScopes(e, scopes), Max(DepthS(body), DepthB(e, next)))
  }

  /** Every variable is one of the method. */
  predicate ScopedE(e: Expr, args: nat, locals: nat) {
    match e
    case Numb(_) => true
    case Var(v) => ScopedV(v, args, locals)
    case Bin(_, l, r) => ScopedE(l, args, locals) && ScopedE(r, args, locals)
    case UnMinus(x) => ScopedE(x, args, locals)
    case Not(x) => ScopedE(x, args, locals)
  }

  predicate ScopedV(v: Variable, args: nat, locals: nat) {
    match v case Local(i) => i < locals case Arg(i) => i < args
  }

  predicate ScopedA(a: Assignment, args: nat, locals: nat) {
    ScopedV(a.v, args, locals) && ScopedE(a.e, args, locals)
  }

  predicate ScopedScopes(e: Expr, scopes: seq<Scope>, args: nat, locals: nat) {
    scopes == [] ||
    ((match scopes[0]
      case Default => true
      case Equals(l) => ScopedE(e, args, locals) && ScopedE(l, args, locals)
      case Range(_, _) => ScopedE(e, args, locals))
     && ScopedScopes(e, scopes[1..], args, locals))
  }

  predicate ScopedS(x: Stmt, args: nat, locals: nat)
    decreases x
  {
    match x
    case Empty => true
    case Simple(a) => ScopedA(a, args, locals)
    case Write(e) => ScopedE(e, args, locals)
    case If(c, y) => ScopedE(c, args, locals) && ScopedS(y, args, locals)
    case IfElse(c, y, z) => ScopedE(c, args, locals) && ScopedS(y, args, locals) && ScopedS(z, args, locals)
    case While(c, body) => ScopedE(c, args, locals) && ScopedS(body, args, locals)
    case For(init, c, step, body) =>
      ScopedA(init, args, locals) && ScopedE(c, args, locals) && ScopedS(body, args, locals) && ScopedA(step, args, locals)
    case Break => true
    case Then(a, b) => ScopedS(a, args, locals) && ScopedS(b, args, locals)
    case Case(e, blocks) => ScopedB(e, blocks, args, locals)
  }

  predicate ScopedB(e: Expr, blocks: Blocks, args: nat, locals: nat)
    decreases blocks
  {
    match blocks
    case NoBlocks => true
    case Block(scopes, body, next) =>
      ScopedScopes(e, scopes, args, locals) && ScopedS(body, args, locals) && ScopedB(e, next, args, locals)
  }

  // ----- the machine ----------------------------------------------------------------

  /** What a stack slot holds: nothing yet, a small integer in the word itself, an
      integer object, the stack as the base of a reference, the other half of a
      reference, or an object of another kind. */
  datatype Cell =
    | Null
    | Tagged(bits: nat)
    | IntObj(value: int32)
    | NilObj
    | StackBase
    | Dptr(slot: nat)
    | Other

  /** Only negative numbers are allocated. */
  function MakeInteger(v: int32): Cell {
    if v < 0 then IntObj(v) else Tagged(2 * v + 1)
  }

  function IntVal(c: Cell): Option<int32> {
    match c
    case Tagged(bits) => if bits % 2 == 1 then Some(Signed(bits / 2 % 0x1_0000_0000)) else None
    case IntObj(v) => Some(v)
    case _ => None
  }

  lemma TagRoundTrip(v: int32)
    ensures IntVal(MakeInteger(v)) == Some(v)
  {
  }

  datatype Image = Image(code: seq<byte>, table: Table)

  datatype Vm = Vm(ip: nat, stack: seq<Cell>, ap: nat, fp: nat, out: seq<int32>)

  function WordAt(code: seq<byte>, i: nat): nat
    requires i + 1 < |code|
  {
    var low: nat, high: nat := code[i], code[i + 1];
    low + 256 * high
  }

  function Push(m: Vm, c: Cell): Option<Vm> {
    if |m.stack| >= STACK_SIZE then None else Some(m.(stack := m.stack + [c]))
  }

  function Constant(t: Table, off: nat): Option<Cell> {
    var c := At(t.consts, off);
    if c.None? then None
    else match c.value
      case IntC(v) => Some(IntObj(v))
      case NilC => Some(NilObj)
      case _ => Some(Other)
  }

  /** Replaces the top `k` slots by `c`. */
  function Top(m: Vm, k: nat, c: Cell): Vm
    requires k <= |m.stack|
  {
    m.(stack := m.stack[..|m.stack| - k] + [c])
  }

  /** An instruction without a 16-bit operand; None when the machine stops with an
      error or reads through a null pointer. */
  function StepShort(p: Image, m: Vm): Option<Vm>
    requires m.ip < |p.code|
  {
    var op, n, next := p.code[m.ip], |m.stack|, m.(ip := m.ip + 1);
    if op == BOP then
      if m.ip + 1 >= |p.code| || n < 2 then None else
      var o, a, b := OpOf(p.code[m.ip + 1]), IntVal(m.stack[n - 2]), IntVal(m.stack[n - 1]);
      if o.None? || a.None? || b.None? then None else
      var r := Apply(o.value, a.value, b.value);
      if r.None? then None else Some(Top(m, 2, MakeInteger(r.value)).(ip := m.ip + 2))
    else if op == UNM then
      if n < 1 || IntVal(m.stack[n - 1]).None? then None else
      var r := Negate(IntVal(m.stack[n - 1]).value);
      if r.None? then None else Some(Top(next, 1, MakeInteger(r.value)))
    else if op == NOT then
      if n < 1 || m.stack[n - 1].Null? then None else
      var c := m.stack[n - 1];
      Some(Top(next, 1, MakeInteger(Truth(c.NilObj? || IntVal(c) == Some(0)))))
    else if op == DUP then
      if n < 2 || n + 2 > STACK_SIZE then None else
      Some(next.(stack := m.stack + m.stack[n - 2..]))
    else if op == DR then
      if n < 2 || !m.stack[n - 1].Dptr? || !m.stack[n - 2].StackBase? || m.stack[n - 1].slot >= n - 2 then None else
      Some(Top(next, 2, m.stack[m.stack[n - 1].slot]))
    else if op == ST then
      if n < 3 || m.stack[n - 1].Null? || !m.stack[n - 2].Dptr? || !m.stack[n - 3].StackBase?
         || m.stack[n - 2].slot >= n - 3 then None else
      Some(next.(stack := m.stack[..n - 3][m.stack[n - 2].slot := m.stack[n - 1]]))
    else if op == WRT then
      if n < 1 || IntVal(m.stack[n - 1]).None? then None else
      Some(next.(stack := m.stack[..n - 1], out := m.out + [IntVal(m.stack[n - 1]).value]))
    else None
  }

  /** An instruction with a 16-bit operand. */
  function StepLong(p: Image, m: Vm): Option<Vm>
    requires m.ip + 2 < |p.code|
  {
    var op, n, next, arg := p.code[m.ip], |m.stack|, m.(ip := m.ip + 3), WordAt(p.code, m.ip + 1);
    if op == LVBI_C then
      var c := Constant(p.table, arg);
      if c.None? then None else Push(next, c.value)
    else if op == LVBI_ARG then
      if m.ap + arg >= n then None else Push(next, m.stack[m.ap + arg])
    else if op == LVBI_LOC then
      if m.fp + 1 + arg >= n then None else Push(next, m.stack[m.fp + 1 + arg])
    else if op == LABI_ARG || op == LABI_LOC then
      var slot := if op == LABI_ARG then m.ap + arg else m.fp + 1 + arg;
      if n + 2 > STACK_SIZE then None else Some(next.(stack := m.stack + [StackBase, Dptr(slot)]))
    else if op == JU then Some(m.(ip := arg))
    else if op == IFNJ then
      if n < 1 then None else
      var c, popped := m.stack[n - 1], next.(stack := m.stack[..n - 1]);
      if IntVal(c) == Some(0) || c.NilObj? then Some(popped.(ip := arg))
      else if IntVal(c).Some? then Some(popped)
      else None
    else None
  }

  predicate IsLong(op: byte) {
    op in [LVBI_C, LVBI_ARG, LVBI_LOC, LABI_ARG, LABI_LOC, JU, IFNJ]
  }

  /** One turn of the dispatch loop. */
  function Step(p: Image, m: Vm): Option<Vm> {
    if m.ip >= |p.code| then None
    else if !IsLong(p.code[m.ip]) then StepShort(p, m)
    else if m.ip + 2 >= |p.code| then None
    else StepLong(p, m)
  }

  datatype Run = Running(m: Vm) | Crashed | Outside

  /** `n` turns, each starting at an address in [lo, hi). */
  function Go(p: Image, m: Vm, n: nat, lo: nat, hi: nat): Run
    decreases n
  {
    if n == 0 then Running(m)
    else if !(lo <= m.ip < hi) then Outside
    else
      var k := Step(p, m);
      if k.None? then Crashed else Go(p, k.value, n - 1, lo, hi)
  }

  lemma {:induction false} GoJoin(p: Image, m: Vm, a: nat, b: nat, lo: nat, hi: nat)
    requires Go(p, m, a, lo, hi).Running?
    ensures Go(p, m, a + b, lo, hi) == Go(p, Go(p, m, a, lo, hi).m, b, lo, hi)
    decreases a
  {
    hide Step;
    if a > 0 {
      GoJoin(p, Step(p, m).value, a - 1, b, lo, hi);
    }
  }
}
