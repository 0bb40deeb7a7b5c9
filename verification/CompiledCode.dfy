/** Running the code of expressions and assignments: each leaves exactly its value on
    the stack, or stops the machine when the meaning is undefined. */
module CompiledCode {
  import opened Basics
  import opened Operators
  import opened SourceLanguage
  import opened ConstTable
  import opened Bytecode

  /** The code stands at an address of the program. */
  predicate Sits(p: Image, org: nat, c: seq<byte>) {
    org + |c| <= |p.code| && p.code[org..org + |c|] == c
  }

  lemma SitsSplit(p: Image, org: nat, a: seq<byte>, b: seq<byte>)
    requires Sits(p, org, a + b)
    ensures Sits(p, org, a) && Sits(p, org + |a|, b)
  {
    var c := p.code[org..org + |a + b|];
    assert c[..|a|] == a && c[|a|..] == b;
    assert p.code[org..org + |a|] == c[..|a|];
    assert p.code[org + |a|..org + |a| + |b|] == c[|a|..];
  }

  lemma SitsSplit3(p: Image, org: nat, a: seq<byte>, b: seq<byte>, c: seq<byte>)
    requires Sits(p, org, a + b + c)
    ensures Sits(p, org, a) && Sits(p, org + |a|, b) && Sits(p, org + |a| + |b|, c)
  {
    SitsSplit(p, org, a + b, c);
    SitsSplit(p, org, a, b);
  }

  lemma SitsSplit4(p: Image, org: nat, a: seq<byte>, b: seq<byte>, c: seq<byte>, d: seq<byte>)
    requires Sits(p, org, a + b + c + d)
    ensures Sits(p, org, a) && Sits(p, org + |a|, b) && Sits(p, org + |a| + |b|, c)
    ensures Sits(p, org + |a| + |b| + |c|, d)
  {
    SitsSplit(p, org, a + b + c, d);
    SitsSplit3(p, org, a, b, c);
  }

  lemma SitsSplit5(p: Image, org: nat, a: seq<byte>, b: seq<byte>, c: seq<byte>, d: seq<byte>, e: seq<byte>)
    requires Sits(p, org, a + b + c + d + e)
    ensures Sits(p, org, a) && Sits(p, org + |a|, b) && Sits(p, org + |a| + |b|, c)
    ensures Sits(p, org + |a| + |b| + |c|, d) && Sits(p, org + |a| + |b| + |c| + |d|, e)
  {
    SitsSplit(p, org, a + b + c + d, e);
    SitsSplit4(p, org, a, b, c, d);
  }

  lemma FetchWord(p: Image, org: nat, op: byte, arg: nat)
    requires Sits(p, org, Word(op, arg)) && arg < 0x1_0000
    ensures org + 3 <= |p.code| && p.code[org] == op && WordAt(p.code, org + 1) == arg
  {
    var c := Word(op, arg);
    assert p.code[org..org + 3][0] == c[0] && p.code[org..org + 3][1] == c[1] && p.code[org..org + 3][2] == c[2];
  }

  lemma FetchByte(p: Image, org: nat, c: seq<byte>)
    requires Sits(p, org, c) && |c| > 0
    ensures org < |p.code| && p.code[org] == c[0]
    ensures |c| > 1 ==> org + 1 < |p.code| && p.code[org + 1] == c[1]
  {
    assert p.code[org..org + |c|][0] == c[0];
    if |c| > 1 { assert p.code[org..org + |c|][1] == c[1]; }
  }

  // ----- frames ---------------------------------------------------------------------

  /** A slot holds the value of a variable; an unset one still holds null. */
  predicate Holds(c: Cell, v: Option<int32>) {
    if v.None? then c.Null? else IntVal(c) == v
  }

  predicate HoldAll(stack: seq<Cell>, base: nat, vs: seq<Option<int32>>) {
    base + |vs| <= |stack| && forall i :: 0 <= i < |vs| ==> Holds(stack[base + i], vs[i])
  }

  /** The machine's frame holds the variables of the store, below all operands. */
  predicate Rel(s: Store, m: Vm) {
    && |m.stack| <= STACK_SIZE
    && m.fp == m.ap + |s.args| + 4
    && m.fp + 1 + |s.locals| <= |m.stack|
    && HoldAll(m.stack, m.ap, s.args)
    && HoldAll(m.stack, m.fp + 1, s.locals)
    && m.out == s.out
  }

  function Slot(v: Variable, m: Vm): nat {
    match v case Local(i) => m.fp + 1 + i case Arg(i) => m.ap + i
  }

  lemma HoldAllPush(stack: seq<Cell>, base: nat, vs: seq<Option<int32>>, more: seq<Cell>)
    requires HoldAll(stack, base, vs)
    ensures HoldAll(stack + more, base, vs)
  {
    forall i | 0 <= i < |vs| ensures Holds((stack + more)[base + i], vs[i]) {
      assert Holds(stack[base + i], vs[i]);
    }
  }

  /** Operands do not disturb the frame. */
  lemma RelPush(s: Store, m: Vm, ip: nat, more: seq<Cell>)
    requires Rel(s, m) && |m.stack| + |more| <= STACK_SIZE
    ensures Rel(s, m.(ip := ip, stack := m.stack + more))
  {
    HoldAllPush(m.stack, m.ap, s.args, more);
    HoldAllPush(m.stack, m.fp + 1, s.locals, more);
  }

  lemma GetHeld(s: Store, m: Vm, v: Variable)
    requires Rel(s, m) && ScopedV(v, |s.args|, |s.locals|)
    ensures Slot(v, m) < |m.stack| && Holds(m.stack[Slot(v, m)], Get(v, s))
  {
    match v
    case Local(i) => assert Holds(m.stack[m.fp + 1 + i], s.locals[i]);
    case Arg(i) => assert Holds(m.stack[m.ap + i], s.args[i]);
  }

  // ----- single instructions --------------------------------------------------------

  lemma StepConst(p: Image, m: Vm, v: int32)
    requires Sits(p, m.ip, Word(LVBI_C, InternedAt(p.table, IntKey(v)))) && Known(v, p.table)
    requires Total(p.table.consts) <= 0x1_0000 && |m.stack| < STACK_SIZE
    ensures Step(p, m) == Some(m.(ip := m.ip + 3, stack := m.stack + [IntObj(v)]))
  {
    var off := InternedAt(p.table, IntKey(v));
    FindSound(p.table.consts, p.table.items, IntKey(v));
    AtAppend(p.table.consts, NilC, off);
    assert At(p.table.consts, off) == Some(IntC(v)) by {
      var c := At(p.table.consts, off).value;
      assert KeyOf(c) == Some(IntKey(v));
      match c { case IntC(_) => case _ => }
    }
    FetchWord(p, m.ip, LVBI_C, off);
  }

  lemma StepLoad(p: Image, m: Vm, v: Variable)
    requires Sits(p, m.ip, Load(v)) && Slot(v, m) < |m.stack| < STACK_SIZE
    ensures Step(p, m) == Some(m.(ip := m.ip + 3, stack := m.stack + [m.stack[Slot(v, m)]]))
  {
    match v
    case Local(i) => FetchWord(p, m.ip, LVBI_LOC, i);
    case Arg(i) => FetchWord(p, m.ip, LVBI_ARG, i);
  }

  lemma StepAddress(p: Image, m: Vm, v: Variable)
    requires Sits(p, m.ip, LoadAddress(v)) && Slot(v, m) < |m.stack| && |m.stack| + 2 <= STACK_SIZE
    ensures Step(p, m) == Some(m.(ip := m.ip + 3, stack := m.stack + [StackBase, Dptr(Slot(v, m))]))
  {
    match v
    case Local(i) => FetchWord(p, m.ip, LABI_LOC, i);
    case Arg(i) => FetchWord(p, m.ip, LABI_ARG, i);
  }

  /** The value of an operation on values that may be missing. */
  function Both(op: Operator, a: Option<int32>, b: Option<int32>): Option<int32> {
    if a.None? || b.None? then None else Apply(op, a.value, b.value)
  }

  lemma StepBop(p: Image, m: Vm, below: seq<Cell>, op: Operator, a: Cell, va: Option<int32>, b: Cell, vb: Option<int32>)
    requires m.ip + 1 < |p.code| && p.code[m.ip] == BOP && p.code[m.ip + 1] == OpCode(op)
    requires m.stack == below + [a, b] && Holds(a, va) && Holds(b, vb)
    ensures var r := Both(op, va, vb);
            Step(p, m) == if r.None? then None
                          else Some(m.(ip := m.ip + 2, stack := below + [MakeInteger(r.value)]))
  {
    OpRoundTrip(op);
    assert m.stack[..|m.stack| - 2] == below;
    assert m.stack[|m.stack| - 2] == a && m.stack[|m.stack| - 1] == b;
    hide Apply, OpOf;
  }

  lemma StepUnary(p: Image, m: Vm, below: seq<Cell>, a: Cell, va: Option<int32>)
    requires m.ip < |p.code| && m.stack == below + [a] && Holds(a, va)
    ensures p.code[m.ip] == UNM ==>
              var r := if va.None? then None else Negate(va.value);
              Step(p, m) == if r.None? then None
                            else Some(m.(ip := m.ip + 1, stack := below + [MakeInteger(r.value)]))
    ensures p.code[m.ip] == NOT ==>
              Step(p, m) == if va.None? then None
                            else Some(m.(ip := m.ip + 1, stack := below + [MakeInteger(LogicalNot(va.value))]))
    ensures p.code[m.ip] == WRT ==>
              Step(p, m) == if va.None? then None
                            else Some(m.(ip := m.ip + 1, stack := below, out := m.out + [va.value]))
  {
    assert m.stack[..|m.stack| - 1] == below && m.stack[|m.stack| - 1] == a;
  }

  lemma StepJump(p: Image, m: Vm, target: nat)
    requires Sits(p, m.ip, Word(JU, target)) && target < 0x1_0000
    ensures Step(p, m) == Some(m.(ip := target))
  {
    FetchWord(p, m.ip, JU, target);
  }

  lemma StepIfnj(p: Image, m: Vm, target: nat, below: seq<Cell>, a: Cell, va: Option<int32>)
    requires Sits(p, m.ip, Word(IFNJ, target)) && target < 0x1_0000
    requires m.stack == below + [a] && Holds(a, va)
    ensures Step(p, m) == if va.None? then None
                          else Some(m.(ip := if va.value == 0 then target else m.ip + 3, stack := below))
  {
    FetchWord(p, m.ip, IFNJ, target);
    assert m.stack[..|m.stack| - 1] == below && m.stack[|m.stack| - 1] == a;
  }

  lemma StepStore(p: Image, m: Vm, below: seq<Cell>, slot: nat, a: Cell, va: Option<int32>)
    requires m.ip < |p.code| && p.code[m.ip] == ST
    requires m.stack == below + [StackBase, Dptr(slot)] + [a] && Holds(a, va) && slot < |below|
    ensures Step(p, m) == if va.None? then None else Some(m.(ip := m.ip + 1, stack := below[slot := a]))
  {
    var n := |m.stack|;
    assert m.stack[..n - 3] == below && m.stack[n - 1] == a && m.stack[n - 2] == Dptr(slot) && m.stack[n - 3] == StackBase;
  }

  lemma StepDup(p: Image, m: Vm, below: seq<Cell>, a: Cell, b: Cell)
    requires m.ip < |p.code| && p.code[m.ip] == DUP && m.stack == below + [a, b] && |m.stack| + 2 <= STACK_SIZE
    ensures Step(p, m) == Some(m.(ip := m.ip + 1, stack := m.stack + [a, b]))
  {
    assert m.stack[|m.stack| - 2..] == [a, b];
  }

  lemma StepDr(p: Image, m: Vm, below: seq<Cell>, slot: nat)
    requires m.ip < |p.code| && p.code[m.ip] == DR && m.stack == below + [StackBase, Dptr(slot)] && slot < |below|
    ensures Step(p, m) == Some(m.(ip := m.ip + 1, stack := below + [below[slot]]))
  {
    var n := |m.stack|;
    assert m.stack[..n - 2] == below && m.stack[n - 1] == Dptr(slot) && m.stack[n - 2] == StackBase;
    assert m.stack[slot] == below[slot];
  }

  // ----- expressions ----------------------------------------------------------------

  /** The side conditions of one program: sixteen bits reach everything. */
  predicate Fits(p: Image) {
    |p.code| < 0x1_0000 && Total(p.table.consts) <= 0x1_0000
  }

  /** After `n` turns from `m` an expression of `size` bytes has left the cell `c` for
      its value, or has stopped the machine because it has none. */
  predicate Pushed(p: Image, m: Vm, n: nat, lo: nat, hi: nat, size: nat, v: Option<int32>, c: Cell) {
    var r := Go(p, m, n, lo, hi);
    || (r.Crashed? && v.None?)
    || (r == Running(m.(ip := m.ip + size, stack := m.stack + [c])) && Holds(c, v))
  }

  lemma OneTurn(p: Image, m: Vm, n: nat, lo: nat, hi: nat)
    requires Go(p, m, n, lo, hi).Running? && lo <= Go(p, m, n, lo, hi).m.ip < hi
    ensures var k := Step(p, Go(p, m, n, lo, hi).m);
            Go(p, m, n + 1, lo, hi) == if k.None? then Crashed else Running(k.value)
  {
    hide Step;
    GoJoin(p, m, n, 1, lo, hi);
    var k := Step(p, Go(p, m, n, lo, hi).m);
    if k.Some? { assert Go(p, k.value, 0, lo, hi) == Running(k.value); }
  }

  lemma {:induction false} ExprRuns(p: Image, e: Expr, s: Store, m: Vm, lo: nat, hi: nat) returns (n: nat, c: Cell)
    requires Fits(p) && Sits(p, m.ip, CodeE(e, p.table)) && CoversE(e, p.table)
    requires Rel(s, m) && ScopedE(e, |s.args|, |s.locals|) && |m.stack| + DepthE(e) <= STACK_SIZE
    requires lo <= m.ip && m.ip + SizeE(e) <= hi
    ensures n > 0 && Pushed(p, m, n, lo, hi, SizeE(e), Eval(e, s), c)
    decreases e
  {
    hide Step, Rel;
    match e
    case Numb(v) =>
      StepConst(p, m, v);
      n, c := 1, IntObj(v);
      OneTurn(p, m, 0, lo, hi);
    case Var(v) =>
      GetHeld(s, m, v);
      StepLoad(p, m, v);
      n, c := 1, m.stack[Slot(v, m)];
      OneTurn(p, m, 0, lo, hi);
    case Bin(op, l, r) => n, c := BinRuns(p, op, l, r, s, m, lo, hi);
    case UnMinus(x) => n, c := UnaryRuns(p, e, x, s, m, lo, hi);
    case Not(x) => n, c := UnaryRuns(p, e, x, s, m, lo, hi);
  }

  lemma {:induction false} UnaryRuns(p: Image, e: Expr, x: Expr, s: Store, m: Vm, lo: nat, hi: nat) returns (n: nat, c: Cell)
    requires Fits(p) && Sits(p, m.ip, CodeE(e, p.table)) && CoversE(e, p.table)
    requires Rel(s, m) && ScopedE(e, |s.args|, |s.locals|) && |m.stack| + DepthE(e) <= STACK_SIZE
    requires lo <= m.ip && m.ip + SizeE(e) <= hi
    requires e == UnMinus(x) || e == Not(x)
    ensures n > 0 && Pushed(p, m, n, lo, hi, SizeE(e), Eval(e, s), c)
    decreases e, 0
  {
    hide Step, Rel, Go, IntVal, Sits, Apply, Negate;
    SitsSplit(p, m.ip, CodeE(x, p.table), if e.UnMinus? then [UNM] else [NOT]);
    n, c := ExprRuns(p, x, s, m, lo, hi);
    var r := Go(p, m, n, lo, hi);
    if r.Running? {
      FetchByte(p, r.m.ip, if e.UnMinus? then [UNM] else [NOT]);
      StepUnary(p, r.m, m.stack, c, Eval(x, s));
      OneTurn(p, m, n, lo, hi);
      n := n + 1;
      var v := Eval(e, s);
      if v.Some? { c := MakeInteger(v.value); TagRoundTrip(v.value); }
    }
  }

  lemma BopTurn(p: Image, op: Operator, m: Vm, n: nat, lo: nat, hi: nat, h: Vm, below: seq<Cell>,
                     a: Cell, va: Option<int32>, b: Cell, vb: Option<int32>)
    returns (c: Cell)
    requires Go(p, m, n, lo, hi) == Running(h) && lo <= h.ip < hi
    requires Sits(p, h.ip, [BOP, OpCode(op)]) && h.stack == below + [a, b] && Holds(a, va) && Holds(b, vb)
    ensures var r, v := Go(p, m, n + 1, lo, hi), Both(op, va, vb);
            || (r.Crashed? && v.None?)
            || (r == Running(h.(ip := h.ip + 2, stack := below + [c])) && Holds(c, v))
  {
    hide Step, Apply, Go, IntVal, OpCode;
    FetchByte(p, h.ip, [BOP, OpCode(op)]);
    StepBop(p, h, below, op, a, va, b, vb);
    OneTurn(p, m, n, lo, hi);
    var v := Both(op, va, vb);
    if v.Some? { c := MakeInteger(v.value); TagRoundTrip(v.value); } else { c := Null; }
  }

  lemma BinParts(p: Image, op: Operator, l: Expr, r: Expr, s: Store, org: nat)
    requires Sits(p, org, CodeE(Bin(op, l, r), p.table)) && CoversE(Bin(op, l, r), p.table)
    requires ScopedE(Bin(op, l, r), |s.args|, |s.locals|)
    ensures Sits(p, org, CodeE(l, p.table)) && CoversE(l, p.table) && ScopedE(l, |s.args|, |s.locals|)
    ensures Sits(p, org + SizeE(l), CodeE(r, p.table)) && CoversE(r, p.table) && ScopedE(r, |s.args|, |s.locals|)
    ensures Sits(p, org + SizeE(l) + SizeE(r), [BOP, OpCode(op)])
    ensures SizeE(Bin(op, l, r)) == SizeE(l) + SizeE(r) + 2
    ensures DepthE(Bin(op, l, r)) >= DepthE(l) && DepthE(Bin(op, l, r)) >= 1 + DepthE(r)
    ensures Eval(Bin(op, l, r), s) == Both(op, Eval(l, s), Eval(r, s))
  {
    hide Sits, OpCode, Apply;
    SitsSplit3(p, org, CodeE(l, p.table), CodeE(r, p.table), [BOP, OpCode(op)]);
  }

  lemma {:induction false} BinRuns(p: Image, op: Operator, l: Expr, r: Expr, s: Store, m: Vm, lo: nat, hi: nat)
    returns (n: nat, c: Cell)
    requires var e := Bin(op, l, r);
             Fits(p) && Sits(p, m.ip, CodeE(e, p.table)) && CoversE(e, p.table)
             && Rel(s, m) && ScopedE(e, |s.args|, |s.locals|) && |m.stack| + DepthE(e) <= STACK_SIZE
             && lo <= m.ip && m.ip + SizeE(e) <= hi
    ensures n > 0 && Pushed(p, m, n, lo, hi, SizeE(Bin(op, l, r)), Eval(Bin(op, l, r), s), c)
    decreases Bin(op, l, r), 0
  {
    hide Step, Rel, Apply, Go, IntVal, OpCode, Holds, Sits, CodeE, CoversE, ScopedE, DepthE, SizeE, Eval;
    BinParts(p, op, l, r, s, m.ip);
    n, c := ExprRuns(p, l, s, m, lo, hi);
    if Go(p, m, n, lo, hi).Running? {
      var g := m.(ip := m.ip + SizeE(l), stack := m.stack + [c]);
      RelPush(s, m, g.ip, [c]);
      var n2, d := ExprRuns(p, r, s, g, lo, hi);
      GoJoin(p, m, n, n2, lo, hi);
      n := n + n2;
      if Go(p, m, n, lo, hi).Running? {
        var h := m.(ip := g.ip + SizeE(r), stack := m.stack + [c, d]);
        assert m.stack + [c] + [d] == h.stack;
        c := BopTurn(p, op, m, n, lo, hi, h, m.stack, c, Eval(l, s), d, Eval(r, s));
        n := n + 1;
      }
    }
  }

  /** A condition with its jump: falls through when it is not zero. */
  lemma CondRuns(p: Image, e: Expr, target: nat, s: Store, m: Vm, lo: nat, hi: nat) returns (n: nat)
    requires Fits(p) && Sits(p, m.ip, CodeE(e, p.table) + Word(IFNJ, target)) && CoversE(e, p.table)
    requires Rel(s, m) && ScopedE(e, |s.args|, |s.locals|) && |m.stack| + DepthE(e) <= STACK_SIZE
    requires lo <= m.ip && m.ip + SizeE(e) + 3 <= hi && target < 0x1_0000
    ensures n > 0
    ensures var v := Eval(e, s);
            Go(p, m, n, lo, hi) == if v.None? then Crashed
                                   else Running(m.(ip := if v.value == 0 then target else m.ip + SizeE(e) + 3))
  {
    hide Step, Rel, Go, Eval, IntVal, Sits;
    SitsSplit(p, m.ip, CodeE(e, p.table), Word(IFNJ, target));
    var c;
    n, c := ExprRuns(p, e, s, m, lo, hi);
    if Go(p, m, n, lo, hi).Running? {
      var g := m.(ip := m.ip + SizeE(e), stack := m.stack + [c]);
      StepIfnj(p, g, target, m.stack, c, Eval(e, s));
      OneTurn(p, m, n, lo, hi);
      n := n + 1;
    }
  }

  /** The output of a Write statement. */
  lemma WriteRuns(p: Image, e: Expr, s: Store, m: Vm, lo: nat, hi: nat) returns (n: nat)
    requires Fits(p) && Sits(p, m.ip, CodeE(e, p.table) + [WRT]) && CoversE(e, p.table)
    requires Rel(s, m) && ScopedE(e, |s.args|, |s.locals|) && |m.stack| + DepthE(e) <= STACK_SIZE
    requires lo <= m.ip && m.ip + SizeE(e) + 1 <= hi
    ensures var v := Eval(e, s);
            Go(p, m, n, lo, hi) == if v.None? then Crashed
                                   else Running(m.(ip := m.ip + SizeE(e) + 1, out := m.out + [v.value]))
  {
    hide Step, Rel, Go, Eval, IntVal, Sits;
    SitsSplit(p, m.ip, CodeE(e, p.table), [WRT]);
    var c;
    n, c := ExprRuns(p, e, s, m, lo, hi);
    if Go(p, m, n, lo, hi).Running? {
      var g := m.(ip := m.ip + SizeE(e), stack := m.stack + [c]);
      FetchByte(p, g.ip, [WRT]);
      StepUnary(p, g, m.stack, c, Eval(e, s));
      OneTurn(p, m, n, lo, hi);
      n := n + 1;
    }
  }

  // ----- assignments ----------------------------------------------------------------

  predicate IsVariable(k: int, s: Store, m: Vm) {
    m.ap <= k < m.ap + |s.args| || m.fp + 1 <= k < m.fp + 1 + |s.locals|
  }

  /** A statement went from `m` to `w`: the frame now holds the store `t`, operand
      depth and frame are as before, and so is every slot that is not a variable. */
  ghost predicate Done(s: Store, t: Store, m: Vm, w: Vm) {
    && Rel(t, w) && |t.args| == |s.args| && |t.locals| == |s.locals|
    && |w.stack| == |m.stack| && w.ap == m.ap && w.fp == m.fp
    && forall k :: 0 <= k < |m.stack| && !IsVariable(k, s, m) ==> w.stack[k] == m.stack[k]
  }

  lemma DoneTrans(s: Store, t: Store, u: Store, m: Vm, w: Vm, x: Vm)
    requires Done(s, t, m, w) && Done(t, u, w, x)
    ensures Done(s, u, m, x)
  {
    hide Rel;
  }

  lemma DoneSame(s: Store, m: Vm, ip: nat)
    requires Rel(s, m)
    ensures Done(s, s, m, m.(ip := ip))
  {
  }

  lemma DoneStore(s: Store, m: Vm, v: Variable, n: int32, c: Cell, ip: nat)
    requires Rel(s, m) && ScopedV(v, |s.args|, |s.locals|) && IntVal(c) == Some(n)
    ensures Slot(v, m) < |m.stack|
    ensures Declared(v, s) && Done(s, Set(v, n, s), m, m.(ip := ip, stack := m.stack[Slot(v, m) := c]))
  {
    GetHeld(s, m, v);
    var t, w := Set(v, n, s), m.stack[Slot(v, m) := c];
    forall i | 0 <= i < |t.args| ensures Holds(w[m.ap + i], t.args[i]) { assert Holds(m.stack[m.ap + i], s.args[i]); }
    forall i | 0 <= i < |t.locals| ensures Holds(w[m.fp + 1 + i], t.locals[i]) { assert Holds(m.stack[m.fp + 1 + i], s.locals[i]); }
  }

  /** Where a piece of code is after `n` turns, for the outcome its source has. */
  ghost predicate Ends(p: Image, m: Vm, n: nat, lo: nat, hi: nat, s: Store, o: Outcome, fuel: nat, end: nat, brk: nat) {
    var r := Go(p, m, n, lo, hi);
    match o
    case OutOfFuel => r.Running? && n >= fuel
    case Fault => r.Crashed?
    case Normal(t) => r.Running? && r.m.ip == end && Done(s, t, m, r.m)
    case Broke(t) => r.Running? && r.m.ip == brk && Done(s, t, m, r.m)
  }

  /** The final store of an assignment. */
  lemma StoreTurn(p: Image, s: Store, m: Vm, n: nat, lo: nat, hi: nat, h: Vm, v: Variable, c: Cell, vc: Option<int32>)
    requires Rel(s, m) && ScopedV(v, |s.args|, |s.locals|)
    requires Go(p, m, n, lo, hi) == Running(h) && lo <= h.ip < hi && Sits(p, h.ip, [ST])
    requires h == m.(ip := h.ip, stack := m.stack + [StackBase, Dptr(Slot(v, m))] + [c]) && Holds(c, vc)
    ensures Declared(v, s)
    ensures Ends(p, m, n + 1, lo, hi, s, if vc.None? then Fault else Normal(Set(v, vc.value, s)), 0, h.ip + 1, 0)
  {
    hide Step, Go;
    GetHeld(s, m, v);
    FetchByte(p, h.ip, [ST]);
    StepStore(p, h, m.stack, Slot(v, m), c, vc);
    OneTurn(p, m, n, lo, hi);
    if vc.Some? { DoneStore(s, m, v, vc.value, c, h.ip + 1); }
  }

  lemma AssignRuns(p: Image, a: Assignment, s: Store, m: Vm, lo: nat, hi: nat) returns (n: nat)
    requires Fits(p) && Sits(p, m.ip, CodeA(a, p.table)) && CoversE(a.e, p.table)
    requires Rel(s, m) && ScopedA(a, |s.args|, |s.locals|) && |m.stack| + DepthA(a) <= STACK_SIZE
    requires lo <= m.ip && m.ip + SizeA(a) <= hi
    ensures Ends(p, m, n, lo, hi, s, ExecAssignment(a, s), 0, m.ip + SizeA(a), 0)
  {
    hide Step, Rel, Go, IntVal, Sits, Holds, Eval;
    GetHeld(s, m, a.v);
    var refs := [StackBase, Dptr(Slot(a.v, m))];
    if a.Assign? {
      SitsSplit3(p, m.ip, LoadAddress(a.v), CodeE(a.e, p.table), [ST]);
      AddressTurn(p, a.v, s, m, lo, hi);
      var g := m.(ip := m.ip + 3, stack := m.stack + refs);
      RelPush(s, m, g.ip, refs);
      var k, c := ExprRuns(p, a.e, s, g, lo, hi);
      GoJoin(p, m, 1, k, lo, hi);
      n := 1 + k;
      DeclaredIsScoped(s, a.v);
      if Go(p, m, n, lo, hi).Running? {
        var h := m.(ip := g.ip + SizeE(a.e), stack := m.stack + refs + [c]);
        StoreTurn(p, s, m, n, lo, hi, h, a.v, c, Eval(a.e, s));
        n := n + 1;
      }
    } else {
      n := CompoundRuns(p, a, s, m, lo, hi);
    }
  }

  lemma DeclaredIsScoped(s: Store, v: Variable)
    ensures Declared(v, s) <==> ScopedV(v, |s.args|, |s.locals|)
  {
  }

  lemma AddressTurn(p: Image, v: Variable, s: Store, m: Vm, lo: nat, hi: nat)
    requires Sits(p, m.ip, LoadAddress(v)) && Rel(s, m) && ScopedV(v, |s.args|, |s.locals|)
    requires |m.stack| + 2 <= STACK_SIZE && lo <= m.ip < hi
    ensures Go(p, m, 1, lo, hi) == Running(m.(ip := m.ip + 3, stack := m.stack + [StackBase, Dptr(Slot(v, m))]))
  {
    hide Step;
    GetHeld(s, m, v);
    StepAddress(p, m, v);
    OneTurn(p, m, 0, lo, hi);
  }

  /** The address is duplicated and read before the operand is computed. */
  lemma ReadBack(p: Image, v: Variable, s: Store, m: Vm, lo: nat, hi: nat)
    requires Sits(p, m.ip, LoadAddress(v)) && Sits(p, m.ip + 3, [DUP, DR])
    requires Rel(s, m) && ScopedV(v, |s.args|, |s.locals|) && |m.stack| + 4 <= STACK_SIZE
    requires lo <= m.ip && m.ip + 5 <= hi
    ensures Slot(v, m) < |m.stack|
    ensures Go(p, m, 3, lo, hi) ==
            Running(m.(ip := m.ip + 5, stack := m.stack + [StackBase, Dptr(Slot(v, m))] + [m.stack[Slot(v, m)]]))
  {
    hide Step, Rel, Go, Sits;
    GetHeld(s, m, v);
    AddressTurn(p, v, s, m, lo, hi);
    FetchByte(p, m.ip + 3, [DUP, DR]);
    var slot := Slot(v, m);
    var g := m.(ip := m.ip + 3, stack := m.stack + [StackBase, Dptr(slot)]);
    StepDup(p, g, m.stack, StackBase, Dptr(slot));
    OneTurn(p, m, 1, lo, hi);
    var h := m.(ip := m.ip + 4, stack := g.stack + [StackBase, Dptr(slot)]);
    StepDr(p, h, g.stack, slot);
    OneTurn(p, m, 2, lo, hi);
  }

  lemma CompoundRuns(p: Image, a: Assignment, s: Store, m: Vm, lo: nat, hi: nat) returns (n: nat)
    requires a.AssignWithBop? && Fits(p) && Sits(p, m.ip, CodeA(a, p.table)) && CoversE(a.e, p.table)
    requires Rel(s, m) && ScopedA(a, |s.args|, |s.locals|) && |m.stack| + DepthA(a) <= STACK_SIZE
    requires lo <= m.ip && m.ip + SizeA(a) <= hi
    ensures Ends(p, m, n, lo, hi, s, ExecAssignment(a, s), 0, m.ip + SizeA(a), 0)
  {
    hide *;
    CompoundPieces(p, a, m.ip);
    var slot := Slot(a.v, m);
    var refs := [StackBase, Dptr(slot)];
    CompoundStart(p, a, s, m, lo, hi);
    var g := m.(ip := m.ip + 5, stack := m.stack + refs + [m.stack[slot]]);
    var k, c := ExprRuns(p, a.e, s, g, lo, hi);
    GoJoin(p, m, 3, k, lo, hi);
    n := 3 + k;
    PushedOrCrashed(p, g, k, lo, hi, SizeE(a.e), Eval(a.e, s), c);
    if Go(p, m, n, lo, hi).Running? {
      n := CompoundEnd(p, a, s, m, n, lo, hi, c);
    } else {
      CompoundFails(p, a, s, m, n, lo, hi);
    }
  }

  lemma PushedOrCrashed(p: Image, m: Vm, n: nat, lo: nat, hi: nat, size: nat, v: Option<int32>, c: Cell)
    requires Pushed(p, m, n, lo, hi, size, v, c)
    ensures var r := Go(p, m, n, lo, hi);
            (r.Running? ==> Holds(c, v) && r.m == m.(ip := m.ip + size, stack := m.stack + [c]))
            && (!r.Running? ==> r == Crashed && v.None?)
  {
    hide Go, Holds;
  }

  /** Up to the operand: the address and the value are on the stack. */
  lemma CompoundStart(p: Image, a: Assignment, s: Store, m: Vm, lo: nat, hi: nat)
    requires a.AssignWithBop? && Rel(s, m) && ScopedA(a, |s.args|, |s.locals|) && |m.stack| + DepthA(a) <= STACK_SIZE
    requires Sits(p, m.ip, LoadAddress(a.v)) && Sits(p, m.ip + 3, [DUP, DR]) && CoversE(a.e, p.table)
    requires lo <= m.ip && m.ip + SizeA(a) <= hi
    ensures Slot(a.v, m) < |m.stack|
    ensures var g := m.(ip := m.ip + 5, stack := m.stack + [StackBase, Dptr(Slot(a.v, m))] + [m.stack[Slot(a.v, m)]]);
            && Go(p, m, 3, lo, hi) == Running(g) && Rel(s, g)
            && ScopedE(a.e, |s.args|, |s.locals|) && |g.stack| + DepthE(a.e) <= STACK_SIZE
            && lo <= g.ip && g.ip + SizeE(a.e) <= hi
  {
    hide Rel, Go, Sits;
    ReadBack(p, a.v, s, m, lo, hi);
    var slot, refs := Slot(a.v, m), [StackBase, Dptr(Slot(a.v, m))];
    assert m.stack + (refs + [m.stack[slot]]) == m.stack + refs + [m.stack[slot]];
    RelPush(s, m, m.ip + 5, refs + [m.stack[slot]]);
  }

  /** An operand without a value stops the machine. */
  lemma CompoundFails(p: Image, a: Assignment, s: Store, m: Vm, n: nat, lo: nat, hi: nat)
    requires a.AssignWithBop? && Go(p, m, n, lo, hi) == Crashed && Eval(a.e, s).None?
    ensures Ends(p, m, n, lo, hi, s, ExecAssignment(a, s), 0, m.ip + SizeA(a), 0)
  {
    hide Go;
    assert Eval(Bin(a.op, Var(a.v), a.e), s).None?;
  }

  lemma CompoundPieces(p: Image, a: Assignment, at: nat)
    requires a.AssignWithBop? && Sits(p, at, CodeA(a, p.table))
    ensures Sits(p, at, LoadAddress(a.v)) && Sits(p, at + 3, [DUP, DR]) && Sits(p, at + 5, CodeE(a.e, p.table))
    ensures Sits(p, at + 5 + SizeE(a.e), [BOP, OpCode(a.op)]) && Sits(p, at + 7 + SizeE(a.e), [ST])
  {
    hide Sits, OpCode, CodeE, SizeE;
    assert CodeA(a, p.table) == LoadAddress(a.v) + [DUP, DR] + CodeE(a.e, p.table) + [BOP, OpCode(a.op)] + [ST];
    SitsSplit5(p, at, LoadAddress(a.v), [DUP, DR], CodeE(a.e, p.table), [BOP, OpCode(a.op)], [ST]);
  }

  lemma CompoundEnd(p: Image, a: Assignment, s: Store, m: Vm, n0: nat, lo: nat, hi: nat, b: Cell) returns (n: nat)
    requires a.AssignWithBop? && Rel(s, m) && ScopedA(a, |s.args|, |s.locals|)
    requires Slot(a.v, m) < |m.stack| && Holds(b, Eval(a.e, s))
    requires Go(p, m, n0, lo, hi) == Running(m.(ip := m.ip + 5 + SizeE(a.e),
             stack := m.stack + [StackBase, Dptr(Slot(a.v, m))] + [m.stack[Slot(a.v, m)]] + [b]))
    requires Sits(p, m.ip + 5 + SizeE(a.e), [BOP, OpCode(a.op)]) && Sits(p, m.ip + 7 + SizeE(a.e), [ST])
    requires lo <= m.ip && m.ip + SizeA(a) <= hi
    ensures Ends(p, m, n, lo, hi, s, ExecAssignment(a, s), 0, m.ip + SizeA(a), 0)
  {
    hide Step, Rel, Go, IntVal, Sits, Holds, Apply, OpCode;
    GetHeld(s, m, a.v);
    DeclaredIsScoped(s, a.v);
    assert Eval(Var(a.v), s) == Get(a.v, s);
    assert Eval(Bin(a.op, Var(a.v), a.e), s) == Both(a.op, Get(a.v, s), Eval(a.e, s));
    var slot := Slot(a.v, m);
    var refs := [StackBase, Dptr(slot)];
    var h := m.(ip := m.ip + 5 + SizeE(a.e), stack := m.stack + refs + [m.stack[slot]] + [b]);
    assert h.stack == m.stack + refs + [m.stack[slot], b];
    var c := BopTurn(p, a.op, m, n0, lo, hi, h, m.stack + refs, m.stack[slot], Get(a.v, s), b, Eval(a.e, s));
    n := n0 + 1;
    if Go(p, m, n, lo, hi).Running? {
      StoreTurn(p, s, m, n, lo, hi, h.(ip := h.ip + 2, stack := m.stack + refs + [c]), a.v, c,
                Both(a.op, Get(a.v, s), Eval(a.e, s)));
      n := n + 1;
    }
  }
}
