/** The compiler's output buffer (compiler/bcout.cpp) and the Translate methods that
    append to it and patch it (compiler/strom.cpp).  Their result is the layout of
    module Bytecode. */
module BytecodeOutput {
  import opened Basics
  import opened Operators
  import opened SourceLanguage
  import opened ConstTable
  import opened Bytecode
  import opened Backpatching

  // ----- more constants do not change emitted code ----------------------------------

  ghost predicate Grew(t: Table, u: Table) {
    Consistent(t) && Consistent(u) && Extends(t, u)
  }

  lemma KnownStays(n: int32, t: Table, u: Table)
    requires Grew(t, u) && Known(n, t)
    ensures Known(n, u) && InternedAt(u, IntKey(n)) == InternedAt(t, IntKey(n))
  {
    FindStable(t, u, t.items, u.items, IntKey(n));
  }

  lemma {:induction false} StableE(e: Expr, t: Table, u: Table)
    requires Grew(t, u) && CoversE(e, t)
    ensures CoversE(e, u) && CodeE(e, u) == CodeE(e, t)
  {
    hide Grew, Known, InternedAt;
    match e
    case Numb(n) => KnownStays(n, t, u);
    case Var(_) =>
    case Bin(_, l, r) => StableE(l, t, u); StableE(r, t, u);
    case UnMinus(x) => StableE(x, t, u);
    case Not(x) => StableE(x, t, u);
  }

  lemma StableA(a: Assignment, t: Table, u: Table)
    requires Grew(t, u) && CoversE(a.e, t)
    ensures CoversE(a.e, u) && CodeA(a, u) == CodeA(a, t)
  {
    hide Grew, CodeE, CoversE;
    StableE(a.e, t, u);
  }

  lemma StableScope(e: Expr, scope: Scope, org: nat, target: nat, t: Table, u: Table)
    requires Grew(t, u) && CoversScope(e, scope, t)
    ensures CoversScope(e, scope, u) && CodeScope(e, scope, org, target, u) == CodeScope(e, scope, org, target, t)
  {
    hide Grew, Known, InternedAt, SizeScope;
    match scope
    case Default =>
    case Equals(l) => StableE(Bin(NotEq, e, l), t, u);
    case Range(lo, hi) =>
      CoversRange(e, GreaterOrEq, lo, t, u);
      CoversRange(e, Greater, hi, t, u);
      StableE(Bin(GreaterOrEq, e, Numb(lo)), t, u);
      StableE(Bin(Greater, e, Numb(hi)), t, u);
  }

  lemma CoversRange(e: Expr, op: Operator, n: int32, t: Table, u: Table)
    requires CoversE(e, t) && Known(n, t) && Grew(t, u)
    ensures CoversE(Bin(op, e, Numb(n)), t) && Known(n, u) && CoversE(e, u)
  {
    hide Grew;
    KnownStays(n, t, u);
    StableE(e, t, u);
    assert CoversE(Numb(n), t);
  }

  lemma {:induction false} StableScopes(e: Expr, scopes: seq<Scope>, org: nat, target: nat, t: Table, u: Table)
    requires Grew(t, u) && CoversScopes(e, scopes, t)
    ensures CoversScopes(e, scopes, u) && CodeScopes(e, scopes, org, target, u) == CodeScopes(e, scopes, org, target, t)
    decreases |scopes|
  {
    hide Grew, CoversScope, CodeScope, SizeScope;
    if scopes != [] {
      StableScope(e, scopes[0], org, target, t, u);
      StableScopes(e, scopes[1..], org + SizeScope(e, scopes[0]), target, t, u);
    }
  }

  lemma {:induction false} StableS(x: Stmt, org: nat, brk: nat, t: Table, u: Table)
    requires Grew(t, u) && CoversS(x, t)
    ensures CoversS(x, u) && CodeS(x, org, brk, u) == CodeS(x, org, brk, t)
    decreases x, 1
  {
    hide Grew, CoversE, CodeE, CodeA, Word, SizeE, SizeA, CodeB, CoversB, SizeB, CodeTurns;
    match x
    case Empty =>
    case Simple(a) => StableA(a, t, u);
    case Write(e) => StableE(e, t, u);
    case If(c, y) => StableE(c, t, u); StableS(y, org + SizeE(c) + 3, brk, t, u);
    case IfElse(c, y, z) =>
      StableE(c, t, u);
      StableS(y, org + SizeE(c) + 3, brk, t, u);
      StableS(z, org + SizeE(c) + 3 + SizeS(y) + 3, brk, t, u);
    case While(c, body) => StableE(c, t, u); StableS(body, org + SizeE(c) + 3, org + SizeS(x), t, u);
    case For(init, c, step, body) =>
      StableA(init, t, u);
      StableTurns(c, step, body, org + SizeA(init), t, u);
    case Break =>
    case Then(a, b) => StableS(a, org, brk, t, u); StableS(b, org + SizeS(a), brk, t, u);
    case Case(e, blocks) => StableB(e, blocks, org, brk, org + SizeS(x), t, u);
  }

  lemma {:induction false} StableTurns(c: Expr, step: Assignment, body: Stmt, org: nat, t: Table, u: Table)
    requires Grew(t, u) && CoversE(c, t) && CoversE(step.e, t) && CoversS(body, t)
    ensures CoversE(c, u) && CoversE(step.e, u) && CoversS(body, u)
    ensures CodeTurns(c, step, body, org, u) == CodeTurns(c, step, body, org, t)
    decreases body, 2
  {
    hide Grew, CoversE, CodeE, CodeA, Word, CodeS, CoversS;
    StableE(c, t, u);
    StableA(step, t, u);
    StableS(body, org + SizeE(c) + 3, org + SizeTurns(c, step, body), t, u);
  }

  lemma {:induction false} StableB(e: Expr, blocks: Blocks, org: nat, brk: nat, fin: nat, t: Table, u: Table)
    requires Grew(t, u) && CoversB(e, blocks, t)
    ensures CoversB(e, blocks, u) && CodeB(e, blocks, org, brk, fin, u) == CodeB(e, blocks, org, brk, fin, t)
    decreases blocks, 0
  {
    hide Grew, CoversScopes, CodeScopes, SizeScopes, CodeS, SizeS, CoversS, Word;
    match blocks
    case NoBlocks =>
    case Block(scopes, body, next) =>
      var start := org + SizeScopes(e, scopes) + 3;
      StableScopes(e, scopes, org, start, t, u);
      StableS(body, start, brk, t, u);
      StableB(e, next, start + SizeS(body) + (if next.Block? then 3 else 0), brk, fin, t, u);
  }

  lemma GrewTrans(t: Table, u: Table, v: Table)
    requires Grew(t, u) && Grew(u, v)
    ensures Grew(t, v)
  {
    ExtendsTrans(t, u, v);
  }

  lemma GrewSame(t: Table)
    requires Consistent(t)
    ensures Grew(t, t)
  {
  }

  // ----- the buffer -----------------------------------------------------------------

  class Bcout {
    var arr: seq<byte>
    var lab: seq<Label>
    var table: Table

    predicate Valid()
      reads this
    {
      |lab| == |arr| && Consistent(table)
    }

    constructor ()
      ensures Valid() && arr == [] && table == Initial()
    {
      arr, lab, table := [], [], Initial();
      new;
      assert At(table.consts, 0) == Some(NilC);
    }

    method W8(b: byte) returns (ip: nat)
      requires Valid()
      modifies `arr, `lab
      ensures Valid() && arr == old(arr) + [b] && lab == old(lab) + Plain(1) && ip == |old(arr)|
    {
      ip := |arr|;
      arr, lab := arr + [b], lab + [NIL];
    }

    method W8Labeled(b: byte, l: Label) returns (ip: nat)
      requires Valid()
      modifies `arr, `lab
      ensures Valid() && arr == old(arr) + [b] && lab == old(lab) + [l] && ip == |old(arr)|
    {
      ip := |arr|;
      arr, lab := arr + [b], lab + [l];
    }

    method W16(w: nat) returns (ip: nat)
      requires Valid()
      modifies `arr, `lab
      ensures Valid() && arr == old(arr) + [w % 256, w / 256 % 256] && lab == old(lab) + Plain(2) && ip == |old(arr)|
    {
      ip := |arr|;
      arr, lab := arr + [w % 256, w / 256 % 256], lab + [NIL, NIL];
    }

    method W0(op: byte)
      requires Valid()
      modifies `arr, `lab
      ensures Valid() && arr == old(arr) + [op] && lab == old(lab) + Plain(1)
    {
      var _ := W8(op);
    }

    method Wb1(op: byte, arg: byte)
      requires Valid()
      modifies `arr, `lab
      ensures Valid() && arr == old(arr) + [op, arg] && lab == old(lab) + Plain(2)
    {
      var _ := W8(op);
      var _ := W8(arg);
    }

    method Ww1(op: byte, arg: nat) returns (ip: nat)
      requires Valid()
      modifies `arr, `lab
      ensures Valid() && arr == old(arr) + Word(op, arg) && lab == old(lab) + Plain(3) && ip == |old(arr)|
    {
      ip := W8(op);
      var _ := W16(arg);
    }

    method Ww1Labeled(op: byte, arg: nat, l: Label) returns (ip: nat)
      requires Valid()
      modifies `arr, `lab
      ensures Valid() && arr == old(arr) + Word(op, arg) && lab == old(lab) + [l, NIL, NIL] && ip == |old(arr)|
    {
      ip := W8Labeled(op, l);
      var _ := W16(arg);
    }

    /** Makes the jump at `idx` go to the end of the code so far. */
    method FixForwardJmpw(idx: nat)
      requires Valid() && idx + 2 < |arr|
      modifies `arr
      ensures Valid() && arr == Patch(old(arr), idx, |old(arr)|)
    {
      var target := |arr|;
      arr := arr[idx + 1 := target % 256][idx + 2 := target / 256 % 256];
    }

    /** Makes all jumps in the list go to the end of the code so far. */
    method FixAll(jumps: seq<nat>)
      requires Valid() && Inside(jumps, |arr|)
      modifies `arr
      ensures Valid() && arr == PatchAll(old(arr), jumps, |old(arr)|)
    {
      var i := 0;
      while i < |jumps|
        invariant i <= |jumps| && Valid() && |arr| == |old(arr)|
        invariant arr == PatchAll(old(arr), jumps[..i], |old(arr)|)
      {
        FixForwardJmpw(jumps[i]);
        PatchAllAppend(old(arr), jumps[..i], [jumps[i]], |old(arr)|);
        assert jumps[..i + 1] == jumps[..i] + [jumps[i]];
        assert [jumps[i]][1..] == [];
        i := i + 1;
      }
      assert jumps[..i] == jumps;
    }

    /** Sends the breaks in [a1, a2) to the end of the code so far and forgets them. */
    method ResolveBreak(a1: nat, a2: nat)
      requires Valid() && a1 <= a2 && a2 + 2 <= |arr|
      modifies `arr, `lab
      ensures Valid() && arr == PatchAll(old(arr), Marked(old(lab)[a1..a2], a1), |old(arr)|)
      ensures lab == old(lab)[..a1] + Plain(a2 - a1) + old(lab)[a2..]
    {
      hide Patch, PatchAll, Marked, Consistent;
      ghost var arr0, lab0 := arr, lab;
      var i := a1;
      NothingMarked(arr0, lab0, a1, |arr0|);
      while i < a2
        invariant a1 <= i <= a2 && Valid() && |arr| == |arr0|
        invariant arr == PatchAll(arr0, Marked(lab0[a1..i], a1), |arr0|)
        invariant lab == lab0[..a1] + Plain(i - a1) + lab0[i..]
      {
        ResolveStep(arr0, lab0, a1, i, |arr0|);
        ClearStep(lab0, a1, i);
        if lab[i] == BRK {
          FixForwardJmpw(i);
          lab := lab[i := NIL];
        }
        i := i + 1;
      }
    }

    /** The constant table's offset of an integer, or -1. */
    method FindInt(v: int32) returns (found: int)
      requires Valid()
      ensures found == var f := Find(table.consts, table.items, IntKey(v)); if f.Some? then f.value else -1
    {
      var i := 0;
      while i < |table.items|
        invariant i <= |table.items|
        invariant Find(table.consts, table.items, IntKey(v)) == Find(table.consts, table.items[i..], IntKey(v))
      {
        if HasKey(table.consts, table.items[i], IntKey(v)) { return table.items[i]; }
        assert table.items[i..][1..] == table.items[i + 1..];
        i := i + 1;
      }
      return -1;
    }

    /** The offset of an integer constant, which is added when it is missing. */
    method BcoInt(v: int32) returns (off: nat)
      requires Valid()
      modifies `table
      ensures Valid() && Grew(old(table), table) && table == Insert(old(table), Intern(IntKey(v)))
      ensures Known(v, table) && off == InternedAt(table, IntKey(v))
    {
      ghost var t0 := table;
      var found := FindInt(v);
      if found > -1 {
        off := found;
        GrewSame(table);
      } else {
        off := Total(table.consts);
        table := AppendedItem(table, IntC(v));
        InsertKeeps(t0, Intern(IntKey(v)));
        Interned(t0, IntKey(v));
      }
    }

    // ----- translation --------------------------------------------------------------

    method TranslateE(e: Expr)
      requires Valid()
      modifies this
      ensures Valid() && Grew(old(table), table) && CoversE(e, table)
      ensures arr == old(arr) + CodeE(e, table) && lab == old(lab) + Plain(SizeE(e))
      decreases e, 1
    {
      hide Consistent, Grew;
      match e {
        case Numb(n) =>
          var off := BcoInt(n);
          var _ := Ww1(LVBI_C, off);
        case Var(v) =>
          GrewSame(table);
          match v {
            case Local(i) => var _ := Ww1(LVBI_LOC, i);
            case Arg(i) => var _ := Ww1(LVBI_ARG, i);
          }
        case Bin(op, l, r) =>
          TranslateBin(op, l, r);
        case UnMinus(x) =>
          TranslateE(x);
          W0(UNM);
        case Not(x) =>
          TranslateE(x);
          W0(NOT);
      }
    }

    method TranslateBin(op: Operator, l: Expr, r: Expr)
      requires Valid()
      modifies this
      ensures Valid() && Grew(old(table), table) && CoversE(Bin(op, l, r), table)
      ensures arr == old(arr) + CodeE(Bin(op, l, r), table) && lab == old(lab) + Plain(SizeE(Bin(op, l, r)))
      decreases Bin(op, l, r), 0
    {
      hide Consistent, Grew, CodeE, CoversE, SizeE, Plain, OpCode;
      ghost var arr0, lab0, t0 := arr, lab, table;
      TranslateE(l);
      ghost var t1 := table;
      TranslateE(r);
      Wb1(BOP, OpCode(op));
      GrewTrans(t0, t1, table);
      BinDone(arr0, lab0, op, l, r, t1, table, arr, lab);
    }

    method TranslateAddress(v: Variable)
      requires Valid()
      modifies this
      ensures Valid() && table == old(table)
      ensures arr == old(arr) + LoadAddress(v) && lab == old(lab) + Plain(3)
    {
      match v {
        case Local(i) => var _ := Ww1(LABI_LOC, i);
        case Arg(i) => var _ := Ww1(LABI_ARG, i);
      }
    }

    method TranslateA(a: Assignment)
      requires Valid()
      modifies this
      ensures Valid() && Grew(old(table), table) && CoversE(a.e, table)
      ensures arr == old(arr) + CodeA(a, table) && lab == old(lab) + Plain(SizeA(a))
    {
      hide Consistent, Grew, CodeE, SizeE, CoversE, Plain, LoadAddress, OpCode;
      ghost var arr0, lab0 := arr, lab;
      TranslateAddress(a.v);
      if a.Assign? {
        TranslateE(a.e);
        W0(ST);
        Join3(arr0, LoadAddress(a.v), CodeE(a.e, table), [ST]);
        PlainTwo(lab0, 3, SizeE(a.e));
        PlainTwo(lab0, 3 + SizeE(a.e), 1);
      } else {
        W0(DUP);
        W0(DR);
        TranslateE(a.e);
        Wb1(BOP, OpCode(a.op));
        W0(ST);
        JoinCompound(arr0, LoadAddress(a.v), CodeE(a.e, table), OpCode(a.op));
        PlainTwo(lab0, 3, 1);
        PlainTwo(lab0, 4, 1);
        PlainTwo(lab0, 5, SizeE(a.e));
        PlainTwo(lab0, 5 + SizeE(a.e), 2);
        PlainTwo(lab0, 7 + SizeE(a.e), 1);
      }
    }

    // ----- statements ---------------------------------------------------------------

    /** The code of a statement; its unresolved breaks are labelled and go nowhere yet. */
    method TranslateS(x: Stmt)
      requires Valid()
      modifies this
      ensures Valid() && Grew(old(table), table) && CoversS(x, table)
      ensures arr == old(arr) + CodeS(x, |old(arr)|, 0, table) && lab == old(lab) + LabS(x)
      decreases x, 1
    {
      hide Consistent, Grew, CodeE, CodeA, CodeTurns, CodeB, LabB, SizeE, SizeA, SizeB, CoversB, CoversE;
      match x {
        case Empty =>
          GrewSame(table);
          assert arr + [] == arr && lab + [] == lab;
        case Simple(a) => TranslateA(a);
        case Write(e) => TranslateWrite(e);
        case If(c, y) => TranslateIf(c, y);
        case IfElse(c, y, z) => TranslateIfElse(c, y, z);
        case While(c, body) => TranslateWhile(c, body);
        case For(init, c, step, body) => TranslateFor(init, c, step, body);
        case Break =>
          GrewSame(table);
          var _ := Ww1Labeled(JU, 0, BRK);
        case Then(a, b) => TranslateThen(a, b);
        case Case(e, blocks) => TranslateCase(e, blocks);
      }
    }

    method TranslateWrite(e: Expr)
      requires Valid()
      modifies this
      ensures Valid() && Grew(old(table), table) && CoversS(Write(e), table)
      ensures arr == old(arr) + CodeS(Write(e), |old(arr)|, 0, table) && lab == old(lab) + LabS(Write(e))
    {
      hide Consistent, Grew, CodeE, SizeE, CoversE, Plain;
      ghost var arr0, lab0 := arr, lab;
      TranslateE(e);
      W0(WRT);
      Join2(arr0, CodeE(e, table), [WRT]);
      PlainTwo(lab0, SizeE(e), 1);
    }

    method TranslateThen(a: Stmt, b: Stmt)
      requires Valid()
      modifies this
      ensures Valid() && Grew(old(table), table) && CoversS(Then(a, b), table)
      ensures arr == old(arr) + CodeS(Then(a, b), |old(arr)|, 0, table) && lab == old(lab) + LabS(Then(a, b))
      decreases Then(a, b), 0
    {
      hide Consistent, Grew, CodeS, LabS, SizeS, CoversS;
      ghost var arr0, lab0, t0 := arr, lab, table;
      TranslateS(a);
      ghost var t1 := table;
      TranslateS(b);
      StableS(a, |arr0|, 0, t1, table);
      GrewTrans(t0, t1, table);
      ThenCovers(a, b, table);
      ThenShape(a, b, |arr0|, 0, table);
      EmptyMiddle(CodeS(a, |arr0|, 0, table), CodeS(b, |arr0| + SizeS(a), 0, table));
      Join2(arr0, CodeS(a, |arr0|, 0, table), CodeS(b, |arr0| + SizeS(a), 0, table));
      Join2(lab0, LabS(a), LabS(b));
    }

    method TranslateIf(c: Expr, y: Stmt)
      requires Valid()
      modifies this
      ensures Valid() && Grew(old(table), table) && CoversS(If(c, y), table)
      ensures arr == old(arr) + CodeS(If(c, y), |old(arr)|, 0, table) && lab == old(lab) + LabS(If(c, y))
      decreases If(c, y), 0
    {
      hide Consistent, Grew, CodeE, SizeE, CoversE, Plain, Patch, CodeS, SizeS, LabS, Word;
      ghost var arr0, lab0, t0 := arr, lab, table;
      TranslateE(c);
      ghost var t1 := table;
      WordLength(IFNJ, 0);
      var a1 := Ww1(IFNJ, 0);
      TranslateS(y);
      FixForwardJmpw(a1);
      StableE(c, t1, table);
      GrewTrans(t0, t1, table);
      Sizes(c, y, y);
      IfDone(arr0, c, y, table, a1 + 3, |arr|);
      PlainTwo(lab0, SizeE(c), 3);
      IfLabels(lab0, c, y);
    }

    method TranslateIfElse(c: Expr, y: Stmt, z: Stmt)
      requires Valid()
      modifies this
      ensures Valid() && Grew(old(table), table) && CoversS(IfElse(c, y, z), table)
      ensures arr == old(arr) + CodeS(IfElse(c, y, z), |old(arr)|, 0, table)
      ensures lab == old(lab) + LabS(IfElse(c, y, z))
      decreases IfElse(c, y, z), 0
    {
      hide Consistent, Grew, CodeE, SizeE, CoversE, CoversS, Plain, Patch, CodeS, SizeS, LabS, Word;
      ghost var arr0, lab0, t0 := arr, lab, table;
      TranslateE(c);
      ghost var t1 := table;
      WordLength(IFNJ, 0);
      var a1 := Ww1(IFNJ, 0);
      TranslateS(y);
      ghost var t2 := table;
      WordLength(JU, 0);
      var a2 := Ww1(JU, 0);
      FixForwardJmpw(a1);
      var bt := |arr|;
      TranslateS(z);
      FixForwardJmpw(a2);
      GrewTrans(t1, t2, table);
      GrewTrans(t0, t1, table);
      StableE(c, t1, table);
      StableS(y, |arr0| + SizeE(c) + 3, 0, t2, table);
      Sizes(c, y, z);
      IfElseDone(arr0, c, y, z, table, a1 + 3, bt, |arr|);
      PlainTwo(lab0, SizeE(c), 3);
      IfElseCovers(c, y, z, table);
      IfElseLabels(lab0, c, y, z);
    }

    method TranslateWhile(c: Expr, body: Stmt)
      requires Valid()
      modifies this
      ensures Valid() && Grew(old(table), table) && CoversS(While(c, body), table)
      ensures arr == old(arr) + CodeS(While(c, body), |old(arr)|, 0, table) && lab == old(lab) + LabS(While(c, body))
      decreases While(c, body), 0
    {
      hide Consistent, Grew, CodeE, SizeE, CoversE, Plain, Patch, PatchAll, Marked, CodeS, SizeS, LabS, Word;
      ghost var arr0, lab0, t0 := arr, lab, table;
      var a1 := |arr|;
      TranslateE(c);
      ghost var t1 := table;
      WordLength(IFNJ, 0);
      var a2 := Ww1(IFNJ, 0);
      var b1 := |arr|;
      ghost var lab1 := lab;
      TranslateS(body);
      var b2 := |arr|;
      WordLength(JU, a1);
      var _ := Ww1(JU, a1);
      StableE(c, t1, table);
      GrewTrans(t0, t1, table);
      BodySlice(lab1, LabS(body), Plain(3));
      ResolveBreak(b1, b2);
      FixForwardJmpw(a2);
      WhileDone(arr0, c, body, table, b1, |arr|);
      PlainTwo(lab0, SizeE(c), 3);
      PlainTwo(lab0, SizeE(c) + 3, SizeS(body));
      PlainTwo(lab0, SizeE(c) + 3 + SizeS(body), 3);
      WhileShape(c, body, table);
    }

    method TranslateFor(init: Assignment, c: Expr, step: Assignment, body: Stmt)
      requires Valid()
      modifies this
      ensures var x := For(init, c, step, body);
              Valid() && Grew(old(table), table) && CoversS(x, table)
              && arr == old(arr) + CodeS(x, |old(arr)|, 0, table) && lab == old(lab) + LabS(x)
      decreases For(init, c, step, body), 0
    {
      hide Consistent, Grew, CodeE, SizeE, CoversE, Plain, CodeS, SizeS, LabS, CodeA, SizeA, CodeTurns, SizeTurns;
      ghost var arr0, lab0, t0 := arr, lab, table;
      TranslateA(init);
      ghost var t1 := table;
      TranslateTurns(c, step, body);
      StableA(init, t1, table);
      GrewTrans(t0, t1, table);
      Join2(arr0, CodeA(init, table), CodeTurns(c, step, body, |arr0| + SizeA(init), table));
      PlainTwo(lab0, SizeA(init), SizeTurns(c, step, body));
      ForShape(init, c, step, body, |arr0|, table);
    }

    /** The rest of a for loop after its initialisation. */
    method TranslateTurns(c: Expr, step: Assignment, body: Stmt)
      requires Valid()
      modifies this
      ensures Valid() && Grew(old(table), table)
      ensures CoversE(c, table) && CoversE(step.e, table) && CoversS(body, table)
      ensures arr == old(arr) + CodeTurns(c, step, body, |old(arr)|, table)
      ensures lab == old(lab) + Plain(SizeTurns(c, step, body))
      decreases body, 2
    {
      hide Consistent, Grew, CodeE, SizeE, CoversE, Plain, Patch, PatchAll, Marked, CodeS, SizeS, LabS, Word, CodeA, SizeA, CoversS;
      ghost var arr0, lab0, t0 := arr, lab, table;
      var a1 := |arr|;
      TranslateE(c);
      ghost var t1 := table;
      WordLength(IFNJ, 0);
      var a2 := Ww1(IFNJ, 0);
      var b1 := |arr|;
      ghost var lab1 := lab;
      TranslateS(body);
      ghost var t2 := table;
      var b2 := |arr|;
      TranslateA(step);
      WordLength(JU, a1);
      var _ := Ww1(JU, a1);
      GrewTrans(t1, t2, table);
      GrewTrans(t0, t1, table);
      StableE(c, t1, table);
      StableS(body, b1, 0, t2, table);
      Join2(lab1 + LabS(body), Plain(SizeA(step)), Plain(3));
      BodySlice(lab1, LabS(body), Plain(SizeA(step)) + Plain(3));
      ResolveBreak(b1, b2);
      FixForwardJmpw(a2);
      TurnsDone(arr0, c, step, body, table, b1, |arr|);
      TurnsLabels(lab0, SizeE(c), SizeS(body), SizeA(step));
    }

    /** The test of one scope, with the address of its jump to the block. */
    method TranslateScope(e: Expr, scope: Scope) returns (jump: nat)
      requires Valid()
      modifies this
      ensures Valid() && Grew(old(table), table) && CoversScope(e, scope, table)
      ensures arr == old(arr) + CodeScope(e, scope, |old(arr)|, 0, table)
      ensures lab == old(lab) + Plain(SizeScope(e, scope)) && jump == |old(arr)| + SizeScope(e, scope) - 3
    {
      hide Consistent, Grew, CodeE, SizeE, Plain, Patch, Word, Known;
      ghost var arr0, lab0, t0 := arr, lab, table;
      WordLength(JU, 0);
      WordLength(IFNJ, 0);
      match scope {
        case Default =>
          GrewSame(table);
          jump := Ww1(JU, 0);
        case Equals(l) =>
          TranslateE(Bin(NotEq, e, l));
          jump := Ww1(IFNJ, 0);
          Join2(arr0, CodeE(Bin(NotEq, e, l), table), Word(IFNJ, 0));
          PlainTwo(lab0, SizeE(Bin(NotEq, e, l)), 3);
        case Range(lo, hi) => jump := TranslateRange(e, lo, hi);
      }
    }

    method TranslateRange(e: Expr, lo: int32, hi: int32) returns (jump: nat)
      requires Valid()
      modifies this
      ensures Valid() && Grew(old(table), table) && CoversScope(e, Range(lo, hi), table)
      ensures arr == old(arr) + CodeScope(e, Range(lo, hi), |old(arr)|, 0, table)
      ensures lab == old(lab) + Plain(SizeScope(e, Range(lo, hi)))
      ensures jump == |old(arr)| + SizeScope(e, Range(lo, hi)) - 3
    {
      hide Consistent, Grew, CodeE, SizeE, Plain, Patch, Word, Known;
      ghost var arr0, lab0, t0 := arr, lab, table;
      var low, high := Bin(GreaterOrEq, e, Numb(lo)), Bin(Greater, e, Numb(hi));
      WordLength(IFNJ, 0);
      TranslateE(low);
      ghost var t1 := table;
      var loRangeFail := Ww1(IFNJ, 0);
      TranslateE(high);
      jump := Ww1(IFNJ, 0);
      FixForwardJmpw(loRangeFail);
      StableE(low, t1, table);
      GrewTrans(t0, t1, table);
      PatchMiddle(arr0 + CodeE(low, table), IFNJ, 0, CodeE(high, table) + Word(IFNJ, 0), |arr|);
      RangeDone(arr0, CodeE(low, table), Word(IFNJ, 0), Word(IFNJ, |arr|), CodeE(high, table), Word(IFNJ, 0));
      PlainTwo(lab0, SizeE(low), 3);
      PlainTwo(lab0, SizeE(low) + 3, SizeE(high));
      PlainTwo(lab0, SizeE(low) + 3 + SizeE(high), 3);
    }

    method TranslateScopes(e: Expr, scopes: seq<Scope>) returns (jumps: seq<nat>)
      requires Valid()
      modifies this
      ensures Valid() && Grew(old(table), table) && CoversScopes(e, scopes, table)
      ensures arr == old(arr) + CodeScopes(e, scopes, |old(arr)|, 0, table)
      ensures lab == old(lab) + Plain(SizeScopes(e, scopes)) && jumps == ScopeJumps(e, scopes, |old(arr)|)
    {
      hide Consistent, Grew, CodeScope, SizeScope, CoversScope, CodeScopes, SizeScopes, CoversScopes, ScopeJumps, Plain;
      ghost var arr0, lab0, t0 := arr, lab, table;
      GrewSame(table);
      NoScopes(e, |arr|, table);
      jumps := [];
      var i := 0;
      while i < |scopes|
        invariant i <= |scopes| && Valid() && Grew(t0, table) && CoversScopes(e, scopes[..i], table)
        invariant arr == arr0 + CodeScopes(e, scopes[..i], |arr0|, 0, table)
        invariant lab == lab0 + Plain(SizeScopes(e, scopes[..i])) && jumps == ScopeJumps(e, scopes[..i], |arr0|)
      {
        ghost var t1 := table;
        var jump := TranslateScope(e, scopes[i]);
        jumps := jumps + [jump];
        GrewTrans(t0, t1, table);
        StableScopes(e, scopes[..i], |arr0|, 0, t1, table);
        assert scopes[..i + 1] == scopes[..i] + [scopes[i]];
        ScopesAppend(e, scopes[..i], scopes[i], |arr0|, table);
        Join2(arr0, CodeScopes(e, scopes[..i], |arr0|, 0, table),
              CodeScope(e, scopes[i], |arr0| + SizeScopes(e, scopes[..i]), 0, table));
        PlainTwo(lab0, SizeScopes(e, scopes[..i]), SizeScope(e, scopes[i]));
        i := i + 1;
      }
      assert scopes[..i] == scopes;
    }

    /** One block; the address of its jump to the end of the switch, if it needs one. */
    method TranslateBlock(e: Expr, scopes: seq<Scope>, body: Stmt, more: bool) returns (finals: seq<nat>)
      requires Valid()
      modifies this
      ensures Valid() && Grew(old(table), table) && CoversScopes(e, scopes, table) && CoversS(body, table)
      ensures var start := |old(arr)| + SizeScopes(e, scopes) + 3;
              && arr == old(arr) + BlockHead(e, scopes, start + SizeS(body) + (if more then 3 else 0), |old(arr)|, table)
                        + CodeS(body, start, 0, table) + (if more then Word(JU, 0) else [])
              && lab == old(lab) + Plain(SizeScopes(e, scopes) + 3) + LabS(body) + Plain(if more then 3 else 0)
              && finals == if more then [start + SizeS(body)] else []
      decreases body, 2
    {
      hide Consistent, Grew, CodeScopes, SizeScopes, CoversScopes, ScopeJumps, Plain, CodeS, SizeS, LabS, CoversS, Patch, PatchAll, Word;
      ghost var arr0, lab0, t0 := arr, lab, table;
      var jumps := TranslateScopes(e, scopes);
      ghost var t1 := table;
      WordLength(JU, 0);
      var jumpOver := Ww1(JU, 0);
      JumpsInside(e, scopes, |arr0|);
      FixAll(jumps);
      ScopesDone(arr0, e, scopes, t1);
      TranslateS(body);
      GrewTrans(t0, t1, table);
      StableScopes(e, scopes, |arr0|, |arr0| + SizeScopes(e, scopes) + 3, t1, table);
      StableScopes(e, scopes, |arr0|, 0, t1, table);
      PlainTwo(lab0, SizeScopes(e, scopes), 3);
      finals := [];
      if more {
        var a := Ww1(JU, 0);
        finals := [a];
      }
      FixForwardJmpw(jumpOver);
      BlockDone(arr0, e, scopes, body, more, table);
    }

    method TranslateCase(e: Expr, blocks: Blocks)
      requires Valid()
      modifies this
      ensures var x := Case(e, blocks);
              Valid() && Grew(old(table), table) && CoversS(x, table)
              && arr == old(arr) + CodeS(x, |old(arr)|, 0, table) && lab == old(lab) + LabS(x)
      decreases blocks, 0
    {
      hide Emitted, Consistent, Grew, CodeB, SizeB, CoversB, LabB, Plain, PatchAll, FinalJumps, Word, SizeScopes, SizeS, CodeS, BlockHead, CoversScopes, LabS;
      ghost var arr0, lab0, t0 := arr, lab, table;
      GrewSame(table);
      var finalJumps: seq<nat> := [];
      var cur := blocks;
      NothingEmitted(e, blocks, arr, table);
      while cur.Block?
        invariant Valid() && Grew(t0, table) && (cur == blocks || cur < blocks)
        invariant Emitted(e, blocks, arr0, cur, arr, table)
        invariant lab + LabB(e, cur) == lab0 + LabB(e, blocks)
        invariant finalJumps + FinalJumps(e, cur, |arr|) == FinalJumps(e, blocks, |arr0|)
        decreases cur
      {
        ghost var arr1, lab1, t1 := arr, lab, table;
        var finals := TranslateBlock(e, cur.scopes, cur.body, cur.next.Block?);
        GrewTrans(t0, t1, table);
        EmittedStep(e, blocks, arr0, cur, arr1, lab1, t1, arr, lab, table, |arr1| + SizeScopes(e, cur.scopes) + 3,
                    |arr1| + SizeScopes(e, cur.scopes) + 3 + SizeS(cur.body) + (if cur.next.Block? then 3 else 0));
        FinalStep(e, cur, |arr1|);
        assert finalJumps + (finals + FinalJumps(e, cur.next, |arr|)) == finalJumps + finals + FinalJumps(e, cur.next, |arr|);
        finalJumps := finalJumps + finals;
        cur := cur.next;
      }
      BlocksEnd(e, cur, |arr|, table);
      EmittedEnd(e, blocks, arr0, cur, arr, table);
      assert arr + [] == arr && lab + [] == lab && finalJumps + [] == finalJumps;
      JumpsReach(e, blocks, |arr0|);
      FixAll(finalJumps);
      CaseDone(arr0, e, blocks, table);
    }
  }

  // ----- gluing ---------------------------------------------------------------------

  lemma BinDone(arr0: seq<byte>, lab0: seq<Label>, op: Operator, l: Expr, r: Expr, t1: Table, t: Table,
                arr: seq<byte>, lab: seq<Label>)
    requires Grew(t1, t) && CoversE(l, t1) && CoversE(r, t)
    requires arr == arr0 + CodeE(l, t1) + CodeE(r, t) + [BOP, OpCode(op)]
    requires lab == lab0 + Plain(SizeE(l)) + Plain(SizeE(r)) + Plain(2)
    ensures arr == arr0 + CodeE(Bin(op, l, r), t) && lab == lab0 + Plain(SizeE(Bin(op, l, r)))
    ensures CoversE(Bin(op, l, r), t)
  {
    hide Grew, OpCode, Plain;
    StableE(l, t1, t);
    Join3(arr0, CodeE(l, t), CodeE(r, t), [BOP, OpCode(op)]);
    PlainTwo(lab0, SizeE(l), SizeE(r));
    PlainTwo(lab0, SizeE(l) + SizeE(r), 2);
  }

  lemma JoinCompound(pre: seq<byte>, a: seq<byte>, e: seq<byte>, op: byte)
    ensures pre + a + [DUP] + [DR] + e + [BOP, op] + [ST] == pre + (a + [DUP, DR] + e + [BOP, op, ST])
  {
    var x := pre + a;
    assert x + [DUP] + [DR] == x + [DUP, DR];
    assert x + [DUP, DR] + e + [BOP, op] + [ST] == x + [DUP, DR] + e + [BOP, op, ST];
    assert x + [DUP, DR] + e + [BOP, op, ST] == pre + (a + [DUP, DR] + e + [BOP, op, ST]);
  }

  lemma PlainTwo(pre: seq<Label>, a: nat, b: nat)
    ensures pre + Plain(a) + Plain(b) == pre + Plain(a + b)
  {
    assert pre + Plain(a) + Plain(b) == pre + Plain(a + b);
  }

  // ----- what the patches complete --------------------------------------------------

  lemma Sizes(c: Expr, y: Stmt, z: Stmt)
    ensures SizeS(If(c, y)) == SizeE(c) + 3 + SizeS(y)
    ensures SizeS(IfElse(c, y, z)) == SizeE(c) + 3 + SizeS(y) + 3 + SizeS(z)
  {
  }

  lemma IfElseCovers(c: Expr, y: Stmt, z: Stmt, t: Table)
    ensures CoversE(c, t) && CoversS(y, t) && CoversS(z, t) ==> CoversS(IfElse(c, y, z), t)
  {
  }

  lemma ThenCovers(a: Stmt, b: Stmt, t: Table)
    ensures CoversS(a, t) && CoversS(b, t) ==> CoversS(Then(a, b), t)
  {
  }

  lemma IfGlue(pre: seq<byte>, a: seq<byte>, b: seq<byte>, target: nat)
    ensures Patch(pre + a + Word(IFNJ, 0) + b, |pre| + |a|, target) == pre + ((a + Word(IFNJ, target)) + b)
  {
    hide Patch, Word;
    PatchMiddle(pre + a, IFNJ, 0, b, target);
    Join3(pre, a, Word(IFNJ, target), b);
  }

  lemma IfElseGlue(pre: seq<byte>, a: seq<byte>, y: seq<byte>, z: seq<byte>, i1: nat, t1: nat, i2: nat, t2: nat)
    requires i1 == |pre| + |a| && i2 == i1 + 3 + |y|
    ensures Patch(Patch(pre + a + Word(IFNJ, 0) + y + Word(JU, 0), i1, t1) + z, i2, t2)
         == pre + ((a + Word(IFNJ, t1)) + (y + Word(JU, t2) + z))
  {
    hide Patch, Word;
    var head := a + Word(IFNJ, t1);
    WordLength(IFNJ, t1);
    Join2(pre + a + Word(IFNJ, 0), y, Word(JU, 0));
    IfGlue(pre, a, y + Word(JU, 0), t1);
    assert pre + (head + (y + Word(JU, 0))) + z == pre + head + y + Word(JU, 0) + z;
    PatchMiddle(pre + head + y, JU, 0, z, t2);
    assert pre + head + y + Word(JU, t2) + z == pre + (head + (y + Word(JU, t2) + z));
  }

  /** The exit of a loop, after its breaks have been resolved. */
  lemma LoopGlue(pre: seq<byte>, a: seq<byte>, body: seq<byte>, back: seq<byte>, end: nat)
    ensures Patch(pre + a + Word(IFNJ, 0) + body + back, |pre| + |a|, end) == pre + (a + Word(IFNJ, end) + body + back)
  {
    hide Patch, Word;
    Join2(pre + a + Word(IFNJ, 0), body, back);
    IfGlue(pre, a, body + back, end);
    Join2(a + Word(IFNJ, end), body, back);
  }

  lemma IfDone(arr0: seq<byte>, c: Expr, y: Stmt, t: Table, at: nat, end: nat)
    requires at == |arr0| + SizeE(c) + 3 && end == at + SizeS(y)
    ensures Patch(arr0 + CodeE(c, t) + Word(IFNJ, 0) + CodeS(y, at, 0, t), at - 3, end) == arr0 + CodeS(If(c, y), |arr0|, 0, t)
  {
    hide CodeE, CodeS, Patch, Word, SizeE, SizeS;
    Sizes(c, y, y);
    IfShape(c, y, |arr0|, 0, t);
    IfGlue(arr0, CodeE(c, t), CodeS(y, at, 0, t), end);
  }

  lemma IfLabels(lab0: seq<Label>, c: Expr, y: Stmt)
    ensures lab0 + Plain(SizeE(c) + 3) + LabS(y) == lab0 + LabS(If(c, y))
  {
    hide Plain, SizeE, LabB, SizeB;
    Join2(lab0, Plain(SizeE(c) + 3), LabS(y));
  }

  lemma IfElseLabels(lab0: seq<Label>, c: Expr, y: Stmt, z: Stmt)
    ensures lab0 + Plain(SizeE(c) + 3) + LabS(y) + Plain(3) + LabS(z) == lab0 + LabS(IfElse(c, y, z))
  {
    hide Plain, SizeE, LabB, SizeB;
    Join3(lab0, Plain(SizeE(c) + 3), LabS(y), Plain(3));
    Join2(lab0, Plain(SizeE(c) + 3) + LabS(y) + Plain(3), LabS(z));
  }

  lemma IfElseDone(arr0: seq<byte>, c: Expr, y: Stmt, z: Stmt, t: Table, at: nat, bt: nat, end: nat)
    requires at == |arr0| + SizeE(c) + 3 && bt == at + SizeS(y) + 3 && end == bt + SizeS(z)
    ensures Patch(Patch(arr0 + CodeE(c, t) + Word(IFNJ, 0) + CodeS(y, at, 0, t) + Word(JU, 0), at - 3, bt)
                  + CodeS(z, bt, 0, t), bt - 3, end)
         == arr0 + CodeS(IfElse(c, y, z), |arr0|, 0, t)
  {
    hide CodeE, CodeS, Patch, Word, SizeE, SizeS;
    Sizes(c, y, z);
    IfElseShape(c, y, z, |arr0|, 0, t, at, bt, end);
    IfElseGlue(arr0, CodeE(c, t), CodeS(y, at, 0, t), CodeS(z, bt, 0, t), at - 3, bt, bt - 3, end);
  }

  lemma BodySlice(lab1: seq<Label>, l: seq<Label>, post: seq<Label>)
    ensures var all := lab1 + l + post;
            && all[|lab1|..|lab1| + |l|] == l && all[..|lab1|] == lab1 && all[|lab1| + |l|..] == post
  {
  }

  lemma WhileShape(c: Expr, body: Stmt, t: Table)
    ensures SizeS(While(c, body)) == SizeE(c) + 3 + SizeS(body) + 3
    ensures LabS(While(c, body)) == Plain(SizeE(c) + 3 + SizeS(body) + 3)
    ensures CoversE(c, t) && CoversS(body, t) ==> CoversS(While(c, body), t)
  {
    hide SizeE, CoversE, Plain;
  }

  lemma WhileDone(arr0: seq<byte>, c: Expr, body: Stmt, t: Table, at: nat, end: nat)
    requires at == |arr0| + SizeE(c) + 3 && end == at + SizeS(body) + 3
    ensures Patch(PatchAll(arr0 + CodeE(c, t) + Word(IFNJ, 0) + CodeS(body, at, 0, t) + Word(JU, |arr0|),
                           Marked(LabS(body), at), end), at - 3, end)
         == arr0 + CodeS(While(c, body), |arr0|, 0, t)
  {
    hide CodeE, CodeS, Patch, PatchAll, Marked, Word, SizeE, SizeS, LabS;
    WordLength(IFNJ, 0);
    PatchBreaks(arr0 + CodeE(c, t) + Word(IFNJ, 0), body, at, Word(JU, |arr0|), end, t);
    WhileCode(c, body, |arr0|, t, at, end);
    LoopGlue(arr0, CodeE(c, t), CodeS(body, at, end, t), Word(JU, |arr0|), end);
  }

  lemma WhileCode(c: Expr, body: Stmt, org: nat, t: Table, at: nat, end: nat)
    requires at == org + SizeE(c) + 3 && end == at + SizeS(body) + 3
    ensures CodeS(While(c, body), org, 0, t) == CodeE(c, t) + Word(IFNJ, end) + CodeS(body, at, end, t) + Word(JU, org)
  {
    hide CodeE, SizeE, Word, CodeB, CodeTurns, SizeB, CodeA, SizeA;
  }

  lemma ForShape(init: Assignment, c: Expr, step: Assignment, body: Stmt, org: nat, t: Table)
    ensures var x := For(init, c, step, body);
            && LabS(x) == Plain(SizeA(init) + SizeTurns(c, step, body))
            && CodeS(x, org, 0, t) == CodeA(init, t) + CodeTurns(c, step, body, org + SizeA(init), t)
            && (CoversE(init.e, t) && CoversE(c, t) && CoversE(step.e, t) && CoversS(body, t) ==> CoversS(x, t))
  {
    hide CodeE, SizeE, CodeA, SizeA, CoversE, CodeTurns, Plain;
  }

  lemma TurnsDone(arr0: seq<byte>, c: Expr, step: Assignment, body: Stmt, t: Table, at: nat, end: nat)
    requires at == |arr0| + SizeE(c) + 3 && end == |arr0| + SizeTurns(c, step, body)
    ensures Patch(PatchAll(arr0 + CodeE(c, t) + Word(IFNJ, 0) + CodeS(body, at, 0, t) + CodeA(step, t) + Word(JU, |arr0|),
                           Marked(LabS(body), at), end), at - 3, end)
         == arr0 + CodeTurns(c, step, body, |arr0|, t)
  {
    hide CodeE, CodeS, Patch, PatchAll, Marked, Word, SizeE, SizeS, LabS, CodeA, SizeA;
    var back := CodeA(step, t) + Word(JU, |arr0|);
    WordLength(IFNJ, 0);
    Join2(arr0 + CodeE(c, t) + Word(IFNJ, 0) + CodeS(body, at, 0, t), CodeA(step, t), Word(JU, |arr0|));
    PatchBreaks(arr0 + CodeE(c, t) + Word(IFNJ, 0), body, at, back, end, t);
    LoopGlue(arr0, CodeE(c, t), CodeS(body, at, end, t), back, end);
    Join2(CodeE(c, t) + Word(IFNJ, end) + CodeS(body, at, end, t), CodeA(step, t), Word(JU, |arr0|));
  }

  lemma TurnsLabels(pre: seq<Label>, c: nat, body: nat, step: nat)
    ensures pre + Plain(c) + Plain(3) + Plain(body) + (Plain(step) + Plain(3)) == pre + Plain(c + 3 + body + step + 3)
  {
    assert pre + Plain(c) + Plain(3) + Plain(body) + (Plain(step) + Plain(3)) == pre + Plain(c + 3 + body + step + 3);
  }

  lemma RangeDone(pre: seq<byte>, a: seq<byte>, b0: seq<byte>, b1: seq<byte>, c: seq<byte>, d: seq<byte>)
    ensures pre + a + b0 + c + d == pre + a + b0 + (c + d)
    ensures pre + a + b1 + (c + d) == pre + (a + b1 + c + d)
  {
    assert pre + a + b1 + (c + d) == pre + (a + b1 + c + d);
    assert pre + a + b0 + c + d == pre + a + b0 + (c + d);
  }

  // ----- switches -------------------------------------------------------------------

  lemma NoScopes(e: Expr, org: nat, t: Table)
    ensures CodeScopes(e, [], org, 0, t) == [] && SizeScopes(e, []) == 0 && ScopeJumps(e, [], org) == []
    ensures CoversScopes(e, [], t) && Plain(0) == []
  {
  }

  lemma {:induction false} ScopesAppend(e: Expr, scopes: seq<Scope>, scope: Scope, org: nat, t: Table)
    ensures CodeScopes(e, scopes + [scope], org, 0, t)
         == CodeScopes(e, scopes, org, 0, t) + CodeScope(e, scope, org + SizeScopes(e, scopes), 0, t)
    ensures SizeScopes(e, scopes + [scope]) == SizeScopes(e, scopes) + SizeScope(e, scope)
    ensures ScopeJumps(e, scopes + [scope], org)
         == ScopeJumps(e, scopes, org) + [org + SizeScopes(e, scopes) + SizeScope(e, scope) - 3]
    ensures CoversScopes(e, scopes, t) && CoversScope(e, scope, t) ==> CoversScopes(e, scopes + [scope], t)
    decreases |scopes|
  {
    hide CodeScope, SizeScope, CoversScope;
    var all := scopes + [scope];
    if scopes == [] {
      assert all == [scope] && all[1..] == [];
    } else {
      assert all[1..] == scopes[1..] + [scope];
      ScopesAppend(e, scopes[1..], scope, org + SizeScope(e, scopes[0]), t);
    }
  }

  lemma {:induction false} JumpsInside(e: Expr, scopes: seq<Scope>, org: nat)
    ensures Inside(ScopeJumps(e, scopes, org), org + SizeScopes(e, scopes))
    decreases |scopes|
  {
    if scopes != [] {
      var at := org + SizeScope(e, scopes[0]);
      JumpsInside(e, scopes[1..], at);
      ConsInside(at - 3, ScopeJumps(e, scopes[1..], at), at + SizeScopes(e, scopes[1..]), org + SizeScopes(e, scopes));
    }
  }

  predicate Inside(jumps: seq<nat>, end: nat) {
    forall i :: 0 <= i < |jumps| ==> jumps[i] + 2 < end
  }

  lemma ConsInside(at: nat, rest: seq<nat>, mid: nat, end: nat)
    requires at + 2 < end && Inside(rest, mid) && mid <= end
    ensures Inside([at] + rest, end)
  {
  }

  lemma ScopesDone(arr0: seq<byte>, e: Expr, scopes: seq<Scope>, t: Table)
    ensures var end := |arr0| + SizeScopes(e, scopes) + 3;
            PatchAll(arr0 + CodeScopes(e, scopes, |arr0|, 0, t) + Word(JU, 0), ScopeJumps(e, scopes, |arr0|), end)
            == arr0 + CodeScopes(e, scopes, |arr0|, end, t) + Word(JU, 0)
  {
    hide PatchAll, CodeScopes, ScopeJumps;
    PatchScopes(arr0, e, scopes, |arr0|, Word(JU, 0), |arr0| + SizeScopes(e, scopes) + 3, t);
  }

  lemma BlockDone(arr0: seq<byte>, e: Expr, scopes: seq<Scope>, body: Stmt, more: bool, t: Table)
    ensures var start := |arr0| + SizeScopes(e, scopes) + 3;
            var tail := if more then Word(JU, 0) else [];
            var over := start + SizeS(body) + |tail|;
            && |tail| == (if more then 3 else 0)
            && Patch(arr0 + CodeScopes(e, scopes, |arr0|, start, t) + Word(JU, 0) + CodeS(body, start, 0, t) + tail, start - 3, over)
               == arr0 + BlockHead(e, scopes, over, |arr0|, t) + CodeS(body, start, 0, t) + tail
            && arr0 + CodeScopes(e, scopes, |arr0|, start, t) + Word(JU, 0) + CodeS(body, start, 0, t) + []
               == arr0 + CodeScopes(e, scopes, |arr0|, start, t) + Word(JU, 0) + CodeS(body, start, 0, t)
            && Plain(0) == []
  {
    hide CodeScopes, CodeS, SizeScopes, SizeS, Word, Patch;
    WordLength(JU, 0);
    var start := |arr0| + SizeScopes(e, scopes) + 3;
    var tail := if more then Word(JU, 0) else [];
    var over := start + SizeS(body) + |tail|;
    var a, y := CodeScopes(e, scopes, |arr0|, start, t), CodeS(body, start, 0, t);
    Join2(arr0 + a + Word(JU, 0), y, tail);
    PatchMiddle(arr0 + a, JU, 0, y + tail, over);
    RegroupBlock(arr0, a, Word(JU, over), y, tail);
    var before := arr0 + a + Word(JU, 0) + y;
    assert before + [] == before;
  }

  lemma RegroupBlock(pre: seq<byte>, a: seq<byte>, b: seq<byte>, c: seq<byte>, d: seq<byte>)
    ensures pre + a + b + (c + d) == pre + (a + b) + c + d
  {
    assert pre + a + b + (c + d) == pre + (a + b) + c + d;
  }

  /** What is left to translate, seen from before and from behind a block. */
  lemma BlockFront(pre: seq<byte>, e: Expr, cur: Blocks, t1: Table, t: Table, u: Table, start: nat, over: nat)
    requires cur.Block? && Grew(t1, t) && Grew(t, u) && CoversScopes(e, cur.scopes, t) && CoversS(cur.body, t)
    requires start == |pre| + SizeScopes(e, cur.scopes) + 3
    requires over == start + SizeS(cur.body) + (if cur.next.Block? then 3 else 0)
    ensures Grew(t1, u)
    ensures CoversB(e, cur.next, u) ==> CoversB(e, cur, u)
    ensures pre + BlockHead(e, cur.scopes, over, |pre|, t) + CodeS(cur.body, start, 0, t)
            + (if cur.next.Block? then Word(JU, 0) else []) + CodeB(e, cur.next, over, 0, 0, u)
         == pre + CodeB(e, cur, |pre|, 0, 0, u)
  {
    hide Grew, CodeScopes, SizeScopes, CoversScopes, CodeS, SizeS, CoversS, Word, BlockHead, CodeB, SizeB;
    var scopes, body, next := cur.scopes, cur.body, cur.next;
    GrewTrans(t1, t, u);
    HeadStays(e, scopes, over, |pre|, t, u);
    StableS(body, start, 0, t, u);
    BlockShape(e, scopes, body, next, |pre|, 0, 0, u);
    RegroupStep(pre, BlockHead(e, scopes, over, |pre|, t), CodeS(body, start, 0, t),
                if next.Block? then Word(JU, 0) else [], CodeB(e, next, over, 0, 0, u));
  }

  /** A translated block moves the front of what is left to translate. */
  lemma BlockStep(arr1: seq<byte>, lab1: seq<Label>, e: Expr, cur: Blocks, t1: Table, t: Table, arr: seq<byte>, lab: seq<Label>,
                  start: nat, over: nat)
    requires cur.Block? && Grew(t1, t) && CoversScopes(e, cur.scopes, t) && CoversS(cur.body, t)
    requires start == |arr1| + SizeScopes(e, cur.scopes) + 3
    requires over == start + SizeS(cur.body) + (if cur.next.Block? then 3 else 0)
    requires arr == arr1 + BlockHead(e, cur.scopes, over, |arr1|, t) + CodeS(cur.body, start, 0, t)
                    + (if cur.next.Block? then Word(JU, 0) else [])
    requires lab == lab1 + Plain(SizeScopes(e, cur.scopes) + 3) + LabS(cur.body) + Plain(if cur.next.Block? then 3 else 0)
    ensures |arr| == over
    ensures forall u :: Grew(t, u) ==>
              && Grew(t1, u)
              && arr + CodeB(e, cur.next, over, 0, 0, u) == arr1 + CodeB(e, cur, |arr1|, 0, 0, u)
              && (CoversB(e, cur.next, u) ==> CoversB(e, cur, u))
    ensures lab + LabB(e, cur.next) == lab1 + LabB(e, cur)
  {
    hide Grew, CodeScopes, SizeScopes, CoversScopes, CodeS, SizeS, CoversS, LabS, Plain, Word, BlockHead, CodeB, LabB, SizeB, CoversB;
    HeadLength(e, cur, |arr1|, over, t);
    forall u | Grew(t, u)
      ensures Grew(t1, u) && arr + CodeB(e, cur.next, over, 0, 0, u) == arr1 + CodeB(e, cur, |arr1|, 0, 0, u)
      ensures CoversB(e, cur.next, u) ==> CoversB(e, cur, u)
    {
      BlockFront(arr1, e, cur, t1, t, u, start, over);
    }
    LabelStep(lab1, e, cur);
  }

  lemma HeadLength(e: Expr, cur: Blocks, org: nat, over: nat, t: Table)
    requires cur.Block?
    ensures |BlockHead(e, cur.scopes, over, org, t)| == SizeScopes(e, cur.scopes) + 3 && |Word(JU, 0)| == 3
  {
    hide CodeScopes, SizeScopes, SizeS;
  }

  lemma HeadStays(e: Expr, scopes: seq<Scope>, over: nat, org: nat, t: Table, u: Table)
    requires Grew(t, u) && CoversScopes(e, scopes, t)
    ensures CoversScopes(e, scopes, u) && BlockHead(e, scopes, over, org, u) == BlockHead(e, scopes, over, org, t)
  {
    hide Grew, CodeScopes, SizeScopes, CoversScopes;
    StableScopes(e, scopes, org, org + SizeScopes(e, scopes) + 3, t, u);
  }

  lemma RegroupStep(pre: seq<byte>, a: seq<byte>, b: seq<byte>, c: seq<byte>, d: seq<byte>)
    ensures pre + a + b + c + d == pre + (a + (b + c + d))
  {
    assert pre + a + b + c + d == pre + (a + (b + c + d));
  }

  lemma LabelStep(lab1: seq<Label>, e: Expr, cur: Blocks)
    requires cur.Block?
    ensures lab1 + Plain(SizeScopes(e, cur.scopes) + 3) + LabS(cur.body) + Plain(if cur.next.Block? then 3 else 0) + LabB(e, cur.next)
         == lab1 + LabB(e, cur)
  {
    hide Plain, SizeScopes, LabS, SizeS, SizeB;
    var a, b, c, d := Plain(SizeScopes(e, cur.scopes) + 3), LabS(cur.body), Plain(if cur.next.Block? then 3 else 0), LabB(e, cur.next);
    Join3(lab1, a, b, c);
    Join2(lab1, a + b + c, d);
  }

  /** With the code of the blocks that are left, what has been emitted is the code of all blocks,
      for whatever the table grows into. */
  ghost predicate Emitted(e: Expr, blocks: Blocks, arr0: seq<byte>, cur: Blocks, arr: seq<byte>, t: Table) {
    forall u :: Grew(t, u) ==>
      arr + CodeB(e, cur, |arr|, 0, 0, u) == arr0 + CodeB(e, blocks, |arr0|, 0, 0, u)
      && (CoversB(e, cur, u) ==> CoversB(e, blocks, u))
  }

  lemma NothingEmitted(e: Expr, blocks: Blocks, arr0: seq<byte>, t: Table)
    ensures Emitted(e, blocks, arr0, blocks, arr0, t)
  {
    hide Grew, CodeB, CoversB;
  }

  lemma EmittedEnd(e: Expr, blocks: Blocks, arr0: seq<byte>, cur: Blocks, arr: seq<byte>, t: Table)
    requires Emitted(e, blocks, arr0, cur, arr, t) && cur.NoBlocks? && Consistent(t)
    ensures arr == arr0 + CodeB(e, blocks, |arr0|, 0, 0, t) && CoversB(e, blocks, t)
  {
    hide Grew;
    GrewSame(t);
    BlocksEnd(e, cur, |arr|, t);
    assert arr + [] == arr;
  }

  lemma EmittedStep(e: Expr, blocks: Blocks, arr0: seq<byte>, cur: Blocks, arr1: seq<byte>, lab1: seq<Label>, t1: Table,
                    arr: seq<byte>, lab: seq<Label>, t: Table, start: nat, over: nat)
    requires Emitted(e, blocks, arr0, cur, arr1, t1)
    requires cur.Block? && Grew(t1, t) && CoversScopes(e, cur.scopes, t) && CoversS(cur.body, t)
    requires start == |arr1| + SizeScopes(e, cur.scopes) + 3
    requires over == start + SizeS(cur.body) + (if cur.next.Block? then 3 else 0)
    requires arr == arr1 + BlockHead(e, cur.scopes, over, |arr1|, t) + CodeS(cur.body, start, 0, t)
                    + (if cur.next.Block? then Word(JU, 0) else [])
    requires lab == lab1 + Plain(SizeScopes(e, cur.scopes) + 3) + LabS(cur.body) + Plain(if cur.next.Block? then 3 else 0)
    ensures |arr| == over && Emitted(e, blocks, arr0, cur.next, arr, t)
    ensures lab + LabB(e, cur.next) == lab1 + LabB(e, cur)
  {
    hide Grew, CodeScopes, SizeScopes, CoversScopes, CodeS, SizeS, CoversS, LabS, Plain, Word, BlockHead, CodeB, LabB, SizeB, CoversB;
    BlockStep(arr1, lab1, e, cur, t1, t, arr, lab, start, over);
  }

  lemma FinalStep(e: Expr, cur: Blocks, org: nat)
    requires cur.Block?
    ensures var at := org + SizeScopes(e, cur.scopes) + 3 + SizeS(cur.body);
            FinalJumps(e, cur, org)
            == (if cur.next.Block? then [at] else []) + FinalJumps(e, cur.next, at + (if cur.next.Block? then 3 else 0))
  {
    hide SizeScopes, SizeS;
  }

  lemma BlocksEnd(e: Expr, cur: Blocks, org: nat, t: Table)
    requires cur.NoBlocks?
    ensures CodeB(e, cur, org, 0, 0, t) == [] && LabB(e, cur) == [] && FinalJumps(e, cur, org) == [] && CoversB(e, cur, t)
  {
  }

  lemma {:induction false} JumpsReach(e: Expr, blocks: Blocks, org: nat)
    ensures Inside(FinalJumps(e, blocks, org), org + SizeB(e, blocks))
    decreases blocks
  {
    hide SizeScopes, SizeS, Inside;
    match blocks
    case NoBlocks => NoneInside(org);
    case Block(scopes, body, next) =>
      NoneInside(org + SizeB(e, blocks));
      if next.Block? {
        var at := org + SizeScopes(e, scopes) + 3 + SizeS(body);
        JumpsReach(e, next, at + 3);
        ConsInside(at, FinalJumps(e, next, at + 3), at + 3 + SizeB(e, next), org + SizeB(e, blocks));
      }
  }

  lemma NoneInside(end: nat)
    ensures Inside([], end)
  {
  }

  lemma CaseDone(arr0: seq<byte>, e: Expr, blocks: Blocks, t: Table)
    ensures var end := |arr0| + SizeB(e, blocks);
            PatchAll(arr0 + CodeB(e, blocks, |arr0|, 0, 0, t), FinalJumps(e, blocks, |arr0|), end)
            == arr0 + CodeS(Case(e, blocks), |arr0|, 0, t)
    ensures LabS(Case(e, blocks)) == LabB(e, blocks)
    ensures CoversB(e, blocks, t) ==> CoversS(Case(e, blocks), t)
  {
    hide CodeB, LabB, PatchAll, SizeB, CoversB, FinalJumps;
    var end := |arr0| + SizeB(e, blocks);
    PatchFinalJumps(arr0, e, blocks, |arr0|, 0, [], end, t);
    var x0, x1 := arr0 + CodeB(e, blocks, |arr0|, 0, 0, t), arr0 + CodeB(e, blocks, |arr0|, 0, end, t);
    assert x0 + [] == x0 && x1 + [] == x1;
  }

  lemma ResolveStep(arr0: seq<byte>, lab0: seq<Label>, a: nat, i: nat, target: nat)
    requires a <= i < |lab0|
    ensures PatchAll(arr0, Marked(lab0[a..i + 1], a), target)
         == var before := PatchAll(arr0, Marked(lab0[a..i], a), target);
            if lab0[i] == BRK then Patch(before, i, target) else before
  {
    hide Patch;
    MarkedOne(lab0, a, i);
    if lab0[i] == BRK {
      PatchAllAppend(arr0, Marked(lab0[a..i], a), [i], target);
      assert [i][1..] == [];
    } else {
      assert Marked(lab0[a..i], a) + [] == Marked(lab0[a..i], a);
    }
  }

  lemma NothingMarked(arr0: seq<byte>, lab0: seq<Label>, a: nat, target: nat)
    requires a <= |lab0|
    ensures PatchAll(arr0, Marked(lab0[a..a], a), target) == arr0
    ensures lab0[..a] + Plain(0) + lab0[a..] == lab0
  {
  }

  lemma ClearStep(lab0: seq<Label>, a: nat, i: nat)
    requires a <= i < |lab0|
    ensures var l := lab0[..a] + Plain(i - a) + lab0[i..];
            |l| == |lab0| && l[i] == lab0[i] && lab0[..a] + Plain(i + 1 - a) + lab0[i + 1..] == l[i := NIL]
            && (lab0[i] == NIL ==> l[i := NIL] == l)
  {
    assert Plain(i + 1 - a) == Plain(i - a) + [NIL];
  }

  lemma MarkedOne(l: seq<Label>, a: nat, i: nat)
    requires a <= i < |l|
    ensures Marked(l[a..i + 1], a) == Marked(l[a..i], a) + (if l[i] == BRK then [i] else [])
  {
    assert l[a..i + 1] == l[a..i] + [l[i]];
    MarkedAppend(l[a..i], [l[i]], a);
    assert [l[i]][1..] == [];
  }
}
