/** The expression parser (compiler/parser.cpp): a chain of nine precedence levels, each
    with an accumulating continuation. */
module ExprParser {
  import opened Basics
  import opened Operators

  /** Tokens of expressions; a minus sign is one token, whatever it means. */
  datatype Token = NumbT(value: nat) | Ident(name: string) | OpT(op: Operator) | LogNotT | LPar | RPar | Other

  datatype Tree =
    | Numb(value: nat)
    | Name(name: string)
    | Bop(op: Operator, left: Tree, right: Tree)
    | UnMinus(e: Tree)
    | Not(e: Tree)

  /** The level that reads an operator, from the loosest to the tightest. */
  function LevelOf(op: Operator): (n: nat)
    ensures n <= 8
  {
    match op
    case LogOr => 0
    case Xor => 1
    case LogAnd => 2
    case BitOr => 3
    case BitAnd => 4
    case Eq => 5 case NotEq => 5 case Less => 5 case Greater => 5 case LessOrEq => 5 case GreaterOrEq => 5
    case Lsh => 6 case Rsh => 6
    case Plus => 7 case Minus => 7
    case Times => 8 case Divide => 8 case Modulo => 8
  }

  /** A division or remainder is not continued at its own level: the parser goes back to
      the loosest one. */
  predicate Restarts(op: Operator) { op.Divide? || op.Modulo? }

  datatype Parsed = Fail | Ok(tree: Tree, rest: seq<Token>)

  /** The head is an operator of the level. */
  predicate Reads(n: nat, ts: seq<Token>) { ts != [] && ts[0].OpT? && LevelOf(ts[0].op) == n }

  // ----- what the levels read -------------------------------------------------------

  function Level(n: nat, ts: seq<Token>): (r: Parsed)
    requires n <= 9
    ensures r.Ok? ==> |r.rest| < |ts|
    decreases |ts|, 9 - n, 1
  {
    if n == 9 then Faktor(ts)
    else
      var a := Level(n + 1, ts);
      if a.Fail? then Fail else Continued(n, a.tree, a.rest)
  }

  /** The operators of one level, from left to right, behind an operand. */
  function Continued(n: nat, du: Tree, ts: seq<Token>): (r: Parsed)
    requires n <= 8
    ensures r.Ok? ==> |r.rest| <= |ts|
    decreases |ts|, 0, 0
  {
    if !Reads(n, ts) then Ok(du, ts)
    else
      var b := Level(n + 1, ts[1..]);
      if b.Fail? then Fail
      else Continued(if Restarts(ts[0].op) then 0 else n, Bop(ts[0].op, du, b.tree), b.rest)
  }

  function Faktor(ts: seq<Token>): (r: Parsed)
    ensures r.Ok? ==> |r.rest| < |ts|
    decreases |ts|, 0, 0
  {
    if ts == [] then Fail
    else if ts[0] == OpT(Minus) then
      var a := Faktor(ts[1..]); if a.Fail? then Fail else Ok(UnMinus(a.tree), a.rest)
    else if ts[0].LogNotT? then
      var a := Faktor(ts[1..]); if a.Fail? then Fail else Ok(Not(a.tree), a.rest)
    else if ts[0].NumbT? then Ok(Numb(ts[0].value), ts[1..])
    else if ts[0].Ident? then Ok(Name(ts[0].name), ts[1..])
    else if ts[0].LPar? then
      var a := Level(0, ts[1..]);
      if a.Fail? || a.rest == [] || !a.rest[0].RPar? then Fail else Ok(a.tree, a.rest[1..])
    else Fail
  }

  // ----- the parser -----------------------------------------------------------------

  /** The token stream and the recursive procedures over it.  Each answers whether it found
      its piece; a failure ends the compiler. */
  class Parser {
    var todo: seq<Token>

    constructor (ts: seq<Token>)
      ensures todo == ts
    {
      todo := ts;
    }

    ghost predicate Did(r: Parsed, ok: bool, e: Tree)
      reads this
    {
      if r.Fail? then !ok else ok && e == r.tree && todo == r.rest
    }

    method Next()
      requires todo != []
      modifies this
      ensures todo == old(todo)[1..]
    {
      todo := todo[1..];
    }

    method Vyraz() returns (ok: bool, e: Tree)
      modifies this
      ensures Did(Level(0, old(todo)), ok, e)
      decreases |todo|, 9, 1
    {
      ok, e := LOrTerm();
      if ok { ok, e := ZbVyrazu(e); }
    }

    method ZbVyrazu(du: Tree) returns (ok: bool, e: Tree)
      modifies this
      ensures Did(Continued(0, du, old(todo)), ok, e)
      decreases |todo|, 0, 0
    {
      ok, e := true, du;
      if todo != [] && todo[0] == OpT(LogOr) {
        Next();
        var r;
        ok, r := LOrTerm();
        if ok { ok, e := ZbVyrazu(Bop(LogOr, du, r)); }
      }
    }

    method LOrTerm() returns (ok: bool, e: Tree)
      modifies this
      ensures Did(Level(1, old(todo)), ok, e)
      decreases |todo|, 8, 1
    {
      ok, e := XorTerm();
      if ok { ok, e := ZbLOrTermu(e); }
    }

    method ZbLOrTermu(du: Tree) returns (ok: bool, e: Tree)
      modifies this
      ensures Did(Continued(1, du, old(todo)), ok, e)
      decreases |todo|, 0, 0
    {
      ok, e := true, du;
      if todo != [] && todo[0] == OpT(Xor) {
        Next();
        var r;
        ok, r := XorTerm();
        if ok { ok, e := ZbLOrTermu(Bop(Xor, du, r)); }
      }
    }

    method XorTerm() returns (ok: bool, e: Tree)
      modifies this
      ensures Did(Level(2, old(todo)), ok, e)
      decreases |todo|, 7, 1
    {
      ok, e := LAndTerm();
      if ok { ok, e := ZbXorTermu(e); }
    }

    method ZbXorTermu(du: Tree) returns (ok: bool, e: Tree)
      modifies this
      ensures Did(Continued(2, du, old(todo)), ok, e)
      decreases |todo|, 0, 0
    {
      ok, e := true, du;
      if todo != [] && todo[0] == OpT(LogAnd) {
        Next();
        var r;
        ok, r := LAndTerm();
        if ok { ok, e := ZbXorTermu(Bop(LogAnd, du, r)); }
      }
    }

    method LAndTerm() returns (ok: bool, e: Tree)
      modifies this
      ensures Did(Level(3, old(todo)), ok, e)
      decreases |todo|, 6, 1
    {
      ok, e := BOrTerm();
      if ok { ok, e := ZbLAndTermu(e); }
    }

    method ZbLAndTermu(du: Tree) returns (ok: bool, e: Tree)
      modifies this
      ensures Did(Continued(3, du, old(todo)), ok, e)
      decreases |todo|, 0, 0
    {
      ok, e := true, du;
      if todo != [] && todo[0] == OpT(BitOr) {
        Next();
        var r;
        ok, r := BOrTerm();
        if ok { ok, e := ZbLAndTermu(Bop(BitOr, du, r)); }
      }
    }

    method BOrTerm() returns (ok: bool, e: Tree)
      modifies this
      ensures Did(Level(4, old(todo)), ok, e)
      decreases |todo|, 5, 1
    {
      ok, e := BAndTerm();
      if ok { ok, e := ZbBOrTermu(e); }
    }

    method ZbBOrTermu(du: Tree) returns (ok: bool, e: Tree)
      modifies this
      ensures Did(Continued(4, du, old(todo)), ok, e)
      decreases |todo|, 0, 0
    {
      ok, e := true, du;
      if todo != [] && todo[0] == OpT(BitAnd) {
        Next();
        var r;
        ok, r := BAndTerm();
        if ok { ok, e := ZbBOrTermu(Bop(BitAnd, du, r)); }
      }
    }

    method BAndTerm() returns (ok: bool, e: Tree)
      modifies this
      ensures Did(Level(5, old(todo)), ok, e)
      decreases |todo|, 4, 1
    {
      ok, e := RelOpTerm();
      if ok { ok, e := ZbBAndTermu(e); }
    }

    /** Reads a comparison if there is one. */
    method RelOp() returns (op: Option<Operator>)
      modifies this
      ensures if Reads(5, old(todo)) then op == Some(old(todo)[0].op) && todo == old(todo)[1..]
              else op == None && todo == old(todo)
    {
      op := None;
      if todo != [] && todo[0].OpT? {
        var o := todo[0].op;
        if o == Eq || o == NotEq || o == Less || o == Greater || o == LessOrEq || o == GreaterOrEq {
          op := Some(o);
          Next();
        }
      }
    }

    method ZbBAndTermu(du: Tree) returns (ok: bool, e: Tree)
      modifies this
      ensures Did(Continued(5, du, old(todo)), ok, e)
      decreases |todo|, 0, 0
    {
      ok, e := true, du;
      var op := RelOp();
      if op.Some? {
        var r;
        ok, r := RelOpTerm();
        if ok { ok, e := ZbBAndTermu(Bop(op.value, du, r)); }
      }
    }

    method RelOpTerm() returns (ok: bool, e: Tree)
      modifies this
      ensures Did(Level(6, old(todo)), ok, e)
      decreases |todo|, 3, 1
    {
      ok, e := ShiftTerm();
      if ok { ok, e := ZbRelOpTermu(e); }
    }

    method ZbRelOpTermu(du: Tree) returns (ok: bool, e: Tree)
      modifies this
      ensures Did(Continued(6, du, old(todo)), ok, e)
      decreases |todo|, 0, 0
    {
      ok, e := true, du;
      if todo != [] && (todo[0] == OpT(Lsh) || todo[0] == OpT(Rsh)) {
        var op := todo[0].op;
        Next();
        var r;
        ok, r := ShiftTerm();
        if ok { ok, e := ZbRelOpTermu(Bop(op, du, r)); }
      }
    }

    method ShiftTerm() returns (ok: bool, e: Tree)
      modifies this
      ensures Did(Level(7, old(todo)), ok, e)
      decreases |todo|, 2, 1
    {
      ok, e := Term();
      if ok { ok, e := ZbShiftTermu(e); }
    }

    method ZbShiftTermu(du: Tree) returns (ok: bool, e: Tree)
      modifies this
      ensures Did(Continued(7, du, old(todo)), ok, e)
      decreases |todo|, 0, 0
    {
      ok, e := true, du;
      if todo != [] && (todo[0] == OpT(Plus) || todo[0] == OpT(Minus)) {
        var op := todo[0].op;
        Next();
        var r;
        ok, r := Term();
        if ok { ok, e := ZbShiftTermu(Bop(op, du, r)); }
      }
    }

    method Term() returns (ok: bool, e: Tree)
      modifies this
      ensures Did(Level(8, old(todo)), ok, e)
      decreases |todo|, 1, 1
    {
      assert Level(9, todo) == Faktor(todo);
      ok, e := ReadFaktor();
      if ok { ok, e := ZbTermu(e); }
    }

    method ZbTermu(du: Tree) returns (ok: bool, e: Tree)
      modifies this
      ensures Did(Continued(8, du, old(todo)), ok, e)
      decreases |todo|, 0, 0
    {
      ok, e := true, du;
      if todo != [] && todo[0] == OpT(Times) {
        Next();
        assert Level(9, todo) == Faktor(todo);
        var r;
        ok, r := ReadFaktor();
        if ok { ok, e := ZbTermu(Bop(Times, du, r)); }
      } else if todo != [] && (todo[0] == OpT(Divide) || todo[0] == OpT(Modulo)) {
        var op := todo[0].op;
        Next();
        assert Level(9, todo) == Faktor(todo);
        var r;
        ok, r := ReadFaktor();
        if ok { ok, e := ZbVyrazu(Bop(op, du, r)); }
      }
    }

    method ReadFaktor() returns (ok: bool, e: Tree)
      modifies this
      ensures Did(Faktor(old(todo)), ok, e)
      decreases |todo|, 0, 0
    {
      ok, e := false, Numb(0);
      if todo == [] { return; }
      var t := todo[0];
      if t == OpT(Minus) {
        Next();
        ok, e := ReadFaktor();
        e := UnMinus(e);
      } else if t.LogNotT? {
        Next();
        ok, e := ReadFaktor();
        e := Not(e);
      } else if t.NumbT? {
        Next();
        ok, e := true, Numb(t.value);
      } else if t.Ident? {
        Next();
        ok, e := true, Name(t.name);
      } else if t.LPar? {
        Next();
        ok, e := Vyraz();
        if ok {
          if todo == [] || !todo[0].RPar? { return false, e; }
          Next();
        }
      }
    }
  }

  // ----- printing -------------------------------------------------------------------

  /** An expression in a place that takes level `n` or tighter, with parentheses where the
      level asks for them, and always around a division or remainder. */
  function Print(e: Tree, n: nat): seq<Token>
    requires n <= 9
    decreases e, 1
  {
    match e
    case Bop(op, _, _) =>
      if LevelOf(op) < n || Restarts(op) then [LPar] + Body(e) + [RPar] else Body(e)
    case Numb(v) => [NumbT(v)]
    case Name(s) => [Ident(s)]
    case UnMinus(x) => [OpT(Minus)] + Print(x, 9)
    case Not(x) => [LogNotT] + Print(x, 9)
  }

  /** A binary expression without outer parentheses. */
  function Body(e: Tree): seq<Token>
    requires e.Bop?
    decreases e, 0
  {
    Print(e.left, LevelOf(e.op)) + [OpT(e.op)] + Print(e.right, LevelOf(e.op) + 1)
  }

  /** No operator tighter than the level follows. */
  predicate Stops(n: nat, ts: seq<Token>) {
    ts != [] && ts[0].OpT? ==> LevelOf(ts[0].op) <= n
  }

  /** What a level makes of a complete operand. */
  function Joined(n: nat, e: Tree, ts: seq<Token>): Parsed
    requires n <= 9
  {
    if n == 9 then Ok(e, ts) else Continued(n, e, ts)
  }

  lemma JoinedStops(n: nat, e: Tree, ts: seq<Token>)
    requires n <= 9 && !Reads(n, ts)
    ensures Joined(n, e, ts) == Ok(e, ts)
  {
  }

  /** From a tighter level, where the operand ends, down to a looser one. */
  lemma {:induction false} ClimbDown(n: nat, k: nat, ts: seq<Token>, e: Tree, rest: seq<Token>)
    requires n <= k <= 9 && Level(k, ts) == Joined(k, e, rest) && Stops(n, rest)
    ensures Level(n, ts) == Joined(n, e, rest)
    decreases k - n
  {
    if n < k {
      JoinedStops(k, e, rest);
      assert Level(k, ts) == Ok(e, rest);
      StepDown(k, ts, e, rest);
      StopsWider(n, k - 1, rest);
      ClimbDown(n, k - 1, ts, e, rest);
    }
  }

  lemma StepDown(k: nat, ts: seq<Token>, e: Tree, rest: seq<Token>)
    requires 0 < k <= 9 && Level(k, ts) == Ok(e, rest)
    ensures Level(k - 1, ts) == Joined(k - 1, e, rest)
  {
  }

  lemma StopsWider(n: nat, k: nat, ts: seq<Token>)
    requires n <= k && Stops(n, ts)
    ensures Stops(k, ts)
  {
  }

  /** Reading back a printed expression at its level. */
  lemma {:induction false} PrintParses(e: Tree, n: nat, rest: seq<Token>)
    requires n <= 9 && Stops(n, rest)
    ensures Level(n, Print(e, n) + rest) == Joined(n, e, rest)
    decreases e, 2
  {
    hide Level, Joined, Faktor, Continued;
    var ts := Print(e, n) + rest;
    match e
    case Numb(v) => Atom(e, ts, rest); ClimbDown(n, 9, ts, e, rest);
    case Name(s) => Atom(e, ts, rest); ClimbDown(n, 9, ts, e, rest);
    case UnMinus(x) =>
      assert ts == [OpT(Minus)] + (Print(x, 9) + rest);
      StopsWider(n, 9, rest);
      PrintParses(x, 9, rest);
      Prefixed(x, Print(x, 9) + rest, rest);
      ClimbDown(n, 9, ts, e, rest);
    case Not(x) =>
      assert ts == [LogNotT] + (Print(x, 9) + rest);
      StopsWider(n, 9, rest);
      PrintParses(x, 9, rest);
      Prefixed(x, Print(x, 9) + rest, rest);
      ClimbDown(n, 9, ts, e, rest);
    case Bop(op, _, _) =>
      var k := LevelOf(op);
      if k < n || Restarts(op) {
        BodyParses(e, [RPar] + rest);
        Enclosed(e, Body(e), rest);
        assert ts == [LPar] + (Body(e) + ([RPar] + rest));
        ClimbDown(n, 9, ts, e, rest);
      } else {
        StopsWider(n, k, rest);
        BodyParses(e, rest);
        ClimbDown(n, k, ts, e, rest);
      }
  }

  lemma Atom(e: Tree, ts: seq<Token>, rest: seq<Token>)
    requires (e.Numb? && ts == [NumbT(e.value)] + rest) || (e.Name? && ts == [Ident(e.name)] + rest)
    ensures Level(9, ts) == Joined(9, e, rest)
  {
    assert ts[1..] == rest;
  }

  lemma Prefixed(x: Tree, ts: seq<Token>, rest: seq<Token>)
    requires Level(9, ts) == Joined(9, x, rest)
    ensures Level(9, [OpT(Minus)] + ts) == Joined(9, UnMinus(x), rest)
    ensures Level(9, [LogNotT] + ts) == Joined(9, Not(x), rest)
  {
    assert ([OpT(Minus)] + ts)[1..] == ts && ([LogNotT] + ts)[1..] == ts;
  }

  /** Parentheses: the loosest level reads the body and stops at the closing one. */
  lemma Enclosed(e: Tree, body: seq<Token>, rest: seq<Token>)
    requires e.Bop? && Level(LevelOf(e.op), body + ([RPar] + rest)) == Settled(e, [RPar] + rest)
    ensures Level(9, [LPar] + (body + ([RPar] + rest))) == Joined(9, e, rest)
  {
    hide Level, Faktor;
    var k, tail, inner := LevelOf(e.op), [RPar] + rest, body + ([RPar] + rest);
    assert Settled(e, tail) == Ok(e, tail);
    ClimbDown(0, k, inner, e, tail);
    OpenPar(inner, e, rest);
  }

  lemma OpenPar(inner: seq<Token>, e: Tree, rest: seq<Token>)
    requires Level(0, inner) == Ok(e, [RPar] + rest)
    ensures Level(9, [LPar] + inner) == Ok(e, rest)
  {
    assert ([LPar] + inner)[1..] == inner && ([RPar] + rest)[1..] == rest;
  }

  /** What a level makes of a binary expression of that level: behind a division or
      remainder the loosest level goes on. */
  function Settled(e: Tree, ts: seq<Token>): Parsed
    requires e.Bop?
  {
    Continued(if Restarts(e.op) then 0 else LevelOf(e.op), e, ts)
  }

  lemma {:induction false} BodyParses(e: Tree, rest: seq<Token>)
    requires e.Bop? && Stops(LevelOf(e.op), rest)
    ensures Level(LevelOf(e.op), Body(e) + rest) == Settled(e, rest)
    ensures !Restarts(e.op) ==> Settled(e, rest) == Joined(LevelOf(e.op), e, rest)
    decreases e, 1
  {
    hide Level, Faktor, Continued;
    var k, right := LevelOf(e.op), Print(e.right, LevelOf(e.op) + 1) + rest;
    assert Body(e) + rest == Print(e.left, k) + ([OpT(e.op)] + right);
    PrintParses(e.left, k, [OpT(e.op)] + right);
    StopsWider(k, k + 1, rest);
    PrintParses(e.right, k + 1, rest);
    JoinedStops(k + 1, e.right, rest);
    OneOperator(e, right, rest);
  }

  lemma OneOperator(e: Tree, right: seq<Token>, rest: seq<Token>)
    requires e.Bop? && Level(LevelOf(e.op) + 1, right) == Ok(e.right, rest)
    ensures Joined(LevelOf(e.op), e.left, [OpT(e.op)] + right) == Settled(e, rest)
  {
    assert ([OpT(e.op)] + right)[1..] == right;
  }

  /** Printing any expression and parsing it gives the same tree, consuming exactly its
      tokens. */
  lemma RoundTrip(e: Tree, rest: seq<Token>)
    requires rest == [] || !rest[0].OpT?
    ensures Level(0, Print(e, 0) + rest) == Ok(e, rest)
  {
    PrintParses(e, 0, rest);
    JoinedStops(0, e, rest);
  }

  method ParsePrinted(e: Tree) returns (ok: bool, r: Tree)
    ensures ok && r == e
  {
    var p := new Parser(Print(e, 0));
    ok, r := p.Vyraz();
    RoundTrip(e, []);
    assert Print(e, 0) + [] == Print(e, 0);
  }

  // ----- why divisions need their parentheses ---------------------------------------

  /** Behind a division the parser does not go on with a product: the product is left over. */
  lemma ProductAfterDivisionIsLeft(a: nat, b: nat, c: nat)
    ensures Level(0, [NumbT(a), OpT(Divide), NumbT(b), OpT(Times), NumbT(c)])
         == Ok(Bop(Divide, Numb(a), Numb(b)), [OpT(Times), NumbT(c)])
  {
    var t4 := [OpT(Times), NumbT(c)];
    var t3 := [NumbT(b)] + t4;
    var t1 := [OpT(Divide)] + t3;
    var ts := [NumbT(a)] + t1;
    assert ts == [NumbT(a), OpT(Divide), NumbT(b), OpT(Times), NumbT(c)];
    Atom(Numb(a), ts, t1);
    Atom(Numb(b), t3, t4);
    var d := Bop(Divide, Numb(a), Numb(b));
    OneOperator(d, t3, t4);
    StepDown(9, ts, Numb(a), t1);
    assert Level(8, ts) == Settled(d, t4) == Ok(d, t4);
    LooserStop(8, ts, d, t4);
  }

  /** Levels below one that stopped at an operator none of them reads. */
  lemma {:induction false} LooserStop(k: nat, ts: seq<Token>, e: Tree, rest: seq<Token>)
    requires k <= 8 && Level(k, ts) == Ok(e, rest) && (forall j: nat :: j < k ==> !Reads(j, rest))
    ensures Level(0, ts) == Ok(e, rest)
    decreases k
  {
    if k > 0 {
      StepDown(k, ts, e, rest);
      JoinedStops(k - 1, e, rest);
      LooserStop(k - 1, ts, e, rest);
    }
  }

  /** A division and the disjunction behind it, read by the level of the division. */
  lemma DivisionTakesDisjunction(b: Tree, c: Tree, d: Tree, t2: seq<Token>, t4: seq<Token>, t6: seq<Token>)
    requires Level(9, t2) == Ok(b, [OpT(Divide)] + t4) && Level(9, t4) == Ok(c, [OpT(LogOr)] + t6) && Level(9, t6) == Ok(d, [])
    ensures Level(8, t2) == Ok(Bop(LogOr, Bop(Divide, b, c), d), [])
  {
    hide Level, Continued;
    var q := Bop(Divide, b, c);
    var o := Bop(LogOr, q, d);
    ClimbDown(1, 9, t6, d, []);
    JoinedStops(1, d, []);
    OneOperator(o, t6, []);
    OneOperator(q, t4, [OpT(LogOr)] + t6);
    StepDown(9, t2, b, [OpT(Divide)] + t4);
    JoinedStops(0, o, []);
  }

  /** Behind a division a disjunction is pulled into the operand of the operator before:
      a + b / c || d is read as a + (b / c || d). */
  lemma DisjunctionAfterDivisionIsStolen(a: nat, b: nat, c: nat, d: nat)
    ensures Level(0, [NumbT(a), OpT(Plus), NumbT(b), OpT(Divide), NumbT(c), OpT(LogOr), NumbT(d)])
         == Ok(Bop(Plus, Numb(a), Bop(LogOr, Bop(Divide, Numb(b), Numb(c)), Numb(d))), [])
  {
    hide Level, Continued;
    var t7: seq<Token> := [];
    var t6 := [NumbT(d)] + t7;
    var t5 := [OpT(LogOr)] + t6;
    var t4 := [NumbT(c)] + t5;
    var t3 := [OpT(Divide)] + t4;
    var t2 := [NumbT(b)] + t3;
    var t1 := [OpT(Plus)] + t2;
    var ts := [NumbT(a)] + t1;
    assert ts == [NumbT(a), OpT(Plus), NumbT(b), OpT(Divide), NumbT(c), OpT(LogOr), NumbT(d)];
    var o := Bop(LogOr, Bop(Divide, Numb(b), Numb(c)), Numb(d));
    var p := Bop(Plus, Numb(a), o);
    Atom(Numb(a), ts, t1);
    Atom(Numb(b), t2, t3);
    Atom(Numb(c), t4, t5);
    Atom(Numb(d), t6, t7);
    DivisionTakesDisjunction(Numb(b), Numb(c), Numb(d), t2, t4, t6);
    ClimbDown(7, 9, ts, Numb(a), t1);
    OneOperator(p, t2, t7);
    JoinedStops(7, p, t7);
    LooserStop(7, ts, p, t7);
  }
}
