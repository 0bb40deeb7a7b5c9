/** Printing with parentheses where the precedence levels ask for them and nowhere else, as a
    reader of the language would write: exactly which expressions the parser then gives back
    (compiler/parser.cpp). */
module PlainPrinting {
  import opened Operators
  import opened ExprParser

  function PlainPrint(e: Tree, n: nat): seq<Token>
    requires n <= 9
    decreases e, 1
  {
    match e
    case Bop(op, _, _) => if LevelOf(op) < n then [LPar] + PlainBody(e) + [RPar] else PlainBody(e)
    case Numb(v) => [NumbT(v)]
    case Name(s) => [Ident(s)]
    case UnMinus(x) => [OpT(Minus)] + PlainPrint(x, 9)
    case Not(x) => [LogNotT] + PlainPrint(x, 9)
  }

  function PlainBody(e: Tree): seq<Token>
    requires e.Bop?
    decreases e, 0
  {
    PlainPrint(e.left, LevelOf(e.op)) + [OpT(e.op)] + PlainPrint(e.right, LevelOf(e.op) + 1)
  }

  predicate Quotient(e: Tree) { e.Bop? && Restarts(e.op) }

  /** Printed for level `n`, the expression ends with a division or remainder that is in no
      parentheses. */
  predicate Ends(e: Tree, n: nat) {
    e.Bop? && n <= LevelOf(e.op) && (Restarts(e.op) || Ends(e.right, LevelOf(e.op) + 1))
  }

  /** No division or remainder is the left operand of a multiplicative operator, and none
      ends the left operand of an or without being that operand. */
  predicate Mild(e: Tree) {
    match e
    case Bop(op, l, r) => Mild(l) && Mild(r) && MildHere(op, l)
    case UnMinus(x) => Mild(x)
    case Not(x) => Mild(x)
    case _ => true
  }

  predicate MildHere(op: Operator, l: Tree) {
    (LevelOf(op) == 8 ==> !Quotient(l)) && (op.LogOr? && Ends(l, 0) ==> Quotient(l))
  }

  // ----- what comes back ------------------------------------------------------------

  predicate IsOp(ts: seq<Token>) { ts != [] && ts[0].OpT? }

  /** What may follow: behind an open division neither an or nor another factor. */
  predicate Safe(e: Tree, n: nat, rest: seq<Token>) {
    Stops(n, rest) && (Ends(e, n) && IsOp(rest) ==> LevelOf(rest[0].op) != 0 && LevelOf(rest[0].op) != 8)
  }

  /** No operator of the levels from `n` to 7 follows. */
  predicate Past(n: nat, ts: seq<Token>) { IsOp(ts) ==> LevelOf(ts[0].op) < n || LevelOf(ts[0].op) == 8 }

  /** What a level leaves over. */
  lemma {:induction false} LevelPast(n: nat, ts: seq<Token>)
    requires n <= 8 && Level(n, ts).Ok?
    ensures Past(n, Level(n, ts).rest)
    decreases |ts|, 9 - n, 1
  {
    if n == 8 {
    } else {
      LevelPast(n + 1, ts);
      var a := Level(n + 1, ts);
      ContinuedPast(n, a.tree, a.rest);
    }
  }

  lemma {:induction false} ContinuedPast(n: nat, du: Tree, ts: seq<Token>)
    requires n <= 7 && Past(n + 1, ts) && Continued(n, du, ts).Ok?
    ensures Past(n, Continued(n, du, ts).rest)
    decreases |ts|, 0, 0
  {
    if Reads(n, ts) {
      LevelPast(n + 1, ts[1..]);
      var b := Level(n + 1, ts[1..]);
      ContinuedPast(n, Bop(ts[0].op, du, b.tree), b.rest);
    }
  }

  /** A tighter level that has left only what no level reads is all of a looser one. */
  lemma {:induction false} FallThrough(n: nat, k: nat, ts: seq<Token>)
    requires n <= k <= 8 && Level(k, ts).Ok? && Past(n, Level(k, ts).rest)
    requires IsOp(Level(k, ts).rest) ==> LevelOf(Level(k, ts).rest[0].op) == 8
    ensures Level(n, ts) == Level(k, ts)
    decreases k - n
  {
    if n < k {
      StepDown(k, ts, Level(k, ts).tree, Level(k, ts).rest);
      JoinedStops(k - 1, Level(k, ts).tree, Level(k, ts).rest);
      FallThrough(n, k - 1, ts);
    }
  }

  lemma AtFactor(e: Tree)
    ensures !Ends(e, 9)
  {
  }

  lemma EndsAtFactor(e: Tree)
    ensures !Ends(e, 9) && (Ends(e, 8) ==> Quotient(e))
  {
    if e.Bop? { AtFactor(e.right); }
  }

  /** Reading back a mild expression, printed plainly, at its level. */
  lemma {:induction false} MildParses(e: Tree, n: nat, rest: seq<Token>)
    requires n <= 9 && Mild(e) && Safe(e, n, rest)
    ensures Level(n, PlainPrint(e, n) + rest) == Joined(n, e, rest)
    decreases e, 2
  {
    hide Level, Joined, Faktor, Continued;
    var ts := PlainPrint(e, n) + rest;
    match e
    case Numb(v) => Atom(e, ts, rest); ClimbDown(n, 9, ts, e, rest);
    case Name(s) => Atom(e, ts, rest); ClimbDown(n, 9, ts, e, rest);
    case UnMinus(x) =>
      assert ts == [OpT(Minus)] + (PlainPrint(x, 9) + rest);
      EndsAtFactor(x);
      MildParses(x, 9, rest);
      Prefixed(x, PlainPrint(x, 9) + rest, rest);
      ClimbDown(n, 9, ts, e, rest);
    case Not(x) =>
      assert ts == [LogNotT] + (PlainPrint(x, 9) + rest);
      EndsAtFactor(x);
      MildParses(x, 9, rest);
      Prefixed(x, PlainPrint(x, 9) + rest, rest);
      ClimbDown(n, 9, ts, e, rest);
    case Bop(op, _, _) =>
      var k := LevelOf(op);
      if k < n {
        MildBody(e, [RPar] + rest);
        JoinedStops(k, e, [RPar] + rest);
        ClimbDown(0, k, PlainBody(e) + ([RPar] + rest), e, [RPar] + rest);
        JoinedStops(0, e, [RPar] + rest);
        OpenPar(PlainBody(e) + ([RPar] + rest), e, rest);
        assert ts == [LPar] + (PlainBody(e) + ([RPar] + rest));
        JoinedStops(9, e, rest);
        ClimbDown(n, 9, ts, e, rest);
      } else {
        MildBody(e, rest);
        ClimbDown(n, k, ts, e, rest);
      }
  }

  lemma {:induction false} MildBody(e: Tree, rest: seq<Token>)
    requires e.Bop? && Mild(e) && Safe(e, LevelOf(e.op), rest)
    ensures Level(LevelOf(e.op), PlainBody(e) + rest) == Joined(LevelOf(e.op), e, rest)
    decreases e, 1
  {
    hide Level, Faktor, Continued, Mild;
    var k := LevelOf(e.op);
    var right := PlainPrint(e.right, k + 1) + rest;
    MildParts(e);
    RightSafe(e, rest);
    MildParses(e.right, k + 1, rest);
    JoinedStops(k + 1, e.right, rest);
    assert PlainBody(e) + rest == PlainPrint(e.left, k) + ([OpT(e.op)] + right);
    if e.op.LogOr? && Quotient(e.left) {
      OrBehindQuotient(e, right, rest);
    } else {
      LeftSafe(e, right);
      MildParses(e.left, k, [OpT(e.op)] + right);
      OneOperator(e, right, rest);
      SettledSafe(e, rest);
    }
  }

  lemma MildParts(e: Tree)
    requires e.Bop? && Mild(e)
    ensures Mild(e.left) && Mild(e.right) && MildHere(e.op, e.left)
  {
  }

  lemma RightSafe(e: Tree, rest: seq<Token>)
    requires e.Bop? && Safe(e, LevelOf(e.op), rest)
    ensures Safe(e.right, LevelOf(e.op) + 1, rest) && !Reads(LevelOf(e.op) + 1, rest)
  {
  }

  lemma LeftSafe(e: Tree, right: seq<Token>)
    requires e.Bop? && MildHere(e.op, e.left) && !(e.op.LogOr? && Quotient(e.left))
    ensures Safe(e.left, LevelOf(e.op), [OpT(e.op)] + right)
  {
    EndsAtFactor(e.left);
  }

  lemma SettledSafe(e: Tree, rest: seq<Token>)
    requires e.Bop? && Safe(e, LevelOf(e.op), rest)
    ensures Settled(e, rest) == Joined(LevelOf(e.op), e, rest)
  {
    if Restarts(e.op) {
      JoinedStops(0, e, rest);
      JoinedStops(8, e, rest);
    }
  }

  /** What the level of the division makes of it in front of more tokens. */
  lemma {:induction false} QuotientSettles(e: Tree, ts: seq<Token>)
    requires Quotient(e) && Mild(e)
    ensures Level(8, PlainPrint(e, 8) + ts) == Continued(0, e, ts)
    decreases e, 1
  {
    hide Level, Faktor, Continued, Mild;
    var right := PlainPrint(e.right, 9) + ts;
    MildParts(e);
    EndsAtFactor(e.right);
    EndsAtFactor(e.left);
    MildParses(e.right, 9, ts);
    JoinedStops(9, e.right, ts);
    MildParses(e.left, 8, [OpT(e.op)] + right);
    assert PlainPrint(e, 8) + ts == PlainPrint(e.left, 8) + ([OpT(e.op)] + right);
    OneOperator(e, right, ts);
  }

  lemma {:induction false} QuotientPlain(e: Tree, n: nat)
    requires Quotient(e) && n <= 8
    ensures PlainPrint(e, n) == PlainPrint(e, 8)
  {
  }

  /** An or whose left operand is a division is read by the level of the division. */
  lemma {:induction false} OrBehindQuotient(e: Tree, right: seq<Token>, rest: seq<Token>)
    requires e.Bop? && e.op.LogOr? && Quotient(e.left) && Mild(e.left) && Stops(0, rest)
    requires Level(1, right) == Ok(e.right, rest)
    ensures Level(0, PlainPrint(e.left, 0) + ([OpT(e.op)] + right)) == Joined(0, e, rest)
    decreases e, 0
  {
    hide Level, Faktor, Continued, Mild;
    var ts := PlainPrint(e.left, 0) + ([OpT(e.op)] + right);
    QuotientPlain(e.left, 0);
    QuotientSettles(e.left, [OpT(e.op)] + right);
    OneOperator(e, right, rest);
    assert Level(8, ts) == Joined(0, e, rest);
    OrFalls(e, rest, ts);
  }

  lemma OrFalls(e: Tree, rest: seq<Token>, ts: seq<Token>)
    requires Level(8, ts) == Continued(0, e, rest) && Stops(0, rest)
    ensures Level(0, ts) == Continued(0, e, rest)
  {
    hide Level, Faktor;
    if Level(8, ts).Ok? {
      ContinuedPast(0, e, rest);
      FallThrough(0, 8, ts);
    } else {
      FailsThrough(0, 8, ts);
    }
  }

  lemma {:induction false} FailsThrough(n: nat, k: nat, ts: seq<Token>)
    requires n <= k <= 9 && Level(k, ts).Fail?
    ensures Level(n, ts).Fail?
    decreases k - n
  {
    if n < k { FailsThrough(n, k - 1, ts); }
  }

  // ----- what does not come back ----------------------------------------------------

  function Size(e: Tree): nat {
    match e
    case Bop(_, l, r) => Size(l) + 1 + Size(r)
    case UnMinus(x) => 1 + Size(x)
    case Not(x) => 1 + Size(x)
    case _ => 1
  }

  /** How large the left operand is of the node at a place, counted from the left. */
  function LeftSize(e: Tree, p: nat): nat {
    match e
    case Bop(_, l, r) => if p < Size(l) then LeftSize(l, p) else if p == Size(l) then Size(l)
                         else LeftSize(r, p - Size(l) - 1)
    case UnMinus(x) => if p == 0 then 0 else LeftSize(x, p - 1)
    case Not(x) => if p == 0 then 0 else LeftSize(x, p - 1)
    case _ => 0
  }

  /** `t` is `du` with more operators applied behind it. */
  predicate Prefix(du: Tree, t: Tree) { t == du || (t.Bop? && Prefix(du, t.left)) }

  lemma {:induction false} PrefixKeeps(du: Tree, t: Tree, p: nat)
    requires Prefix(du, t) && p < Size(du)
    ensures Size(du) <= Size(t) && LeftSize(t, p) == LeftSize(du, p)
  {
    if t != du { PrefixKeeps(du, t.left, p); }
  }

  lemma {:induction false} PrefixTrans(a: Tree, b: Tree, c: Tree)
    requires Prefix(a, b) && Prefix(b, c)
    ensures Prefix(a, c)
  {
    if b != c { PrefixTrans(a, b, c.left); }
  }

  lemma {:induction false} ContinuedPrefix(n: nat, du: Tree, ts: seq<Token>)
    requires n <= 8 && Continued(n, du, ts).Ok?
    ensures Prefix(du, Continued(n, du, ts).tree)
    decreases |ts|
  {
    if Reads(n, ts) {
      var b := Level(n + 1, ts[1..]);
      var next := Bop(ts[0].op, du, b.tree);
      ContinuedPrefix(if Restarts(ts[0].op) then 0 else n, next, b.rest);
      PrefixTrans(du, next, Continued(n, du, ts).tree);
    }
  }

  /** The node at place `p` has a left operand of the given size, or nothing was read. */
  predicate Placed(r: Parsed, p: nat, size: nat) {
    r.Ok? ==> p < Size(r.tree) && LeftSize(r.tree, p) == size
  }

  /** A looser level keeps the nodes that a tighter one has read. */
  lemma {:induction false} PlacedFalls(n: nat, k: nat, ts: seq<Token>, p: nat, size: nat)
    requires n <= k <= 9 && Placed(Level(k, ts), p, size)
    ensures Placed(Level(n, ts), p, size)
    decreases k - n
  {
    if n < k {
      var a := Level(k, ts);
      if a.Ok? { ContinuedPlaced(k - 1, a.tree, a.rest, p, size); }
      PlacedFalls(n, k - 1, ts, p, size);
    }
  }

  lemma ContinuedPlaced(n: nat, du: Tree, ts: seq<Token>, p: nat, size: nat)
    requires n <= 8 && p < Size(du) && LeftSize(du, p) == size
    ensures Placed(Continued(n, du, ts), p, size)
  {
    if Continued(n, du, ts).Ok? {
      ContinuedPrefix(n, du, ts);
      PrefixKeeps(du, Continued(n, du, ts).tree, p);
    }
  }

  /** One operator read behind `l`: the nodes of its right operand, shifted. */
  lemma OperatorPlaced(n: nat, l: Tree, op: Operator, right: seq<Token>, p: nat, size: nat)
    requires n <= 8 && LevelOf(op) == n && Placed(Level(n + 1, right), p, size)
    ensures Placed(Continued(n, l, [OpT(op)] + right), Size(l) + 1 + p, size)
  {
    hide Level, Continued;
    var b := Level(n + 1, right);
    ContinuedOnce(n, l, op, right);
    if b.Ok? {
      ContinuedPlaced(if Restarts(op) then 0 else n, Bop(op, l, b.tree), b.rest, Size(l) + 1 + p, size);
    }
  }

  lemma ContinuedOnce(n: nat, l: Tree, op: Operator, right: seq<Token>)
    requires n <= 8 && LevelOf(op) == n
    ensures var b := Level(n + 1, right);
            Continued(n, l, [OpT(op)] + right) ==
            if b.Fail? then Fail else Continued(if Restarts(op) then 0 else n, Bop(op, l, b.tree), b.rest)
  {
    assert ([OpT(op)] + right)[1..] == right;
  }

  /** How much an or behind the expression takes for its left operand. */
  function EndSize(e: Tree): nat
  {
    if e.Bop? && !Restarts(e.op) then EndSize(e.right) else Size(e)
  }

  /** An or behind an expression that ends with a division becomes the node that has just
      the division for its left operand. */
  lemma {:induction false} OrSteals(e: Tree, n: nat, more: seq<Token>)
    requires n <= 8 && Mild(e) && Ends(e, n)
    ensures Placed(Level(n, PlainPrint(e, n) + ([OpT(LogOr)] + more)), Size(e), EndSize(e))
    decreases e, 2
  {
    hide Level, Continued, Mild, Placed;
    var rest := [OpT(LogOr)] + more;
    var k := LevelOf(e.op);
    var ts := PlainPrint(e, n) + rest;
    if Restarts(e.op) {
      QuotientPlain(e, n);
      QuotientSettles(e, rest);
      OrTaken(e, more);
      PlacedFalls(n, 8, ts, Size(e), Size(e));
    } else {
      MildParts(e);
      var right := PlainPrint(e.right, k + 1) + rest;
      EndsAtFactor(e);
      EndsAtFactor(e.right);
      OrSteals(e.right, k + 1, more);
      LeftReads(e, right, Size(e.right), EndSize(e.right));
      Opened(e, n, rest);
      PlacedFalls(n, k, ts, Size(e), EndSize(e));
    }
  }

  lemma Opened(e: Tree, n: nat, rest: seq<Token>)
    requires e.Bop? && n <= LevelOf(e.op)
    ensures var k := LevelOf(e.op);
            PlainPrint(e, n) + rest == PlainPrint(e.left, k) + ([OpT(e.op)] + (PlainPrint(e.right, k + 1) + rest))
  {
    hide LevelOf;
    assert PlainPrint(e, n) == PlainBody(e);
  }

  lemma OrTaken(e: Tree, more: seq<Token>)
    ensures Placed(Continued(0, e, [OpT(LogOr)] + more), Size(e), Size(e))
  {
    hide Level, Continued;
    ContinuedOnce(0, e, LogOr, more);
    var b := Level(1, more);
    if b.Ok? { ContinuedPlaced(0, Bop(LogOr, e, b.tree), b.rest, Size(e), Size(e)); }
  }

  /** Behind a mild left operand, the nodes read for the right one. */
  lemma LeftReads(e: Tree, right: seq<Token>, p: nat, size: nat)
    requires e.Bop? && Mild(e.left) && MildHere(e.op, e.left) && Placed(Level(LevelOf(e.op) + 1, right), p, size)
    ensures Placed(Level(LevelOf(e.op), PlainPrint(e.left, LevelOf(e.op)) + ([OpT(e.op)] + right)), Size(e.left) + 1 + p, size)
  {
    hide Level, Continued, Mild, Placed;
    var k := LevelOf(e.op);
    var tail := [OpT(e.op)] + right;
    OperatorPlaced(k, e.left, e.op, right, p, size);
    if e.op.LogOr? && Quotient(e.left) {
      QuotientPlain(e.left, 0);
      QuotientSettles(e.left, tail);
      PlacedFalls(0, 8, PlainPrint(e.left, 0) + tail, Size(e.left) + 1 + p, size);
    } else {
      LeftSafe(e, right);
      MildParses(e.left, k, tail);
    }
  }

  lemma {:induction false} EndSmaller(e: Tree, n: nat)
    requires Ends(e, n) && !Quotient(e)
    ensures EndSize(e) < Size(e)
  {
    if Quotient(e.right) { } else { EndSmaller(e.right, LevelOf(e.op) + 1); }
  }

  // ----- exactly the mild expressions come back --------------------------------------

  /** Reading stopped at a multiplicative operator, in front of the end of the expression. */
  predicate Stuck(r: Parsed, rest: seq<Token>) {
    r.Ok? && IsOp(r.rest) && LevelOf(r.rest[0].op) == 8 && |r.rest| > |rest|
  }

  /** The expression has not been read back: reading failed or got stuck, or the node at
      place `p` has the wrong left operand. */
  predicate Wrong(r: Parsed, e: Tree, rest: seq<Token>, p: nat, size: nat) {
    p < Size(e) && size != LeftSize(e, p) && (Placed(r, p, size) || Stuck(r, rest))
  }

  lemma WrongFalls(n: nat, k: nat, ts: seq<Token>, e: Tree, rest: seq<Token>, p: nat, size: nat)
    requires n <= k <= 9 && Wrong(Level(k, ts), e, rest, p, size) && (k == 9 ==> Placed(Level(k, ts), p, size))
    ensures Wrong(Level(n, ts), e, rest, p, size)
  {
    hide Level, Placed, LeftSize, Size;
    if Placed(Level(k, ts), p, size) { PlacedFalls(n, k, ts, p, size); } else { FallThrough(n, k, ts); }
  }

  /** An expression that is not mild, printed plainly, is not read back, whatever follows. */
  lemma {:induction false} Misread(e: Tree, n: nat, rest: seq<Token>) returns (p: nat, size: nat)
    requires n <= 9 && !Mild(e) && Stops(n, rest)
    ensures Wrong(Level(n, PlainPrint(e, n) + rest), e, rest, p, size)
    ensures n == 9 ==> Placed(Level(n, PlainPrint(e, n) + rest), p, size)
    decreases e, 2
  {
    hide Level, Faktor, Placed, Stuck;
    var ts := PlainPrint(e, n) + rest;
    match e
    case UnMinus(x) =>
      p, size := Misread(x, 9, rest);
      assert ts == [OpT(Minus)] + (PlainPrint(x, 9) + rest);
      PrefixedWrong(e, x, PlainPrint(x, 9) + rest, ts, rest, p, size);
      p := p + 1;
      WrongFalls(n, 9, ts, e, rest, p, size);
    case Not(x) =>
      p, size := Misread(x, 9, rest);
      assert ts == [LogNotT] + (PlainPrint(x, 9) + rest);
      PrefixedWrong(e, x, PlainPrint(x, 9) + rest, ts, rest, p, size);
      p := p + 1;
      WrongFalls(n, 9, ts, e, rest, p, size);
    case Bop(op, _, _) =>
      var k := LevelOf(op);
      if k < n {
        var inner := PlainBody(e) + ([RPar] + rest);
        p, size := MisreadBody(e, [RPar] + rest);
        WrongFalls(0, k, inner, e, [RPar] + rest, p, size);
        assert ts == [LPar] + inner;
        EnclosedWrong(e, inner, ts, rest, p, size);
        WrongFalls(n, 9, ts, e, rest, p, size);
      } else {
        p, size := MisreadBody(e, rest);
        WrongFalls(n, k, ts, e, rest, p, size);
      }
  }

  lemma PrefixedWrong(e: Tree, x: Tree, ts: seq<Token>, us: seq<Token>, rest: seq<Token>, p: nat, size: nat)
    requires (e == UnMinus(x) && us == [OpT(Minus)] + ts) || (e == Not(x) && us == [LogNotT] + ts)
    requires Wrong(Level(9, ts), x, rest, p, size) && Placed(Level(9, ts), p, size)
    ensures Wrong(Level(9, us), e, rest, p + 1, size) && Placed(Level(9, us), p + 1, size)
  {
    assert us[1..] == ts;
  }

  lemma EnclosedWrong(e: Tree, inner: seq<Token>, us: seq<Token>, rest: seq<Token>, p: nat, size: nat)
    requires us == [LPar] + inner && Wrong(Level(0, inner), e, [RPar] + rest, p, size)
    ensures Wrong(Level(9, us), e, rest, p, size) && Placed(Level(9, us), p, size)
  {
    assert us[1..] == inner;
  }

  lemma {:induction false} MisreadBody(e: Tree, rest: seq<Token>) returns (p: nat, size: nat)
    requires e.Bop? && !Mild(e) && Stops(LevelOf(e.op), rest)
    ensures Wrong(Level(LevelOf(e.op), PlainBody(e) + rest), e, rest, p, size)
    decreases e, 1
  {
    hide Level, Faktor, Continued, Placed;
    var k, l, r := LevelOf(e.op), e.left, e.right;
    var right := PlainPrint(r, k + 1) + rest;
    var tail := [OpT(e.op)] + right;
    assert PlainBody(e) + rest == PlainPrint(l, k) + tail;
    if !Mild(l) {
      p, size := Misread(l, k, tail);
    } else if !MildHere(e.op, l) {
      if k == 8 {
        QuotientSettles(l, tail);
        JoinedStops(0, l, tail);
        p, size := 0, LeftSize(e, 0) + 1;
      } else {
        OrSteals(l, 0, right);
        EndSmaller(l, 0);
        p, size := Size(l), EndSize(l);
      }
    } else {
      p, size := Misread(r, k + 1, rest);
      if Placed(Level(k + 1, right), p, size) {
        LeftReads(e, right, p, size);
      } else {
        LeftStuck(e, right, rest);
      }
      p := Size(l) + 1 + p;
    }
  }

  lemma LeftStuck(e: Tree, right: seq<Token>, rest: seq<Token>)
    requires e.Bop? && Mild(e.left) && MildHere(e.op, e.left) && LevelOf(e.op) < 8
    requires Stuck(Level(LevelOf(e.op) + 1, right), rest)
    ensures Stuck(Level(LevelOf(e.op), PlainPrint(e.left, LevelOf(e.op)) + ([OpT(e.op)] + right)), rest)
  {
    hide Level, Continued, Mild;
    var k := LevelOf(e.op);
    var tail := [OpT(e.op)] + right;
    var b := Level(k + 1, right);
    ContinuedOnce(k, e.left, e.op, right);
    JoinedStops(k, Bop(e.op, e.left, b.tree), b.rest);
    if e.op.LogOr? && Quotient(e.left) {
      QuotientPlain(e.left, 0);
      QuotientSettles(e.left, tail);
      FallThrough(0, 8, PlainPrint(e.left, 0) + tail);
    } else {
      LeftSafe(e, right);
      MildParses(e.left, k, tail);
    }
  }

  /** Printed with parentheses where the levels ask for them and nowhere else, an expression
      is read back exactly when it is mild. */
  lemma PlainRoundTrip(e: Tree, rest: seq<Token>)
    requires rest == [] || !rest[0].OpT?
    ensures Level(0, PlainPrint(e, 0) + rest) == Ok(e, rest) <==> Mild(e)
  {
    hide Level;
    if Mild(e) {
      MildParses(e, 0, rest);
      JoinedStops(0, e, rest);
    } else {
      var p, size := Misread(e, 0, rest);
    }
  }

  // ----- which operators are affected -----------------------------------------------

  /** A division before another factor, and one that ends the left operand of an or, behind
      any looser operator, are not read back. */
  lemma DivisionsToEnclose(op: Operator, a: Tree, q: Tree, r: Tree)
    requires Quotient(q)
    ensures LevelOf(op) == 8 ==> !Mild(Bop(op, q, r))
    ensures LevelOf(op) < 8 ==> !Mild(Bop(LogOr, Bop(op, a, q), r))
  {
    NotMildHere(op, q, r);
    if LevelOf(op) < 8 {
      assert Ends(q, LevelOf(op) + 1);
      NotMildHere(LogOr, Bop(op, a, q), r);
    }
  }

  lemma NotMildHere(op: Operator, l: Tree, r: Tree)
    ensures !MildHere(op, l) ==> !Mild(Bop(op, l, r))
  {
  }
}
