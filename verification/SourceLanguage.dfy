/** The statements and expressions of a method body that work on integers
    (compiler/strom.h), and what they mean. */
module SourceLanguage {
  import opened Basics
  import opened Operators

  datatype Variable = Local(i: nat) | Arg(i: nat)

  datatype Expr =
    | Numb(value: int32)
    | Var(v: Variable)
    | Bin(op: Operator, left: Expr, right: Expr)
    | UnMinus(e: Expr)
    | Not(e: Expr)

  /** What a loop may have as its initialisation and its counter step. */
  datatype Assignment =
    | Assign(v: Variable, e: Expr)
    | AssignWithBop(op: Operator, v: Variable, e: Expr)

  datatype Scope = Default | Equals(e: Expr) | Range(lo: int32, hi: int32)

  datatype Stmt =
    | Empty
    | Simple(a: Assignment)
    | Write(e: Expr)
    | If(c: Expr, t: Stmt)
    | IfElse(c: Expr, t: Stmt, f: Stmt)
    | While(c: Expr, body: Stmt)
    | For(init: Assignment, c: Expr, step: Assignment, body: Stmt)
    | Break
    | Then(first: Stmt, rest: Stmt)
    | Case(e: Expr, blocks: Blocks)

  /** The blocks of a switch, each with its scopes and its body. */
  datatype Blocks = NoBlocks | Block(scopes: seq<Scope>, body: Stmt, next: Blocks)

  // ----- meaning --------------------------------------------------------------------

  /** The variables of the running method, None before the first assignment, and
      what has been written. */
  datatype Store = Store(args: seq<Option<int32>>, locals: seq<Option<int32>>, out: seq<int32>)

  predicate Declared(v: Variable, s: Store) {
    match v
    case Local(i) => i < |s.locals|
    case Arg(i) => i < |s.args|
  }

  function Get(v: Variable, s: Store): Option<int32>
  {
    if !Declared(v, s) then None
    else match v
      case Local(i) => s.locals[i]
      case Arg(i) => s.args[i]
  }

  function Set(v: Variable, n: int32, s: Store): Store
    requires Declared(v, s)
  {
    match v
    case Local(i) => s.(locals := s.locals[i := Some(n)])
    case Arg(i) => s.(args := s.args[i := Some(n)])
  }

  /** The value of an expression; None when it reads an unset variable or has an
      operation that is undefined. */
  function Eval(e: Expr, s: Store): Option<int32> {
    match e
    case Numb(n) => Some(n)
    case Var(v) => Get(v, s)
    case Bin(op, l, r) =>
      var a, b := Eval(l, s), Eval(r, s);
      if a.None? || b.None? then None else Apply(op, a.value, b.value)
    case UnMinus(x) => var a := Eval(x, s); if a.None? then None else Negate(a.value)
    case Not(x) => var a := Eval(x, s); if a.None? then None else Some(LogicalNot(a.value))
  }

  /** OutOfFuel only says that more loop turns are needed than were allowed. */
  datatype Outcome = OutOfFuel | Fault | Normal(s: Store) | Broke(s: Store)

  function ExecAssignment(a: Assignment, s: Store): Outcome {
    if !Declared(a.v, s) then Fault
    else
      var e := if a.Assign? then a.e else Bin(a.op, Var(a.v), a.e);
      var n := Eval(e, s);
      if n.None? then Fault else Normal(Set(a.v, n.value, s))
  }

  /** Does a scope of a switch take the value `e`?  None when finding out fails. */
  function Matches(e: Expr, scope: Scope, s: Store): Option<bool> {
    match scope
    case Default => Some(true)
    case Equals(l) =>
      var a, b := Eval(e, s), Eval(l, s);
      if a.None? || b.None? then None else Some(a.value == b.value)
    case Range(lo, hi) =>
      var a := Eval(e, s);
      if a.None? then None else Some(lo <= a.value <= hi)
  }

  /** Some scope, tried in order, takes the value. */
  function AnyMatch(e: Expr, scopes: seq<Scope>, s: Store): Option<bool> {
    if scopes == [] then Some(false)
    else
      var m := Matches(e, scopes[0], s);
      if m.None? || m.value then m else AnyMatch(e, scopes[1..], s)
  }

  /** The body of the first block with a matching scope. */
  function Select(e: Expr, blocks: Blocks, s: Store): Option<Stmt> {
    match blocks
    case NoBlocks => Some(Empty)
    case Block(scopes, body, next) =>
      var m := AnyMatch(e, scopes, s);
      if m.None? then None else if m.value then Some(body) else Select(e, next, s)
  }

  lemma SelectSmaller(e: Expr, blocks: Blocks, s: Store)
    ensures var b := Select(e, blocks, s); b.Some? ==> b.value == Empty || b.value < blocks
  {
    match blocks
    case NoBlocks =>
    case Block(_, _, next) => SelectSmaller(e, next, s);
  }

  /** Running a statement; `fuel` bounds the turns of nested loops. */
  function Exec(x: Stmt, s: Store, fuel: nat): Outcome
    decreases fuel, x, 1
  {
    match x
    case Empty => Normal(s)
    case Simple(a) => ExecAssignment(a, s)
    case Write(e) => var n := Eval(e, s); if n.None? then Fault else Normal(s.(out := s.out + [n.value]))
    case If(c, t) =>
      var n := Eval(c, s);
      if n.None? then Fault else if n.value != 0 then Exec(t, s, fuel) else Normal(s)
    case IfElse(c, t, f) =>
      var n := Eval(c, s);
      if n.None? then Fault else if n.value != 0 then Exec(t, s, fuel) else Exec(f, s, fuel)
    case While(c, body) =>
      if fuel == 0 then OutOfFuel else
      var n := Eval(c, s);
      if n.None? then Fault
      else if n.value == 0 then Normal(s)
      else
        var r := Exec(body, s, fuel - 1);
        (match r
         case Normal(t) => Exec(x, t, fuel - 1)
         case Broke(t) => Normal(t)
         case _ => r)
    case For(init, c, step, body) =>
      var r := ExecAssignment(init, s);
      (match r case Normal(t) => ExecFor(c, step, body, t, fuel) case _ => r)
    case Break => Broke(s)
    case Then(a, b) =>
      var r := Exec(a, s, fuel);
      (match r case Normal(t) => Exec(b, t, fuel) case _ => r)
    case Case(e, blocks) =>
      SelectSmaller(e, blocks, s);
      var b := Select(e, blocks, s);
      if b.None? then Fault else if b.value == Empty then Normal(s) else Exec(b.value, s, fuel)
  }

  /** The turns of a for loop after its initialisation; a break skips the step. */
  function ExecFor(c: Expr, step: Assignment, body: Stmt, s: Store, fuel: nat): Outcome
    decreases fuel, body, 2
  {
    if fuel == 0 then OutOfFuel else
    var n := Eval(c, s);
    if n.None? then Fault
    else if n.value == 0 then Normal(s)
    else
      var r := Exec(body, s, fuel - 1);
      match r
      case Broke(t) => Normal(t)
      case Normal(t) =>
        var k := ExecAssignment(step, t);
        (match k case Normal(u) => ExecFor(c, step, body, u, fuel - 1) case _ => k)
      case _ => r
  }

  // ----- termination ----------------------------------------------------------------

  /** More fuel does not change a result that did not run out. */
  lemma {:induction false} ExecMonotone(x: Stmt, s: Store, f: nat, g: nat)
    requires f <= g && Exec(x, s, f) != OutOfFuel
    ensures Exec(x, s, g) == Exec(x, s, f)
    decreases f, x, 1
  {
    hide Eval, ExecAssignment;
    match x
    case If(c, t) => if Eval(c, s).Some? && Eval(c, s).value != 0 { ExecMonotone(t, s, f, g); }
    case IfElse(c, t, e) =>
      if Eval(c, s).Some? { if Eval(c, s).value != 0 { ExecMonotone(t, s, f, g); } else { ExecMonotone(e, s, f, g); } }
    case While(c, body) =>
      if Eval(c, s).Some? && Eval(c, s).value != 0 {
        ExecMonotone(body, s, f - 1, g - 1);
        var r := Exec(body, s, f - 1);
        if r.Normal? { ExecMonotone(x, r.s, f - 1, g - 1); }
      }
    case For(init, c, step, body) =>
      var r := ExecAssignment(init, s);
      if r.Normal? { ExecForMonotone(c, step, body, r.s, f, g); }
    case Then(a, b) =>
      ExecMonotone(a, s, f, g);
      var r := Exec(a, s, f);
      if r.Normal? { ExecMonotone(b, r.s, f, g); }
    case Case(e, blocks) =>
      SelectSmaller(e, blocks, s);
      var b := Select(e, blocks, s);
      if b.Some? && b.value != Empty { ExecMonotone(b.value, s, f, g); }
    case _ =>
  }

  /** One turn of a for loop. */
  lemma ForTurn(c: Expr, step: Assignment, body: Stmt, s: Store, f: nat)
    ensures f == 0 ==> ExecFor(c, step, body, s, f) == OutOfFuel
    ensures f > 0 && Eval(c, s).None? ==> ExecFor(c, step, body, s, f) == Fault
    ensures f > 0 && Eval(c, s).Some? && Eval(c, s).value == 0 ==> ExecFor(c, step, body, s, f) == Normal(s)
    ensures f > 0 && Eval(c, s).Some? && Eval(c, s).value != 0 ==>
              var r := Exec(body, s, f - 1);
              ExecFor(c, step, body, s, f) ==
              if r.Broke? then Normal(r.s)
              else if !r.Normal? then r
              else
                var k := ExecAssignment(step, r.s);
                if k.Normal? then ExecFor(c, step, body, k.s, f - 1) else k
  {
    hide Eval, ExecAssignment, Exec;
  }

  lemma {:induction false} ExecForMonotone(c: Expr, step: Assignment, body: Stmt, s: Store, f: nat, g: nat)
    requires f <= g && ExecFor(c, step, body, s, f) != OutOfFuel
    ensures ExecFor(c, step, body, s, g) == ExecFor(c, step, body, s, f)
    decreases f, body, 2
  {
    hide Eval, ExecAssignment, Exec, ExecFor;
    ForTurn(c, step, body, s, f);
    ForTurn(c, step, body, s, g);
    if Eval(c, s).Some? && Eval(c, s).value != 0 {
      ExecMonotone(body, s, f - 1, g - 1);
      var r := Exec(body, s, f - 1);
      if r.Normal? {
        var k := ExecAssignment(step, r.s);
        if k.Normal? { ExecForMonotone(c, step, body, k.s, f - 1, g - 1); }
      }
    }
  }
}
