/** The loop of Case::Optimize over the linked scopes of a block (compiler/strom.cpp),
    with its back pointer. */
module ScopeList {
  import opened Basics
  import opened Operators
  import opened SourceLanguage
  import opened Optimizer

  class ScopeNode {
    var scope: Scope
    var next: ScopeNode?

    constructor (s: Scope, n: ScopeNode?)
      ensures scope == s && next == n
    {
      scope, next := s, n;
    }
  }

  /** The nodes in their order, from the head to null. */
  ghost predicate Linked(head: ScopeNode?, ns: seq<ScopeNode>)
    reads ns`next
  {
    && head == (if ns == [] then null else ns[0])
    && Distinct(ns)
    && (forall i :: 0 <= i < |ns| ==> ns[i].next == Follower(ns, i))
  }

  ghost function ScopesOf(ns: seq<ScopeNode>): (r: seq<Scope>)
    reads ns`scope
    ensures |r| == |ns| && forall i :: 0 <= i < |ns| ==> r[i] == ns[i].scope
  {
    if ns == [] then [] else [ns[0].scope] + ScopesOf(ns[1..])
  }

  /** Where the loop is: at the head, behind a removed head, or behind a node that stays. */
  datatype Phase = AtHead | Lost | Behind

  /** What the scopes from here on still have to become. */
  ghost function Rest(phase: Phase, scopes: seq<Scope>): seq<Scope> {
    match phase case AtHead => Trim(scopes) case Lost => AfterRemoved(scopes) case Behind => Unlinked(scopes)
  }

  lemma RestStep(phase: Phase, scopes: seq<Scope>)
    requires scopes != []
    ensures var s, rest := scopes[0], scopes[1..];
            Rest(phase, scopes) == if !EmptyRange(s) then [Single(s)] + Rest(Behind, rest)
                                   else match phase
                                        case AtHead => Rest(Lost, rest)
                                        case Lost => [s] + Rest(Lost, rest)
                                        case Behind => Rest(Behind, rest)
  {
  }

  lemma ScopesAppend(ns: seq<ScopeNode>, n: ScopeNode)
    ensures ScopesOf(ns + [n]) == ScopesOf(ns) + [n.scope]
  {
  }

  ghost predicate Distinct(ns: seq<ScopeNode>) {
    forall i, j :: 0 <= i < j < |ns| ==> ns[i] != ns[j]
  }

  ghost function Follower(ns: seq<ScopeNode>, i: nat): ScopeNode? {
    if i + 1 < |ns| then ns[i + 1] else null
  }

  /** The list once the last node of `a` points behind `p`. */
  lemma Unlink(head: ScopeNode?, a: seq<ScopeNode>, p: ScopeNode, b: seq<ScopeNode>)
    requires Distinct(a + [p] + b) && a != [] && head == a[0]
    requires forall i :: 0 <= i < |a + [p] + b| && i != |a| - 1 ==> (a + [p] + b)[i].next == Follower(a + [p] + b, i)
    requires a[|a| - 1].next == if b == [] then null else b[0]
    ensures Linked(head, a + b)
  {
    var ns, ms := a + [p] + b, a + b;
    forall i, j | 0 <= i < j < |ms| ensures ms[i] != ms[j] {
      assert ms[i] == ns[if i < |a| then i else i + 1] && ms[j] == ns[if j < |a| then j else j + 1];
    }
    forall i | 0 <= i < |ms| ensures ms[i].next == Follower(ms, i) {
      var k := if i < |a| then i else i + 1;
      assert ms[i] == ns[k];
      if i != |a| - 1 { assert ns[k].next == Follower(ns, k); }
      if i + 1 < |ms| { assert ms[i + 1] == ns[if i + 1 < |a| then i + 1 else i + 2]; }
    }
  }

  lemma UnlinkHead(x: ScopeNode, b: seq<ScopeNode>)
    requires Linked(x, [x] + b)
    ensures Linked(x.next, b) && x !in b
  {
    var ns := [x] + b;
    assert ns[0] == x;
    if b != [] { assert ns[1] == b[0]; }
    forall i | 0 <= i < |b| ensures b[i] != x && b[i].next == Follower(b, i) {
      assert ns[i + 1] == b[i] && ns[0] != ns[i + 1];
      assert ns[i + 1].next == Follower(ns, i + 1);
      if i + 1 < |b| { assert ns[i + 2] == b[i + 1]; }
    }
    forall i, j | 0 <= i < j < |b| ensures b[i] != b[j] { assert ns[i + 1] == b[i] && ns[j + 1] == b[j]; }
  }

  lemma NextOf(head: ScopeNode?, a: seq<ScopeNode>, x: ScopeNode, b: seq<ScopeNode>)
    requires Linked(head, a + [x] + b)
    ensures x.next == (if b == [] then null else b[0]) && x !in a && x !in b
  {
    var ns := a + [x] + b;
    assert ns[|a|] == x;
    if b != [] { assert ns[|a| + 1] == b[0]; }
    forall n | n in a ensures n != x { var i :| 0 <= i < |a| && a[i] == n; assert ns[i] == n; }
    forall n | n in b ensures n != x { var i :| 0 <= i < |b| && b[i] == n; assert ns[|a| + 1 + i] == n; }
  }

  predicate Placed(phase: Phase, pBack: ScopeNode?, nodes: seq<ScopeNode>, kept: seq<ScopeNode>, list: seq<ScopeNode>) {
    match phase
    case AtHead => pBack == null && kept == []
    case Lost => pBack != null && pBack in nodes && pBack !in list
    case Behind => kept != [] && pBack == kept[|kept| - 1]
  }

  /** The loop invariant: `kept` and what has not been seen yet form the list. */
  ghost predicate Loop(nodes: seq<ScopeNode>, scopes: seq<Scope>, phase: Phase, first: ScopeNode?, kept: seq<ScopeNode>,
                       todo: seq<ScopeNode>, left: seq<Scope>, pBack: ScopeNode?)
    reads nodes, kept, todo
  {
    && Linked(first, kept + todo) && ScopesOf(todo) == left
    && (forall n :: n in kept + todo ==> n in nodes)
    && Placed(phase, pBack, nodes, kept, kept + todo)
    && ScopesOf(kept) + Rest(phase, left) == Trim(scopes)
  }

  lemma Opened(nodes: seq<ScopeNode>, scopes: seq<Scope>, phase: Phase, first: ScopeNode?, kept: seq<ScopeNode>,
               todo: seq<ScopeNode>, left: seq<Scope>, pBack: ScopeNode?)
    requires Loop(nodes, scopes, phase, first, kept, todo, left, pBack) && todo != []
    ensures kept + todo == kept + [todo[0]] + todo[1..] && todo[0] in nodes && left != []
    ensures todo[0] !in kept && todo[0] !in todo[1..] && todo[0].next == (if |todo| > 1 then todo[1] else null)
    ensures forall n :: n in kept || n in todo[1..] ==> n in nodes
    ensures left[0] == todo[0].scope && ScopesOf(todo[1..]) == left[1..]
    ensures Linked(first, kept + [todo[0]] + todo[1..]) && Placed(phase, pBack, nodes, kept, kept + [todo[0]] + todo[1..])
    ensures ScopesOf(kept) + Rest(phase, left) == Trim(scopes)
  {
    hide Trim, Rest, Linked;
    assert kept + todo == kept + [todo[0]] + todo[1..];
    NextOf(first, kept, todo[0], todo[1..]);
    forall n | n in kept || n in todo ensures n in nodes { assert n in kept + todo; }
  }

  lemma Closed(nodes: seq<ScopeNode>, scopes: seq<Scope>, phase: Phase, first: ScopeNode?, kept: seq<ScopeNode>,
               todo: seq<ScopeNode>, left: seq<Scope>, pBack: ScopeNode?)
    requires Linked(first, kept + todo) && Placed(phase, pBack, nodes, kept, kept + todo) && ScopesOf(todo) == left
    requires forall n :: n in kept || n in todo ==> n in nodes
    requires ScopesOf(kept) + Rest(phase, left) == Trim(scopes)
    ensures Loop(nodes, scopes, phase, first, kept, todo, left, pBack)
  {
    hide Trim, Rest, Linked;
  }

  /** One turn of the loop, for the scope at `p`. */
  method Turn(p: ScopeNode, pBack: ScopeNode?, first0: ScopeNode?, ghost nodes: seq<ScopeNode>, ghost scopes: seq<Scope>,
              ghost phase: Phase, ghost kept0: seq<ScopeNode>, ghost todo: seq<ScopeNode>, ghost left: seq<Scope>)
    returns (first: ScopeNode?, back: ScopeNode, next: ScopeNode?, ghost now: Phase, ghost kept: seq<ScopeNode>)
    requires todo != [] && todo[0] == p && Loop(nodes, scopes, phase, first0, kept0, todo, left, pBack)
    modifies nodes
    ensures Loop(nodes, scopes, now, first, kept, todo[1..], left[1..], back)
    ensures next == (if |todo| > 1 then todo[1] else null)
  {
    hide Rest, Trim, AfterRemoved, Unlinked, ScopesOf, Loop, Linked;
    ghost var rest := todo[1..];
    Opened(nodes, scopes, phase, first0, kept0, todo, left, pBack);
    RestStep(phase, left);
    ScopesAppend(kept0, p);
    if p.scope.Range? && p.scope.lo > p.scope.hi {
      first, back, next, now, kept := TurnEmpty(p, pBack, first0, nodes, phase, kept0, rest);
      if phase == Lost { Join2(ScopesOf(kept0), [p.scope], Rest(Lost, left[1..])); ScopesAppend(kept0, p); }
    } else {
      Join2(ScopesOf(kept0), [Single(p.scope)], Rest(Behind, left[1..]));
      first, back, next, now, kept := first0, p, p.next, Behind, kept0 + [p];
      TurnOther(p, kept0, rest);
    }
    Closed(nodes, scopes, now, first, kept, rest, left[1..], back);
  }

  /** The turn for another scope. */
  method TurnOther(p: ScopeNode, ghost kept0: seq<ScopeNode>, ghost rest: seq<ScopeNode>)
    requires !EmptyRange(p.scope) && p !in kept0 && p !in rest
    modifies p`scope
    ensures ScopesOf(kept0 + [p]) == old(ScopesOf(kept0)) + [Single(old(p.scope))]
    ensures ScopesOf(rest) == old(ScopesOf(rest))
  {
    if p.scope.Range? && p.scope.lo == p.scope.hi {
      p.scope := Equals(Numb(p.scope.lo));
    }
    ScopesAppend(kept0, p);
  }

  /** The turn for an empty range. */
  method TurnEmpty(p: ScopeNode, pBack: ScopeNode?, first0: ScopeNode?, ghost nodes: seq<ScopeNode>,
                   ghost phase: Phase, ghost kept0: seq<ScopeNode>, ghost rest: seq<ScopeNode>)
    returns (first: ScopeNode?, back: ScopeNode, next: ScopeNode?, ghost now: Phase, ghost kept: seq<ScopeNode>)
    requires Linked(first0, kept0 + [p] + rest) && p in nodes && (forall n :: n in kept0 ==> n in nodes)
    requires Placed(phase, pBack, nodes, kept0, kept0 + [p] + rest)
    modifies nodes`next
    ensures kept == (if phase == Lost then kept0 + [p] else kept0) && now == (if phase == AtHead then Lost else phase)
    ensures Linked(first, kept + rest) && next == (if rest == [] then null else rest[0])
    ensures now != AtHead && Placed(now, back, nodes, kept, kept + rest)
  {
    ghost var ns := kept0 + [p] + rest;
    NextOf(first0, kept0, p, rest);
    first, kept, now := first0, kept0, phase;
    if pBack != null {
      if phase == Behind { assert ns[|kept0| - 1] == pBack && pBack in kept0; }
      assert pBack in nodes;
      assert forall i :: 0 <= i < |ns| ==> ns[i].next == Follower(ns, i);
      pBack.next := p.next;
      back := pBack;
      next := pBack.next;
      if phase == Behind {
        assert forall i :: 0 <= i < |ns| && i != |kept0| - 1 ==> ns[i].next == Follower(ns, i);
        assert first0 == kept0[0] by { assert ns[0] == kept0[0]; }
        Unlink(first0, kept0, p, rest);
      } else {
        assert forall i :: 0 <= i < |ns| ==> ns[i].next == Follower(ns, i);
        kept := kept0 + [p];
      }
    } else {
      first, back, next, now := p.next, p, p.next, Lost;
      assert ns == [p] + rest && kept0 + rest == rest;
      UnlinkHead(p, rest);
    }
  }

  /** Unlinks empty ranges and turns ranges of one number into the number.  The nodes
      that stay hold the scopes of Trim, the quirk of a removed first node included. */
  method OptimizeScopes(head: ScopeNode?, ghost nodes: seq<ScopeNode>) returns (first: ScopeNode?, ghost kept: seq<ScopeNode>)
    requires Linked(head, nodes)
    modifies nodes
    ensures Linked(first, kept) && ScopesOf(kept) == Trim(old(ScopesOf(nodes)))
    ensures forall n :: n in kept ==> n in nodes
  {
    ghost var scopes := ScopesOf(nodes);
    ghost var phase, todo, left := AtHead, nodes, scopes;
    first := head;
    kept := [];
    var p: ScopeNode? := head;
    var pBack: ScopeNode? := null;
    assert kept + todo == nodes;
    while p != null
      invariant p == if todo == [] then null else todo[0]
      invariant Loop(nodes, scopes, phase, first, kept, todo, left, pBack)
      decreases |todo|
    {
      first, pBack, p, phase, kept := Turn(p, pBack, first, nodes, scopes, phase, kept, todo, left);
      todo, left := todo[1..], left[1..];
    }
    assert kept + todo == kept;
  }
}
