/** Addresses of class members: how declarations get them (compiler/tabsym.cpp), and how
    the virtual machine finds members by them along the parents (vm/vm.c). */
module MemberLayout {
  import opened Basics

  // ----- declarations ---------------------------------------------------------------

  datatype Sym = Sym(name: string, isStatic: bool, addr: nat)

  /** The symbols of a class, newest first, and the counters it was created with. */
  datatype Table = Table(startClass: nat, startObj: nat, syms: seq<Sym>)

  function Count(syms: seq<Sym>, isStatic: bool): nat {
    if syms == [] then 0
    else (if syms[0].isStatic == isStatic then 1 else 0) + Count(syms[1..], isStatic)
  }

  function Start(t: Table, isStatic: bool): nat { if isStatic then t.startClass else t.startObj }

  /** The address of the next static or instance member. */
  function Next(t: Table, isStatic: bool): nat { Start(t, isStatic) + Count(t.syms, isStatic) }

  predicate Has(syms: seq<Sym>, name: string) {
    exists i :: 0 <= i < |syms| && syms[i].name == name
  }

  function Declared(t: Table, name: string, isStatic: bool): Table {
    t.(syms := [Sym(name, isStatic, Next(t, isStatic))] + t.syms)
  }

  /** Tables that declarations build. */
  predicate Built(t: Table)
    decreases |t.syms|
  {
    t.syms == [] ||
    (var s, rest := t.syms[0], t.(syms := t.syms[1..]);
     s.addr == Next(rest, s.isStatic) && !Has(rest.syms, s.name) && Built(rest))
  }

  lemma EmptyBuilt(startClass: nat, startObj: nat)
    ensures var t := Table(startClass, startObj, []);
            Built(t) && Next(t, true) == startClass && Next(t, false) == startObj
  {
  }

  class ClassEnv {
    const startClass: nat
    const startObj: nat
    var syms: seq<Sym>
    var classAddrNext: nat
    var objAddrNext: nat

    function Contents(): Table
      reads this
    {
      Table(startClass, startObj, syms)
    }

    predicate Valid()
      reads this
    {
      && Built(Contents())
      && classAddrNext == Next(Contents(), true) && objAddrNext == Next(Contents(), false)
    }

    /** A class goes on where its parent's counters are, or starts at 0 when it has no
        parent or one the compiler does not know yet. */
    constructor (parent: ClassEnv?)
      ensures Valid() && syms == []
      ensures startClass == (if parent == null then 0 else parent.classAddrNext)
      ensures startObj == (if parent == null then 0 else parent.objAddrNext)
    {
      hide Built, Next;
      startClass := if parent == null then 0 else parent.classAddrNext;
      startObj := if parent == null then 0 else parent.objAddrNext;
      classAddrNext := if parent == null then 0 else parent.classAddrNext;
      objAddrNext := if parent == null then 0 else parent.objAddrNext;
      syms := [];
      new;
      EmptyBuilt(startClass, startObj);
    }

    method FindMember(name: string) returns (found: bool)
      ensures found <==> Has(syms, name)
    {
      var i := 0;
      while i < |syms|
        invariant i <= |syms| && forall k :: 0 <= k < i ==> syms[k].name != name
      {
        if syms[i].name == name { return true; }
        i := i + 1;
      }
      return false;
    }

    /** A variable (or, when static, a constant) of the class; a second declaration of a name
        is an error. */
    method Declare(name: string, isStatic: bool) returns (ok: bool)
      requires Valid()
      modifies this
      ensures Valid() && ok == !Has(old(syms), name)
      ensures Contents() == if ok then Declared(old(Contents()), name, isStatic) else old(Contents())
    {
      var found := FindMember(name);
      if found { return false; }
      ghost var t := Contents();
      var addr := if isStatic then classAddrNext else objAddrNext;
      if isStatic { classAddrNext := classAddrNext + 1; } else { objAddrNext := objAddrNext + 1; }
      syms := [Sym(name, isStatic, addr)] + syms;
      assert syms[1..] == t.syms;
      assert Contents().(syms := syms[1..]) == t;
      return true;
    }
  }

  /** The addresses of one kind, in the order of declaration. */
  function Addrs(syms: seq<Sym>, isStatic: bool): seq<nat> {
    if syms == [] then []
    else Addrs(syms[1..], isStatic) + (if syms[0].isStatic == isStatic then [syms[0].addr] else [])
  }

  function Interval(a: nat, b: nat): (r: seq<nat>)
    requires a <= b
    ensures |r| == b - a && forall i :: 0 <= i < b - a ==> r[i] == a + i
  {
    seq(b - a, i => a + i)
  }

  /** Within a class, addresses of one kind are consecutive. */
  lemma {:induction false} AddrsFill(t: Table, isStatic: bool)
    requires Built(t)
    ensures Addrs(t.syms, isStatic) == Interval(Start(t, isStatic), Next(t, isStatic))
    decreases |t.syms|
  {
    if t.syms != [] {
      var rest := t.(syms := t.syms[1..]);
      AddrsFill(rest, isStatic);
      if t.syms[0].isStatic == isStatic {
        var a, b := Start(t, isStatic), Next(rest, isStatic);
        assert Interval(a, b + 1) == Interval(a, b) + [b];
      }
    }
  }

  predicate FollowsParent(chain: seq<Table>, k: nat)
    requires k < |chain|
  {
    && Built(chain[k])
    && Start(chain[k], true) == (if k == 0 then 0 else Next(chain[k - 1], true))
    && Start(chain[k], false) == (if k == 0 then 0 else Next(chain[k - 1], false))
  }

  /** A hierarchy, root first: every class was created when its parent was complete. */
  predicate Hierarchy(chain: seq<Table>) {
    forall k :: 0 <= k < |chain| ==> FollowsParent(chain, k)
  }

  function ChainAddrs(chain: seq<Table>, isStatic: bool): seq<nat> {
    if chain == [] then []
    else ChainAddrs(chain[..|chain| - 1], isStatic) + Addrs(chain[|chain| - 1].syms, isStatic)
  }

  function Total(chain: seq<Table>, isStatic: bool): nat {
    if chain == [] then 0 else Next(chain[|chain| - 1], isStatic)
  }

  lemma FrontHierarchy(chain: seq<Table>)
    requires Hierarchy(chain) && chain != []
    ensures Hierarchy(chain[..|chain| - 1])
    ensures Start(chain[|chain| - 1], true) == Total(chain[..|chain| - 1], true)
    ensures Start(chain[|chain| - 1], false) == Total(chain[..|chain| - 1], false)
  {
    hide Built, Next, Start;
    var n := |chain| - 1;
    var front := chain[..n];
    assert FollowsParent(chain, n);
    if n > 0 { assert front[n - 1] == chain[n - 1]; }
    forall k | 0 <= k < n ensures FollowsParent(front, k) {
      assert FollowsParent(chain, k) && front[k] == chain[k];
      if k > 0 { assert front[k - 1] == chain[k - 1]; }
    }
  }

  /** Along any hierarchy the addresses of one kind are 0, 1, 2, ... without gap or clash. */
  lemma {:induction false} ChainFills(chain: seq<Table>, isStatic: bool)
    requires Hierarchy(chain)
    ensures ChainAddrs(chain, isStatic) == Interval(0, Total(chain, isStatic))
    decreases |chain|
  {
    if chain != [] {
      var n := |chain| - 1;
      var front := chain[..n];
      FrontHierarchy(chain);
      ChainFills(front, isStatic);
      assert FollowsParent(chain, n);
      AddrsFill(chain[n], isStatic);
      var mid := Total(front, isStatic);
      assert Interval(0, mid) + Interval(mid, Next(chain[n], isStatic)) == Interval(0, Next(chain[n], isStatic));
    }
  }

  /** A class declared before its parent starts at 0 again.  Its addresses are disjoint from
      those it inherits, from however far up, exactly when there are none on one side. */
  lemma UnknownParentClashes(chain: seq<Table>, child: Table, isStatic: bool)
    requires Hierarchy(chain) && Built(child) && Start(child, isStatic) == 0
    ensures (forall a: nat :: a in Addrs(child.syms, isStatic) ==> a !in ChainAddrs(chain, isStatic))
            <==> Total(chain, isStatic) == 0 || Count(child.syms, isStatic) == 0
  {
    ChainFills(chain, isStatic);
    AddrsFill(child, isStatic);
    var own, inherited := Addrs(child.syms, isStatic), ChainAddrs(chain, isStatic);
    if Total(chain, isStatic) > 0 && Count(child.syms, isStatic) > 0 {
      assert own[0] == 0 && inherited[0] == 0;
      assert 0 in Addrs(child.syms, isStatic) && 0 in ChainAddrs(chain, isStatic);
    }
  }

  // ----- the loaded classes ---------------------------------------------------------

  /** A class of the virtual machine.  `depth` is its distance from the root: parents are
      acyclic.  A class without its own allocator is a user class; a built-in one answers
      how many slots it keeps for itself. */
  class RtClass {
    const parent: RtClass?
    const ownCnt: nat
    const statics: seq<Sym>
    const builtin: Option<nat>
    ghost const depth: nat
    var total: int
    var offset: int

    constructor (p: RtClass?, cnt: nat, ss: seq<Sym>, b: Option<nat>)
      ensures parent == p && ownCnt == cnt && statics == ss && builtin == b && total == -1 && offset == -1
      ensures depth == (if p == null then 0 else p.depth + 1)
    {
      parent, ownCnt, statics, builtin := p, cnt, ss, b;
      depth := if p == null then 0 else p.depth + 1;
      total, offset := -1, -1;
    }

    ghost predicate Acyclic() { parent != null ==> parent.depth < depth }
  }

  /** The ancestors of every class are acyclic members of the set. */
  ghost predicate Family(cs: set<RtClass>) {
    forall c :: c in cs ==> c.Acyclic() && (c.parent != null ==> c.parent in cs)
  }

  /** Own and inherited instance variables, plainly added up. */
  ghost function Sum(c: RtClass, cs: set<RtClass>): nat
    requires Family(cs) && c in cs
    decreases c.depth
  {
    c.ownCnt + if c.parent == null then 0 else Sum(c.parent, cs)
  }

  /** The slots in front of a user object's own ones: those of the nearest built-in. */
  ghost function Offset(c: RtClass, cs: set<RtClass>): nat
    requires Family(cs) && c in cs
    decreases c.depth
  {
    if c.builtin.Some? then c.builtin.value else if c.parent == null then 0 else Offset(c.parent, cs)
  }

  /** What has been computed so far is right. */
  ghost predicate Memo(cs: set<RtClass>)
    requires Family(cs)
    reads cs
  {
    forall c :: c in cs ==>
      && (c.total == -1 || c.total == Sum(c, cs))
      && (c.builtin.None? ==> c.offset == -1 || c.offset == Offset(c, cs))
  }

  method CalcTotal(c: RtClass, ghost cs: set<RtClass>) returns (n: nat)
    requires Family(cs) && c in cs && Memo(cs)
    modifies cs`total
    ensures Memo(cs) && n == Sum(c, cs) == c.total
    decreases c.depth
  {
    if c.total != -1 { return c.total; }
    if c.parent == null {
      c.total := c.ownCnt;
      return c.ownCnt;
    }
    var p := CalcTotal(c.parent, cs);
    c.total := c.ownCnt + p;
    n := c.total;
  }

  method CalcOffset(c: RtClass, ghost cs: set<RtClass>) returns (n: nat)
    requires Family(cs) && c in cs && Memo(cs)
    modifies cs`offset
    ensures Memo(cs) && n == Offset(c, cs) && (c.builtin.None? ==> c.offset == n)
    decreases c.depth
  {
    if c.builtin.Some? {
      c.offset := 0;
      return c.builtin.value;
    }
    if c.offset != -1 { return c.offset; }
    if c.parent != null {
      var p := CalcOffset(c.parent, cs);
      c.offset := p;
      return p;
    }
    c.offset := 0;
    n := 0;
  }

  /** The slots of an object, which are those the collector traces. */
  ghost function Slots(c: RtClass, cs: set<RtClass>): nat
    requires Family(cs) && c in cs
  {
    Sum(c, cs) + Offset(c, cs)
  }

  /** The declarations of the user classes from the root down to `c`. */
  ghost predicate Compiled(c: RtClass, cs: set<RtClass>, chain: seq<Table>)
    requires Family(cs) && c in cs
    decreases c.depth
  {
    if c.builtin.Some? then chain == [] && c.ownCnt == 0 && c.statics == [] && c.parent == null
    else
      && chain != []
      && c.ownCnt == Count(chain[|chain| - 1].syms, false)
      && |c.statics| == Count(chain[|chain| - 1].syms, true)
      && (forall i :: 0 <= i < |c.statics| ==> c.statics[i].addr == Start(chain[|chain| - 1], true) + i)
      && (if c.parent == null then |chain| == 1 else Compiled(c.parent, cs, chain[..|chain| - 1]))
  }

  lemma {:induction false} SumIsTotal(c: RtClass, cs: set<RtClass>, chain: seq<Table>)
    requires Family(cs) && c in cs && Hierarchy(chain) && Compiled(c, cs, chain)
    ensures Sum(c, cs) == Total(chain, false)
    decreases c.depth
  {
    if c.builtin.None? {
      FrontHierarchy(chain);
      if c.parent == null {
        assert chain[..0] == [];
      } else {
        SumIsTotal(c.parent, cs, chain[..|chain| - 1]);
      }
    }
  }

  /** An instance variable with any address of the hierarchy lies inside the traced slots,
      behind those of a built-in ancestor. */
  lemma InstanceVariableInside(c: RtClass, cs: set<RtClass>, chain: seq<Table>, addr: nat)
    requires Family(cs) && c in cs && Hierarchy(chain) && Compiled(c, cs, chain)
    requires addr in ChainAddrs(chain, false)
    ensures Offset(c, cs) <= addr + Offset(c, cs) < Slots(c, cs)
  {
    ChainFills(chain, false);
    SumIsTotal(c, cs, chain);
  }

  /** The slots in front are those of the nearest built-in ancestor; without one there are none. */
  lemma {:induction false} OffsetIsNearest(c: RtClass, b: RtClass, cs: set<RtClass>)
    requires Family(cs) && c in cs
    requires b in cs && Ancestor(b, c, cs)
    requires forall a :: a in cs && Ancestor(a, c, cs) && Ancestor(b, a, cs) && a != b ==> a.builtin.None?
    ensures b.builtin.Some? ==> Offset(c, cs) == b.builtin.value
    ensures b.builtin.None? && b.parent == null ==> Offset(c, cs) == 0
    decreases c.depth
  {
    if b != c {
      assert Ancestor(c, c, cs);
      OffsetIsNearest(c.parent, b, cs);
    }
  }

  // ----- static members -------------------------------------------------------------

  ghost predicate Ancestor(a: RtClass, c: RtClass, cs: set<RtClass>)
    requires Family(cs) && c in cs
    decreases c.depth
  {
    a == c || (c.parent != null && Ancestor(a, c.parent, cs))
  }

  /** Where the walk is: the address is one of the class or of its ancestors. */
  ghost predicate Below(c: RtClass, cs: set<RtClass>, chain: seq<Table>, idx: nat)
    requires Family(cs)
  {
    c in cs && Hierarchy(chain) && Compiled(c, cs, chain) && idx < Total(chain, true)
  }

  /** Statics of the class itself, or the walk goes on. */
  lemma OwnOrInherited(c: RtClass, cs: set<RtClass>, chain: seq<Table>, idx: nat)
    requires Family(cs) && Below(c, cs, chain, idx)
    ensures chain != [] && (c.statics != [] ==> c.statics[0].addr == Start(chain[|chain| - 1], true))
    ensures idx >= Start(chain[|chain| - 1], true) ==>
              var at := idx - Start(chain[|chain| - 1], true); at < |c.statics| && c.statics[at].addr == idx
    ensures idx < Start(chain[|chain| - 1], true) ==> c.parent != null && Below(c.parent, cs, chain[..|chain| - 1], idx)
  {
    hide Built;
    FrontHierarchy(chain);
    if c.parent == null { assert chain[..0] == []; }
  }

  /** The walk of SYM_STATIC: subtract the first address of each class that has statics,
      until the difference is not negative.  It reads the first static of the class it
      starts from, so that class must have one. */
  method SymStatic(c: RtClass, idx: nat, ghost cs: set<RtClass>, ghost chain: seq<Table>) returns (owner: RtClass, at: nat)
    requires Family(cs) && Below(c, cs, chain, idx) && c.statics != []
    ensures Ancestor(owner, c, cs) && at < |owner.statics| && owner.statics[at].addr == idx
  {
    hide Hierarchy, Compiled, Total, Start, Below;
    var cIdx: int := idx - c.statics[0].addr;
    var cls := c;
    ghost var rest := chain;
    InSet(c, cs, chain, idx);
    OwnOrInherited(cls, cs, rest, idx);
    while cls.parent != null && cIdx < 0
      invariant cls in cs && Below(cls, cs, rest, idx) && rest != []
      invariant forall a :: a in cs && Ancestor(a, cls, cs) ==> Ancestor(a, c, cs)
      invariant cIdx < 0 ==> idx < Start(rest[|rest| - 1], true)
      invariant cIdx >= 0 ==> cls.statics != [] && cIdx == idx - cls.statics[0].addr
      decreases cls.depth
    {
      OwnOrInherited(cls, cs, rest, idx);
      cls := cls.parent;
      rest := rest[..|rest| - 1];
      InSet(cls, cs, rest, idx);
      OwnOrInherited(cls, cs, rest, idx);
      if |cls.statics| == 0 { continue; }
      cIdx := idx - cls.statics[0].addr;
    }
    OwnOrInherited(cls, cs, rest, idx);
    assert Ancestor(cls, cls, cs);
    owner, at := cls, cIdx;
  }

  lemma InSet(c: RtClass, cs: set<RtClass>, chain: seq<Table>, idx: nat)
    requires Family(cs) && Below(c, cs, chain, idx)
    ensures c in cs
  {
  }
}
