/** Method lookup and the inline cache of a call site (vm/vm.c). */
module InlineCache {
  import opened Basics

  datatype Method = Method(name: string, isStatic: bool, argsCnt: nat, entry: int)

  /** A class with its ancestors. */
  datatype Class = Class(name: string, ctor: Option<Method>, methods: seq<Method>, parent: Option<Class>)

  /** The first own method with the name and the kind. */
  function Own(methods: seq<Method>, name: string, isStatic: bool): Option<Method> {
    if methods == [] then None
    else if methods[0].name == name && methods[0].isStatic == isStatic then Some(methods[0])
    else Own(methods[1..], name, isStatic)
  }

  /** What the class itself answers: its constructor whatever the kind, then a method. */
  function Declared(c: Class, name: string, isStatic: bool): Option<Method> {
    if c.ctor.Some? && c.ctor.value.name == name then c.ctor else Own(c.methods, name, isStatic)
  }

  /** The method found by walking along the parents. */
  function Lookup(c: Class, name: string, isStatic: bool): Option<Method> {
    var m := Declared(c, name, isStatic);
    if m.Some? then m
    else if c.parent.Some? then Lookup(c.parent.value, name, isStatic)
    else None
  }

  /** The walk of the virtual machine. */
  method FindMethodInClass(c: Class, name: string, isStatic: bool) returns (m: Option<Method>)
    ensures m == Lookup(c, name, isStatic)
    decreases c
  {
    if c.ctor.Some? && c.ctor.value.name == name { return c.ctor; }
    var i := 0;
    while i < |c.methods|
      invariant i <= |c.methods| && Own(c.methods[i..], name, isStatic) == Own(c.methods, name, isStatic)
    {
      assert c.methods[i..][1..] == c.methods[i + 1..];
      if c.methods[i].name == name && c.methods[i].isStatic == isStatic { return Some(c.methods[i]); }
      i := i + 1;
    }
    if c.parent.Some? {
      m := FindMethodInClass(c.parent.value, name, isStatic);
    } else {
      m := None;
    }
  }

  /** The ancestors of a class, itself first. */
  function Chain(c: Class): seq<Class> {
    [c] + (if c.parent.Some? then Chain(c.parent.value) else [])
  }

  /** The lookup answers the declaration nearest on the chain, and fails only when there is
      none on it. */
  lemma {:induction false} LookupIsNearest(c: Class, name: string, isStatic: bool) returns (j: nat)
    ensures Lookup(c, name, isStatic).Some? ==>
              j < |Chain(c)| && Declared(Chain(c)[j], name, isStatic) == Lookup(c, name, isStatic)
              && forall i :: 0 <= i < j ==> Declared(Chain(c)[i], name, isStatic).None?
    ensures Lookup(c, name, isStatic).None? ==>
              forall i :: 0 <= i < |Chain(c)| ==> Declared(Chain(c)[i], name, isStatic).None?
  {
    j := 0;
    if Declared(c, name, isStatic).None? && c.parent.Some? {
      var k := LookupIsNearest(c.parent.value, name, isStatic);
      forall i | 0 < i < |Chain(c)| ensures Chain(c)[i] == Chain(c.parent.value)[i - 1] { }
      j := k + 1;
    }
  }

  /** What a class answers itself: only methods of the name, and nothing only when none of its
      own of the kind has it and its constructor has another name. */
  lemma DeclaredHasName(c: Class, name: string, isStatic: bool)
    ensures Declared(c, name, isStatic).Some? ==>
              var m := Declared(c, name, isStatic).value;
              m.name == name && (c.ctor == Some(m) || (m in c.methods && m.isStatic == isStatic))
    ensures Declared(c, name, isStatic).None? ==>
              (c.ctor.Some? ==> c.ctor.value.name != name)
              && forall m :: m in c.methods && m.name == name ==> m.isStatic != isStatic
    ensures c.ctor.Some? && c.ctor.value.name == name ==> Declared(c, name, isStatic) == c.ctor
  {
    OwnHasName(c.methods, name, isStatic);
  }

  lemma {:induction false} OwnHasName(ms: seq<Method>, name: string, isStatic: bool)
    ensures var m := Own(ms, name, isStatic);
            if m.Some? then m.value in ms && m.value.name == name && m.value.isStatic == isStatic
            else forall x :: x in ms && x.name == name ==> x.isStatic != isStatic
  {
    if ms != [] {
      OwnHasName(ms[1..], name, isStatic);
      assert ms == [ms[0]] + ms[1..];
    }
  }

  // ----- call sites -----------------------------------------------------------------

  /** The receiver of a call: a class, or an instance of one. */
  datatype Receiver = ClassItself(c: Class) | Instance(c: Class)

  /** What a call instruction fixes: the name, the number of arguments, and for a call of
      the parent's method the class to start at. */
  datatype Site = Site(name: string, args: nat, parent: Option<Class>)

  datatype Target = NoMethod | WrongArguments | Target(m: Method)

  function StartClass(site: Site, r: Receiver): Class {
    if site.parent.Some? then site.parent.value else r.c
  }

  /** The method a call means, without any cache. */
  function Resolve(site: Site, r: Receiver): Target {
    var m := Lookup(StartClass(site, r), site.name, r.ClassItself?);
    if m.None? then NoMethod else if m.value.argsCnt != site.args then WrongArguments else Target(m.value)
  }

  /** A call of the parent's method means what a call on the parent means, whatever the class
      of the receiver declares; any other call means the nearest declaration of the receiver's
      own class, with the number of arguments checked. */
  lemma ParentCalls(name: string, args: nat, p: Class, r: Receiver)
    ensures Resolve(Site(name, args, Some(p)), r) ==
            Resolve(Site(name, args, None), if r.ClassItself? then ClassItself(p) else Instance(p))
    ensures var m := Declared(r.c, name, r.ClassItself?);
            m.Some? ==> Resolve(Site(name, args, None), r) ==
                        if m.value.argsCnt == args then Target(m.value) else WrongArguments
    ensures Declared(r.c, name, r.ClassItself?).None? && r.c.parent == Some(p) ==>
              Resolve(Site(name, args, None), r) == Resolve(Site(name, args, Some(p)), r)
    ensures Declared(r.c, name, r.ClassItself?).None? && r.c.parent.None? ==> Resolve(Site(name, args, None), r) == NoMethod
  {
  }

  /** What the bytecode behind a call remembers: a class and a method, keyed by the class
      alone. */
  datatype Cache = Cold | Cache(cls: Class, mth: Method)

  /** A call: the cached method when the class is the cached one, else the lookup, which
      fills the cache when it succeeds. */
  function Answer(k: Cache, site: Site, r: Receiver): Target {
    if k.Cache? && k.cls == StartClass(site, r) then Target(k.mth) else Resolve(site, r)
  }

  function After(k: Cache, site: Site, r: Receiver): Cache {
    var t := Resolve(site, r);
    if (k.Cache? && k.cls == StartClass(site, r)) || !t.Target? then k else Cache(StartClass(site, r), t.m)
  }

  class CallSite {
    const site: Site
    var cls: Option<Class>
    var mth: Option<Method>

    predicate Valid()
      reads this
    {
      cls.Some? == mth.Some?
    }

    function Contents(): Cache
      reads this
      requires Valid()
    {
      if cls.None? then Cold else Cache(cls.value, mth.value)
    }

    constructor (s: Site)
      ensures Valid() && site == s && Contents() == Cold
    {
      site, cls, mth := s, None, None;
    }

    method Dispatch(r: Receiver) returns (t: Target)
      requires Valid()
      modifies this
      ensures Valid() && t == Answer(old(Contents()), site, r) && Contents() == After(old(Contents()), site, r)
    {
      var c := StartClass(site, r);
      if cls != Some(c) {
        var m := FindMethodInClass(c, site.name, r.ClassItself?);
        if m.None? { return NoMethod; }
        if m.value.argsCnt != site.args { return WrongArguments; }
        cls, mth := Some(c), m;
      }
      t := Target(mth.value);
    }
  }

  // ----- whole runs -----------------------------------------------------------------

  /** The answers of a call site to a run of receivers. */
  function Answers(k: Cache, site: Site, rs: seq<Receiver>): (ts: seq<Target>)
    ensures |ts| == |rs|
    decreases |rs|
  {
    if rs == [] then [] else [Answer(k, site, rs[0])] + Answers(After(k, site, rs[0]), site, rs[1..])
  }

  /** Receivers for which the lookup starts at one class get one answer. */
  ghost predicate Agreeing(site: Site, rs: set<Receiver>) {
    forall a, b :: a in rs && b in rs && StartClass(site, a) == StartClass(site, b) && Resolve(site, a).Target? ==>
      Resolve(site, b) == Resolve(site, a)
  }

  /** The cache holds the answer for some receiver of the site. */
  ghost predicate Filled(k: Cache, site: Site, rs: set<Receiver>) {
    k.Cache? ==> exists r :: r in rs && StartClass(site, r) == k.cls && Resolve(site, r) == Target(k.mth)
  }

  lemma {:induction false} AnswersResolve(k: Cache, site: Site, rs: set<Receiver>, run: seq<Receiver>, i: nat)
    requires Agreeing(site, rs) && Filled(k, site, rs) && (forall r :: r in run ==> r in rs) && i < |run|
    ensures Answers(k, site, run)[i] == Resolve(site, run[i])
    decreases i
  {
    assert run[0] in rs;
    if i > 0 {
      AnswersResolve(After(k, site, run[0]), site, rs, run[1..], i - 1);
    }
  }

  /** Every call of every run gets what the lookup without cache answers. */
  ghost predicate AlwaysResolves(site: Site, rs: set<Receiver>) {
    forall run: seq<Receiver>, i: nat :: (forall r :: r in run ==> r in rs) && i < |run| ==>
      Answers(Cold, site, run)[i] == Resolve(site, run[i])
  }

  /** A call site with its cache behaves as the lookup without cache, on every run of its
      receivers, exactly when receivers of one start class get one answer. */
  lemma CacheIsExact(site: Site, rs: set<Receiver>)
    ensures AlwaysResolves(site, rs) <==> Agreeing(site, rs)
  {
    if Agreeing(site, rs) {
      forall run: seq<Receiver>, i: nat | (forall r :: r in run ==> r in rs) && i < |run|
        ensures Answers(Cold, site, run)[i] == Resolve(site, run[i])
      {
        AnswersResolve(Cold, site, rs, run, i);
      }
    }
    if AlwaysResolves(site, rs) {
      forall a, b | a in rs && b in rs && StartClass(site, a) == StartClass(site, b) && Resolve(site, a).Target?
        ensures Resolve(site, b) == Resolve(site, a)
      {
        var run := [a, b];
        assert run[1..] == [b];
        assert Answers(Cold, site, run)[1] == Answer(After(Cold, site, a), site, b);
        assert Answers(Cold, site, run)[1] == Resolve(site, run[1]);
      }
    }
  }

  /** No class is used at the site both by itself and by an instance. */
  ghost predicate OneKind(site: Site, rs: set<Receiver>) {
    forall a, b :: a in rs && b in rs && StartClass(site, a) == StartClass(site, b) ==> a.ClassItself? == b.ClassItself?
  }

  lemma OneKindAgrees(site: Site, rs: set<Receiver>)
    requires OneKind(site, rs)
    ensures Agreeing(site, rs) && AlwaysResolves(site, rs)
  {
    CacheIsExact(site, rs);
  }

  /** A class with a static and an instance method of one name: once an instance has called,
      the cache answers a call of the class with the instance's method. */
  lemma MixedKindsConfuse()
    ensures var i, s := Method("run", false, 0, 10), Method("run", true, 0, 20);
            var c := Class("A", None, [i, s], None);
            var site := Site("run", 0, None);
            && Resolve(site, ClassItself(c)) == Target(s)
            && Answers(Cold, site, [Instance(c), ClassItself(c)])[1] == Target(i)
  {
    var i, s := Method("run", false, 0, 10), Method("run", true, 0, 20);
    var c := Class("A", None, [i, s], None);
    assert [i, s][1..] == [s];
    assert Own([i, s], "run", true) == Some(s);
    assert [Instance(c), ClassItself(c)][1..] == [ClassItself(c)];
  }

  /** A run of one call site through the virtual machine. */
  method RunSite(site: Site, rs: seq<Receiver>) returns (ts: seq<Target>)
    ensures ts == Answers(Cold, site, rs)
  {
    var cs := new CallSite(site);
    ts := [];
    var i := 0;
    while i < |rs|
      invariant i <= |rs| && cs.Valid() && cs.site == site && fresh(cs)
      invariant ts + Answers(cs.Contents(), site, rs[i..]) == Answers(Cold, site, rs)
    {
      ghost var k := cs.Contents();
      var t := cs.Dispatch(rs[i]);
      assert rs[i..][1..] == rs[i + 1..];
      assert ts + ([t] + Answers(cs.Contents(), site, rs[i + 1..])) == ts + [t] + Answers(cs.Contents(), site, rs[i + 1..]);
      ts := ts + [t];
      i := i + 1;
    }
  }
}
