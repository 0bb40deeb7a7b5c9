/** The writer of classes (compiler/bcout.cpp): symbols are partitioned in place, counts are
    written as placeholders and patched. */
module ClassFileWriter {
  import opened Basics
  import opened Operators
  import opened ClassFile

  // ----- the symbols of a class -----------------------------------------------------

  class PrvekTab {
    const sym: Sym
    const isStatic: bool
    var dalsi: PrvekTab?

    constructor (s: Sym, b: bool, n: PrvekTab?)
      ensures sym == s && isStatic == b && dalsi == n
    {
      sym, isStatic, dalsi := s, b, n;
    }
  }

  ghost predicate Distinct(ns: seq<PrvekTab>) {
    forall i, j :: 0 <= i < j < |ns| ==> ns[i] != ns[j]
  }

  ghost function Follower(ns: seq<PrvekTab>, i: nat): PrvekTab? {
    if i + 1 < |ns| then ns[i + 1] else null
  }

  /** The nodes hang together one behind the other; where the last one points is left open. */
  ghost predicate Joined(head: PrvekTab?, ns: seq<PrvekTab>)
    reads ns`dalsi
  {
    && head == (if ns == [] then null else ns[0])
    && forall i :: 0 <= i < |ns| - 1 ==> ns[i].dalsi == Follower(ns, i)
  }

  ghost predicate List(head: PrvekTab?, ns: seq<PrvekTab>)
    reads ns`dalsi
  {
    Joined(head, ns) && Distinct(ns) && (ns != [] ==> ns[|ns| - 1].dalsi == null)
  }

  /** The nodes of one kind among the first `i`, in their order. */
  ghost function Kind(ns: seq<PrvekTab>, i: nat, isStatic: bool): seq<PrvekTab>
    requires i <= |ns|
  {
    if i == 0 then []
    else Kind(ns, i - 1, isStatic) + if ns[i - 1].isStatic == isStatic then [ns[i - 1]] else []
  }

  ghost function SymsOf(ns: seq<PrvekTab>): (r: seq<Sym>)
    ensures |r| == |ns| && forall i :: 0 <= i < |ns| ==> r[i] == ns[i].sym
  {
    if ns == [] then [] else [ns[0].sym] + SymsOf(ns[1..])
  }

  /** The part holds exactly the nodes of the kind, each once. */
  lemma {:induction false} KindInside(ns: seq<PrvekTab>, i: nat, b: bool)
    requires Distinct(ns) && i <= |ns|
    ensures Distinct(Kind(ns, i, b))
    ensures forall k :: 0 <= k < |ns| ==> (ns[k] in Kind(ns, i, b) <==> k < i && ns[k].isStatic == b)
    ensures forall n :: n in Kind(ns, i, b) ==> n in ns && n.isStatic == b
  {
    if i > 0 {
      KindInside(ns, i - 1, b);
      DistinctAppend(Kind(ns, i - 1, b), ns[i - 1]);
    }
  }

  lemma DistinctAppend(part: seq<PrvekTab>, x: PrvekTab)
    requires Distinct(part)
    ensures x !in part ==> Distinct(part + [x])
  {
  }

  /** What has not been divided yet still hangs together as at the beginning. */
  ghost predicate Rest(ns: seq<PrvekTab>, i: nat)
    reads ns`dalsi
  {
    forall k :: i <= k < |ns| ==> ns[k].dalsi == Follower(ns, k)
  }

  ghost function Last(part: seq<PrvekTab>): PrvekTab? {
    if part == [] then null else part[|part| - 1]
  }

  /** Appending a node to a part: its last node is made to point to it. */
  method Append(head: PrvekTab?, last: PrvekTab, x: PrvekTab, ghost part: seq<PrvekTab>)
    requires Joined(head, part) && Distinct(part) && last == Last(part)
    modifies last`dalsi
    ensures Joined(head, part + [x])
  {
    assert forall i :: 0 <= i < |part| - 1 ==> part[i] != part[|part| - 1];
    last.dalsi := x;
  }

  /** Ends a part behind its last node. */
  method Close(head: PrvekTab?, last: PrvekTab, ghost part: seq<PrvekTab>)
    requires Joined(head, part) && Distinct(part) && last == Last(part)
    modifies last`dalsi
    ensures List(head, part)
  {
    assert forall i :: 0 <= i < |part| - 1 ==> part[i] != part[|part| - 1];
    last.dalsi := null;
  }

  /** One part while the list is being divided. */
  ghost predicate Part(head: PrvekTab?, last: PrvekTab?, ns: seq<PrvekTab>, i: nat, b: bool)
    requires i <= |ns|
    reads Kind(ns, i, b)`dalsi
  {
    Joined(head, Kind(ns, i, b)) && last == Last(Kind(ns, i, b))
  }

  /** One node goes to its part; the other part and the rest of the list stay. */
  method Place(head: PrvekTab?, last: PrvekTab?, sym: PrvekTab, ghost otherHead: PrvekTab?, ghost otherLast: PrvekTab?,
               ghost ns: seq<PrvekTab>, ghost i: nat) returns (newHead: PrvekTab)
    requires Distinct(ns) && i < |ns| && sym == ns[i] && Rest(ns, i)
    requires Part(head, last, ns, i, sym.isStatic) && Part(otherHead, otherLast, ns, i, !sym.isStatic)
    modifies ns`dalsi
    ensures Rest(ns, i)
    ensures Part(newHead, sym, ns, i + 1, sym.isStatic) && Part(otherHead, otherLast, ns, i + 1, !sym.isStatic)
  {
    hide Kind, Last;
    ghost var b := sym.isStatic;
    KindStep(ns, i);
    KindInside(ns, i, b);
    PartsApart(ns, i, b);
    ghost var other := Kind(ns, i, !b);
    assert Joined(otherHead, other);
    assert forall k :: 0 <= k < |other| - 1 ==> other[k].dalsi == Follower(other, k);
    if last != null {
      assert forall k :: i <= k < |ns| ==> ns[k] != last;
      forall k | 0 <= k < |other| ensures other[k] != last { assert other[k] in other; }
    }
    if last == null {
      newHead := sym;
      JustOne(Kind(ns, i, b), sym);
    } else {
      Append(head, last, sym, Kind(ns, i, b));
      newHead := head;
      forall k | 0 <= k < |other| - 1 ensures other[k].dalsi == Follower(other, k) { assert other[k] != last; }
      assert Joined(otherHead, other);
    }
    assert Joined(otherHead, other) && otherLast == Last(other);
    assert Kind(ns, i + 1, !sym.isStatic) == other;
  }

  lemma JustOne(part: seq<PrvekTab>, x: PrvekTab)
    requires Last(part) == null
    ensures part == [] && Joined(x, part + [x])
  {
  }

  lemma KindStep(ns: seq<PrvekTab>, i: nat)
    requires i < |ns|
    ensures Kind(ns, i + 1, ns[i].isStatic) == Kind(ns, i, ns[i].isStatic) + [ns[i]]
    ensures Kind(ns, i + 1, !ns[i].isStatic) == Kind(ns, i, !ns[i].isStatic)
    ensures Last(Kind(ns, i + 1, ns[i].isStatic)) == ns[i]
  {
  }

  lemma PartsApart(ns: seq<PrvekTab>, i: nat, b: bool)
    requires Distinct(ns) && i <= |ns|
    ensures forall n :: n in Kind(ns, i, b) ==> n !in Kind(ns, i, !b)
    ensures Last(Kind(ns, i, b)) != null ==> Last(Kind(ns, i, b)) in Kind(ns, i, b)
  {
    KindInside(ns, i, b);
    KindInside(ns, i, !b);
    var part := Kind(ns, i, b);
    if part != [] { assert part[|part| - 1] in part; }
  }

  /** Divides the linked symbols into the static and the instance ones, keeping the order
      of each kind. */
  method DivideSyms(head: PrvekTab?, ghost ns: seq<PrvekTab>) returns (statics: PrvekTab?, instances: PrvekTab?)
    requires List(head, ns)
    modifies ns`dalsi
    ensures List(statics, Kind(ns, |ns|, true)) && List(instances, Kind(ns, |ns|, false))
  {
    hide Kind;
    statics, instances := null, null;
    var lastStatic: PrvekTab?, lastInstance: PrvekTab? := null, null;
    var sym := head;
    ghost var i := 0;
    Begin(head, ns);
    while sym != null
      invariant 0 <= i <= |ns| && sym == if i < |ns| then ns[i] else null
      invariant Rest(ns, i) && Part(statics, lastStatic, ns, i, true) && Part(instances, lastInstance, ns, i, false)
      decreases |ns| - i
    {
      if sym.isStatic {
        statics := Place(statics, lastStatic, sym, instances, lastInstance, ns, i);
        lastStatic := sym;
      } else {
        instances := Place(instances, lastInstance, sym, statics, lastStatic, ns, i);
        lastInstance := sym;
      }
      assert sym == ns[i] && ns[i].dalsi == Follower(ns, i);
      sym := sym.dalsi;
      i := i + 1;
    }
    CloseBoth(statics, lastStatic, instances, lastInstance, ns);
  }

  /** Both parts end behind their last nodes. */
  method CloseBoth(statics: PrvekTab?, lastStatic: PrvekTab?, instances: PrvekTab?, lastInstance: PrvekTab?, ghost ns: seq<PrvekTab>)
    requires Distinct(ns) && Part(statics, lastStatic, ns, |ns|, true) && Part(instances, lastInstance, ns, |ns|, false)
    modifies ns`dalsi
    ensures List(statics, Kind(ns, |ns|, true)) && List(instances, Kind(ns, |ns|, false))
  {
    hide Kind;
    ghost var ps, pi := Kind(ns, |ns|, true), Kind(ns, |ns|, false);
    KindInside(ns, |ns|, true);
    KindInside(ns, |ns|, false);
    PartsApart(ns, |ns|, true);
    PartsApart(ns, |ns|, false);
    assert forall k :: 0 <= k < |pi| ==> pi[k] in pi && pi[k] in ns;
    assert forall k :: 0 <= k < |ps| ==> ps[k] in ps && ps[k] in ns;
    NothingToClose(instances, lastInstance, pi);
    CloseApart(instances, lastInstance, pi, statics, ps);
    NothingToClose(statics, lastStatic, ps);
    CloseApart(statics, lastStatic, ps, instances, pi);
  }

  /** Ending one part leaves the other as it is. */
  method CloseApart(head: PrvekTab?, last: PrvekTab?, ghost part: seq<PrvekTab>, ghost otherHead: PrvekTab?, ghost other: seq<PrvekTab>)
    requires Joined(head, part) && Distinct(part) && last == Last(part) && Joined(otherHead, other)
    requires forall n :: n in part ==> n !in other
    requires last == null ==> List(head, part)
    modifies part`dalsi
    ensures List(head, part) && Joined(otherHead, other) && (old(List(otherHead, other)) ==> List(otherHead, other))
  {
    if last != null {
      assert last in part;
      assert forall k :: 0 <= k < |other| - 1 ==> other[k].dalsi == Follower(other, k);
      Close(head, last, part);
      forall k | 0 <= k < |other| ensures other[k] != last { assert other[k] in other; }
      forall k | 0 <= k < |other| - 1 ensures other[k].dalsi == Follower(other, k) { assert other[k] != last; }
    }
  }

  lemma NothingToClose(head: PrvekTab?, last: PrvekTab?, part: seq<PrvekTab>)
    requires Joined(head, part) && last == Last(part)
    ensures last == null ==> List(head, part)
  {
  }

  lemma Begin(head: PrvekTab?, ns: seq<PrvekTab>)
    requires List(head, ns)
    ensures Rest(ns, 0) && head == (if ns == [] then null else ns[0])
    ensures Part(null, null, ns, 0, true) && Part(null, null, ns, 0, false)
  {
  }

  // ----- the buffer -----------------------------------------------------------------

  /** A class as the compiler holds it, without its symbols. */
  datatype ClassIn = ClassIn(name: Str, parent: Option<Str>, staticInit: Option<Method>, ctor: Option<Method>, methods: seq<Method>)

  function DefOf(c: ClassIn, statics: seq<Sym>, instances: seq<Sym>): ClassDef {
    ClassDef(c.name, if c.parent.Some? then c.parent.value else [], statics, instances, c.staticInit, c.ctor, c.methods)
  }

  lemma {:induction false} SymListAppend(ss: seq<Sym>, i: nat)
    requires SymsFit(ss) && i < |ss|
    ensures SymsFit(ss[..i]) && SymsFit(ss[..i + 1]) && ESymList(ss[..i + 1]) == ESymList(ss[..i]) + ESym(ss[i])
  {
    assert ss[..i + 1][..i] == ss[..i];
  }

  lemma MethodListAppend(ms: seq<Method>, i: nat)
    requires MethodsFit(ms) && i < |ms|
    ensures MethodsFit(ms[..i]) && MethodsFit(ms[..i + 1]) && EMethodList(ms[..i + 1]) == EMethodList(ms[..i]) + EMethod(ms[i])
  {
    assert ms[..i + 1][..i] == ms[..i];
  }

  lemma Patched(a: seq<byte>, n: u32, b: seq<byte>)
    ensures a + E32(n) + b == (a + E32(0) + b)[..|a|] + E32(n) + (a + E32(0) + b)[|a| + 4..]
  {
    var c := a + E32(0) + b;
    assert c[..|a|] == a && c[|a| + 4..] == b;
  }

  class ClassOut {
    var out: seq<byte>

    constructor ()
      ensures out == []
    {
      out := [];
    }

    method W8(n: byte)
      modifies this
      ensures out == old(out) + E8(n)
    {
      out := out + [n];
    }

    method W32(n: u32) returns (at: nat)
      modifies this
      ensures out == old(out) + E32(n) && at == |old(out)|
    {
      at := |out|;
      out := out + E32(n);
    }

    /** Overwrites four bytes. */
    method Patch32(at: nat, n: u32)
      requires at + 4 <= |out|
      modifies this
      ensures out == old(out)[..at] + E32(n) + old(out)[at + 4..]
    {
      out := out[..at] + E32(n) + out[at + 4..];
    }

    method WStr(s: Str)
      requires Short(s)
      modifies this
      ensures out == old(out) + EStr(s)
    {
      var _ := W32(|s|);
      if |s| > 0 { out := out + s; }
      assert old(out) + E32(|s|) + s == old(out) + (E32(|s|) + s);
    }

    method WSymbol(s: Sym)
      requires SymFits(s)
      modifies this
      ensures out == old(out) + ESym(s)
    {
      WStr(s.name);
      var _ := W32(s.addr);
      var _ := W32(s.constPtr);
      assert old(out) + EStr(s.name) + E32(s.addr) + E32(s.constPtr) == old(out) + ESym(s);
    }

    /** A linked list of symbols: a placeholder for their number, the symbols, the number. */
    method WPrvekTab(head: PrvekTab?, ghost ns: seq<PrvekTab>)
      requires List(head, ns) && Short(ns) && SymsFit(SymsOf(ns))
      modifies this
      ensures out == old(out) + ESyms(SymsOf(ns))
    {
      hide ESym, E32, ESymList;
      ghost var ss, out0 := SymsOf(ns), out;
      var at := W32(0);
      var cnt := 0;
      var p := head;
      SymListEmpty(ss);
      assert out == out0 + E32(0) + [];
      while p != null
        invariant 0 <= cnt <= |ns| && p == if cnt < |ns| then ns[cnt] else null
        invariant SymsFit(ss[..cnt]) && out == out0 + E32(0) + ESymList(ss[..cnt])
        decreases |ns| - cnt
      {
        WSymbol(p.sym);
        SymListAppend(ss, cnt);
        Join2(out0 + E32(0), ESymList(ss[..cnt]), ESym(ss[cnt]));
        assert ns[cnt].dalsi == Follower(ns, cnt);
        p := p.dalsi;
        cnt := cnt + 1;
      }
      assert ss[..cnt] == ss;
      Patched(out0, cnt, ESymList(ss));
      Patch32(at, cnt);
      Join2(out0, E32(cnt), ESymList(ss));
    }

    method WMethod(m: Method)
      requires MethodFits(m)
      modifies this
      ensures out == old(out) + EMethod(m)
    {
      hide EStr, E32;
      WStr(m.name);
      var _ := W32(m.args);
      var _ := W32(m.locals);
      var _ := W32(m.entry);
      W8(if m.isStatic then 1 else 0);
      assert old(out) + EStr(m.name) + E32(m.args) + E32(m.locals) + E32(m.entry) + E8(if m.isStatic then 1 else 0)
          == old(out) + EMethod(m);
    }

    method WOptional(m: Option<Method>)
      requires OptFits(m)
      modifies this
      ensures out == old(out) + EOpt(m)
    {
      hide EMethod;
      if m.Some? {
        W8(1);
        WMethod(m.value);
        Join2(old(out), E8(1), EMethod(m.value));
      } else {
        W8(0);
      }
    }

    method WMethods(ms: seq<Method>)
      requires Short(ms) && MethodsFit(ms)
      modifies this
      ensures out == old(out) + EMethods(ms)
    {
      hide EMethod, E32, EMethodList;
      ghost var out0 := out;
      var at := W32(0);
      var cnt := 0;
      MethodListEmpty(ms);
      assert out == out0 + E32(0) + [];
      while cnt < |ms|
        invariant 0 <= cnt <= |ms| && MethodsFit(ms[..cnt]) && out == out0 + E32(0) + EMethodList(ms[..cnt])
      {
        WMethod(ms[cnt]);
        MethodListAppend(ms, cnt);
        Join2(out0 + E32(0), EMethodList(ms[..cnt]), EMethod(ms[cnt]));
        cnt := cnt + 1;
      }
      assert ms[..cnt] == ms;
      Patched(out0, cnt, EMethodList(ms));
      Patch32(at, cnt);
      Join2(out0, E32(cnt), EMethodList(ms));
    }

    /** A class: its linked symbols are divided first. */
    method WClass(c: ClassIn, head: PrvekTab?, ghost ns: seq<PrvekTab>)
      requires List(head, ns)
      requires ClassFits(DefOf(c, SymsOf(Kind(ns, |ns|, true)), SymsOf(Kind(ns, |ns|, false))))
      modifies this, ns`dalsi
      ensures out == old(out) + EClass(DefOf(c, SymsOf(Kind(ns, |ns|, true)), SymsOf(Kind(ns, |ns|, false))))
    {
      hide EStr, ESyms, EOpt, EMethods, List, Kind;
      ghost var st, si := Kind(ns, |ns|, true), Kind(ns, |ns|, false);
      ghost var def := DefOf(c, SymsOf(st), SymsOf(si));
      ghost var out0 := out;
      WStr(c.name);
      WStr(if c.parent.Some? then c.parent.value else []);
      var statics, instances := DivideSyms(head, ns);
      WPrvekTab(statics, st);
      WPrvekTab(instances, si);
      WOptional(c.staticInit);
      WOptional(c.ctor);
      WMethods(c.methods);
      GlueClass(out0, EStr(def.name), EStr(def.parent), ESyms(def.statics), ESyms(def.instances), EOpt(def.staticInit),
                EOpt(def.ctor), EMethods(def.methods));
    }
  }

  lemma SymListEmpty(ss: seq<Sym>)
    ensures SymsFit(ss[..0]) && ESymList(ss[..0]) == []
  {
  }

  lemma MethodListEmpty(ms: seq<Method>)
    ensures MethodsFit(ms[..0]) && EMethodList(ms[..0]) == []
  {
  }

  lemma GlueClass(o: seq<byte>, a: seq<byte>, b: seq<byte>, c: seq<byte>, d: seq<byte>, e: seq<byte>, f: seq<byte>, g: seq<byte>)
    ensures o + a + b + c + d + e + f + g == o + (a + b + c + d + e + f + g)
  {
    assert o + a + b + c + d + e + f + g == o + (a + b + c + d + e + f + g);
  }

  // ----- the whole file -------------------------------------------------------------

  /** A class with its linked symbols, as the file holds it. */
  ghost function Written(c: ClassIn, ns: seq<PrvekTab>): ClassDef {
    DefOf(c, SymsOf(Kind(ns, |ns|, true)), SymsOf(Kind(ns, |ns|, false)))
  }

  ghost function AllWritten(cs: seq<ClassIn>, lists: seq<seq<PrvekTab>>): (r: seq<ClassDef>)
    requires |cs| == |lists|
    ensures |r| == |cs| && forall i :: 0 <= i < |cs| ==> r[i] == Written(cs[i], lists[i])
  {
    if cs == [] then [] else AllWritten(cs[..|cs| - 1], lists[..|lists| - 1]) + [Written(cs[|cs| - 1], lists[|lists| - 1])]
  }

  /** No node belongs to two classes. */
  ghost predicate Separate(lists: seq<seq<PrvekTab>>) {
    forall i, j, n :: 0 <= i < |lists| && 0 <= j < |lists| && i != j && n in lists[i] ==> n !in lists[j]
  }

  ghost function Nodes(lists: seq<seq<PrvekTab>>): set<PrvekTab> {
    set i, n | 0 <= i < |lists| && n in lists[i] :: n
  }

  lemma WrittenStep(cs: seq<ClassIn>, lists: seq<seq<PrvekTab>>, i: nat)
    requires |cs| == |lists| && i < |cs| && ClassesFit(AllWritten(cs, lists))
    ensures var all := AllWritten(cs, lists);
            && ClassesFit(all[..i]) && ClassesFit(all[..i + 1]) && ClassFits(all[i])
            && EClassList(all[..i + 1]) == EClassList(all[..i]) + EClass(all[i])
  {
    hide *;
    ListStep(AllWritten(cs, lists), i);
  }

  lemma ListStep(all: seq<ClassDef>, i: nat)
    requires i < |all| && ClassesFit(all)
    ensures ClassesFit(all[..i]) && ClassesFit(all[..i + 1]) && ClassFits(all[i])
    ensures EClassList(all[..i + 1]) == EClassList(all[..i]) + EClass(all[i])
  {
    hide ClassFits, EClass;
    assert all[..i + 1][..i] == all[..i] && all[..i + 1][i] == all[i];
  }

  /** One class; the symbols of the later ones stay as they are. */
  method WriteOne(cow: ClassOut, c: ClassIn, head: PrvekTab?, ghost lists: seq<seq<PrvekTab>>, ghost heads: seq<PrvekTab?>, ghost i: nat)
    requires |heads| == |lists| && i < |lists| && Separate(lists) && List(head, lists[i])
    requires ClassFits(Written(c, lists[i]))
    requires forall j :: i < j < |lists| ==> List(heads[j], lists[j])
    modifies cow, lists[i]`dalsi
    ensures cow.out == old(cow.out) + EClass(Written(c, lists[i]))
    ensures forall j :: i < j < |lists| ==> List(heads[j], lists[j])
  {
    hide ClassFits, EClass, Kind;
    cow.WClass(c, head, lists[i]);
    forall j | i < j < |lists| ensures List(heads[j], lists[j]) {
      forall k | 0 <= k < |lists[j]| ensures lists[j][k].dalsi == old(lists[j][k].dalsi) {
        assert lists[j][k] in lists[j];
      }
    }
  }

  /** All classes, one behind the other. */
  method WriteClasses(cs: seq<ClassIn>, heads: seq<PrvekTab?>, ghost lists: seq<seq<PrvekTab>>) returns (bytes: seq<byte>)
    requires |cs| == |heads| == |lists| && ClassesFit(AllWritten(cs, lists)) && Separate(lists)
    requires forall i :: 0 <= i < |cs| ==> List(heads[i], lists[i])
    modifies Nodes(lists)
    ensures bytes == EClassList(AllWritten(cs, lists))
  {
    hide ClassFits, EClass, EClassList, List, Kind;
    ghost var all := AllWritten(cs, lists);
    var cow := new ClassOut();
    var i := 0;
    assert all[..0] == [];
    NoClasses();
    while i < |cs|
      invariant 0 <= i <= |cs| && fresh(cow)
      invariant ClassesFit(all[..i]) && cow.out == EClassList(all[..i])
      invariant forall j :: i <= j < |cs| ==> List(heads[j], lists[j])
    {
      WrittenStep(cs, lists, i);
      assert forall n :: n in lists[i] ==> n in Nodes(lists);
      WriteOne(cow, cs[i], heads[i], lists, heads, i);
      i := i + 1;
    }
    assert all[..i] == all;
    bytes := cow.out;
  }

  lemma NoClasses()
    ensures ClassesFit([]) && EClassList([]) == []
  {
  }

  /** The executable file. */
  method WriteFile(cs: seq<ClassIn>, heads: seq<PrvekTab?>, ghost lists: seq<seq<PrvekTab>>, table: seq<byte>, code: seq<byte>)
    returns (file: seq<byte>)
    requires |cs| == |heads| == |lists| && ClassesFit(AllWritten(cs, lists)) && Separate(lists)
    requires forall i :: 0 <= i < |cs| ==> List(heads[i], lists[i])
    requires Short(cs) && Sized(table) && Sized(code)
    modifies Nodes(lists)
    ensures file == EFile(Kexe(AllWritten(cs, lists), table, code))
  {
    hide ClassFits, EClassList, List;
    var bytes := WriteClasses(cs, heads, lists);
    file := E32(MAGIC) + E32(|cs|) + bytes + E64(|table|) + table + E64(|code|) + code;
  }

  // ----- the order after loading ----------------------------------------------------

  lemma {:induction false} KindAppend(ns: seq<PrvekTab>, ms: seq<PrvekTab>, i: nat, b: bool)
    requires i <= |ms|
    ensures Kind(ns + ms, |ns| + i, b) == Kind(ns, |ns|, b) + Kind(ms, i, b)
  {
    if i == 0 {
      KindPrefix(ns, ms, |ns|, b);
    } else {
      KindAppend(ns, ms, i - 1, b);
    }
  }

  lemma {:induction false} KindPrefix(ns: seq<PrvekTab>, ms: seq<PrvekTab>, i: nat, b: bool)
    requires i <= |ns|
    ensures Kind(ns + ms, i, b) == Kind(ns, i, b)
  {
    if i > 0 { KindPrefix(ns, ms, i - 1, b); }
  }

  lemma {:induction false} ReversedAppend<T>(a: seq<T>, b: seq<T>)
    ensures Reversed(a + b) == Reversed(b) + Reversed(a)
  {
    if a == [] {
      assert a + b == b;
    } else {
      assert (a + b)[1..] == a[1..] + b;
      ReversedAppend(a[1..], b);
    }
  }

  /** Taking a kind commutes with turning the list round. */
  lemma {:induction false} KindReversed(ds: seq<PrvekTab>, b: bool)
    ensures Kind(Reversed(ds), |ds|, b) == Reversed(Kind(ds, |ds|, b))
    decreases |ds|
  {
    hide Kind;
    if ds == [] {
      KindOne([], b);
    } else {
      var x, rest := [ds[0]], ds[1..];
      KindReversed(rest, b);
      KindAppend(Reversed(rest), x, 1, b);
      KindAppend(x, rest, |rest|, b);
      assert x + rest == ds;
      ReversedAppend(Kind(x, 1, b), Kind(rest, |rest|, b));
      KindOne(x, b);
    }
  }

  lemma KindOne(x: seq<PrvekTab>, b: bool)
    requires |x| <= 1
    ensures Reversed(Kind(x, |x|, b)) == Kind(x, |x|, b)
  {
  }

  lemma SymsReversed(ns: seq<PrvekTab>)
    ensures Reversed(SymsOf(Reversed(ns))) == SymsOf(ns)
  {
  }

  /** The compiler links the newest symbol first, and the loader stores symbols from the end:
      the loaded ones of each kind are in the order of their declarations. */
  lemma LoadedInDeclarationOrder(c: ClassIn, ds: seq<PrvekTab>)
    ensures var t := Turned(Written(c, Reversed(ds)));
            t.statics == SymsOf(Kind(ds, |ds|, true)) && t.instances == SymsOf(Kind(ds, |ds|, false))
  {
    KindReversed(ds, true);
    KindReversed(ds, false);
    SymsReversed(Kind(ds, |ds|, true));
    SymsReversed(Kind(ds, |ds|, false));
  }
}
