/** The executable file: what the compiler writes (compiler/bcout.cpp) and the virtual
    machine loads (vm/loader.c). */
module ClassFile {
  import opened Basics
  import opened Operators

  type byte = x: int | 0 <= x < 256
  type u32 = x: int | 0 <= x < 0x1_0000_0000
  type u64 = x: int | 0 <= x < 0x1_0000_0000_0000_0000
  type Str = seq<byte>

  const MAX32: u32 := 0xFFFF_FFFF
  const MAX64: u64 := 0xFFFF_FFFF_FFFF_FFFF
  const MAGIC: u32 := 0x4266_6CEC

  /** Unread is an element of an array that the loader has allocated and not filled. */
  datatype Sym = Sym(name: Str, addr: u32, constPtr: u32) | Unread

  datatype Method = Method(name: Str, args: u32, locals: u32, entry: u32, isStatic: bool)

  datatype ClassDef = ClassDef(name: Str, parent: Str, statics: seq<Sym>, instances: seq<Sym>,
                               staticInit: Option<Method>, ctor: Option<Method>, methods: seq<Method>)

  datatype Kexe = Kexe(classes: seq<ClassDef>, table: seq<byte>, code: seq<byte>)

  // ----- bytes ----------------------------------------------------------------------

  function E8(n: byte): seq<byte> { [n] }

  function E32(n: u32): (r: seq<byte>)
    ensures |r| == 4
  {
    [n % 256, n / 256 % 256, n / 65536 % 256, n / 0x100_0000]
  }

  function D32(d: seq<byte>, p: nat): u32
    requires p + 4 <= |d|
  {
    var a: nat, b: nat, c: nat, e: nat := d[p], d[p + 1], d[p + 2], d[p + 3];
    a + 256 * b + 65536 * c + 0x100_0000 * e
  }

  /** A size_t. */
  function E64(n: u64): (r: seq<byte>)
    ensures |r| == 8
  {
    E32(n % 0x1_0000_0000) + E32(n / 0x1_0000_0000)
  }

  function D64(d: seq<byte>, p: nat): u64
    requires p + 8 <= |d|
  {
    D32(d, p) + 0x1_0000_0000 * D32(d, p + 4)
  }

  // ----- the format -----------------------------------------------------------------

  /** Lengths and counts that 32 bits can hold. */
  predicate Short<T>(s: seq<T>) { |s| < 0x1_0000_0000 }

  /** Blocks whose length a size_t can hold. */
  predicate Sized(b: seq<byte>) { |b| < 0x1_0000_0000_0000_0000 }

  function EStr(s: Str): seq<byte>
    requires Short(s)
  {
    E32(|s|) + s
  }

  predicate SymFits(s: Sym) { s.Sym? && Short(s.name) }
  predicate MethodFits(m: Method) { Short(m.name) }
  predicate OptFits(m: Option<Method>) { m.Some? ==> MethodFits(m.value) }
  predicate SymsFit(ss: seq<Sym>) { forall i :: 0 <= i < |ss| ==> SymFits(ss[i]) }
  predicate MethodsFit(ms: seq<Method>) { forall i :: 0 <= i < |ms| ==> MethodFits(ms[i]) }

  predicate ClassFits(c: ClassDef) {
    && Short(c.name) && Short(c.parent) && Short(c.statics) && Short(c.instances) && Short(c.methods)
    && SymsFit(c.statics) && SymsFit(c.instances) && OptFits(c.staticInit) && OptFits(c.ctor) && MethodsFit(c.methods)
  }

  predicate ClassesFit(cs: seq<ClassDef>) { forall i :: 0 <= i < |cs| ==> ClassFits(cs[i]) }

  function ESym(s: Sym): seq<byte>
    requires SymFits(s)
  {
    EStr(s.name) + E32(s.addr) + E32(s.constPtr)
  }

  function ESymList(ss: seq<Sym>): seq<byte>
    requires SymsFit(ss)
  {
    if ss == [] then [] else ESymList(ss[..|ss| - 1]) + ESym(ss[|ss| - 1])
  }

  function ESyms(ss: seq<Sym>): seq<byte>
    requires Short(ss) && SymsFit(ss)
  {
    E32(|ss|) + ESymList(ss)
  }

  function EMethod(m: Method): seq<byte>
    requires MethodFits(m)
  {
    EStr(m.name) + E32(m.args) + E32(m.locals) + E32(m.entry) + E8(if m.isStatic then 1 else 0)
  }

  function EOpt(m: Option<Method>): seq<byte>
    requires OptFits(m)
  {
    if m.None? then E8(0) else E8(1) + EMethod(m.value)
  }

  function EMethodList(ms: seq<Method>): seq<byte>
    requires MethodsFit(ms)
  {
    if ms == [] then [] else EMethodList(ms[..|ms| - 1]) + EMethod(ms[|ms| - 1])
  }

  function EMethods(ms: seq<Method>): seq<byte>
    requires Short(ms) && MethodsFit(ms)
  {
    E32(|ms|) + EMethodList(ms)
  }

  function EClass(c: ClassDef): seq<byte>
    requires ClassFits(c)
  {
    EStr(c.name) + EStr(c.parent) + ESyms(c.statics) + ESyms(c.instances) + EOpt(c.staticInit) + EOpt(c.ctor)
    + EMethods(c.methods)
  }

  function EClassList(cs: seq<ClassDef>): seq<byte>
    requires ClassesFit(cs)
  {
    if cs == [] then [] else EClassList(cs[..|cs| - 1]) + EClass(cs[|cs| - 1])
  }

  function EFile(k: Kexe): seq<byte>
    requires Short(k.classes) && ClassesFit(k.classes) && Sized(k.table) && Sized(k.code)
  {
    E32(MAGIC) + E32(|k.classes|) + EClassList(k.classes) + E64(|k.table|) + k.table + E64(|k.code|) + k.code
  }

  // ----- loading --------------------------------------------------------------------

  /** The loader either fails, which ends the virtual machine, or has a value and a new
      place in the file. */
  datatype Got<+T> = Err | Got(v: T, pos: nat)

  function R8(d: seq<byte>, p: nat): Got<byte> {
    if p + 1 <= |d| then Got(d[p], p + 1) else Err
  }

  /** All ones is how a failed read shows, so it is refused as a value as well. */
  function R8Checked(d: seq<byte>, p: nat): Got<byte> {
    var r := R8(d, p);
    if r.Got? && r.v == 255 then Err else r
  }

  function R32(d: seq<byte>, p: nat): Got<u32> {
    if p + 4 <= |d| && D32(d, p) != MAX32 then Got(D32(d, p), p + 4) else Err
  }

  predicate NoZero(s: Str) { forall i :: 0 <= i < |s| ==> s[i] != 0 }

  function RBytes(d: seq<byte>, p: nat, n: nat): Got<seq<byte>> {
    if p + n <= |d| then Got(d[p..p + n], p + n) else Err
  }

  /** The loader asserts that the length is that of the C string. */
  function RStr(d: seq<byte>, p: nat): Got<Str> {
    var n := R32(d, p);
    if n.Err? then Err
    else
      var s := RBytes(d, n.pos, n.v);
      if s.Err? || !NoZero(s.v) then Err else s
  }

  function RSym(d: seq<byte>, p: nat): Got<Sym> {
    var s := RStr(d, p);
    if s.Err? then Err else
    var a := R32(d, s.pos);
    if a.Err? then Err else
    var c := R32(d, a.pos);
    if c.Err? then Err else Got(Sym(s.v, a.v, c.v), c.pos)
  }

  /** `n` symbols; the first of the file goes to the end of the array. */
  function RSymArray(d: seq<byte>, p: nat, n: nat): Got<seq<Sym>>
    decreases n
  {
    if n == 0 then Got([], p)
    else
      var s := RSym(d, p);
      if s.Err? then Err
      else
        var rest := RSymArray(d, s.pos, n - 1);
        if rest.Err? then Err else Got(rest.v + [s.v], rest.pos)
  }

  /** An int counts the symbols down.  For a larger number it is negative at once, and no
      symbol is read: the loader goes on with the array as it was allocated. */
  predicate Countable(n: int) { n <= 0x8000_0000 }

  function Unfilled(n: nat): seq<Sym> { seq(n, _ => Unread) }

  function RSyms(d: seq<byte>, p: nat): Got<seq<Sym>> {
    var n := R32(d, p);
    if n.Err? then Err
    else if Countable(n.v) then RSymArray(d, n.pos, n.v)
    else Got(Unfilled(n.v), n.pos)
  }

  function RMethod(d: seq<byte>, p: nat): Got<Method> {
    var s := RStr(d, p);
    if s.Err? then Err else
    var a := R32(d, s.pos);
    if a.Err? then Err else
    var l := R32(d, a.pos);
    if l.Err? then Err else
    var e := R32(d, l.pos);
    if e.Err? then Err else
    var b := R8Checked(d, e.pos);
    if b.Err? then Err else Got(Method(s.v, a.v, l.v, e.v, b.v != 0), b.pos)
  }

  function ROpt(d: seq<byte>, p: nat): Got<Option<Method>> {
    var b := R8Checked(d, p);
    if b.Err? then Err
    else if b.v == 0 then Got(None, b.pos)
    else
      var m := RMethod(d, b.pos);
      if m.Err? then Err else Got(Some(m.v), m.pos)
  }

  function RMethodArray(d: seq<byte>, p: nat, n: nat): Got<seq<Method>>
    decreases n
  {
    if n == 0 then Got([], p)
    else
      var m := RMethod(d, p);
      if m.Err? then Err
      else
        var rest := RMethodArray(d, m.pos, n - 1);
        if rest.Err? then Err else Got([m.v] + rest.v, rest.pos)
  }

  function RMethods(d: seq<byte>, p: nat): Got<seq<Method>> {
    var n := R32(d, p);
    if n.Err? then Err else RMethodArray(d, n.pos, n.v)
  }

  function RClass(d: seq<byte>, p: nat): Got<ClassDef> {
    var n := RStr(d, p);
    if n.Err? then Err else
    var pa := RStr(d, n.pos);
    if pa.Err? then Err else
    var ss := RSyms(d, pa.pos);
    if ss.Err? then Err else
    var si := RSyms(d, ss.pos);
    if si.Err? then Err else
    var i := ROpt(d, si.pos);
    if i.Err? then Err else
    var c := ROpt(d, i.pos);
    if c.Err? then Err else
    var ms := RMethods(d, c.pos);
    if ms.Err? then Err else Got(ClassDef(n.v, pa.v, ss.v, si.v, i.v, c.v, ms.v), ms.pos)
  }

  function RClassArray(d: seq<byte>, p: nat, n: nat): Got<seq<ClassDef>>
    decreases n
  {
    if n == 0 then Got([], p)
    else
      var c := RClass(d, p);
      if c.Err? then Err
      else
        var rest := RClassArray(d, c.pos, n - 1);
        if rest.Err? then Err else Got([c.v] + rest.v, rest.pos)
  }

  function RSize(d: seq<byte>, p: nat): Got<u64> {
    if p + 8 <= |d| && D64(d, p) != MAX64 then Got(D64(d, p), p + 8) else Err
  }

  function RBlock(d: seq<byte>, p: nat): Got<seq<byte>> {
    var n := RSize(d, p);
    if n.Err? then Err else RBytes(d, n.pos, n.v)
  }

  function RFile(d: seq<byte>): Got<Kexe> {
    var m := R32(d, 0);
    if m.Err? || m.v != MAGIC then Err else
    var n := R32(d, m.pos);
    if n.Err? then Err else
    var cs := RClassArray(d, n.pos, n.v);
    if cs.Err? then Err else
    var t := RBlock(d, cs.pos);
    if t.Err? then Err else
    var b := RBlock(d, t.pos);
    if b.Err? then Err else Got(Kexe(cs.v, t.v, b.v), b.pos)
  }

  // ----- what survives --------------------------------------------------------------

  predicate GoodNumber(n: int) { n != 0xFFFF_FFFF }

  /** A C string shorter than all ones. */
  predicate GoodStr(s: Str) { |s| < 0xFFFF_FFFF && NoZero(s) }
  predicate GoodSym(s: Sym) { s.Sym? && GoodStr(s.name) && GoodNumber(s.addr) && GoodNumber(s.constPtr) }
  predicate GoodMethod(m: Method) { GoodStr(m.name) && GoodNumber(m.args) && GoodNumber(m.locals) && GoodNumber(m.entry) }
  predicate GoodOpt(m: Option<Method>) { m.Some? ==> GoodMethod(m.value) }
  predicate GoodSyms(ss: seq<Sym>) { forall i :: 0 <= i < |ss| ==> GoodSym(ss[i]) }
  predicate GoodMethods(ms: seq<Method>) { forall i :: 0 <= i < |ms| ==> GoodMethod(ms[i]) }

  predicate Counted(c: ClassDef) { Countable(|c.statics|) && Countable(|c.instances|) }

  predicate GoodClass(c: ClassDef) {
    && GoodStr(c.name) && GoodStr(c.parent) && Counted(c) && GoodNumber(|c.methods|)
    && GoodSyms(c.statics) && GoodSyms(c.instances) && GoodOpt(c.staticInit) && GoodOpt(c.ctor) && GoodMethods(c.methods)
  }

  predicate GoodClasses(cs: seq<ClassDef>) { forall i :: 0 <= i < |cs| ==> GoodClass(cs[i]) }

  predicate AllCounted(cs: seq<ClassDef>) { forall i :: 0 <= i < |cs| ==> Counted(cs[i]) }

  function Reversed<T>(s: seq<T>): (r: seq<T>)
    ensures |r| == |s| && forall i :: 0 <= i < |s| ==> r[i] == s[|s| - 1 - i]
  {
    if s == [] then [] else Reversed(s[1..]) + [s[0]]
  }

  /** The class the loader builds: the symbols are in the opposite order. */
  function Turned(c: ClassDef): ClassDef {
    c.(statics := Reversed(c.statics), instances := Reversed(c.instances))
  }

  // ----- reading back ---------------------------------------------------------------

  /** The bytes stand at a place of the file. */
  predicate Stands(d: seq<byte>, p: nat, e: seq<byte>) { p + |e| <= |d| && d[p..p + |e|] == e }

  lemma StandsSplit(d: seq<byte>, p: nat, a: seq<byte>, b: seq<byte>)
    requires Stands(d, p, a + b)
    ensures Stands(d, p, a) && Stands(d, p + |a|, b)
  {
    var c := d[p..p + |a + b|];
    assert c[..|a|] == a && c[|a|..] == b;
    assert d[p..p + |a|] == c[..|a|] && d[p + |a|..p + |a| + |b|] == c[|a|..];
  }

  lemma StandsSplit3(d: seq<byte>, p: nat, a: seq<byte>, b: seq<byte>, c: seq<byte>)
    requires Stands(d, p, a + b + c)
    ensures Stands(d, p, a) && Stands(d, p + |a|, b) && Stands(d, p + |a| + |b|, c)
  {
    StandsSplit(d, p, a + b, c);
    StandsSplit(d, p, a, b);
  }

  lemma Digits(n: u32)
    ensures n == n % 256 + 256 * (n / 256 % 256) + 65536 * (n / 65536 % 256) + 0x100_0000 * (n / 0x100_0000)
  {
    assert n / 65536 == n / 256 / 256 && n / 0x100_0000 == n / 65536 / 256;
  }

  lemma Back32(d: seq<byte>, p: nat, n: u32)
    requires Stands(d, p, E32(n))
    ensures p + 4 <= |d| && D32(d, p) == n
    ensures R32(d, p) == if GoodNumber(n) then Got(n, p + 4) else Err
  {
    var e := d[p..p + 4];
    assert e[0] == d[p] && e[1] == d[p + 1] && e[2] == d[p + 2] && e[3] == d[p + 3];
    Digits(n);
  }

  lemma Back8(d: seq<byte>, p: nat, n: byte)
    requires Stands(d, p, E8(n)) && n < 255
    ensures R8Checked(d, p) == Got(n, p + 1)
  {
    assert d[p..p + 1][0] == d[p];
  }

  lemma BackStr(d: seq<byte>, p: nat, s: Str)
    requires Short(s) && Stands(d, p, EStr(s))
    ensures RStr(d, p) == if GoodStr(s) then Got(s, p + |EStr(s)|) else Err
  {
    hide R32, NoZero;
    StandsSplit(d, p, E32(|s|), s);
    Back32(d, p, |s|);
  }

  lemma BackSym(d: seq<byte>, p: nat, s: Sym)
    requires SymFits(s) && Stands(d, p, ESym(s))
    ensures RSym(d, p) == if GoodSym(s) then Got(s, p + |ESym(s)|) else Err
  {
    hide R32, RStr, GoodStr, EStr, Stands;
    StandsSplit3(d, p, EStr(s.name), E32(s.addr), E32(s.constPtr));
    BackStr(d, p, s.name);
    Back32(d, p + |EStr(s.name)|, s.addr);
    Back32(d, p + |EStr(s.name)| + 4, s.constPtr);
  }

  /** A list written front to back, seen from its front. */
  lemma {:induction false} SymListFront(ss: seq<Sym>)
    requires ss != [] && SymsFit(ss)
    ensures SymsFit(ss[1..]) && ESymList(ss) == ESym(ss[0]) + ESymList(ss[1..])
  {
    hide ESym, ESymList, SymFits;
    SymListBack(ss);
    if |ss| == 1 {
      assert ss[..0] == [] && ss[1..] == [];
      SymListBack(ss[1..]);
    } else {
      var f, t := ss[..|ss| - 1], ss[1..];
      SymListFront(f);
      SymListBack(t);
      assert t[..|t| - 1] == f[1..] && t[|t| - 1] == ss[|ss| - 1];
      Join2(ESym(ss[0]), ESymList(f[1..]), ESym(ss[|ss| - 1]));
    }
  }

  lemma SymListBack(ss: seq<Sym>)
    requires SymsFit(ss)
    ensures ss == [] ==> ESymList(ss) == []
    ensures ss != [] ==> SymsFit(ss[..|ss| - 1]) && SymFits(ss[|ss| - 1])
    ensures ss != [] ==> ESymList(ss) == ESymList(ss[..|ss| - 1]) + ESym(ss[|ss| - 1])
  {
    hide ESym, SymFits;
  }

  lemma {:induction false} BackSymArray(d: seq<byte>, p: nat, ss: seq<Sym>)
    requires SymsFit(ss) && Stands(d, p, ESymList(ss))
    ensures RSymArray(d, p, |ss|) == if GoodSyms(ss) then Got(Reversed(ss), p + |ESymList(ss)|) else Err
    decreases |ss|
  {
    hide RSym, ESym, GoodSym, Stands, SymFits;
    if ss != [] {
      SymListFront(ss);
      StandsSplit(d, p, ESym(ss[0]), ESymList(ss[1..]));
      BackSym(d, p, ss[0]);
      BackSymArray(d, p + |ESym(ss[0])|, ss[1..]);
      assert GoodSyms(ss) <==> GoodSym(ss[0]) && GoodSyms(ss[1..]) by {
        assert forall i :: 0 <= i < |ss[1..]| ==> ss[1..][i] == ss[i + 1];
        if GoodSym(ss[0]) && GoodSyms(ss[1..]) {
          forall i | 0 <= i < |ss| ensures GoodSym(ss[i]) { if i > 0 { assert ss[i] == ss[1..][i - 1]; } }
        }
      }
    }
  }

  lemma BackSyms(d: seq<byte>, p: nat, ss: seq<Sym>)
    requires Short(ss) && SymsFit(ss) && Stands(d, p, ESyms(ss))
    ensures Countable(|ss|) ==> RSyms(d, p) == if GoodSyms(ss) then Got(Reversed(ss), p + |ESyms(ss)|) else Err
    ensures !Countable(|ss|) && RSyms(d, p).Got? ==> RSyms(d, p).v != Reversed(ss)
  {
    hide R32, RSymArray, GoodSyms, Stands, SymsFit, ESymList, Reversed;
    StandsSplit(d, p, E32(|ss|), ESymList(ss));
    Back32(d, p, |ss|);
    BackSymArray(d, p + 4, ss);
    if !Countable(|ss|) { NotUnread(ss); }
  }

  lemma NotUnread(ss: seq<Sym>)
    requires SymsFit(ss) && ss != []
    ensures Reversed(ss) != Unfilled(|ss|)
  {
    assert SymFits(ss[|ss| - 1]);
    assert Reversed(ss)[0].Sym? && Unfilled(|ss|)[0].Unread?;
  }

  lemma BackMethod(d: seq<byte>, p: nat, m: Method)
    requires MethodFits(m) && Stands(d, p, EMethod(m))
    ensures RMethod(d, p) == if GoodMethod(m) then Got(m, p + |EMethod(m)|) else Err
  {
    hide R32, RStr, GoodStr, EStr, Stands, R8Checked, E32, E8, EMethod;
    var b: byte, q := if m.isStatic then 1 else 0, p + |EStr(m.name)|;
    MethodPieces(d, p, m, b, q);
    BackStr(d, p, m.name);
    Back32(d, q, m.args);
    Back32(d, q + 4, m.locals);
    Back32(d, q + 8, m.entry);
    Back8(d, q + 12, b);
  }

  lemma MethodPieces(d: seq<byte>, p: nat, m: Method, b: byte, q: nat)
    requires MethodFits(m) && Stands(d, p, EMethod(m)) && b == (if m.isStatic then 1 else 0) && q == p + |EStr(m.name)|
    ensures Stands(d, p, EStr(m.name)) && Stands(d, q, E32(m.args)) && Stands(d, q + 4, E32(m.locals))
    ensures Stands(d, q + 8, E32(m.entry)) && Stands(d, q + 12, E8(b)) && p + |EMethod(m)| == q + 13
  {
    hide EStr, Stands, E32;
    StandsSplit3(d, p, EStr(m.name) + E32(m.args) + E32(m.locals), E32(m.entry), E8(b));
    StandsSplit3(d, p, EStr(m.name), E32(m.args), E32(m.locals));
  }

  lemma BackOpt(d: seq<byte>, p: nat, m: Option<Method>)
    requires OptFits(m) && Stands(d, p, EOpt(m))
    ensures ROpt(d, p) == if GoodOpt(m) then Got(m, p + |EOpt(m)|) else Err
  {
    hide RMethod, GoodMethod, EMethod, Stands, R8Checked, MethodFits;
    if m.None? {
      Back8(d, p, 0);
    } else {
      StandsSplit(d, p, E8(1), EMethod(m.value));
      Back8(d, p, 1);
      BackMethod(d, p + 1, m.value);
    }
  }

  lemma {:induction false} MethodListFront(ms: seq<Method>)
    requires ms != [] && MethodsFit(ms)
    ensures MethodsFit(ms[1..]) && EMethodList(ms) == EMethod(ms[0]) + EMethodList(ms[1..])
  {
    hide EMethod, EMethodList, MethodFits;
    MethodListBack(ms);
    if |ms| == 1 {
      assert ms[..0] == [] && ms[1..] == [];
      MethodListBack(ms[1..]);
    } else {
      var f, t := ms[..|ms| - 1], ms[1..];
      MethodListFront(f);
      MethodListBack(t);
      assert t[..|t| - 1] == f[1..] && t[|t| - 1] == ms[|ms| - 1];
      Join2(EMethod(ms[0]), EMethodList(f[1..]), EMethod(ms[|ms| - 1]));
    }
  }

  lemma MethodListBack(ms: seq<Method>)
    requires MethodsFit(ms)
    ensures ms == [] ==> EMethodList(ms) == []
    ensures ms != [] ==> MethodsFit(ms[..|ms| - 1]) && MethodFits(ms[|ms| - 1])
    ensures ms != [] ==> EMethodList(ms) == EMethodList(ms[..|ms| - 1]) + EMethod(ms[|ms| - 1])
  {
    hide EMethod, MethodFits;
  }

  lemma {:induction false} BackMethodArray(d: seq<byte>, p: nat, ms: seq<Method>)
    requires MethodsFit(ms) && Stands(d, p, EMethodList(ms))
    ensures RMethodArray(d, p, |ms|) == if GoodMethods(ms) then Got(ms, p + |EMethodList(ms)|) else Err
    decreases |ms|
  {
    hide RMethod, EMethod, GoodMethod, Stands, MethodFits;
    if ms != [] {
      MethodListFront(ms);
      StandsSplit(d, p, EMethod(ms[0]), EMethodList(ms[1..]));
      BackMethod(d, p, ms[0]);
      BackMethodArray(d, p + |EMethod(ms[0])|, ms[1..]);
      assert ms == [ms[0]] + ms[1..];
      assert GoodMethods(ms) <==> GoodMethod(ms[0]) && GoodMethods(ms[1..]) by {
        assert forall i :: 0 <= i < |ms[1..]| ==> ms[1..][i] == ms[i + 1];
        if GoodMethod(ms[0]) && GoodMethods(ms[1..]) {
          forall i | 0 <= i < |ms| ensures GoodMethod(ms[i]) { if i > 0 { assert ms[i] == ms[1..][i - 1]; } }
        }
      }
    }
  }

  lemma BackMethods(d: seq<byte>, p: nat, ms: seq<Method>)
    requires Short(ms) && MethodsFit(ms) && Stands(d, p, EMethods(ms))
    ensures RMethods(d, p) == if GoodNumber(|ms|) && GoodMethods(ms) then Got(ms, p + |EMethods(ms)|) else Err
  {
    hide R32, RMethodArray, GoodMethods, Stands, MethodsFit, EMethodList;
    StandsSplit(d, p, E32(|ms|), EMethodList(ms));
    Back32(d, p, |ms|);
    BackMethodArray(d, p + 4, ms);
  }

  /** One class is read back when it is good.  Otherwise loading fails, or, when there are
      too many symbols to count, gives another class. */
  lemma BackClass(d: seq<byte>, p: nat, c: ClassDef)
    requires ClassFits(c) && Stands(d, p, EClass(c))
    ensures GoodClass(c) ==> RClass(d, p) == Got(Turned(c), p + |EClass(c)|)
    ensures !GoodClass(c) && Counted(c) ==> RClass(d, p).Err?
    ensures !GoodClass(c) && RClass(d, p).Got? ==> RClass(d, p).v != Turned(c)
  {
    hide RStr, RSyms, ROpt, RMethods, GoodStr, GoodSyms, GoodOpt, GoodMethods, Stands, EStr, ESyms, EOpt, EMethods,
         SymsFit, MethodsFit, OptFits, Reversed, EClass;
    var p1 := p + |EStr(c.name)|;
    var p2 := p1 + |EStr(c.parent)|;
    var p3 := p2 + |ESyms(c.statics)|;
    var p4 := p3 + |ESyms(c.instances)|;
    var p5 := p4 + |EOpt(c.staticInit)|;
    ClassPieces(d, p, c, p1, p2, p3, p4, p5);
    BackStr(d, p, c.name);
    BackStr(d, p1, c.parent);
    BackSyms(d, p2, c.statics);
    BackSyms(d, p3, c.instances);
    BackOpt(d, p4, c.staticInit);
    BackOpt(d, p5, c.ctor);
    BackMethods(d, p5 + |EOpt(c.ctor)|, c.methods);
  }

  lemma ClassPieces(d: seq<byte>, p: nat, c: ClassDef, p1: nat, p2: nat, p3: nat, p4: nat, p5: nat)
    requires ClassFits(c) && Stands(d, p, EClass(c))
    requires p1 == p + |EStr(c.name)| && p2 == p1 + |EStr(c.parent)| && p3 == p2 + |ESyms(c.statics)|
    requires p4 == p3 + |ESyms(c.instances)| && p5 == p4 + |EOpt(c.staticInit)|
    ensures Stands(d, p, EStr(c.name)) && Stands(d, p1, EStr(c.parent)) && Stands(d, p2, ESyms(c.statics))
    ensures Stands(d, p3, ESyms(c.instances)) && Stands(d, p4, EOpt(c.staticInit)) && Stands(d, p5, EOpt(c.ctor))
    ensures Stands(d, p5 + |EOpt(c.ctor)|, EMethods(c.methods))
    ensures p + |EClass(c)| == p5 + |EOpt(c.ctor)| + |EMethods(c.methods)|
  {
    hide Stands, EStr, ESyms, EOpt, EMethods, SymsFit, MethodsFit, OptFits;
    var a := EStr(c.name) + EStr(c.parent) + ESyms(c.statics);
    StandsSplit3(d, p, a + ESyms(c.instances) + EOpt(c.staticInit), EOpt(c.ctor), EMethods(c.methods));
    StandsSplit3(d, p, a, ESyms(c.instances), EOpt(c.staticInit));
    StandsSplit3(d, p, EStr(c.name), EStr(c.parent), ESyms(c.statics));
  }

  function AllTurned(cs: seq<ClassDef>): (r: seq<ClassDef>)
    ensures |r| == |cs| && forall i :: 0 <= i < |cs| ==> r[i] == Turned(cs[i])
  {
    if cs == [] then [] else [Turned(cs[0])] + AllTurned(cs[1..])
  }

  lemma {:induction false} ClassListFront(cs: seq<ClassDef>)
    requires cs != [] && ClassesFit(cs)
    ensures ClassesFit(cs[1..]) && EClassList(cs) == EClass(cs[0]) + EClassList(cs[1..])
  {
    hide EClass, EClassList, ClassFits;
    ClassListBack(cs);
    if |cs| == 1 {
      assert cs[..0] == [] && cs[1..] == [];
      ClassListBack(cs[1..]);
    } else {
      var f, t := cs[..|cs| - 1], cs[1..];
      ClassListFront(f);
      ClassListBack(t);
      assert t[..|t| - 1] == f[1..] && t[|t| - 1] == cs[|cs| - 1];
      Join2(EClass(cs[0]), EClassList(f[1..]), EClass(cs[|cs| - 1]));
    }
  }

  lemma ClassListBack(cs: seq<ClassDef>)
    requires ClassesFit(cs)
    ensures cs == [] ==> EClassList(cs) == []
    ensures cs != [] ==> ClassesFit(cs[..|cs| - 1]) && ClassFits(cs[|cs| - 1])
    ensures cs != [] ==> EClassList(cs) == EClassList(cs[..|cs| - 1]) + EClass(cs[|cs| - 1])
  {
    hide EClass, ClassFits;
  }

  lemma {:induction false} BackClassArray(d: seq<byte>, p: nat, cs: seq<ClassDef>)
    requires ClassesFit(cs) && Stands(d, p, EClassList(cs))
    ensures GoodClasses(cs) ==> RClassArray(d, p, |cs|) == Got(AllTurned(cs), p + |EClassList(cs)|)
    ensures !GoodClasses(cs) && AllCounted(cs) ==> RClassArray(d, p, |cs|).Err?
    ensures !GoodClasses(cs) && RClassArray(d, p, |cs|).Got? ==> RClassArray(d, p, |cs|).v != AllTurned(cs)
    decreases |cs|
  {
    hide RClass, EClass, GoodClass, Stands, ClassFits, Turned, GoodClasses, AllCounted, Counted;
    FirstClass(cs);
    if cs != [] {
      ClassListFront(cs);
      StandsSplit(d, p, EClass(cs[0]), EClassList(cs[1..]));
      BackClass(d, p, cs[0]);
      if GoodClass(cs[0]) { BackClassArray(d, p + |EClass(cs[0])|, cs[1..]); }
      var r := RClassArray(d, p, |cs|);
      if r.Got? { assert r.v[0] == RClass(d, p).v && r.v[1..] == RClassArray(d, RClass(d, p).pos, |cs| - 1).v; }
      assert AllTurned(cs)[1..] == AllTurned(cs[1..]);
    }
  }

  lemma FirstClass(cs: seq<ClassDef>)
    ensures cs == [] ==> GoodClasses(cs) && AllCounted(cs)
    ensures cs != [] ==> (GoodClasses(cs) <==> GoodClass(cs[0]) && GoodClasses(cs[1..]))
    ensures cs != [] ==> (AllCounted(cs) <==> Counted(cs[0]) && AllCounted(cs[1..]))
  {
    hide GoodClass, Counted;
    if cs != [] {
      var t := cs[1..];
      assert forall i :: 0 <= i < |t| ==> t[i] == cs[i + 1];
      assert forall i :: 1 <= i < |cs| ==> cs[i] == t[i - 1];
    }
  }

  lemma BackBlock(d: seq<byte>, p: nat, b: seq<byte>)
    requires Sized(b) && Stands(d, p, E64(|b|) + b)
    ensures RBlock(d, p) == if |b| < MAX64 then Got(b, p + 8 + |b|) else Err
  {
    hide Stands, E32, D32;
    StandsSplit(d, p, E64(|b|), b);
    Back64(d, p, |b|);
    BytesBack(d, p + 8, b);
  }

  lemma Back64(d: seq<byte>, p: nat, n: u64)
    requires Stands(d, p, E64(n))
    ensures p + 8 <= |d| && D64(d, p) == n
  {
    hide Stands, E32, D32;
    StandsSplit(d, p, E32(n % 0x1_0000_0000), E32(n / 0x1_0000_0000));
    Back32(d, p, n % 0x1_0000_0000);
    Back32(d, p + 4, n / 0x1_0000_0000);
  }

  lemma BytesBack(d: seq<byte>, p: nat, b: seq<byte>)
    requires Stands(d, p, b)
    ensures RBytes(d, p, |b|) == Got(b, p + |b|)
  {
  }

  /** What a file says can be kept by loading it: no number and no size is all ones, no name
      holds a zero byte, and an int can count the symbols of each kind. */
  predicate Loadable(k: Kexe) {
    GoodNumber(|k.classes|) && GoodClasses(k.classes) && |k.table| < MAX64 && |k.code| < MAX64
  }

  /** Loading what was written gives the classes with their methods, flags, entry points and
      parents, each with its symbols turned round, the constant table and the code exactly
      when the file is loadable.  Otherwise loading fails, or, when there are more symbols
      than an int can count, gives something else. */
  lemma FileRoundTrip(k: Kexe)
    requires Short(k.classes) && ClassesFit(k.classes) && Sized(k.table) && Sized(k.code)
    ensures RFile(EFile(k)) == Got(Kexe(AllTurned(k.classes), k.table, k.code), |EFile(k)|) <==> Loadable(k)
    ensures !Loadable(k) && AllCounted(k.classes) ==> RFile(EFile(k)).Err?
  {
    hide R32, RClassArray, RBlock, EClassList, Stands, GoodClasses, AllCounted, AllTurned, ClassesFit, E32, E64;
    var d := EFile(k);
    var cs := EClassList(k.classes);
    var b1, b2 := E64(|k.table|) + k.table, E64(|k.code|) + k.code;
    assert d == E32(MAGIC) + E32(|k.classes|) + cs + b1 + b2;
    Whole(d);
    StandsSplit3(d, 0, E32(MAGIC) + E32(|k.classes|) + cs, b1, b2);
    StandsSplit3(d, 0, E32(MAGIC), E32(|k.classes|), cs);
    Back32(d, 0, MAGIC);
    Back32(d, 4, |k.classes|);
    BackClassArray(d, 8, k.classes);
    BackBlock(d, 8 + |cs|, k.table);
    BackBlock(d, 8 + |cs| + 8 + |k.table|, k.code);
  }

  lemma Whole(d: seq<byte>)
    ensures Stands(d, 0, d)
  {
  }
}
