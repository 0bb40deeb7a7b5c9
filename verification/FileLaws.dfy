/** Where the parts of an executable file stand (compiler/bcout.cpp, vm/loader.c). */
module FileLaws {
  import opened Basics
  import opened ClassFile

  /** Numbers are written with the low byte first, in four bytes or in eight. */
  lemma LowByteFirst(n: u32, m: u64)
    ensures E32(n)[0] == n % 256 && E32(n)[1..] + [0] == E32(n / 256)
    ensures E64(m)[0] == m % 256 && E64(m)[1..] + [0] == E64(m / 256)
  {
    Shifted(n);
    var lo, hi := m % 0x1_0000_0000, m / 0x1_0000_0000;
    var k := m / 256;
    assert k / 0x1_0000_0000 == hi / 256;
    assert k % 0x1_0000_0000 == lo / 256 + 0x100_0000 * (hi % 256);
    Shifted(lo);
    Shifted(hi);
    TopByte(lo / 256, hi % 256);
    assert E64(m)[1..] + [0] == E32(lo)[1..] + (E32(hi) + [0]);
    assert E32(hi) + [0] == [E32(hi)[0]] + (E32(hi)[1..] + [0]);
    assert E32(lo)[1..] + [hi % 256] == E32(k % 0x1_0000_0000);
    assert E64(m)[1..] + [0] == (E32(lo)[1..] + [hi % 256]) + E32(hi / 256);
  }

  lemma Shifted(n: u32)
    ensures E32(n)[1..] + [0] == E32(n / 256) && E32(n)[0] == n % 256
  {
    assert n / 256 / 256 == n / 65536 && n / 256 / 65536 == n / 0x100_0000 && n / 256 / 0x100_0000 == 0;
    assert n / 0x100_0000 % 256 == n / 0x100_0000;
  }

  lemma TopByte(n: u32, b: byte)
    requires n < 0x100_0000
    ensures E32(n + 0x100_0000 * b) == E32(n)[..3] + [b]
  {
    hide E32;
    var x: byte, y: byte, z: byte := n % 256, n / 256 % 256, n / 65536;
    FromBytes(x, y, z, 0);
    FromBytes(x, y, z, b);
  }

  lemma FromBytes(x: byte, y: byte, z: byte, b: byte)
    ensures E32(x + 256 * y + 65536 * z + 0x100_0000 * b) == [x, y, z, b]
  {
    var k: nat, m: nat := z + 256 * b, y + 256 * (z + 256 * b);
    var n: nat := x + 256 * m;
    LowByte(x, m);
    LowByte(y, k);
    LowByte(z, b);
    Nested(n);
  }

  lemma LowByte(x: byte, r: nat)
    ensures (x + 256 * r) % 256 == x && (x + 256 * r) / 256 == r
  {
  }

  lemma Nested(n: nat)
    ensures n / 65536 == n / 256 / 256 && n / 0x100_0000 == n / 256 / 256 / 256
  {
  }

  /** A symbol: its name behind the length, its address and where its constant is. */
  lemma SymPlaces(s: Sym)
    requires SymFits(s)
    ensures var d, n := ESym(s), |s.name|;
            |d| == n + 12 && D32(d, 0) == n && d[4..4 + n] == s.name && D32(d, 4 + n) == s.addr && D32(d, 8 + n) == s.constPtr
  {
    hide E32, D32;
    var d, n := ESym(s), |s.name|;
    Place32(d, 0, [], n, s.name + E32(s.addr) + E32(s.constPtr));
    Place32(d, 4 + n, E32(n) + s.name, s.addr, E32(s.constPtr));
    Place32(d, 8 + n, E32(n) + s.name + E32(s.addr), s.constPtr, []);
  }

  /** A number between two parts. */
  lemma Place32(d: seq<byte>, p: nat, before: seq<byte>, n: u32, behind: seq<byte>)
    requires d == before + E32(n) + behind && p == |before|
    ensures p + 4 <= |d| && D32(d, p) == n
  {
    hide E32;
    assert d[p..p + 4] == E32(n);
    Back32(d, p, n);
  }

  /** A method: its name, the numbers of arguments and locals, its entry, and one for static. */
  lemma MethodPlaces(m: Method)
    requires MethodFits(m)
    ensures var d, n := EMethod(m), |m.name|;
            && |d| == n + 17 && D32(d, 0) == n && d[4..4 + n] == m.name && D32(d, 4 + n) == m.args
            && D32(d, 8 + n) == m.locals && D32(d, 12 + n) == m.entry && d[16 + n] == if m.isStatic then 1 else 0
  {
    hide E32, D32;
    var d, n, b := EMethod(m), |m.name|, E8(if m.isStatic then 1 else 0);
    Place32(d, 0, [], n, m.name + E32(m.args) + E32(m.locals) + E32(m.entry) + b);
    Place32(d, 4 + n, E32(n) + m.name, m.args, E32(m.locals) + E32(m.entry) + b);
    Place32(d, 8 + n, E32(n) + m.name + E32(m.args), m.locals, E32(m.entry) + b);
    Place32(d, 12 + n, E32(n) + m.name + E32(m.args) + E32(m.locals), m.entry, b);
  }

  /** A class starts with its name and that of its parent, then come the static symbols behind
      their number and the instance symbols behind theirs. */
  lemma ClassPlaces(c: ClassDef)
    requires ClassFits(c)
    ensures var d, n, p, s := EClass(c), |c.name|, |c.parent|, |ESymList(c.statics)|;
            && |d| >= n + p + s + 16
            && D32(d, 0) == n && d[4..4 + n] == c.name && D32(d, 4 + n) == p && d[8 + n..8 + n + p] == c.parent
            && D32(d, 8 + n + p) == |c.statics| && D32(d, 12 + n + p + s) == |c.instances|
  {
    hide E32, D32, ESymList, EClass, Stands, EOpt, EMethods, SymsFit, MethodsFit, OptFits;
    var d := EClass(c);
    ClassParts(c);
    StrPlaces(d, 0, c.name);
    StrPlaces(d, 4 + |c.name|, c.parent);
    CountPlaces(d, 8 + |c.name| + |c.parent|, c.statics);
    CountPlaces(d, 12 + |c.name| + |c.parent| + |ESymList(c.statics)|, c.instances);
  }

  lemma ClassParts(c: ClassDef)
    requires ClassFits(c)
    ensures var d, n, p, s := EClass(c), |c.name|, |c.parent|, |ESymList(c.statics)|;
            && Stands(d, 0, EStr(c.name)) && Stands(d, 4 + n, EStr(c.parent))
            && Stands(d, 8 + n + p, ESyms(c.statics)) && Stands(d, 12 + n + p + s, ESyms(c.instances))
  {
    hide E32, ESymList, Stands, EOpt, EMethods, SymsFit, MethodsFit, OptFits;
    var a, b, s, i, x, y, m := EStr(c.name), EStr(c.parent), ESyms(c.statics), ESyms(c.instances),
                              EOpt(c.staticInit), EOpt(c.ctor), EMethods(c.methods);
    var d := a + b + s + i + x + y + m;
    assert d == EClass(c);
    StandsItself(d);
    StandsSplit(d, 0, a + b + s + i + x + y, m);
    StandsSplit(d, 0, a + b + s + i + x, y);
    StandsSplit(d, 0, a + b + s + i, x);
    StandsSplit(d, 0, a + b + s, i);
    StandsSplit(d, 0, a + b, s);
    StandsSplit(d, 0, a, b);
  }

  lemma StandsItself(d: seq<byte>)
    ensures Stands(d, 0, d)
  {
  }

  lemma StrPlaces(d: seq<byte>, p: nat, s: Str)
    requires Short(s) && Stands(d, p, EStr(s))
    ensures p + 4 + |s| <= |d| && D32(d, p) == |s| && d[p + 4..p + 4 + |s|] == s
  {
    hide E32, D32;
    StandsSplit(d, p, E32(|s|), s);
    Back32(d, p, |s|);
  }

  lemma CountPlaces(d: seq<byte>, p: nat, ss: seq<Sym>)
    requires Short(ss) && SymsFit(ss) && Stands(d, p, ESyms(ss))
    ensures p + 4 + |ESymList(ss)| <= |d| && D32(d, p) == |ss|
  {
    hide E32, D32, ESymList;
    StandsSplit(d, p, E32(|ss|), ESymList(ss));
    Back32(d, p, |ss|);
  }

  /** A file: the magic number, the classes behind their number, then the constants and the
      code, each behind its length. */
  lemma FilePlaces(k: Kexe)
    requires Short(k.classes) && ClassesFit(k.classes) && Sized(k.table) && Sized(k.code)
    ensures var d, c, t := EFile(k), |EClassList(k.classes)|, |k.table|;
            && |d| == 24 + c + t + |k.code|
            && d[..4] == [0xEC, 0x6C, 0x66, 0x42] && D32(d, 4) == |k.classes|
            && D64(d, 8 + c) == t && d[16 + c..16 + c + t] == k.table
            && D64(d, 16 + c + t) == |k.code| && d[24 + c + t..] == k.code
  {
    hide E32, E64, D32, D64, EClassList, EFile, ClassesFit, Stands;
    var d, c, t := EFile(k), |EClassList(k.classes)|, |k.table|;
    MagicBytes();
    FileParts(k);
    Back32(d, 4, |k.classes|);
    Back64(d, 8 + c, t);
    Back64(d, 16 + c + t, |k.code|);
    Standing(d, 0, E32(MAGIC));
    Standing(d, 16 + c, k.table);
    Standing(d, 24 + c + t, k.code);
  }

  lemma MagicBytes()
    ensures E32(MAGIC) == [0xEC, 0x6C, 0x66, 0x42]
  {
  }

  lemma Standing(d: seq<byte>, p: nat, e: seq<byte>)
    requires Stands(d, p, e)
    ensures p + |e| <= |d| && d[p..p + |e|] == e
  {
  }

  lemma FileParts(k: Kexe)
    requires Short(k.classes) && ClassesFit(k.classes) && Sized(k.table) && Sized(k.code)
    ensures var d, c, t := EFile(k), |EClassList(k.classes)|, |k.table|;
            && |d| == 24 + c + t + |k.code|
            && Stands(d, 0, E32(MAGIC)) && Stands(d, 4, E32(|k.classes|)) && Stands(d, 8 + c, E64(t))
            && Stands(d, 16 + c, k.table) && Stands(d, 16 + c + t, E64(|k.code|)) && Stands(d, 24 + c + t, k.code)
  {
    hide E32, E64, EClassList, ClassesFit, Stands;
    var m, n, cs, tl, t, cl, c := E32(MAGIC), E32(|k.classes|), EClassList(k.classes),
                               E64(|k.table|), k.table, E64(|k.code|), k.code;
    var d := m + n + cs + tl + t + cl + c;
    assert d == EFile(k);
    StandsItself(d);
    StandsSplit(d, 0, m + n + cs + tl + t + cl, c);
    StandsSplit(d, 0, m + n + cs + tl + t, cl);
    StandsSplit(d, 0, m + n + cs + tl, t);
    StandsSplit(d, 0, m + n + cs, tl);
    StandsSplit(d, 0, m + n, cs);
    StandsSplit(d, 0, m, n);
  }
}
