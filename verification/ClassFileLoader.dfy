/** The loader's procedures over a file with a cursor (vm/loader.c). */
module ClassFileLoader {
  import opened Basics
  import opened Operators
  import opened ClassFile

  lemma FromStart<T>(r: Got<seq<T>>)
    ensures r.Got? ==> [] + r.v == r.v
  {
  }

  lemma FromEnd<T>(r: Got<seq<T>>)
    ensures r.Got? ==> r.v + [] == r.v
  {
  }

  /** Arithmetic on 32 bits without sign, assigned to an int. */
  function AsInt(n: int): int
    requires -1 <= n < 0x1_0000_0000
  {
    if n < 0x8000_0000 then n else n - 0x1_0000_0000
  }

  class Loader {
    const data: seq<byte>
    var pos: nat

    constructor (d: seq<byte>)
      ensures data == d && pos == 0
    {
      data, pos := d, 0;
    }

    /** The outcome of a procedure is the value and place that the format prescribes. */
    ghost predicate Did<T>(r: Got<T>, v: Option<T>)
      reads this
    {
      if r.Err? then v.None? else v == Some(r.v) && pos == r.pos
    }

    method LoadUint8() returns (v: Option<byte>)
      modifies `pos
      ensures Did(R8Checked(data, old(pos)), v)
    {
      if pos + 1 > |data| || data[pos] == 255 { return None; }
      v := Some(data[pos]);
      pos := pos + 1;
    }

    method LoadUint32() returns (v: Option<u32>)
      modifies `pos
      ensures Did(R32(data, old(pos)), v)
    {
      if pos + 4 > |data| { return None; }
      var n := D32(data, pos);
      if n == MAX32 { return None; }
      v := Some(n);
      pos := pos + 4;
    }

    method LoadSize() returns (v: Option<u64>)
      modifies `pos
      ensures Did(RSize(data, old(pos)), v)
    {
      if pos + 8 > |data| || D64(data, pos) == MAX64 { return None; }
      v := Some(D64(data, pos));
      pos := pos + 8;
    }

    method Fread(n: nat) returns (v: Option<seq<byte>>)
      modifies `pos
      ensures Did(RBytes(data, old(pos), n), v)
    {
      if pos + n > |data| { return None; }
      v := Some(data[pos..pos + n]);
      pos := pos + n;
    }

    /** strlen on a string of the given length. */
    method HasNoZero(s: Str) returns (ok: bool)
      ensures ok == NoZero(s)
    {
      var i := 0;
      while i < |s|
        invariant i <= |s| && forall k :: 0 <= k < i ==> s[k] != 0
      {
        if s[i] == 0 { return false; }
        i := i + 1;
      }
      return true;
    }

    method LoadString() returns (v: Option<Str>)
      modifies `pos
      ensures Did(RStr(data, old(pos)), v)
    {
      var len := LoadUint32();
      if len.None? { return None; }
      v := Fread(len.value);
      if v.Some? {
        var ok := HasNoZero(v.value);
        if !ok { v := None; }
      }
    }

    method LoadSym() returns (v: Option<Sym>)
      modifies `pos
      ensures Did(RSym(data, old(pos)), v)
    {
      hide RStr, R32;
      var name := LoadString();
      if name.None? { return None; }
      var addr := LoadUint32();
      if addr.None? { return None; }
      var constPtr := LoadUint32();
      if constPtr.None? { return None; }
      v := Some(Sym(name.value, addr.value, constPtr.value));
    }

    /** The symbols of a class are stored from the end of the array to its front.  The counter
        is an int, negative at once for a number that is too large. */
    method LoadSyms() returns (v: Option<seq<Sym>>)
      modifies `pos
      ensures Did(RSyms(data, old(pos)), v)
    {
      hide R32, RSym;
      var cnt := LoadUint32();
      if cnt.None? { return None; }
      var n: nat := cnt.value;
      var syms := new Sym[n](_ => Unread);
      var i := AsInt(n - 1);
      ghost var start := pos;
      assert syms[n..] == [] && (!Countable(n) ==> syms[..] == Unfilled(n));
      if Countable(n) { FromEnd(RSymArray(data, pos, n)); }
      while i >= 0
        invariant Countable(n) ==> -1 <= i < n
        invariant !Countable(n) ==> i < 0 && pos == start && syms[..] == Unfilled(n)
        invariant Countable(n) ==>
                  var rest := RSymArray(data, pos, i + 1);
                  RSymArray(data, start, n) == if rest.Err? then Err else Got(rest.v + syms[i + 1..], rest.pos)
      {
        var s := LoadSym();
        if s.None? { return None; }
        ghost var before := syms[i + 1..];
        syms[i] := s.value;
        assert syms[i..] == [s.value] + before;
        i := i - 1;
        ghost var rest := RSymArray(data, pos, i + 1);
        if rest.Got? { Join2(rest.v, [s.value], before); }
      }
      v := Some(syms[..]);
      assert [] + syms[0..] == syms[..];
    }

    method LoadMethod() returns (v: Option<Method>)
      modifies `pos
      ensures Did(RMethod(data, old(pos)), v)
    {
      hide RStr, R32, R8Checked;
      var name := LoadString();
      if name.None? { return None; }
      var args := LoadUint32();
      if args.None? { return None; }
      var locals := LoadUint32();
      if locals.None? { return None; }
      var entry := LoadUint32();
      if entry.None? { return None; }
      var isStatic := LoadUint8();
      if isStatic.None? { return None; }
      v := Some(Method(name.value, args.value, locals.value, entry.value, isStatic.value != 0));
    }

    method LoadOptional() returns (v: Option<Option<Method>>)
      modifies `pos
      ensures Did(ROpt(data, old(pos)), v)
    {
      hide RMethod, R8Checked;
      var has := LoadUint8();
      if has.None? { return None; }
      if has.value == 0 { return Some(None); }
      var m := LoadMethod();
      v := if m.None? then None else Some(Some(m.value));
    }

    method LoadMethods() returns (v: Option<seq<Method>>)
      modifies `pos
      ensures Did(RMethods(data, old(pos)), v)
    {
      hide R32, RMethod;
      var cnt := LoadUint32();
      if cnt.None? { return None; }
      var n: nat := cnt.value;
      var ms: seq<Method> := [];
      var i := 0;
      ghost var start := pos;
      FromStart(RMethodArray(data, pos, n));
      while i < n
        invariant i <= n
        invariant var rest := RMethodArray(data, pos, n - i);
                  RMethodArray(data, start, n) == if rest.Err? then Err else Got(ms + rest.v, rest.pos)
      {
        var m := LoadMethod();
        if m.None? { return None; }
        ghost var rest := RMethodArray(data, pos, n - i - 1);
        if rest.Got? { assert ms + ([m.value] + rest.v) == ms + [m.value] + rest.v; }
        ms := ms + [m.value];
        i := i + 1;
      }
      v := Some(ms);
      assert ms + [] == ms;
    }

    method LoadClass() returns (v: Option<ClassDef>)
      modifies `pos
      ensures Did(RClass(data, old(pos)), v)
    {
      hide RStr, RSyms, ROpt, RMethods;
      var name := LoadString();
      if name.None? { return None; }
      var parent := LoadString();
      if parent.None? { return None; }
      var statics := LoadSyms();
      if statics.None? { return None; }
      var instances := LoadSyms();
      if instances.None? { return None; }
      var staticInit := LoadOptional();
      if staticInit.None? { return None; }
      var ctor := LoadOptional();
      if ctor.None? { return None; }
      var methods := LoadMethods();
      if methods.None? { return None; }
      v := Some(ClassDef(name.value, parent.value, statics.value, instances.value, staticInit.value, ctor.value, methods.value));
    }

    method LoadClasses(n: nat) returns (v: Option<seq<ClassDef>>)
      modifies `pos
      ensures Did(RClassArray(data, old(pos), n), v)
    {
      hide RClass;
      var cs: seq<ClassDef> := [];
      var i := 0;
      ghost var start := pos;
      FromStart(RClassArray(data, pos, n));
      while i < n
        invariant i <= n
        invariant var rest := RClassArray(data, pos, n - i);
                  RClassArray(data, start, n) == if rest.Err? then Err else Got(cs + rest.v, rest.pos)
      {
        var c := LoadClass();
        if c.None? { return None; }
        ghost var rest := RClassArray(data, pos, n - i - 1);
        if rest.Got? { assert cs + ([c.value] + rest.v) == cs + [c.value] + rest.v; }
        cs := cs + [c.value];
        i := i + 1;
      }
      v := Some(cs);
      assert cs + [] == cs;
    }

    method LoadBlock() returns (v: Option<seq<byte>>)
      modifies `pos
      ensures Did(RBlock(data, old(pos)), v)
    {
      var n := LoadSize();
      if n.None? { return None; }
      v := Fread(n.value);
    }

    method LoadFile() returns (v: Option<Kexe>)
      requires pos == 0
      modifies `pos
      ensures Did(RFile(data), v)
    {
      hide R32, RClassArray, RBlock;
      var magic := LoadUint32();
      if magic.None? || magic.value != MAGIC { return None; }
      var n := LoadUint32();
      if n.None? { return None; }
      var classes := LoadClasses(n.value);
      if classes.None? { return None; }
      var table := LoadBlock();
      if table.None? { return None; }
      var code := LoadBlock();
      if code.None? { return None; }
      v := Some(Kexe(classes.value, table.value, code.value));
    }
  }
}
