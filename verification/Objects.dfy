/** The value encodings and object layouts of the virtual machine (vm/types.h).

    An address is an integer.  A machine word is NULL, an untagged pointer, or a
    tagged word (an integer, a character, or the offset half of a base/offset
    reference).  Fields are addressed as base plus header plus index times the
    word size, so that interior pointers are ordinary integers. */
module KekObjects {
  datatype Word =
    | Null
    | Ptr(at: int)
    | Imm(bits: int)

  /** One heap object.  `Copied` is an object whose header the collector has
      overwritten: type KEK_COPIED, class field holding the forwarding address. */
  datatype Obj =
    | Nil
    | Int(value: int)
    | Str(cls: int, text: string)
    | Sym(name: string)
    | Arr(cls: int, length: int, allocSize: int, elems: int)
    | ArrObjs(len: int, cap: int, slots: seq<Word>)
    | Expt(cls: int, msg: Word)
    | File(cls: int, handle: int)
    | Term(cls: int)
    | Udo(cls: int, varOffset: int, vars: seq<Word>)
    | Class(id: int)
    | StackHeader
    | Copied(to: int)

  type Mem = map<int, Obj>

  const WORD := 8
  /** Offset of the first slot of an element block, and of inst_var in a
      user-defined object. */
  const HDR := 32
  /** The header every object begins with. */
  const HEADER := 24
  /** Where the characters of a string or a symbol begin. */
  const STR_TEXT := 28
  const OBJ_SIZE := 48
  const STR_SIZE := 32
  const INT_SIZE := 32
  const ARR_SIZE := 40
  const SEGMENT := 524288
  const ARR_INIT_SIZE := 512

  function Aligned(n: int): (r: int)
    ensures n <= r < n + 8 && r % 8 == 0
  {
    (n + 7) / 8 * 8
  }

  /** vm_obj_size: what copying charges for an object.  Every type without a
      case of its own is charged the size of the whole object union. */
  function ObjSize(o: Obj): int {
    match o
    case Str(_, text) => STR_SIZE + |text|
    case Sym(name) => STR_SIZE + |name|
    case ArrObjs(_, cap, _) => HDR + cap * WORD
    case Udo(_, _, vars) => HDR + |vars| * WORD
    case _ => OBJ_SIZE
  }

  function CopySize(o: Obj): int { Aligned(ObjSize(o)) }

  /** KEK_ARR_OBJS: the element block an array's interior pointer belongs to. */
  function BlockOf(elems: int): int { elems - HDR }

  /** The word-sized fields of an object that may hold pointers. */
  function Slots(o: Obj): seq<Word> {
    match o
    case ArrObjs(_, _, slots) => slots
    case Expt(_, msg) => [msg]
    case Udo(_, _, vars) => vars
    case _ => []
  }

  /** How many of them the collector traces: an element block is traced up to
      its length only, not up to its capacity. */
  function Traced(o: Obj): int {
    if o.ArrObjs? then o.len else |Slots(o)|
  }

  function WithSlots(o: Obj, s: seq<Word>): (r: Obj)
    requires |s| == |Slots(o)|
    ensures Slots(r) == s && Traced(r) == Traced(o) && CopySize(r) == CopySize(o) && End(r) == End(o)
  {
    match o
    case ArrObjs(len, cap, _) => ArrObjs(len, cap, s)
    case Expt(cls, _) => Expt(cls, s[0])
    case Udo(cls, off, _) => Udo(cls, off, s)
    case _ => o
  }

  /** The end of the last field that an object has, from its address on: of the zero behind
      a text, of its members, or of its slots, which lie behind one another from HDR on. */
  function End(o: Obj): int {
    match o
    case Str(_, text) => STR_TEXT + |text| + 1
    case Sym(name) => STR_TEXT + |name| + 1
    case Int(_) => INT_SIZE
    case Arr(_, _, _, _) => ARR_SIZE
    case File(_, _) => HDR + WORD
    case ArrObjs(_, _, _) => HDR + |Slots(o)| * WORD
    case Expt(_, _) => HDR + |Slots(o)| * WORD
    case Udo(_, _, _) => HDR + |Slots(o)| * WORD
    case _ => HEADER
  }

  /** The addresses held in the traced fields of an object. */
  function Refs(o: Obj): set<int> {
    if o.Arr? then if o.elems == 0 then {} else {BlockOf(o.elems)}
    else set i | 0 <= i < |Slots(o)| && i < Traced(o) && Slots(o)[i].Ptr? :: Slots(o)[i].at
  }

  // ----- renamings -------------------------------------------------------

  function MapAddr(a: int, f: map<int, int>): int { if a in f then f[a] else a }

  function MapWord(w: Word, f: map<int, int>): Word {
    if w.Ptr? then Ptr(MapAddr(w.at, f)) else w
  }

  /** The first `n` words renamed, the others as they were. */
  function MapPrefix(s: seq<Word>, n: int, f: map<int, int>): (r: seq<Word>)
    ensures |r| == |s| && forall i :: 0 <= i < |s| ==> r[i] == if i < n then MapWord(s[i], f) else s[i]
  {
    seq(|s|, i requires 0 <= i < |s| => if i < n then MapWord(s[i], f) else s[i])
  }

  /** An object with every traced pointer replaced by its image. */
  function Image(o: Obj, f: map<int, int>): Obj {
    if o.Arr? then
      if o.elems == 0 then o else o.(elems := MapAddr(BlockOf(o.elems), f) + HDR)
    else WithSlots(o, MapPrefix(Slots(o), Traced(o), f))
  }

  ghost predicate Injective(f: map<int, int>) {
    forall a, b :: a in f && b in f && f[a] == f[b] ==> a == b
  }

  /** `g` agrees with `f` wherever `f` is defined. */
  ghost predicate Extends(f: map<int, int>, g: map<int, int>) {
    forall a :: a in f ==> a in g && g[a] == f[a]
  }

  lemma ImageKeepsSize(o: Obj, f: map<int, int>)
    ensures CopySize(Image(o, f)) == CopySize(o)
  {
  }

  lemma CopySizePositive(o: Obj)
    requires o.ArrObjs? ==> o.cap >= 0
    ensures CopySize(o) > 0
  {
  }

  /** An image no longer changes once every address it mentions is either
      renamed already or never will be. */
  lemma ImageStable(o: Obj, f: map<int, int>, g: map<int, int>)
    requires Extends(f, g)
    requires forall a :: a in Refs(o) && a in g ==> a in f
    ensures Image(o, f) == Image(o, g)
  {
    if o.Arr? {
      if o.elems != 0 { assert BlockOf(o.elems) in Refs(o); }
    } else {
      PrefixStable(Slots(o), Traced(o), f, g);
    }
  }

  lemma PrefixStable(s: seq<Word>, n: int, f: map<int, int>, g: map<int, int>)
    requires Extends(f, g)
    requires forall i :: 0 <= i < |s| && i < n && s[i].Ptr? && s[i].at in g ==> s[i].at in f
    ensures MapPrefix(s, n, f) == MapPrefix(s, n, g)
  {
    forall i | 0 <= i < |s| && i < n ensures MapWord(s[i], f) == MapWord(s[i], g) {
    }
  }

  /** Renaming one slot more, possibly under a larger map. */
  lemma PrefixStep(s: seq<Word>, i: int, f: map<int, int>, g: map<int, int>)
    requires 0 <= i < |s| && Extends(f, g)
    requires forall j :: 0 <= j < i && s[j].Ptr? && s[j].at in g ==> s[j].at in f
    ensures MapPrefix(s, i + 1, g) == MapPrefix(s, i, f)[i := MapWord(s[i], g)]
  {
    PrefixStable(s, i, f, g);
  }
}
