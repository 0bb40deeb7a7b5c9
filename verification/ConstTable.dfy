/** The constant table: what the compiler writes (compiler/bcout.cpp) and how the
    virtual machine walks over it after loading (vm/vm.c). */
module ConstTable {
  import opened Basics
  import opened Operators

  /** One allocated constant.  `room` is the number of try blocks an exception table
      was allocated for; only `blocks` is stored. */
  datatype Constant =
    | NilC
    | IntC(value: int32)
    | StrC(length: nat, text: string)
    | SymC(length: nat, symbol: string, cls: nat)
    | ArrC(elems: seq<nat>)
    | ExinfoC(room: nat, blocks: seq<(nat, nat)>)

  /** What a lookup compares: the type and the value. */
  datatype Key = IntKey(value: int32) | StrKey(text: string) | SymKey(symbol: string)

  /** The constants in the order they were allocated, and the offsets of the ones that
      lookups consider. */
  datatype Table = Table(consts: seq<Constant>, items: seq<nat>)

  function RoundUp4(n: nat): (r: nat)
    ensures n <= r < n + 4 && r % 4 == 0
  {
    (n + 3) / 4 * 4
  }

  /** The bytes ct_malloc reserves. */
  function AllocSize(c: Constant): nat {
    match c
    case NilC => 24
    case IntC(_) => 32
    case StrC(n, _) => 32 + n
    case SymC(n, _, _) => 32 + n
    case ArrC(elems) => 36 + 4 * |elems|
    case ExinfoC(room, _) => 40 + 8 * room
  }

  /** The bytes the virtual machine skips, from the lengths it finds. */
  function WalkSize(c: Constant): nat {
    match c
    case ExinfoC(_, blocks) => 40 + 8 * |blocks|
    case _ => AllocSize(c)
  }

  function Total(cs: seq<Constant>): nat {
    if cs == [] then 0 else AllocSize(cs[0]) + Total(cs[1..])
  }

  /** The constant that starts at an offset. */
  function At(cs: seq<Constant>, off: int): Option<Constant> {
    if cs == [] || off < 0 then None
    else if off == 0 then Some(cs[0])
    else At(cs[1..], off - AllocSize(cs[0]))
  }

  function KeyOf(c: Constant): Option<Key> {
    match c
    case IntC(v) => Some(IntKey(v))
    case StrC(_, t) => Some(StrKey(t))
    case SymC(_, t, _) => Some(SymKey(t))
    case _ => None
  }

  predicate HasKey(cs: seq<Constant>, off: int, k: Key) {
    At(cs, off).Some? && KeyOf(At(cs, off).value) == Some(k)
  }

  /** The first item with the key. */
  function Find(cs: seq<Constant>, items: seq<nat>, k: Key): Option<nat> {
    if items == [] then None
    else if HasKey(cs, items[0], k) then Some(items[0])
    else Find(cs, items[1..], k)
  }

  function FreshConst(k: Key): Constant {
    match k
    case IntKey(v) => IntC(v)
    case StrKey(t) => StrC(RoundUp4(|t|), t)
    case SymKey(t) => SymC(RoundUp4(|t|), t, 0)
  }

  // ----- operations -----------------------------------------------------------------

  /** What the compiler does to the table. */
  datatype Insertion =
    | Intern(k: Key)
    | ForceSymbol(symbol: string)
    | NewArray(length: nat)
    | SetElem(array: nat, index: nat, elem: nat)
    | NewExinfo(room: nat)
    | AddBlock(exinfo: nat, tryAddr: nat, catchAddr: nat)
    | SetParent(sym: nat, parent: nat)

  /** The empty table has the nil singleton. */
  function Initial(): Table { Table([NilC], []) }

  function Appended(t: Table, c: Constant): Table { t.(consts := t.consts + [c]) }

  function AppendedItem(t: Table, c: Constant): Table {
    Table(t.consts + [c], t.items + [Total(t.consts)])
  }

  /** The constant at an offset, replaced. */
  function Replaced(cs: seq<Constant>, off: int, c: Constant): seq<Constant> {
    if cs == [] || off < 0 then cs
    else if off == 0 then [c] + cs[1..]
    else [cs[0]] + Replaced(cs[1..], off - AllocSize(cs[0]), c)
  }

  /** May the insertion be done?  A write outside a constant would hit its neighbour. */
  predicate Allowed(t: Table, x: Insertion) {
    match x
    case SetElem(a, i, _) => var c := At(t.consts, a); c.Some? && c.value.ArrC? && i < |c.value.elems|
    case AddBlock(e, _, _) => var c := At(t.consts, e); c.Some? && c.value.ExinfoC? && |c.value.blocks| < c.value.room
    case SetParent(s, _) => var c := At(t.consts, s); c.Some? && c.value.SymC?
    case _ => true
  }

  /** The table after an insertion. */
  function Insert(t: Table, x: Insertion): Table
    requires Allowed(t, x)
  {
    match x
    case Intern(k) => if Find(t.consts, t.items, k).Some? then t else AppendedItem(t, FreshConst(k))
    case ForceSymbol(s) => AppendedItem(t, FreshConst(SymKey(s)))
    case NewArray(n) => Appended(t, ArrC(seq(n, i => 0)))
    case SetElem(a, i, e) =>
      var c := At(t.consts, a).value;
      t.(consts := Replaced(t.consts, a, ArrC(c.elems[i := e])))
    case NewExinfo(n) => Appended(t, ExinfoC(n, []))
    case AddBlock(e, b, h) =>
      var c := At(t.consts, e).value;
      t.(consts := Replaced(t.consts, e, ExinfoC(c.room, c.blocks + [(b, h)])))
    case SetParent(s, p) =>
      var c := At(t.consts, s).value;
      t.(consts := Replaced(t.consts, s, SymC(c.length, c.symbol, p)))
  }

  /** The offset a lookup answers after interning. */
  function InternedAt(t: Table, k: Key): nat {
    var f := Find(t.consts, t.items, k);
    if f.Some? then f.value else Total(t.consts)
  }

  predicate AllowedAll(t: Table, xs: seq<Insertion>)
    decreases |xs|
  {
    xs == [] || (Allowed(t, xs[0]) && AllowedAll(Insert(t, xs[0]), xs[1..]))
  }

  /** The table after a history of insertions. */
  function Inserted(t: Table, xs: seq<Insertion>): Table
    requires AllowedAll(t, xs)
    decreases |xs|
  {
    if xs == [] then t else Inserted(Insert(t, xs[0]), xs[1..])
  }

  // ----- what every table keeps -----------------------------------------------------

  predicate WellFormed(c: Constant) {
    match c
    case StrC(n, t) => n == RoundUp4(|t|)
    case SymC(n, t, _) => n == RoundUp4(|t|)
    case ExinfoC(room, blocks) => |blocks| <= room
    case _ => true
  }

  predicate AllWell(cs: seq<Constant>) { forall i :: 0 <= i < |cs| ==> WellFormed(cs[i]) }

  /** Every item is a constant with a key, and every constant with a key is found. */
  predicate Consistent(t: Table) {
    && AllWell(t.consts)
    && |t.consts| > 0 && t.consts[0] == NilC
    && (forall i :: 0 <= i < |t.items| ==> HasSomeKey(t.consts, t.items[i]))
  }

  predicate HasSomeKey(cs: seq<Constant>, off: int) {
    At(cs, off).Some? && KeyOf(At(cs, off).value).Some?
  }

  /** Nothing that an offset denotes is lost or changes its key. */
  ghost predicate Extends(t: Table, u: Table) {
    && t.items <= u.items
    && (forall off: int :: At(t.consts, off).Some? ==>
          At(u.consts, off).Some? && KeyOf(At(u.consts, off).value) == KeyOf(At(t.consts, off).value))
  }

  lemma {:induction false} TotalAppend(cs: seq<Constant>, c: Constant)
    ensures Total(cs + [c]) == Total(cs) + AllocSize(c)
  {
    if cs != [] {
      assert (cs + [c])[1..] == cs[1..] + [c];
      TotalAppend(cs[1..], c);
    }
  }

  lemma {:induction false} AtAppend(cs: seq<Constant>, c: Constant, off: int)
    ensures At(cs, off).Some? ==> At(cs + [c], off) == At(cs, off)
    ensures At(cs + [c], Total(cs)) == Some(c)
    ensures At(cs, off).Some? ==> 0 <= off < Total(cs)
  {
    if cs == [] {
    } else {
      assert (cs + [c])[1..] == cs[1..] + [c];
      AtAppend(cs[1..], c, off - AllocSize(cs[0]));
      assert AllocSize(cs[0]) > 0;
    }
  }

  lemma {:induction false} AtReplaced(cs: seq<Constant>, off: int, c: Constant, o: int)
    requires At(cs, off).Some? && AllocSize(c) == AllocSize(At(cs, off).value)
    ensures At(Replaced(cs, off, c), o) == if o == off then Some(c) else At(cs, o)
    ensures Total(Replaced(cs, off, c)) == Total(cs) && |Replaced(cs, off, c)| == |cs|
  {
    var r := Replaced(cs, off, c);
    if off == 0 {
      assert r[1..] == cs[1..];
    } else {
      AtReplaced(cs[1..], off - AllocSize(cs[0]), c, o - AllocSize(cs[0]));
      assert r[1..] == Replaced(cs[1..], off - AllocSize(cs[0]), c);
    }
  }

  lemma {:induction false} AtWell(cs: seq<Constant>, off: int)
    requires AllWell(cs) && At(cs, off).Some?
    ensures WellFormed(At(cs, off).value)
  {
    if off != 0 {
      forall i | 0 <= i < |cs[1..]| ensures WellFormed(cs[1..][i]) { assert cs[1..][i] == cs[i + 1]; }
      AtWell(cs[1..], off - AllocSize(cs[0]));
    }
  }

  lemma {:induction false} ReplacedWell(cs: seq<Constant>, off: int, c: Constant)
    requires AllWell(cs) && WellFormed(c)
    ensures AllWell(Replaced(cs, off, c))
  {
    if cs != [] && off > 0 {
      forall i | 0 <= i < |cs[1..]| ensures WellFormed(cs[1..][i]) { assert cs[1..][i] == cs[i + 1]; }
      ReplacedWell(cs[1..], off - AllocSize(cs[0]), c);
    }
  }

  lemma {:induction false} FindSound(cs: seq<Constant>, items: seq<nat>, k: Key)
    ensures Find(cs, items, k).Some? ==> HasKey(cs, Find(cs, items, k).value, k) && Find(cs, items, k).value in items
    ensures Find(cs, items, k).None? ==> forall i :: 0 <= i < |items| ==> !HasKey(cs, items[i], k)
  {
    if items != [] && !HasKey(cs, items[0], k) {
      FindSound(cs, items[1..], k);
      forall i | 0 <= i < |items| && Find(cs, items, k).None? ensures !HasKey(cs, items[i], k) {
        if i > 0 { assert items[i] == items[1..][i - 1]; }
      }
    }
  }

  lemma {:induction false} FindStable(t: Table, u: Table, xs: seq<nat>, ys: seq<nat>, k: Key)
    requires Extends(t, u) && xs <= ys
    requires forall i :: 0 <= i < |xs| ==> HasSomeKey(t.consts, xs[i])
    requires Find(t.consts, xs, k).Some?
    ensures Find(u.consts, ys, k) == Find(t.consts, xs, k)
  {
    assert ys[0] == xs[0];
    assert HasSomeKey(t.consts, xs[0]);
    if !HasKey(t.consts, xs[0], k) {
      FindStable(t, u, xs[1..], ys[1..], k);
    }
  }

  lemma AppendExtends(t: Table, c: Constant)
    ensures Extends(t, Appended(t, c)) && Extends(t, AppendedItem(t, c))
  {
    forall off: int | At(t.consts, off).Some? ensures At(t.consts + [c], off) == At(t.consts, off) {
      AtAppend(t.consts, c, off);
    }
  }

  lemma ReplaceExtends(t: Table, off: int, c: Constant)
    requires At(t.consts, off).Some? && AllocSize(c) == AllocSize(At(t.consts, off).value)
    requires KeyOf(c) == KeyOf(At(t.consts, off).value)
    ensures Extends(t, t.(consts := Replaced(t.consts, off, c)))
  {
    forall o: int | At(t.consts, o).Some?
      ensures At(Replaced(t.consts, off, c), o).Some? &&
              KeyOf(At(Replaced(t.consts, off, c), o).value) == KeyOf(At(t.consts, o).value)
    {
      AtReplaced(t.consts, off, c, o);
    }
  }

  lemma ReplaceConsistent(t: Table, off: int, c: Constant)
    requires Consistent(t) && At(t.consts, off).Some? && AllocSize(c) == AllocSize(At(t.consts, off).value)
    requires KeyOf(c) == KeyOf(At(t.consts, off).value) && WellFormed(c) && !c.NilC? && !At(t.consts, off).value.NilC?
    ensures Consistent(t.(consts := Replaced(t.consts, off, c)))
  {
    ReplacedWell(t.consts, off, c);
    AtReplaced(t.consts, off, c, 0);
    ReplaceExtends(t, off, c);
  }

  lemma AppendConsistent(t: Table, c: Constant)
    requires Consistent(t) && WellFormed(c)
    ensures Consistent(Appended(t, c))
    ensures KeyOf(c).Some? ==> Consistent(AppendedItem(t, c))
  {
    AppendExtends(t, c);
    var u := AppendedItem(t, c);
    forall i | 0 <= i < |u.items| && KeyOf(c).Some? ensures HasSomeKey(u.consts, u.items[i]) {
      AtAppend(t.consts, c, 0);
      if i < |t.items| { assert HasSomeKey(t.consts, t.items[i]); }
    }
    forall i | 0 <= i < |t.items| ensures HasSomeKey(t.consts + [c], t.items[i]) {
      assert HasSomeKey(t.consts, t.items[i]);
    }
  }

  /** Every insertion keeps the table consistent and loses no offset. */
  lemma InsertKeeps(t: Table, x: Insertion)
    requires Consistent(t) && Allowed(t, x)
    ensures Consistent(Insert(t, x)) && Extends(t, Insert(t, x))
  {
    match x
    case Intern(k) => if Find(t.consts, t.items, k).None? { AppendConsistent(t, FreshConst(k)); AppendExtends(t, FreshConst(k)); }
    case ForceSymbol(s) => AppendConsistent(t, FreshConst(SymKey(s))); AppendExtends(t, FreshConst(SymKey(s)));
    case NewArray(n) => AppendConsistent(t, ArrC(seq(n, i => 0))); AppendExtends(t, ArrC(seq(n, i => 0)));
    case NewExinfo(n) => AppendConsistent(t, ExinfoC(n, [])); AppendExtends(t, ExinfoC(n, []));
    case SetElem(a, i, e) =>
      var c := At(t.consts, a).value;
      ReplaceConsistent(t, a, ArrC(c.elems[i := e]));
      ReplaceExtends(t, a, ArrC(c.elems[i := e]));
    case AddBlock(e, b, h) =>
      var c := At(t.consts, e).value;
      ReplaceConsistent(t, e, ExinfoC(c.room, c.blocks + [(b, h)]));
      ReplaceExtends(t, e, ExinfoC(c.room, c.blocks + [(b, h)]));
    case SetParent(s, p) =>
      var c := At(t.consts, s).value;
      AtWell(t.consts, s);
      ReplaceConsistent(t, s, SymC(c.length, c.symbol, p));
      ReplaceExtends(t, s, SymC(c.length, c.symbol, p));
  }

  /** An insertion changes at most the constant it names, and there only what it says: one
      element, one more block, or the parent of a symbol. */
  lemma InsertWrites(t: Table, x: Insertion)
    requires Consistent(t) && Allowed(t, x)
    ensures var u := Insert(t, x).consts;
            match x
            case SetElem(a, i, e) =>
              var v := At(t.consts, a).value.elems;
              && At(u, a).Some? && At(u, a).value.ArrC? && |At(u, a).value.elems| == |v|
              && At(u, a).value.elems[i] == e
              && (forall j :: 0 <= j < |v| && j != i ==> At(u, a).value.elems[j] == v[j])
              && (forall o: int :: o != a ==> At(u, o) == At(t.consts, o))
            case AddBlock(h, b, c) =>
              var v := At(t.consts, h).value;
              && At(u, h).Some? && At(u, h).value.ExinfoC? && At(u, h).value.room == v.room
              && |At(u, h).value.blocks| == |v.blocks| + 1 && v.blocks <= At(u, h).value.blocks
              && At(u, h).value.blocks[|v.blocks|] == (b, c)
              && (forall o: int :: o != h ==> At(u, o) == At(t.consts, o))
            case SetParent(y, p) =>
              && At(u, y) == Some(At(t.consts, y).value.(cls := p))
              && (forall o: int :: o != y ==> At(u, o) == At(t.consts, o))
            case _ => forall o: int :: At(t.consts, o).Some? ==> At(u, o) == At(t.consts, o)
  {
    hide At, Replaced, AllocSize, Find, Consistent;
    match x
    case SetElem(a, i, e) => Written(t.consts, a, ArrC(At(t.consts, a).value.elems[i := e]));
    case AddBlock(h, b, c) =>
      var v := At(t.consts, h).value;
      Written(t.consts, h, ExinfoC(v.room, v.blocks + [(b, c)]));
    case SetParent(y, p) => Written(t.consts, y, At(t.consts, y).value.(cls := p));
    case Intern(k) => Kept(t.consts, FreshConst(k));
    case ForceSymbol(s) => Kept(t.consts, FreshConst(SymKey(s)));
    case NewArray(n) => Kept(t.consts, ArrC(seq(n, i => 0)));
    case NewExinfo(n) => Kept(t.consts, ExinfoC(n, []));
  }

  lemma Written(cs: seq<Constant>, off: int, c: Constant)
    requires At(cs, off).Some? && SameRoom(c, At(cs, off).value)
    ensures At(Replaced(cs, off, c), off) == Some(c)
    ensures forall o: int :: o != off ==> At(Replaced(cs, off, c), o) == At(cs, o)
  {
    hide At, Replaced;
    AtReplaced(cs, off, c, off);
    forall o: int | o != off ensures At(Replaced(cs, off, c), o) == At(cs, o) { AtReplaced(cs, off, c, o); }
  }

  /** Constants of one kind with the same lengths. */
  predicate SameRoom(c: Constant, d: Constant) {
    || (c.ArrC? && d.ArrC? && |c.elems| == |d.elems|)
    || (c.ExinfoC? && d.ExinfoC? && c.room == d.room)
    || (c.SymC? && d.SymC? && c.length == d.length)
  }

  lemma Kept(cs: seq<Constant>, c: Constant)
    ensures forall o: int :: At(cs, o).Some? ==> At(cs + [c], o) == At(cs, o)
  {
    hide At;
    forall o: int | At(cs, o).Some? ensures At(cs + [c], o) == At(cs, o) { AtAppend(cs, c, o); }
  }

  /** New constants start out as their insertion says, at the end of the table. */
  lemma NewConstants(t: Table, n: nat, s: string)
    requires Consistent(t)
    ensures var a := At(Insert(t, NewArray(n)).consts, Total(t.consts));
            a.Some? && a.value.ArrC? && |a.value.elems| == n && forall i :: 0 <= i < n ==> a.value.elems[i] == 0
    ensures var x := At(Insert(t, NewExinfo(n)).consts, Total(t.consts)); x == Some(ExinfoC(n, []))
    ensures var y := At(Insert(t, ForceSymbol(s)).consts, Total(t.consts));
            y.Some? && KeyOf(y.value) == Some(SymKey(s)) && y.value.cls == 0
  {
    hide At;
    AtAppend(t.consts, ArrC(seq(n, i => 0)), 0);
    AtAppend(t.consts, ExinfoC(n, []), 0);
    AtAppend(t.consts, FreshConst(SymKey(s)), 0);
  }

  lemma ExtendsTrans(t: Table, u: Table, v: Table)
    requires Extends(t, u) && Extends(u, v)
    ensures Extends(t, v)
  {
  }

  /** Along any history the table stays consistent and no offset is lost. */
  lemma {:induction false} HistoryExtends(t: Table, xs: seq<Insertion>)
    requires Consistent(t) && AllowedAll(t, xs)
    ensures Consistent(Inserted(t, xs)) && Extends(t, Inserted(t, xs))
    decreases |xs|
  {
    if xs != [] {
      InsertKeeps(t, xs[0]);
      HistoryExtends(Insert(t, xs[0]), xs[1..]);
      ExtendsTrans(t, Insert(t, xs[0]), Inserted(t, xs));
    }
  }

  // ----- the promises ---------------------------------------------------------------

  /** Interning twice, whatever is inserted between, gives the same offset exactly for
      equal values of the same type, and the offset reads back the value. */
  lemma InterningIsByValue(xs: seq<Insertion>, k: Key, ys: seq<Insertion>, l: Key)
    requires AllowedAll(Initial(), xs)
    requires AllowedAll(Insert(Inserted(Initial(), xs), Intern(k)), ys)
    ensures var t := Inserted(Initial(), xs);
            var u := Inserted(Insert(t, Intern(k)), ys);
            (InternedAt(t, k) == InternedAt(u, l) <==> k == l) && HasKey(u.consts, InternedAt(t, k), k)
  {
    var t := Inserted(Initial(), xs);
    HistoryExtends(Initial(), xs);
    var t1 := Insert(t, Intern(k));
    InsertKeeps(t, Intern(k));
    var u := Inserted(t1, ys);
    HistoryExtends(t1, ys);
    Interned(t, k);
    FindStable(t1, u, t1.items, u.items, k);
    FindSound(u.consts, u.items, k);
    FindSound(u.consts, u.items, l);
    AtTotal(u.consts);
  }

  lemma {:induction false} AtTotal(cs: seq<Constant>)
    ensures At(cs, Total(cs)).None?
  {
    if cs != [] { AtTotal(cs[1..]); assert AllocSize(cs[0]) > 0; }
  }

  /** Right after interning, the lookup finds what interning answered. */
  lemma Interned(t: Table, k: Key)
    requires Consistent(t)
    ensures Find(Insert(t, Intern(k)).consts, Insert(t, Intern(k)).items, k) == Some(InternedAt(t, k))
  {
    if Find(t.consts, t.items, k).None? {
      FindSound(t.consts, t.items, k);
      var c := FreshConst(k);
      AtAppend(t.consts, c, 0);
      AppendExtends(t, c);
      FindLast(t.consts + [c], t.items, Total(t.consts), k) by {
        forall i | 0 <= i < |t.items| ensures !HasKey(t.consts + [c], t.items[i], k) {
          assert HasSomeKey(t.consts, t.items[i]);
          assert !HasKey(t.consts, t.items[i], k);
        }
      }
    }
  }

  lemma {:induction false} FindLast(cs: seq<Constant>, items: seq<nat>, off: nat, k: Key)
    requires HasKey(cs, off, k) && forall i :: 0 <= i < |items| ==> !HasKey(cs, items[i], k)
    ensures Find(cs, items + [off], k) == Some(off)
  {
    if items != [] {
      assert (items + [off])[1..] == items[1..] + [off];
      FindLast(cs, items[1..], off, k);
    }
  }

  /** Offsets are aligned, and a string with its terminator stays inside its constant
      (the characters start at byte 28). */
  lemma {:induction false} Aligned(cs: seq<Constant>, off: int)
    requires AllWell(cs) && At(cs, off).Some?
    ensures off % 4 == 0 && off + AllocSize(At(cs, off).value) <= Total(cs)
    ensures At(cs, off).value.StrC? ==> 28 + |At(cs, off).value.text| + 1 <= AllocSize(At(cs, off).value)
  {
    hide AllocSize, WellFormed;
    AlignedSize(cs[0]);
    if off != 0 {
      forall i | 0 <= i < |cs[1..]| ensures WellFormed(cs[1..][i]) { assert cs[1..][i] == cs[i + 1]; }
      Aligned(cs[1..], off - AllocSize(cs[0]));
    }
  }

  /** What a constant holds lies inside it: the elements of an array from byte 36 on, the blocks
      of an exception table from byte 40 on, and nothing is left behind them. */
  lemma ContentsInside(c: Constant, i: nat)
    ensures c.ArrC? && i < |c.elems| ==> 36 + 4 * (i + 1) <= AllocSize(c)
    ensures c.ArrC? && i + 1 == |c.elems| ==> 36 + 4 * (i + 1) == AllocSize(c)
    ensures WellFormed(c) && c.ExinfoC? && i < |c.blocks| ==> 40 + 8 * (i + 1) <= AllocSize(c)
    ensures c.ExinfoC? && i + 1 == c.room ==> 40 + 8 * (i + 1) == AllocSize(c)
    ensures WellFormed(c) && c.StrC? ==> 28 + |c.text| + 1 <= AllocSize(c) <= 28 + |c.text| + 8
    ensures WellFormed(c) && c.SymC? ==> 28 + |c.symbol| + 1 <= AllocSize(c) - 3 <= 28 + |c.symbol| + 8
  {
  }

  lemma AlignedSize(c: Constant)
    requires WellFormed(c)
    ensures AllocSize(c) % 4 == 0 && (c.StrC? ==> 28 + |c.text| + 1 <= AllocSize(c))
  {
  }

  /** The offsets of the constants, in order of allocation. */
  function Offsets(cs: seq<Constant>, start: nat): seq<nat> {
    if cs == [] then [] else [start] + Offsets(cs[1..], start + AllocSize(cs[0]))
  }

  /** Every exception table got all the blocks it was allocated for. */
  predicate Filled(cs: seq<Constant>) {
    forall i :: 0 <= i < |cs| && cs[i].ExinfoC? ==> |cs[i].blocks| == cs[i].room
  }

  /** The virtual machine's loop over the table: it goes from constant to constant by
      the lengths it reads, until it stands at the end. */
  method WalkTable(cs: seq<Constant>) returns (visited: seq<nat>)
    requires Filled(cs)
    ensures visited == Offsets(cs, 0)
  {
    hide Total, At, Offsets, WalkSize, AllocSize, Filled;
    var ptr := 0;
    visited := [];
    ghost var n := 0;
    WalkBegins(cs);
    while ptr != Total(cs)
      invariant n <= |cs| && ptr == Total(cs[..n])
      invariant visited + Offsets(cs[n..], ptr) == Offsets(cs, 0)
      decreases |cs| - n
    {
      if n == |cs| { WholeTotal(cs, n, ptr); assert false; }
      WalkStep(cs, n, ptr);
      Join2(visited, [ptr], Offsets(cs[n + 1..], ptr + WalkSize(cs[n])));
      visited := visited + [ptr];
      ptr := ptr + WalkSize(At(cs, ptr).value);
      n := n + 1;
    }
    TailTotal(cs, n);
    WalkEnds(cs, n, ptr, visited);
  }

  lemma WalkBegins(cs: seq<Constant>)
    ensures Total(cs[..0]) == 0 && [] + Offsets(cs[0..], 0) == Offsets(cs, 0)
  {
    assert cs[0..] == cs;
  }

  lemma WalkStep(cs: seq<Constant>, n: nat, ptr: nat)
    requires n < |cs| && ptr == Total(cs[..n]) && Filled(cs)
    ensures At(cs, ptr) == Some(cs[n]) && ptr + WalkSize(cs[n]) == Total(cs[..n + 1])
    ensures Offsets(cs[n..], ptr) == [ptr] + Offsets(cs[n + 1..], ptr + WalkSize(cs[n]))
  {
    hide Total, At, Offsets, AllocSize, WalkSize;
    AtSplit(cs, n);
    assert cs[n..][1..] == cs[n + 1..] && cs[n..] != [] && cs[n..][0] == cs[n];
    assert cs[..n + 1] == cs[..n] + [cs[n]];
    TotalAppend(cs[..n], cs[n]);
    SameSize(cs[n]);
    OffsetsStep(cs[n..], ptr);
  }

  lemma SameSize(c: Constant)
    ensures WalkSize(c) == AllocSize(c) <==> (c.ExinfoC? ==> |c.blocks| == c.room)
  {
  }

  lemma OffsetsStep(cs: seq<Constant>, start: nat)
    requires cs != []
    ensures Offsets(cs, start) == [start] + Offsets(cs[1..], start + AllocSize(cs[0]))
  {
    hide AllocSize;
  }

  lemma WalkEnds(cs: seq<Constant>, n: nat, ptr: nat, visited: seq<nat>)
    requires n == |cs|
    ensures visited + Offsets(cs[n..], ptr) == visited
  {
  }

  lemma {:induction false} TotalSplit(cs: seq<Constant>, n: nat)
    requires n <= |cs|
    ensures Total(cs) == Total(cs[..n]) + Total(cs[n..])
  {
    if n > 0 {
      TotalSplit(cs[1..], n - 1);
      assert cs[1..][..n - 1] == cs[..n][1..] && cs[1..][n - 1..] == cs[n..];
    } else {
      assert cs[..0] == [] && cs[0..] == cs;
    }
  }

  lemma WholeTotal(cs: seq<Constant>, n: nat, ptr: nat)
    requires n == |cs| && ptr == Total(cs[..n])
    ensures ptr == Total(cs)
  {
    assert cs[..n] == cs;
  }

  lemma TailTotal(cs: seq<Constant>, n: nat)
    requires n <= |cs| && Total(cs[..n]) == Total(cs)
    ensures n == |cs|
  {
    TotalSplit(cs, n);
  }

  lemma {:induction false} AtSplit(cs: seq<Constant>, n: nat)
    requires n < |cs|
    ensures At(cs, Total(cs[..n])) == Some(cs[n])
  {
    if n > 0 {
      AtSplit(cs[1..], n - 1);
      assert cs[1..][..n - 1] == cs[..n][1..];
      assert AllocSize(cs[0]) > 0;
    }
  }

  /** From constant `i` the walk goes to the next constant, or to the end. */
  predicate GoesOn(cs: seq<Constant>, i: nat)
    requires i < |cs|
  {
    Total(cs[..i]) + WalkSize(cs[i]) == Total(cs[..i + 1])
  }

  /** The walk goes from every constant to the next exactly when all exception tables are
      filled. */
  lemma WalkNeedsFilled(cs: seq<Constant>)
    ensures (forall i :: 0 <= i < |cs| ==> GoesOn(cs, i)) <==> Filled(cs)
  {
    hide Total, AllocSize, WalkSize;
    forall i | 0 <= i < |cs| ensures GoesOn(cs, i) <==> (cs[i].ExinfoC? ==> |cs[i].blocks| == cs[i].room) {
      assert cs[..i + 1] == cs[..i] + [cs[i]];
      TotalAppend(cs[..i], cs[i]);
      SameSize(cs[i]);
    }
  }

  /** A table with an exception table that is not filled: the walk would leave the
      constants, so Filled is needed. */
  lemma UnfilledMisleads()
    ensures var cs := [NilC, ExinfoC(1, []), IntC(7)]; !Filled(cs) && At(cs, 24 + WalkSize(cs[1])).None?
  {
    var cs := [NilC, ExinfoC(1, []), IntC(7)];
    assert cs[1].ExinfoC?;
    assert cs[1..][1..] == cs[2..];
    assert cs[2..] == [IntC(7)];
    assert At(cs[1..], 40) == At(cs[2..], 40 - 48);
  }
}
