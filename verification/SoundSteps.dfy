/** Every instruction keeps the heap sound: stored lengths agree, unused element
    slots hold nil, no two arrays share a block, and no field comes to hold a
    class or stack reference. */
module SoundSteps {
  import opened Basics
  import opened KekObjects
  import opened HeapGraph
  import opened CopyLedger
  import opened HeapState
  import opened Instructions

  ghost predicate LayoutOk(e: Layout, s: State) {
    && e.nilAt in s.mem && s.mem[e.nilAt].Nil? && !s.space.Has(e.nilAt)
    && e.stackAt in s.mem && s.mem[e.stackAt].StackHeader? && !s.space.Has(e.stackAt)
  }

  /** No array has the block at `b`. */
  ghost predicate Unowned(m: Mem, b: int) {
    forall a :: a in m && m[a].Arr? && m[a].elems != 0 ==> BlockOf(m[a].elems) != b
  }

  /** Nothing but contents changed: the same addresses are in use, for objects of the same
      kinds and sizes. */
  ghost predicate SameShape(s: State, t: State) {
    && t.mem.Keys == s.mem.Keys && t.space == s.space && t.consts == s.consts && t.constArrs == s.constArrs
    && t.locals == s.locals
    && (forall a :: a in s.mem ==> t.mem[a].Nil? == s.mem[a].Nil? && t.mem[a].StackHeader? == s.mem[a].StackHeader?)
    && forall a :: a in s.mem ==> End(t.mem[a]) == End(s.mem[a])
  }

  ghost predicate WordsIn(m: Mem, s: seq<Word>) {
    forall i :: 0 <= i < |s| && s[i].Ptr? ==> s[i].at in m
  }

  lemma StackSound(s: State, stack: seq<Word>)
    requires Sound(s) && WordsIn(s.mem, stack)
    ensures Sound(s.(stack := stack))
  {
    var t := s.(stack := stack);
    forall i | 0 <= i < |t.constArrs| ensures ConstArr(t, t.constArrs[i]) {
      assert ConstArr(s, s.constArrs[i]);
    }
  }

  lemma StaticsSound(s: State, k: nat, w: Word)
    requires Sound(s) && k < |s.statics| && Plain(s.mem, w)
    ensures Sound(s.(statics := s.statics[k := w]))
  {
    var t := s.(statics := s.statics[k := w]);
    forall i | 0 <= i < |t.constArrs| ensures ConstArr(t, t.constArrs[i]) {
      assert ConstArr(s, s.constArrs[i]);
    }
  }

  // ----- overwriting objects ----------------------------------------------------------

  /** What the object at `a` may be overwritten with so that the rest of the heap
      does not notice: it keeps its kind, and a block some array owns keeps its
      length and capacity. */
  ghost predicate Compatible(m: Mem, a: int, p: Obj)
    requires a in m
  {
    var o := m[a];
    && Unmoved(o) == Unmoved(p) && o.Nil? == p.Nil? && o.Arr? == p.Arr? && o.ArrObjs? == p.ArrObjs?
    && (o.ArrObjs? ==> (o.len == p.len && o.cap == p.cap) || Unowned(m, a))
  }

  lemma OthersOk(s: State, a: int, o: Obj, b: int)
    requires HeapOk(s.mem, s.space) && a in s.mem && Compatible(s.mem, a, o)
    requires b in s.mem
    ensures ObjOk(s.mem[a := o], s.space, s.mem[b])
  {
    var p := s.mem[b];
    assert ObjOk(s.mem, s.space, p);
    if p.ArrObjs? {
      forall i | p.len <= i < p.cap ensures NilWord(s.mem[a := o], s.space, p.slots[i]) {
        assert NilWord(s.mem, s.space, p.slots[i]);
      }
    }
  }

  /** Overwriting an object that is not an array. */
  lemma OverwriteSound(s: State, a: int, o: Obj)
    requires Sound(s) && a in s.mem && s.space.Has(a) && !s.consts.Has(a) && !s.mem[a].Arr?
    requires Compatible(s.mem, a, o) && ObjOk(s.mem[a := o], s.space, o)
    ensures Sound(s.(mem := s.mem[a := o]))
  {
    var t := s.(mem := s.mem[a := o]);
    forall b | b in t.mem ensures ObjOk(t.mem, t.space, t.mem[b]) {
      if b != a { OthersOk(s, a, o, b); }
    }
    forall i | 0 <= i < |t.constArrs| ensures ConstArr(t, t.constArrs[i]) {
      assert ConstArr(s, s.constArrs[i]);
    }
  }

  lemma SlotsWriteOk(s: State, a: int, j: nat, w: Word)
    requires Sound(s) && a in s.mem && s.space.Has(a)
    requires j < |Slots(s.mem[a])| && j < Traced(s.mem[a])
    requires w != Null && Plain(s.mem, w)
    ensures var o := WithSlots(s.mem[a], Slots(s.mem[a])[j := w]);
      Compatible(s.mem, a, o) && ObjOk(s.mem[a := o], s.space, o)
  {
    var p := s.mem[a];
    var o := WithSlots(p, Slots(p)[j := w]);
    assert ObjOk(s.mem, s.space, p);
    forall b | b in Refs(o) ensures b in s.mem && !Unmoved(s.mem[b]) {
      var i :| 0 <= i < |Slots(o)| && i < Traced(o) && Slots(o)[i] == Ptr(b);
      if i != j { assert Slots(p)[i].at in Refs(p); }
    }
    if o.ArrObjs? {
      forall i | o.len <= i < o.cap ensures NilWord(s.mem[a := o], s.space, o.slots[i]) {
        assert NilWord(s.mem, s.space, p.slots[i]);
      }
    }
  }

  lemma WriteSound(s: State, slot: Slot, w: Word)
    requires Sound(s) && SlotThere(s, slot) && w != Null && Apart(s.space, s.consts)
    requires w.Ptr? ==> w.at in s.mem && (!slot.OnStack? ==> !Unmoved(s.mem[w.at]))
    ensures Sound(WriteSlot(s, slot, w))
  {
    match slot
    case OnStack(i) => StackSound(s, s.stack[i := w]);
    case InStatics(k) => StaticsSound(s, k, w);
    case InObject(a, j) =>
      SlotsWriteOk(s, a, j, w);
      OverwriteSound(s, a, WithSlots(s.mem[a], Slots(s.mem[a])[j := w]));
  }

  // ----- arrays ---------------------------------------------------------------------------

  /** Giving an array, with its block, a length within the capacity. */
  lemma SetLengthSound(s: State, a: int, n: int)
    requires Sound(s) && a in s.mem && s.mem[a].Arr? && s.mem[a].elems != 0 && Apart(s.space, s.consts)
    requires BlockOf(s.mem[a].elems) in s.mem && s.mem[BlockOf(s.mem[a].elems)].ArrObjs?
    requires s.mem[a].length <= n <= s.mem[a].allocSize
    ensures Sound(SetLength(s, a, n)) && SameShape(s, SetLength(s, a, n))
  {
    hide ObjOk;
    var t := SetLength(s, a, n);
    forall c | c in t.mem ensures ObjOk(t.mem, t.space, t.mem[c]) {
      SetLengthOk(s, a, n, c);
    }
    forall i | 0 <= i < |t.constArrs| ensures ConstArr(t, t.constArrs[i]) {
      assert ConstArr(s, s.constArrs[i]);
    }
  }

  lemma SetLengthOk(s: State, a: int, n: int, c: int)
    requires Sound(s) && a in s.mem && s.mem[a].Arr? && s.mem[a].elems != 0
    requires BlockOf(s.mem[a].elems) in s.mem && s.mem[BlockOf(s.mem[a].elems)].ArrObjs?
    requires s.mem[a].length <= n <= s.mem[a].allocSize && c in s.mem
    ensures ObjOk(SetLength(s, a, n).mem, s.space, SetLength(s, a, n).mem[c])
  {
    var m := SetLength(s, a, n).mem;
    var b := BlockOf(s.mem[a].elems);
    var p := s.mem[c];
    assert ObjOk(s.mem, s.space, s.mem[a]) && ObjOk(s.mem, s.space, s.mem[b]) && ObjOk(s.mem, s.space, p);
    if p.ArrObjs? {
      forall i | p.len <= i < p.cap
        ensures NilWord(m, s.space, p.slots[i]) && p.slots[i].at in s.mem && !Unmoved(s.mem[p.slots[i].at])
      {
        assert NilWord(s.mem, s.space, p.slots[i]);
      }
    }
    forall d | d in Refs(m[c]) ensures d in m && !Unmoved(m[d]) {
      if c == b {
        var i :| 0 <= i < |p.slots| && i < n && p.slots[i] == Ptr(d);
        if i < p.len { assert Slots(p)[i].at in Refs(p); } else { assert NilWord(s.mem, s.space, p.slots[i]); }
      } else {
        assert d in Refs(p);
      }
    }
  }

  /** Giving an array a block nothing else owns. */
  lemma AdoptObjs(s: State, a: int, b: int, n: int, o: Obj)
    requires HeapOk(s.mem, s.space) && a in s.mem && s.mem[a].Arr? && b + HDR != 0
    requires b in s.mem && s.space.Has(b) && s.mem[b].ArrObjs? && s.mem[b].len == n
    requires o == Arr(s.mem[a].cls, n, s.mem[b].cap, b + HDR)
    ensures HeapOk(s.mem[a := o], s.space)
  {
    var m := s.mem[a := o];
    forall c | c in m ensures ObjOk(m, s.space, m[c]) {
      if c != a { OthersOk(s, a, o, c); } else { assert ObjOk(s.mem, s.space, s.mem[b]); }
    }
  }

  lemma AdoptSound(s: State, a: int, b: int, n: int)
    requires Sound(s) && a in s.mem && s.mem[a].Arr? && b + HDR != 0 && Apart(s.space, s.consts)
    requires b in s.mem && s.space.Has(b) && s.mem[b].ArrObjs? && s.mem[b].len == n && Unowned(s.mem, b)
    requires s.consts.Has(a) ==> a in s.constArrs
    ensures var t := s.(mem := s.mem[a := Arr(s.mem[a].cls, n, s.mem[b].cap, b + HDR)]);
      Sound(t) && SameShape(s, t)
  {
    hide ObjOk, NilWord;
    var o := Arr(s.mem[a].cls, n, s.mem[b].cap, b + HDR);
    var t := s.(mem := s.mem[a := o]);
    AdoptObjs(s, a, b, n, o);
    forall i | 0 <= i < |t.constArrs| ensures ConstArr(t, t.constArrs[i]) {
      assert ConstArr(s, s.constArrs[i]);
    }
  }

  /** The elements copied into the new block. */
  function Refilled(arr: Obj, was: Obj, fresh_: Obj, n: int): Obj
    requires arr.Arr? && was.ArrObjs? && fresh_.ArrObjs?
  {
    ArrObjs(n, fresh_.cap,
            seq(|fresh_.slots|, i requires 0 <= i < |fresh_.slots| =>
              if i < arr.length && i < |was.slots| then was.slots[i] else fresh_.slots[i]))
  }

  lemma RefilledOk(s: State, a: int, b: int, n: int)
    requires Sound(s) && a in s.mem && s.mem[a].Arr? && s.mem[a].elems != 0
    requires b in s.mem && s.mem[b].ArrObjs? && Unowned(s.mem, b)
    requires s.mem[a].length <= n <= s.mem[b].cap
    requires forall i :: 0 <= i < |s.mem[b].slots| ==> NilWord(s.mem, s.space, s.mem[b].slots[i])
    ensures var w := BlockOf(s.mem[a].elems); w in s.mem && s.mem[w].ArrObjs?
    ensures var o := Refilled(s.mem[a], s.mem[BlockOf(s.mem[a].elems)], s.mem[b], n);
      Compatible(s.mem, b, o) && ObjOk(s.mem[b := o], s.space, o)
  {
    var w := BlockOf(s.mem[a].elems);
    assert ObjOk(s.mem, s.space, s.mem[a]);
    assert ObjOk(s.mem, s.space, s.mem[w]) && ObjOk(s.mem, s.space, s.mem[b]);
    var was := s.mem[w];
    var o := Refilled(s.mem[a], was, s.mem[b], n);
    var m := s.mem[b := o];
    forall d | d in Refs(o) ensures d in m && !Unmoved(m[d]) {
      var i :| 0 <= i < |o.slots| && i < n && o.slots[i] == Ptr(d);
      if i < s.mem[a].length { assert Slots(was)[i].at in Refs(was); }
    }
    forall i | n <= i < o.cap ensures NilWord(m, s.space, o.slots[i]) {
      assert NilWord(s.mem, s.space, s.mem[b].slots[i]);
    }
  }

  lemma GrowSound(s: State, a: int, b: int, n: int)
    requires Sound(s) && a in s.mem && s.mem[a].Arr? && s.mem[a].elems != 0 && a != b
    requires b in s.mem && s.space.Has(b) && s.mem[b].ArrObjs? && Unowned(s.mem, b) && b + HDR != 0
    requires s.mem[a].length <= n <= s.mem[b].cap && Apart(s.space, s.consts)
    requires forall i :: 0 <= i < |s.mem[b].slots| ==> NilWord(s.mem, s.space, s.mem[b].slots[i])
    ensures Sound(GrowInto(s, a, b, n)) && SameShape(s, GrowInto(s, a, b, n))
  {
    hide Sound, ObjOk, NilWord, Compatible, Unowned, SameShape, Refilled, GrowInto;
    OwnsItsBlock(s, a, b);
    RefilledOk(s, a, b, n);
    var o := Refilled(s.mem[a], s.mem[BlockOf(s.mem[a].elems)], s.mem[b], n);
    OverwriteSound(s, b, o);
    var t := s.(mem := s.mem[b := o]);
    GrowTwoSteps(s, a, b, n, o, t);
    AdoptSound(t, a, b, n);
    SameShapeTrans(s, t, GrowInto(s, a, b, n));
  }

  lemma OwnsItsBlock(s: State, a: int, b: int)
    requires Sound(s) && a in s.mem && s.mem[a].Arr? && s.mem[a].elems != 0 && Apart(s.space, s.consts) && s.space.Has(b)
    ensures !s.consts.Has(b) && (s.consts.Has(a) ==> a in s.constArrs)
  {
    hide ObjOk;
  }

  /** The block is filled, and then the array is turned to it. */
  lemma GrowTwoSteps(s: State, a: int, b: int, n: int, o: Obj, t: State)
    requires a in s.mem && s.mem[a].Arr? && b in s.mem && s.mem[b].ArrObjs? && Unowned(s.mem, b) && a != b
    requires BlockOf(s.mem[a].elems) in s.mem && s.mem[BlockOf(s.mem[a].elems)].ArrObjs?
    requires o == Refilled(s.mem[a], s.mem[BlockOf(s.mem[a].elems)], s.mem[b], n) && t == s.(mem := s.mem[b := o])
    ensures o.ArrObjs? && o.len == n && Unowned(t.mem, b) && SameShape(s, t)
    ensures GrowInto(s, a, b, n) == t.(mem := t.mem[a := Arr(t.mem[a].cls, n, t.mem[b].cap, b + HDR)])
  {
  }

  lemma SameShapeTrans(s: State, t: State, u: State)
    requires SameShape(s, t) && SameShape(t, u)
    ensures SameShape(s, u)
  {
  }

  // ----- whole instructions --------------------------------------------------------------

  lemma PushSound(s: State, w: Word)
    requires Sound(s) && (w.Ptr? ==> w.at in s.mem)
    ensures Sound(Push(s, w)) && SameShape(s, Push(s, w))
  {
    StackSound(s, s.stack + [w]);
  }

  lemma DropSound(s: State, n: nat)
    requires Sound(s) && n <= |s.stack|
    ensures Sound(Drop(s, n)) && SameShape(s, Drop(s, n))
  {
    StackSound(s, s.stack[..|s.stack| - n]);
  }

  lemma SlotWordIn(s: State, slot: Slot)
    requires Sound(s) && SlotThere(s, slot)
    ensures var w := ReadSlot(s, slot); w.Ptr? ==> w.at in s.mem
  {
    match slot
    case OnStack(_) =>
    case InStatics(_) =>
    case InObject(a, j) =>
      assert ObjOk(s.mem, s.space, s.mem[a]);
      if Slots(s.mem[a])[j].Ptr? { assert Slots(s.mem[a])[j].at in Refs(s.mem[a]); }
  }

  lemma StoreSound(e: Layout, s: State)
    requires Sound(s) && Apart(s.space, s.consts)
    ensures BeginStore(e, s).Done? ==> Sound(BeginStore(e, s).s) && SameShape(s, BeginStore(e, s).s)
    ensures !BeginStore(e, s).Allocate?
  {
    if |s.stack| >= 3 {
      var t := Drop(s, 3);
      DropSound(s, 3);
      var r := Resolve(e, t, Top(s, 2), Top(s, 1));
      if r.Some? && BeginStore(e, s).Done? {
        hide Sound;
        WriteSound(t, r.value, Top(s, 0)) by { StackIn(s); }
      }
    }
  }

  lemma StackIn(s: State)
    requires Sound(s)
    ensures WordsIn(s.mem, s.stack)
  {
  }

  lemma ShapeTransitive(s: State, t: State, u: State)
    requires SameShape(s, t) && SameShape(t, u)
    ensures SameShape(s, u)
  {
  }

  lemma PushElemSound(s: State, b: int, n: int)
    requires Sound(s) && b in s.mem
    ensures Sound(PushElemAddr(s, b, n)) && SameShape(s, PushElemAddr(s, b, n))
  {
    if |s.stack| >= 1 {
      DropSound(s, 1);
      PushSound(Drop(s, 1), Ptr(b));
      PushSound(Push(Drop(s, 1), Ptr(b)), MakeDptr(b, b + HDR + n * WORD));
    }
  }

  lemma IndexInPlaceSound(e: Layout, s: State)
    requires Sound(s) && Apart(s.space, s.consts) && BeginIndexAddr(e, s).Done?
    ensures Sound(BeginIndexAddr(e, s).s) && SameShape(s, BeginIndexAddr(e, s).s)
  {
    hide Sound, SameShape, Grown, PushElemAddr;
    var n := IntVal(s.mem, Top(s, 0));
    var a := Top(s, 1).at;
    var arr := s.mem[a];
    DropSound(s, 1);
    var t := Drop(s, 1);
    if n >= arr.length {
      SetLengthSound(t, a, n + 1);
      ShapeTransitive(s, t, SetLength(t, a, n + 1));
      t := SetLength(t, a, n + 1);
    }
    PushElemSound(t, BlockOf(arr.elems), n);
    ShapeTransitive(s, t, PushElemAddr(t, BlockOf(arr.elems), n));
  }

  lemma IndexGrowSound(e: Layout, s: State)
    requires Sound(s) && LayoutOk(e, s) && BeginIndexAddr(e, s).Allocate?
    ensures var b := BeginIndexAddr(e, s); Sound(b.s) && SameShape(s, b.s) && Blank(b.s, b.o) && b.size > 0 && End(b.o) <= b.size
  {
    DropSound(s, 1);
    assert ObjOk(s.mem, s.space, s.mem[Top(s, 1).at]);
    var b := BeginIndexAddr(e, s);
    assert ObjOk(s.mem, s.space, s.mem[BlockOf(s.mem[Top(s, 1).at].elems)]);
  }

  lemma StackReadSound(e: Layout, s: State, op: Op)
    requires Sound(s) && LayoutOk(e, s)
    requires op.LvbiC? || op.LvbiLoc? || op.LabiLoc? || op.LvbiCv? || op.LabiCv? || op.Dup? || op.PopTop? || op.Wrt? || op.Equal?
    ensures Begin(e, s, op).Done? ==> Sound(Begin(e, s, op).s) && SameShape(s, Begin(e, s, op).s)
    ensures !Begin(e, s, op).Allocate?
  {
    var b := Begin(e, s, op);
    if b.Done? {
      assert WordsIn(s.mem, b.s.stack);
      StackSound(s, b.s.stack);
      assert b.s == s.(stack := b.s.stack);
    }
  }

  lemma FieldReadSound(e: Layout, s: State, op: Op)
    requires Sound(s)
    requires op.LvbsIve? || op.LabsIve? || op.Dr?
    ensures Begin(e, s, op).Done? ==> Sound(Begin(e, s, op).s) && SameShape(s, Begin(e, s, op).s)
    ensures !Begin(e, s, op).Allocate?
  {
    hide Sound, Begin;
    PushesOnly(e, s, op);
    var b := Begin(e, s, op);
    if b.Done? {
      ReadWordIn(e, s, op);
      StackSound(s, b.s.stack);
    }
  }

  /** These instructions change the stack alone, and push no more than two words. */
  lemma PushesOnly(e: Layout, s: State, op: Op)
    requires op.LvbsIve? || op.LabsIve? || op.Dr?
    ensures !Begin(e, s, op).Allocate?
    ensures Begin(e, s, op).Done? ==> Begin(e, s, op).s == s.(stack := Begin(e, s, op).s.stack)
  {
    hide SlotThere, Resolve;
  }

  lemma ReadWordIn(e: Layout, s: State, op: Op)
    requires Sound(s) && Begin(e, s, op).Done? && (op.LvbsIve? || op.LabsIve? || op.Dr?)
    ensures WordsIn(s.mem, Begin(e, s, op).s.stack)
  {
    match op
    case LvbsIve(i) => SlotWordIn(s, InObject(Top(s, 0).at, i + s.mem[Top(s, 0).at].varOffset));
    case LabsIve(i) =>
    case Dr => SlotWordIn(s, Resolve(e, Drop(s, 2), Top(s, 1), Top(s, 0)).value);
  }

  lemma IndexReadSound(s: State)
    requires Sound(s)
    ensures BeginIndex(s).Done? ==> Sound(BeginIndex(s).s) && SameShape(s, BeginIndex(s).s)
    ensures !BeginIndex(s).Allocate?
  {
    if BeginIndex(s).Done? {
      var n := IntVal(s.mem, Top(s, 0));
      var o := s.mem[Top(s, 1).at];
      var w := Top(BeginIndex(s).s, 0);
      if o.Arr? {
        var block := s.mem[BlockOf(o.elems)];
        assert ObjOk(s.mem, s.space, block);
        assert w == Slots(block)[n];
        if w.Ptr? { assert Slots(block)[n].at in Refs(block); }
      }
      hide Sound;
      DropSound(s, 2);
      PushSound(Drop(s, 2), w);
      ShapeTransitive(s, Drop(s, 2), BeginIndex(s).s);
    }
  }

  lemma AllocateSound(e: Layout, s: State, op: Op)
    requires Sound(s) && LayoutOk(e, s)
    requires op.Minus? || op.NewUdo? || op.NewArr? || op.InitArr?
    ensures Begin(e, s, op).Done? ==> Sound(Begin(e, s, op).s) && SameShape(s, Begin(e, s, op).s)
    ensures Begin(e, s, op).Allocate? ==>
      var b := Begin(e, s, op); Sound(b.s) && SameShape(s, b.s) && Blank(b.s, b.o) && b.size > 0 && End(b.o) <= b.size
  {
    hide Sound;
    if op.Minus? && |s.stack| >= 2 {
      DropSound(s, 2);
      var b := BeginMinus(s);
      if b.Done? { PushSound(Drop(s, 2), b.s.stack[|b.s.stack| - 1]); }
    }
  }

  /** Up to its allocation, an instruction keeps the heap sound and asks for an
      object without references into the heap. */
  lemma BeginSound(e: Layout, s: State, op: Op)
    requires Sound(s) && Apart(s.space, s.consts) && LayoutOk(e, s)
    ensures Begin(e, s, op).Done? ==> Sound(Begin(e, s, op).s) && SameShape(s, Begin(e, s, op).s)
    ensures Begin(e, s, op).Allocate? ==>
      var b := Begin(e, s, op); Sound(b.s) && SameShape(s, b.s) && Blank(b.s, b.o) && b.size > 0 && End(b.o) <= b.size
  {
    hide Sound;
    match op
    case LvbsIve(_) => FieldReadSound(e, s, op);
    case LabsIve(_) => FieldReadSound(e, s, op);
    case Dr => FieldReadSound(e, s, op);
    case Idx => IndexReadSound(s);
    case St => StoreSound(e, s);
    case Idxa =>
      if BeginIndexAddr(e, s).Done? { IndexInPlaceSound(e, s); }
      if BeginIndexAddr(e, s).Allocate? { IndexGrowSound(e, s); }
    case Minus => AllocateSound(e, s, op);
    case NewUdo(_, _, _) => AllocateSound(e, s, op);
    case NewArr(_) => AllocateSound(e, s, op);
    case InitArr => AllocateSound(e, s, op);
    case _ => StackReadSound(e, s, op);
  }

  /** What holds when an instruction has its object, at `at`. */
  ghost predicate Pending(s: State, op: Op, at: int, k: int) {
    && at in s.mem && s.space.Has(at) && at > 0 && Unowned(s.mem, at)
    && (op.InitArr? ==> PendingInit(s, at))
    && (op.Idxa? ==> PendingGrow(s, at, k))
  }

  ghost predicate PendingInit(s: State, at: int)
    requires at in s.mem
  {
    && |s.stack| >= 1 && IsArr(s.mem, Top(s, 0)) && s.space.Has(Top(s, 0).at)
    && s.mem[at].ArrObjs? && s.mem[at].len == 0 && s.mem[at].cap == ARR_INIT_SIZE
  }

  ghost predicate PendingGrow(s: State, at: int, k: int)
    requires at in s.mem
  {
    && |s.stack| >= 1 && IsArr(s.mem, Top(s, 0)) && s.mem[at].ArrObjs?
    && s.mem[Top(s, 0).at].elems != 0
    && 0 <= s.mem[Top(s, 0).at].length <= k + 1 <= s.mem[at].cap
    && forall i :: 0 <= i < |s.mem[at].slots| ==> NilWord(s.mem, s.space, s.mem[at].slots[i])
  }

  lemma FinishGrowSound(s: State, at: int, k: int)
    requires Sound(s) && Apart(s.space, s.consts) && Pending(s, Idxa, at, k)
    ensures Sound(Finish(s, Idxa, at, k)) && SameShape(s, Finish(s, Idxa, at, k))
  {
    hide Sound;
    var t := GrowInto(s, Top(s, 0).at, at, k + 1);
    GrowSound(s, Top(s, 0).at, at, k + 1);
    assert at in t.mem;
    hide SameShape, GrowInto;
    PushElemSound(t, at, k);
    ShapeTransitive(s, t, PushElemAddr(t, at, k));
  }

  lemma FinishSound(s: State, op: Op, at: int, k: int)
    requires Sound(s) && Apart(s.space, s.consts) && Pending(s, op, at, k)
    ensures Sound(Finish(s, op, at, k)) && SameShape(s, Finish(s, op, at, k))
  {
    hide Sound, SameShape;
    match op
    case InitArr => AdoptSound(s, Top(s, 0).at, at, 0);
    case Idxa => FinishGrowSound(s, at, k);
    case _ => PushSound(s, Ptr(at));
  }
}
