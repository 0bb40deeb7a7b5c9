/** The machine with the copying collector and the machine with an unbounded heap,
    related by a renaming of heap addresses: every instruction keeps the relation,
    and so does every collection. */
module Simulation {
  import opened Basics
  import opened KekObjects
  import opened HeapGraph
  import opened CopyLedger
  import opened HeapState
  import opened Instructions
  import opened SoundSteps

  /** `a` is outside the heap, or renamed. */
  ghost predicate Twin(u: State, r: map<int, int>, a: int) {
    a in u.mem && (u.space.Has(a) ==> a in r)
  }

  ghost predicate Mirrored(u: State, g: State, r: map<int, int>, a: int) {
    && a in u.mem && MapAddr(a, r) in g.mem
    && g.space.Has(MapAddr(a, r)) == u.space.Has(a)
    && g.mem[MapAddr(a, r)] == Image(u.mem[a], r)
    && forall b :: b in Refs(u.mem[a]) ==> Twin(u, r, b)
  }

  ghost predicate SimHeap(u: State, g: State, r: map<int, int>) {
    && u.consts == g.consts && u.constArrs == g.constArrs
    && Injective(r)
    && (forall a :: a in r ==> a in u.mem && u.space.Has(a))
    && (forall a :: Twin(u, r, a) ==> Mirrored(u, g, r, a))
    && (forall a :: a in g.mem && !g.space.Has(a) ==> a in u.mem && !u.space.Has(a))
  }

  ghost predicate SimWord(u: State, r: map<int, int>, w: Word, x: Word) {
    x == MapWord(w, r) && (w.Ptr? ==> Twin(u, r, w.at))
  }

  ghost predicate SimWords(u: State, r: map<int, int>, s: seq<Word>, t: seq<Word>) {
    |t| == |s| && forall i :: 0 <= i < |s| ==> SimWord(u, r, s[i], t[i])
  }

  /** `g` is `u` with the heap addresses renamed by `r`; objects of `u` that no
      root leads to need not be in `g`. */
  ghost predicate Sim(u: State, g: State, r: map<int, int>) {
    && SimHeap(u, g, r)
    && SimWords(u, r, u.statics, g.statics)
    && SimWords(u, r, u.locals, g.locals)
    && SimWords(u, r, u.stack, g.stack)
  }

  // ----- reading -----------------------------------------------------------------------

  /** Different objects are at different places. */
  lemma AddrInjective(u: State, g: State, r: map<int, int>, a: int, b: int)
    requires SimHeap(u, g, r) && Twin(u, r, a) && Twin(u, r, b) && MapAddr(a, r) == MapAddr(b, r)
    ensures a == b
  {
    assert Mirrored(u, g, r, a) && Mirrored(u, g, r, b);
  }

  lemma SimTop(u: State, g: State, r: map<int, int>, n: nat)
    requires Sim(u, g, r) && n < |u.stack|
    ensures n < |g.stack| && SimWord(u, r, Top(u, n), Top(g, n))
  {
  }

  lemma SimLengths(u: State, g: State, r: map<int, int>)
    requires Sim(u, g, r)
    ensures |u.stack| == |g.stack|
  {
  }

  /** The object a related word points at, in both machines. */
  lemma SimObj(u: State, g: State, r: map<int, int>, w: Word, x: Word)
    requires SimHeap(u, g, r) && SimWord(u, r, w, x)
    ensures w.Ptr? <==> x.Ptr?
    ensures w.Ptr? ==> Mirrored(u, g, r, w.at) && x.at == MapAddr(w.at, r)
    ensures IsInt(u.mem, w) == IsInt(g.mem, x)
    ensures IsInt(u.mem, w) ==> IntVal(u.mem, w) == IntVal(g.mem, x)
    ensures TextOf(u.mem, w) == TextOf(g.mem, x)
  {
  }

  /** The same for the word `n` below the top of the stack. */
  lemma SimTopObj(u: State, g: State, r: map<int, int>, n: nat)
    requires Sim(u, g, r) && n < |u.stack|
    ensures |g.stack| == |u.stack| && SimWord(u, r, Top(u, n), Top(g, n))
    ensures var w, x := Top(u, n), Top(g, n);
      && (w.Ptr? <==> x.Ptr?)
      && (w.Ptr? ==> Mirrored(u, g, r, w.at) && x.at == MapAddr(w.at, r))
      && IsInt(u.mem, w) == IsInt(g.mem, x)
      && (IsInt(u.mem, w) ==> IntVal(u.mem, w) == IntVal(g.mem, x))
  {
    SimObj(u, g, r, Top(u, n), Top(g, n));
  }

  lemma SimSlots(u: State, g: State, r: map<int, int>, a: int, j: nat)
    requires SimHeap(u, g, r) && Twin(u, r, a) && j < |Slots(u.mem[a])| && j < Traced(u.mem[a]) && !u.mem[a].Arr?
    ensures MapAddr(a, r) in g.mem
    ensures var o := g.mem[MapAddr(a, r)];
      |Slots(o)| == |Slots(u.mem[a])| && Traced(o) == Traced(u.mem[a])
      && SimWord(u, r, Slots(u.mem[a])[j], Slots(o)[j])
  {
    assert Mirrored(u, g, r, a);
    if Slots(u.mem[a])[j].Ptr? { assert Slots(u.mem[a])[j].at in Refs(u.mem[a]); }
  }

  function MapSlot(slot: Slot, r: map<int, int>): Slot {
    match slot
    case InObject(a, j) => InObject(MapAddr(a, r), j)
    case _ => slot
  }

  /** A base/offset reference names the same slot in both machines. */
  lemma SimResolve(e: Layout, u: State, g: State, r: map<int, int>, base: Word, base': Word, off: Word)
    requires SimHeap(u, g, r) && SimWord(u, r, base, base') && |u.stack| == |g.stack| && |u.statics| == |g.statics|
    ensures Resolve(e, u, base, off).None? <==> Resolve(e, g, base', off).None?
    ensures Resolve(e, u, base, off).Some? ==>
      Resolve(e, g, base', off).value == MapSlot(Resolve(e, u, base, off).value, r)
    ensures Resolve(e, u, base, off).Some? ==> SlotThere(u, Resolve(e, u, base, off).value)
    ensures Resolve(e, u, base, off).Some? && Resolve(e, u, base, off).value.InObject? ==>
      base.Ptr? && base.at == Resolve(e, u, base, off).value.at
  {
    if base.Ptr? { assert Mirrored(u, g, r, base.at); }
  }

  lemma SimRead(u: State, g: State, r: map<int, int>, slot: Slot)
    requires Sim(u, g, r) && SlotThere(u, slot)
    requires slot.InObject? ==> Twin(u, r, slot.at) && !u.mem[slot.at].Arr?
    ensures SlotThere(g, MapSlot(slot, r))
    ensures SimWord(u, r, ReadSlot(u, slot), ReadSlot(g, MapSlot(slot, r)))
  {
    match slot
    case InObject(a, j) =>
      SimSlots(u, g, r, a, j);
      assert Mirrored(u, g, r, a);
    case _ =>
  }

  // ----- the stack ------------------------------------------------------------------------

  lemma SimPush(u: State, g: State, r: map<int, int>, w: Word, x: Word)
    requires Sim(u, g, r) && SimWord(u, r, w, x)
    ensures Sim(Push(u, w), Push(g, x), r)
  {
    SimStack(u, g, r, u.stack + [w], g.stack + [x]);
  }

  lemma SimDrop(u: State, g: State, r: map<int, int>, n: nat)
    requires Sim(u, g, r) && n <= |u.stack|
    ensures n <= |g.stack| && Sim(Drop(u, n), Drop(g, n), r)
  {
    SimStack(u, g, r, u.stack[..|u.stack| - n], g.stack[..|g.stack| - n]);
  }

  lemma SimStack(u: State, g: State, r: map<int, int>, s: seq<Word>, t: seq<Word>)
    requires Sim(u, g, r) && SimWords(u, r, s, t)
    ensures Sim(u.(stack := s), g.(stack := t), r)
  {
    var v, h := u.(stack := s), g.(stack := t);
    forall a | Twin(v, r, a) ensures Mirrored(v, h, r, a) {
      assert Twin(u, r, a) && Mirrored(u, g, r, a);
      forall b | b in Refs(u.mem[a]) ensures Twin(v, r, b) { assert Twin(u, r, b); }
    }
    SameTwins(u, v, r, u.statics, g.statics);
    SameTwins(u, v, r, u.locals, g.locals);
    SameTwins(u, v, r, s, t);
  }

  /** Words stay related when the addresses in use stay the same. */
  lemma SameTwins(u: State, v: State, r: map<int, int>, s: seq<Word>, t: seq<Word>)
    requires SimWords(u, r, s, t) && v.mem.Keys == u.mem.Keys && v.space == u.space
    ensures SimWords(v, r, s, t)
  {
    forall i | 0 <= i < |s| ensures SimWord(v, r, s[i], t[i]) {
      assert SimWord(u, r, s[i], t[i]);
    }
  }

  // ----- writing ---------------------------------------------------------------------------

  /** Writing related objects to related places. */
  lemma SimUpdate(u: State, g: State, r: map<int, int>, a: int, o: Obj)
    requires Sim(u, g, r) && Twin(u, r, a)
    requires forall b :: b in Refs(o) ==> Twin(u, r, b)
    ensures Sim(u.(mem := u.mem[a := o]), g.(mem := g.mem[MapAddr(a, r) := Image(o, r)]), r)
  {
    var v := u.(mem := u.mem[a := o]);
    var h := g.(mem := g.mem[MapAddr(a, r) := Image(o, r)]);
    assert Mirrored(u, g, r, a);
    forall b | Twin(v, r, b) ensures Mirrored(v, h, r, b) {
      assert Twin(u, r, b) && Mirrored(u, g, r, b);
      if b != a && MapAddr(b, r) == MapAddr(a, r) { AddrInjective(u, g, r, a, b); }
      forall c | c in Refs(v.mem[b]) ensures Twin(v, r, c) { assert Twin(u, r, c); }
    }
    SameTwins(u, v, r, u.statics, g.statics);
    SameTwins(u, v, r, u.locals, g.locals);
    SameTwins(u, v, r, u.stack, g.stack);
  }

  lemma SimWrite(u: State, g: State, r: map<int, int>, slot: Slot, w: Word, x: Word)
    requires Sim(u, g, r) && SlotThere(u, slot) && SimWord(u, r, w, x)
    requires slot.InObject? ==> Twin(u, r, slot.at) && !u.mem[slot.at].Arr?
    ensures SlotThere(g, MapSlot(slot, r))
    ensures Sim(WriteSlot(u, slot, w), WriteSlot(g, MapSlot(slot, r), x), r)
  {
    match slot
    case OnStack(i) => SimStack(u, g, r, u.stack[i := w], g.stack[i := x]);
    case InStatics(k) => SimStatics(u, g, r, k, w, x);
    case InObject(a, j) =>
      SimSlots(u, g, r, a, j);
      assert Mirrored(u, g, r, a);
      var o := WithSlots(u.mem[a], Slots(u.mem[a])[j := w]);
      forall b | b in Refs(o) ensures Twin(u, r, b) {
        var i :| 0 <= i < |Slots(o)| && i < Traced(o) && Slots(o)[i] == Ptr(b);
        if i != j { assert Slots(u.mem[a])[i].at in Refs(u.mem[a]); }
      }
      SlotImage(u.mem[a], j, w, r);
      SimUpdate(u, g, r, a, o);
  }

  lemma SlotImage(o: Obj, j: nat, w: Word, r: map<int, int>)
    requires !o.Arr? && j < |Slots(o)| && j < Traced(o)
    ensures Image(WithSlots(o, Slots(o)[j := w]), r)
         == WithSlots(Image(o, r), Slots(Image(o, r))[j := MapWord(w, r)])
  {
    assert MapPrefix(Slots(o)[j := w], Traced(o), r) == MapPrefix(Slots(o), Traced(o), r)[j := MapWord(w, r)];
  }

  lemma SimStatics(u: State, g: State, r: map<int, int>, k: nat, w: Word, x: Word)
    requires Sim(u, g, r) && k < |u.statics| && SimWord(u, r, w, x)
    ensures k < |g.statics| && Sim(u.(statics := u.statics[k := w]), g.(statics := g.statics[k := x]), r)
  {
    var v, h := u.(statics := u.statics[k := w]), g.(statics := g.statics[k := x]);
    forall a | Twin(v, r, a) ensures Mirrored(v, h, r, a) {
      assert Twin(u, r, a) && Mirrored(u, g, r, a);
      forall b | b in Refs(u.mem[a]) ensures Twin(v, r, b) { assert Twin(u, r, b); }
    }
    SameTwins(u, v, r, v.statics, h.statics) by {
      forall i | 0 <= i < |v.statics| ensures SimWord(u, r, v.statics[i], h.statics[i]) {
        assert SimWord(u, r, u.statics[i], g.statics[i]);
      }
    }
    SameTwins(u, v, r, u.locals, g.locals);
    SameTwins(u, v, r, u.stack, g.stack);
  }

  // ----- instructions up to their allocation -------------------------------------------------

  ghost predicate SimBegun(x: Begun, y: Begun, r: map<int, int>) {
    match x
    case Stuck => y.Stuck?
    case Done(u, out) => y.Done? && y.out == out && Sim(u, y.s, r)
    case Allocate(u, o, size, k) => y.Allocate? && y.o == o && y.size == size && y.k == k && Sim(u, y.s, r)
  }

  /** What the relation needs besides `Sim`: the fixed addresses are where they
      are said to be, in both machines. */
  ghost predicate Grounded(e: Layout, u: State, g: State) {
    && LayoutOk(e, u) && LayoutOk(e, g)
    && Sound(u) && Sound(g) && Apart(u.space, u.consts) && Apart(g.space, g.consts)
  }

  lemma SimBeginLocalAddr(e: Layout, u: State, g: State, r: map<int, int>, i: nat)
    requires Sim(u, g, r) && Grounded(e, u, g)
    ensures SimBegun(Begin(e, u, LabiLoc(i)), Begin(e, g, LabiLoc(i)), r)
  {
    hide Sound;
    if Begin(e, u, LabiLoc(i)).Done? {
      var off := MakeDptr(e.stackAt, e.stackAt + STACK_HDR + (e.fp + 1 + i) * WORD);
      assert Twin(u, r, e.stackAt) && Mirrored(u, g, r, e.stackAt);
      SimPush(u, g, r, Ptr(e.stackAt), Ptr(e.stackAt));
      SimPush(Push(u, Ptr(e.stackAt)), Push(g, Ptr(e.stackAt)), r, off, off);
    } else if e.stackAt in g.mem && g.mem[e.stackAt].StackHeader? {
      assert Mirrored(u, g, r, e.stackAt) by { assert Twin(u, r, e.stackAt); }
    }
  }

  lemma SimBeginStack(e: Layout, u: State, g: State, r: map<int, int>, op: Op)
    requires Sim(u, g, r) && Grounded(e, u, g)
    requires op.LvbiC? || op.LvbiLoc? || op.LabiLoc? || op.LvbiCv? || op.LabiCv? || op.Dup? || op.PopTop?
    ensures SimBegun(Begin(e, u, op), Begin(e, g, op), r)
  {
    hide Sound;
    match op
    case LvbiC(at) =>
      if u.consts.Has(at) && at in u.mem && Room(u, 1) {
        assert Twin(u, r, at) && Mirrored(u, g, r, at);
        assert SimWord(u, r, Ptr(at), Ptr(at));
        SimPush(u, g, r, Ptr(at), Ptr(at));
      }
    case LvbiLoc(i) =>
      if e.fp + 1 + i < |u.stack| && Room(u, 1) { SimPush(u, g, r, u.stack[e.fp + 1 + i], g.stack[e.fp + 1 + i]); }
    case LabiLoc(i) =>
      SimBeginLocalAddr(e, u, g, r, i);
    case LvbiCv(k) =>
      if k < |u.statics| && Room(u, 1) { SimPush(u, g, r, u.statics[k], g.statics[k]); }
    case LabiCv(k) =>
      if k < |u.statics| && Room(u, 2) {
        var off := MakeDptr(0, e.staticsAt + k * WORD);
        SimPush(u, g, r, Null, Null);
        SimPush(Push(u, Null), Push(g, Null), r, off, off);
      }
    case Dup =>
      if 2 <= |u.stack| && Room(u, 2) {
        SimPush(u, g, r, Top(u, 1), Top(g, 1));
        SimPush(Push(u, Top(u, 1)), Push(g, Top(g, 1)), r, Top(u, 0), Top(g, 0));
      }
    case PopTop =>
      if |u.stack| >= 1 { SimDrop(u, g, r, 1); }
  }

  lemma SimBeginField(u: State, g: State, r: map<int, int>, i: nat, value: bool)
    requires Sim(u, g, r)
    ensures SimBegun(BeginField(u, i, value), BeginField(g, i, value), r)
  {
    hide SimHeap, SimWords;
    SimLengths(u, g, r);
    if |u.stack| >= 1 { SimTopObj(u, g, r, 0); }
    if |u.stack| >= 1 && Top(u, 0).Ptr? && Room(u, 1) {
      var at := Top(u, 0).at;
      SimTop(u, g, r, 0);
      SimObj(u, g, r, Top(u, 0), Top(g, 0));
      if u.mem[at].Udo? && u.space.Has(at) {
        var j := i + u.mem[at].varOffset;
        if 0 <= j < |u.mem[at].vars| {
          SimSlots(u, g, r, at, j);
          if value {
            SimDrop(u, g, r, 1);
            SimPush(Drop(u, 1), Drop(g, 1), r, u.mem[at].vars[j], g.mem[MapAddr(at, r)].vars[j]);
          } else {
            SimPush(u, g, r, MakeDptr(at, at + HDR + j * WORD), MakeDptr(at, at + HDR + j * WORD));
          }
        }
      }
    }
  }

  lemma SimBeginDeref(e: Layout, u: State, g: State, r: map<int, int>)
    requires Sim(u, g, r)
    ensures SimBegun(Begin(e, u, Dr), Begin(e, g, Dr), r)
  {
    if |u.stack| >= 2 {
      SimTop(u, g, r, 1);
      SimTop(u, g, r, 0);
      var v, h := Drop(u, 2), Drop(g, 2);
      SimDrop(u, g, r, 2);
      var off := Top(u, 0);
      if off.Imm? {
        SimResolve(e, v, h, r, Top(u, 1), Top(g, 1), off);
        var s := Resolve(e, v, Top(u, 1), off);
        if s.Some? {
          if s.value.InObject? { assert SimWord(u, r, Top(u, 1), Top(g, 1)); NotArr(v, s.value); }
          SimRead(v, h, r, s.value);
          SimPush(v, h, r, ReadSlot(v, s.value), ReadSlot(h, MapSlot(s.value, r)));
        }
      }
    }
  }

  lemma NotArr(u: State, slot: Slot)
    requires SlotThere(u, slot) && slot.InObject?
    ensures !u.mem[slot.at].Arr?
  {
  }

  lemma SimBeginStore(e: Layout, u: State, g: State, r: map<int, int>)
    requires Sim(u, g, r)
    ensures SimBegun(BeginStore(e, u), BeginStore(e, g), r)
  {
    if |u.stack| >= 3 {
      SimTop(u, g, r, 2);
      SimTop(u, g, r, 1);
      SimTop(u, g, r, 0);
      SimObj(u, g, r, Top(u, 0), Top(g, 0));
      var v, h := Drop(u, 3), Drop(g, 3);
      SimDrop(u, g, r, 3);
      var off := Top(u, 1);
      if off.Imm? {
        SimResolve(e, v, h, r, Top(u, 2), Top(g, 2), off);
        var s := Resolve(e, v, Top(u, 2), off);
        if s.Some? {
          if s.value.InObject? { NotArr(v, s.value); }
          SimWrite(v, h, r, s.value, Top(u, 0), Top(g, 0));
        }
      }
    }
  }

  /** The element block of a related array. */
  lemma SimBlock(u: State, g: State, r: map<int, int>, a: int)
    requires Sim(u, g, r) && Twin(u, r, a) && u.mem[a].Arr? && u.mem[a].elems != 0 && g.space.lo > 0
    requires Sound(u)
    ensures MapAddr(a, r) in g.mem && g.mem[MapAddr(a, r)] == Image(u.mem[a], r)
    ensures var b := BlockOf(u.mem[a].elems);
      && b in u.mem && u.mem[b].ArrObjs? && Twin(u, r, b) && Mirrored(u, g, r, b)
      && g.mem[MapAddr(a, r)].elems != 0 && BlockOf(g.mem[MapAddr(a, r)].elems) == MapAddr(b, r)
  {
    assert Mirrored(u, g, r, a);
    assert ObjOk(u.mem, u.space, u.mem[a]);
    assert BlockOf(u.mem[a].elems) in Refs(u.mem[a]);
    assert Mirrored(u, g, r, BlockOf(u.mem[a].elems));
  }

  lemma SimBeginIndex(u: State, g: State, r: map<int, int>)
    requires Sim(u, g, r) && Sound(u) && g.space.lo > 0
    ensures SimBegun(BeginIndex(u), BeginIndex(g), r)
  {
    hide SimHeap, SimWords;
    SimLengths(u, g, r);
    if |u.stack| >= 2 {
      SimTop(u, g, r, 1);
      SimTop(u, g, r, 0);
      SimObj(u, g, r, Top(u, 0), Top(g, 0));
      SimObj(u, g, r, Top(u, 1), Top(g, 1));
      if IsInt(u.mem, Top(u, 0)) && Top(u, 1).Ptr? && Top(u, 1).at in u.mem {
        var n := IntVal(u.mem, Top(u, 0));
        var o := u.mem[Top(u, 1).at];
        SimDrop(u, g, r, 2);
        if o.Arr? && o.elems != 0 {
          SimBlock(u, g, r, Top(u, 1).at);
          hide Sound;
          var b := BlockOf(o.elems);
          if 0 <= n < o.length && n < |u.mem[b].slots| && n < u.mem[b].len {
            SimSlots(u, g, r, b, n);
            SimPush(Drop(u, 2), Drop(g, 2), r, u.mem[b].slots[n], g.mem[MapAddr(b, r)].slots[n]);
          }
        } else if o.Str? && 0 <= n < |o.text| {
          SimPush(Drop(u, 2), Drop(g, 2), r, MakeChar(o.text[n]), MakeChar(o.text[n]));
        }
      }
    }
  }

  /** Using more of a block shows only nil, in both machines. */
  lemma LengthImage(u: State, r: map<int, int>, b: int, n: int)
    requires b in u.mem && u.mem[b].ArrObjs? && ObjOk(u.mem, u.space, u.mem[b]) && u.mem[b].len <= n <= u.mem[b].cap
    requires forall a :: a in r ==> u.space.Has(a)
    requires forall c :: c in Refs(u.mem[b]) ==> Twin(u, r, c)
    ensures Image(u.mem[b], r).ArrObjs? && Image(u.mem[b].(len := n), r) == Image(u.mem[b], r).(len := n)
    ensures forall c :: c in Refs(u.mem[b].(len := n)) ==> Twin(u, r, c)
  {
    var o := u.mem[b];
    forall i | o.len <= i < n ensures MapWord(o.slots[i], r) == o.slots[i] {
      assert NilWord(u.mem, u.space, o.slots[i]);
    }
    assert MapPrefix(o.slots, n, r) == MapPrefix(o.slots, o.len, r);
    forall c | c in Refs(o.(len := n)) ensures Twin(u, r, c) {
      var i :| 0 <= i < |o.slots| && i < n && o.slots[i] == Ptr(c);
      if i < o.len { assert Slots(o)[i].at in Refs(o); } else { assert NilWord(u.mem, u.space, o.slots[i]); }
    }
  }

  lemma SimSetLength(u: State, g: State, r: map<int, int>, a: int, n: int)
    requires Sim(u, g, r) && Sound(u) && g.space.lo > 0
    requires Twin(u, r, a) && u.mem[a].Arr? && u.mem[a].elems != 0
    requires u.mem[a].length <= n <= u.mem[a].allocSize
    ensures var a' := MapAddr(a, r); a' in g.mem && g.mem[a'].Arr? && BlockOf(g.mem[a'].elems) in g.mem
    ensures g.mem[BlockOf(g.mem[MapAddr(a, r)].elems)].ArrObjs?
    ensures BlockOf(u.mem[a].elems) in u.mem && u.mem[BlockOf(u.mem[a].elems)].ArrObjs?
    ensures Sim(SetLength(u, a, n), SetLength(g, MapAddr(a, r), n), r)
  {
    SimBlock(u, g, r, a);
    var b := BlockOf(u.mem[a].elems);
    assert ObjOk(u.mem, u.space, u.mem[a]) && ObjOk(u.mem, u.space, u.mem[b]);
    hide Sound;
    assert Mirrored(u, g, r, a);
    assert SimHeap(u, g, r);
    LengthImage(u, r, b, n);
    var o := u.mem[a].(length := n);
    assert Image(o, r) == Image(u.mem[a], r).(length := n);
    assert Refs(o) == Refs(u.mem[a]);
    SimUpdate(u, g, r, a, o);
    var v, h := u.(mem := u.mem[a := o]), g.(mem := g.mem[MapAddr(a, r) := Image(o, r)]);
    if MapAddr(b, r) == MapAddr(a, r) { AddrInjective(u, g, r, a, b); }
    var p := u.mem[b].(len := n);
    forall c | c in Refs(p) ensures Twin(v, r, c) { assert Twin(u, r, c); }
    SimUpdate(v, h, r, b, p);
  }

  lemma SimPushElem(u: State, g: State, r: map<int, int>, b: int, n: int)
    requires Sim(u, g, r) && Twin(u, r, b)
    ensures Sim(PushElemAddr(u, b, n), PushElemAddr(g, MapAddr(b, r), n), r)
  {
    if |u.stack| >= 1 {
      var off := MakeDptr(b, b + HDR + n * WORD);
      SimDrop(u, g, r, 1);
      SimPush(Drop(u, 1), Drop(g, 1), r, Ptr(b), Ptr(MapAddr(b, r)));
      SimPush(Push(Drop(u, 1), Ptr(b)), Push(Drop(g, 1), Ptr(MapAddr(b, r))), r, off, off);
    }
  }

  lemma SimBeginIndexAddr(e: Layout, u: State, g: State, r: map<int, int>)
    requires Sim(u, g, r) && Sound(u) && g.space.lo > 0
    ensures SimBegun(BeginIndexAddr(e, u), BeginIndexAddr(e, g), r)
  {
    hide Grown;
    if |u.stack| >= 2 {
      SimTop(u, g, r, 1);
      SimTop(u, g, r, 0);
      SimObj(u, g, r, Top(u, 0), Top(g, 0));
      SimObj(u, g, r, Top(u, 1), Top(g, 1));
      if IsInt(u.mem, Top(u, 0)) && IsArr(u.mem, Top(u, 1)) && u.mem[Top(u, 1).at].elems != 0 {
        SimIndexable(e, u, g, r);
      }
    }
  }

  lemma SimIndexable(e: Layout, u: State, g: State, r: map<int, int>)
    requires Sim(u, g, r) && Sound(u) && g.space.lo > 0 && |u.stack| >= 2
    requires IsInt(u.mem, Top(u, 0)) && IsArr(u.mem, Top(u, 1)) && u.mem[Top(u, 1).at].elems != 0
    ensures SimBegun(BeginIndexAddr(e, u), BeginIndexAddr(e, g), r)
  {
    hide Grown, Sound, Sim, SetLength, PushElemAddr;
    SimTopObj(u, g, r, 1);
    SimTopObj(u, g, r, 0);
    var a := Top(u, 1).at;
    var n := IntVal(u.mem, Top(u, 0));
    SimBlock(u, g, r, a);
    SimDrop(u, g, r, 1);
    DropSound(u, 1);
    if n >= 0 && u.mem[a].length >= 0 && n < u.mem[a].allocSize {
      SimInPlace(Drop(u, 1), Drop(g, 1), r, a, n);
    }
  }

  lemma SimInPlace(u: State, g: State, r: map<int, int>, a: int, n: int)
    requires Sim(u, g, r) && Sound(u) && g.space.lo > 0
    requires Twin(u, r, a) && u.mem[a].Arr? && u.mem[a].elems != 0
    requires 0 <= n < u.mem[a].allocSize
    ensures var b := BlockOf(u.mem[a].elems); b in u.mem && u.mem[b].ArrObjs?
    ensures MapAddr(a, r) in g.mem && g.mem[MapAddr(a, r)].Arr?
    ensures BlockOf(g.mem[MapAddr(a, r)].elems) in g.mem && g.mem[BlockOf(g.mem[MapAddr(a, r)].elems)].ArrObjs?
    ensures var b := BlockOf(u.mem[a].elems);
      var v := if n >= u.mem[a].length then SetLength(u, a, n + 1) else u;
      var h := if n >= u.mem[a].length then SetLength(g, MapAddr(a, r), n + 1) else g;
      Sim(PushElemAddr(v, b, n), PushElemAddr(h, MapAddr(b, r), n), r)
  {
    SimBlock(u, g, r, a);
    var b := BlockOf(u.mem[a].elems);
    if n >= u.mem[a].length {
      SimSetLength(u, g, r, a, n + 1);
      hide Sound;
      SimPushElem(SetLength(u, a, n + 1), SetLength(g, MapAddr(a, r), n + 1), r, b, n);
    } else {
      SimPushElem(u, g, r, b, n);
    }
  }

  lemma SimBeginWrite(u: State, g: State, r: map<int, int>)
    requires Sim(u, g, r) && |u.stack| >= 1
    ensures |g.stack| >= 1 && SimBegun(BeginWrite(u), BeginWrite(g), r)
  {
    SimTop(u, g, r, 0);
    SimObj(u, g, r, Top(u, 0), Top(g, 0));
    SimDrop(u, g, r, 1);
  }

  /** Identity of references is the same in both machines. */
  lemma SimIdentity(u: State, g: State, r: map<int, int>, a: Word, b: Word, x: Word, y: Word)
    requires SimHeap(u, g, r) && SimWord(u, r, a, x) && SimWord(u, r, b, y)
    ensures a == b <==> x == y
  {
    if a.Ptr? && b.Ptr? && x == y { AddrInjective(u, g, r, a.at, b.at); }
  }

  lemma SimBeginEqual(u: State, g: State, r: map<int, int>)
    requires Sim(u, g, r) && |u.stack| >= 2
    ensures |g.stack| >= 2 && SimBegun(BeginEqual(u), BeginEqual(g), r)
  {
    hide SimHeap, SimWords;
    SimLengths(u, g, r);
    var a, b, x, y := Top(u, 1), Top(u, 0), Top(g, 1), Top(g, 0);
    SimTop(u, g, r, 1);
    SimTop(u, g, r, 0);
    SimObj(u, g, r, a, x);
    SimObj(u, g, r, b, y);
    SimIdentity(u, g, r, a, b, x, y);
    SimDrop(u, g, r, 2);
    if BeginEqual(u).Done? {
      var w := Top(BeginEqual(u).s, 0);
      SimPush(Drop(u, 2), Drop(g, 2), r, w, w);
    }
  }

  lemma SimBeginMinus(u: State, g: State, r: map<int, int>)
    requires Sim(u, g, r)
    ensures SimBegun(BeginMinus(u), BeginMinus(g), r)
  {
    if |u.stack| >= 2 {
      SimTop(u, g, r, 1);
      SimTop(u, g, r, 0);
      SimObj(u, g, r, Top(u, 1), Top(g, 1));
      SimObj(u, g, r, Top(u, 0), Top(g, 0));
      SimDrop(u, g, r, 2);
      if BeginMinus(u).Done? {
        var w := Top(BeginMinus(u).s, 0);
        SimPush(Drop(u, 2), Drop(g, 2), r, w, w);
      }
    }
  }

  /** Up to its allocation an instruction does the same in both machines: it gets
      stuck in both, or writes the same, or asks for the same object. */
  lemma SimBegin(e: Layout, u: State, g: State, r: map<int, int>, op: Op)
    requires Sim(u, g, r) && Grounded(e, u, g) && g.space.lo > 0
    ensures SimBegun(Begin(e, u, op), Begin(e, g, op), r)
  {
    match op
    case LvbsIve(i) => SimBeginField(u, g, r, i, true);
    case LabsIve(i) => SimBeginField(u, g, r, i, false);
    case Dr => SimBeginDeref(e, u, g, r);
    case St => SimBeginStore(e, u, g, r);
    case Idx => SimBeginIndex(u, g, r);
    case Idxa => SimBeginIndexAddr(e, u, g, r);
    case Wrt => if |u.stack| >= 1 { SimBeginWrite(u, g, r); }
    case Equal => if |u.stack| >= 2 { SimBeginEqual(u, g, r); }
    case Minus => SimBeginMinus(u, g, r);
    case NewUdo(_, _, _) =>
    case NewArr(_) =>
    case InitArr =>
      if |u.stack| >= 1 {
        SimTop(u, g, r, 0);
        SimObj(u, g, r, Top(u, 0), Top(g, 0));
      }
    case _ => SimBeginStack(e, u, g, r, op);
  }
}
