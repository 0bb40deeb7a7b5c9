/** What the instructions mean, said by what several of them do together and not by their
    definitions: numbers are subtracted and written, a stored word is read back, an array is
    the sequence of its elements.  All on the unbounded heap, which the collected machine
    follows (Machine.Vm.Step). */
module InstructionLaws {
  import opened Basics
  import opened KekObjects
  import opened HeapGraph
  import opened CopyLedger
  import opened HeapState
  import opened Instructions
  import opened SoundSteps
  import opened SimulationGc
  import opened SimulationStep
  import Programs

  /** The state with some words pushed. */
  function With(s: State, ws: seq<Word>): State { s.(stack := s.stack + ws) }

  /** Every object that was there is there as it was. */
  ghost predicate Kept(s: State, t: State) {
    forall a :: a in s.mem ==> a in t.mem && t.mem[a] == s.mem[a]
  }

  /** The word is an integer of the value, tagged or in an object. */
  predicate Means(m: Mem, w: Word, v: int) {
    (v >= 0 && w == Imm(2 * v + 1)) || (w.Ptr? && w.at in m && m[w.at] == Int(v))
  }

  lemma MeansInt(m: Mem, w: Word, v: int)
    requires Means(m, w, v)
    ensures IsInt(m, w) && IntVal(m, w) == v
  {
  }

  // ----- integers -------------------------------------------------------------------

  /** Subtraction leaves the number that, added to the second operand, gives the first, in a
      tagged word or a new object; it stops when that does not fit an int. */
  lemma MinusSubtracts(e: Layout, u: State, p: Word, q: Word, x: int, y: int)
    requires UnboundedOk(e, u) && Means(u.mem, p, x) && Means(u.mem, q, y)
    ensures var r := StepUnbounded(e, With(u, [p, q]), Minus);
            if !(INT_MIN <= x - y <= INT_MAX) then r == Halted([])
            else
              && r.Ran? && r.out == [] && Kept(u, r.s)
              && exists w, d :: r.s.stack == u.stack + [w] && Means(r.s.mem, w, d) && d + y == x
  {
    MeansInt(u.mem, p, x);
    MeansInt(u.mem, q, y);
    var s, d := With(u, [p, q]), x - y;
    assert Top(s, 1) == p && Top(s, 0) == q && Drop(s, 2) == u;
    var r := StepUnbounded(e, s, Minus);
    if INT_MIN <= d <= INT_MAX {
      var w := if d >= 0 then MakeSmallInt(d) else Ptr(u.space.hi);
      assert r.s.stack == u.stack + [w] && Means(r.s.mem, w, d);
    }
  }

  /** A pushed integer is written as it is, and so are characters and texts. */
  lemma WriteShows(e: Layout, u: State, w: Word)
    ensures forall v :: Means(u.mem, w, v) ==> StepUnbounded(e, With(u, [w]), Wrt) == Ran(u, [OutInt(v)])
    ensures forall c :: w == Imm(4 * c + 2) ==> StepUnbounded(e, With(u, [w]), Wrt) == Ran(u, [OutChar(c)])
    ensures w.Ptr? && w.at in u.mem && u.mem[w.at].Str? ==>
              StepUnbounded(e, With(u, [w]), Wrt) == Ran(u, [OutText(u.mem[w.at].text)])
  {
    var s := With(u, [w]);
    assert Top(s, 0) == w && Drop(s, 1) == u;
    forall v | Means(u.mem, w, v) ensures StepUnbounded(e, s, Wrt) == Ran(u, [OutInt(v)]) { MeansInt(u.mem, w, v); }
  }

  /** A constant is pushed as itself. */
  lemma ConstantPushed(e: Layout, u: State, at: int)
    requires u.consts.Has(at) && at in u.mem && |u.stack| < STACK_SIZE
    ensures StepUnbounded(e, u, LvbiC(at)) == Ran(With(u, [Ptr(at)]), [])
  {
  }

  /** A program that writes the difference of two constants writes the difference. */
  lemma DifferenceWritten(e: Layout, u: State, a: int, b: int, x: int, y: int)
    requires UnboundedOk(e, u) && u.consts.Has(a) && u.consts.Has(b) && a in u.mem && b in u.mem
    requires u.mem[a] == Int(x) && u.mem[b] == Int(y) && |u.stack| + 2 <= STACK_SIZE
    requires INT_MIN <= x - y <= INT_MAX
    ensures exists d :: d + y == x && RunUnbounded(e, u, [LvbiC(a), LvbiC(b), Minus, Wrt]).out == [OutInt(d)]
  {
    hide Begin, UnboundedOk;
    ConstantPushed(e, u, a);
    var s1 := With(u, [Ptr(a)]);
    ConstantPushed(e, s1, b);
    var s2 := With(u, [Ptr(a), Ptr(b)]);
    assert With(s1, [Ptr(b)]) == s2;
    MinusSubtracts(e, u, Ptr(a), Ptr(b), x, y);
    var r := StepUnbounded(e, s2, Minus);
    var w, d :| r.s.stack == u.stack + [w] && Means(r.s.mem, w, d) && d + y == x;
    var t := r.s.(stack := u.stack);
    assert With(t, [w]) == r.s;
    WriteShows(e, t, w);
    FourSteps(e, u, LvbiC(a), LvbiC(b), Minus, Wrt, s1, s2, r.s, t, [OutInt(d)]);
  }

  lemma FourSteps(e: Layout, u: State, a: Op, b: Op, c: Op, d: Op, s1: State, s2: State, s3: State, t: State, out: seq<Output>)
    requires StepUnbounded(e, u, a) == Ran(s1, []) && StepUnbounded(e, s1, b) == Ran(s2, [])
    requires StepUnbounded(e, s2, c) == Ran(s3, []) && StepUnbounded(e, s3, d) == Ran(t, out)
    ensures RunUnbounded(e, u, [a, b, c, d]) == Ran(t, out)
  {
    hide StepUnbounded;
    assert [a, b, c, d][1..] == [b, c, d] && [b, c, d][1..] == [c, d] && [c, d][1..] == [d] && [d][1..] == [];
    assert RunUnbounded(e, t, []) == Ran(t, []);
    assert RunUnbounded(e, s3, [d]) == Ran(t, out) by { assert out + [] == out; }
    assert RunUnbounded(e, s2, [c, d]) == Ran(t, out) by { assert [] + out == out; }
    assert RunUnbounded(e, s1, [b, c, d]) == Ran(t, out) by { assert [] + out == out; }
    assert [] + out == out;
  }

  /** Equality answers one or zero: on integers for equal values, on texts for equal texts, on
      symbols for equal names, and else for the same object. */
  lemma EqualCompares(e: Layout, u: State, p: Word, q: Word)
    requires p != Null && q != Null
    ensures var r := StepUnbounded(e, With(u, [p, q]), Equal);
            && (r == Ran(With(u, [Imm(1)]), []) || r == Ran(With(u, [Imm(3)]), []))
            && (forall x, y :: Means(u.mem, p, x) && Means(u.mem, q, y) ==> (r.s.stack == u.stack + [Imm(3)] <==> x == y))
            && (p.Ptr? && q.Ptr? && p.at in u.mem && q.at in u.mem ==>
                  var a, b := u.mem[p.at], u.mem[q.at];
                  && (a.Str? && b.Str? ==> (r.s.stack == u.stack + [Imm(3)] <==> a.text == b.text))
                  && (a.Sym? && b.Sym? ==> (r.s.stack == u.stack + [Imm(3)] <==> a.name == b.name))
                  && (!a.Int? && !a.Str? && !a.Sym? ==> (r.s.stack == u.stack + [Imm(3)] <==> p == q)))
  {
    var s := With(u, [p, q]);
    assert Top(s, 1) == p && Top(s, 0) == q && Drop(s, 2) == u;
    assert u.stack + [Imm(1)] != u.stack + [Imm(3)] by {
      assert (u.stack + [Imm(1)])[|u.stack|] != (u.stack + [Imm(3)])[|u.stack|];
    }
    forall x, y | Means(u.mem, p, x) && Means(u.mem, q, y) ensures IntVal(u.mem, p) == x && IntVal(u.mem, q) == y {
      MeansInt(u.mem, p, x);
      MeansInt(u.mem, q, y);
    }
    if p.Ptr? && q.Ptr? && p.at in u.mem && q.at in u.mem && u.mem[p.at].Str? && u.mem[q.at].Str? {
      SameTexts(u.mem, p.at, q.at);
    }
  }

  lemma SameTexts(m: Mem, a: int, b: int)
    requires a in m && b in m && m[a].Str? && m[b].Str?
    ensures TextOf(m, Ptr(a)) == TextOf(m, Ptr(b)) <==> m[a].text == m[b].text
  {
    var x, y := m[a].text, m[b].text;
    if TextOf(m, Ptr(a)) == TextOf(m, Ptr(b)) {
      var p, q := TextOf(m, Ptr(a)).value, TextOf(m, Ptr(b)).value;
      assert |x| == |p| == |q| == |y|;
      forall i | 0 <= i < |x| ensures x[i] == y[i] { assert p[i] == x[i] as int && q[i] == y[i] as int; }
      assert x == y;
    }
  }

  /** DUP repeats the two words on top in their order, and POP takes one away. */
  lemma DupAndPop(e: Layout, u: State, p: Word, q: Word)
    requires |u.stack| + 4 <= STACK_SIZE
    ensures StepUnbounded(e, With(u, [p, q]), Dup) == Ran(With(u, [p, q, p, q]), [])
    ensures StepUnbounded(e, With(u, [p]), PopTop) == Ran(u, [])
  {
    var s := With(u, [p, q]);
    assert Top(s, 1) == p && Top(s, 0) == q;
    assert u.stack + [p, q] + [p] + [q] == u.stack + [p, q, p, q];
    assert Drop(With(u, [p]), 1) == u;
  }

  // ----- branches -------------------------------------------------------------------

  /** IFNJ takes the condition off the stack and goes on behind it for an integer that is not
      zero; it jumps for zero and for nil, and anything else is an error. */
  lemma BranchOn(e: Layout, u: State, w: Word, ip: nat, prog: seq<Programs.Instr>, target: nat)
    requires ip < |prog| && prog[ip] == Programs.JumpUnless(target)
    ensures var t := Programs.Turn(e, With(u, [w]), ip, prog);
            && (forall v :: Means(u.mem, w, v) ==> t == Programs.At(u, if v == 0 then target else ip + 1, []))
            && (w.Ptr? && w.at in u.mem && u.mem[w.at].Nil? ==> t == Programs.At(u, target, []))
            && (w.Ptr? && (w.at in u.mem ==> !u.mem[w.at].Nil? && !u.mem[w.at].Int?) ==> t == Programs.Failed([]))
  {
    var s := With(u, [w]);
    assert Top(s, 0) == w && Drop(s, 1) == u;
    forall v | Means(u.mem, w, v) ensures IsInt(u.mem, w) && IntVal(u.mem, w) == v { MeansInt(u.mem, w, v); }
  }

  // ----- references -----------------------------------------------------------------

  /** A word that a slot may hold: only the stack holds references to classes and to itself. */
  predicate Storable(s: State, slot: Slot, w: Word) {
    w != Null && (!slot.OnStack? && w.Ptr? ==> w.at in s.mem && !s.mem[w.at].Class? && !s.mem[w.at].StackHeader?)
  }

  /** A stored word is read back through the same pair, every other slot is as it was, and
      nothing but slots changes. */
  lemma StoreThenRead(e: Layout, u: State, base: Word, off: Word, w: Word)
    ensures var slot, r := Resolve(e, u, base, off), StepUnbounded(e, With(u, [base, off, w]), St);
            if slot.None? || !Storable(u, slot.value, w) then r == Halted([])
            else
              && r.Ran? && r.out == [] && |r.s.stack| == |u.stack| && |r.s.statics| == |u.statics| && r.s.mem.Keys == u.mem.Keys
              && StepUnbounded(e, With(r.s, [base, off]), Dr) == Ran(With(r.s, [w]), [])
              && SlotThere(u, slot.value)
              && (forall o :: o != slot.value && SlotThere(u, o) ==> SlotThere(r.s, o) && ReadSlot(r.s, o) == ReadSlot(u, o))
  {
    hide Resolve;
    var s := With(u, [base, off, w]);
    assert Top(s, 2) == base && Top(s, 1) == off && Top(s, 0) == w && Drop(s, 3) == u;
    var slot := Resolve(e, u, base, off);
    if slot.Some? {
      ResolvedIsThere(e, u, base, off);
      if Storable(u, slot.value, w) {
        var t := WriteSlot(u, slot.value, w);
        StoredSlot(u, slot.value, w);
        ResolvesAlike(e, u, slot.value, w, base, off);
        PairOnTop(e, t, base, off, With(t, [base, off]));
      }
    }
  }

  lemma ResolvedIsThere(e: Layout, u: State, base: Word, off: Word)
    requires Resolve(e, u, base, off).Some?
    ensures SlotThere(u, Resolve(e, u, base, off).value)
  {
  }

  /** Storing a word does not change what pairs mean. */
  lemma ResolvesAlike(e: Layout, u: State, slot: Slot, w: Word, base: Word, off: Word)
    requires SlotThere(u, slot)
    ensures Resolve(e, WriteSlot(u, slot, w), base, off) == Resolve(e, u, base, off)
    ensures var t := WriteSlot(u, slot, w); |t.stack| == |u.stack| && |t.statics| == |u.statics| && t.mem.Keys == u.mem.Keys
  {
  }

  lemma ReadBelow(x: State, t: State, slot: Slot)
    requires SlotThere(t, slot) && t == x.(stack := t.stack) && t.stack <= x.stack
    ensures SlotThere(x, slot) && ReadSlot(x, slot) == ReadSlot(t, slot)
  {
  }

  lemma StoredSlot(u: State, slot: Slot, w: Word)
    requires SlotThere(u, slot)
    ensures SlotThere(WriteSlot(u, slot, w), slot) && ReadSlot(WriteSlot(u, slot, w), slot) == w
    ensures forall o :: o != slot && SlotThere(u, o) ==>
              SlotThere(WriteSlot(u, slot, w), o) && ReadSlot(WriteSlot(u, slot, w), o) == ReadSlot(u, o)
  {
  }

  /** The address of a member, read through, gives what loading the member gives, and fails
      where that fails; it is the variable behind those inherited from a built-in class. */
  lemma MemberAddress(e: Layout, u: State, i: nat)
    ensures var a, v := StepUnbounded(e, u, LabsIve(i)), StepUnbounded(e, u, LvbsIve(i));
            && (a.Ran? <==> v.Ran?)
            && (a.Ran? ==>
                  && |u.stack| >= 1 && Top(u, 0).Ptr? && Top(u, 0).at in u.mem && u.mem[Top(u, 0).at].Udo?
                  && var o := u.mem[Top(u, 0).at];
                     && 0 <= o.varOffset + i < |o.vars| && v == Ran(With(Drop(u, 1), [o.vars[o.varOffset + i]]), [])
                     && exists off :: a == Ran(With(u, [off]), []) && StepUnbounded(e, a.s, Dr) == v
                          && Resolve(e, u, Top(u, 0), off) == Some(InObject(Top(u, 0).at, o.varOffset + i)))
  {
    hide Resolve;
    var a := StepUnbounded(e, u, LabsIve(i));
    if a.Ran? {
      var at := Top(u, 0).at;
      var j := i + u.mem[at].varOffset;
      var off := MakeDptr(at, at + HDR + j * WORD);
      assert a == Ran(With(u, [off]), []);
      MemberResolves(e, u, at, j);
      MemberResolves(e, Drop(u, 1), at, j);
      PairOnTop(e, Drop(u, 1), Top(u, 0), off, a.s);
    }
  }

  lemma MemberResolves(e: Layout, s: State, at: int, j: int)
    requires at in s.mem && s.mem[at].Udo? && s.space.Has(at) && 0 <= j < |s.mem[at].vars|
    ensures Resolve(e, s, Ptr(at), MakeDptr(at, at + HDR + j * WORD)) == Some(InObject(at, j))
  {
  }

  /** The same for a local variable of the running method. */
  lemma LocalAddress(e: Layout, u: State, i: nat)
    requires LayoutOk(e, u) && |u.stack| + 2 <= STACK_SIZE
    ensures var a, v := StepUnbounded(e, u, LabiLoc(i)), StepUnbounded(e, u, LvbiLoc(i));
            && (a.Ran? <==> v.Ran?)
            && (a.Ran? ==>
                  && e.fp + 1 + i < |u.stack| && v == Ran(With(u, [u.stack[e.fp + 1 + i]]), [])
                  && exists off :: a == Ran(With(u, [Ptr(e.stackAt), off]), []) && StepUnbounded(e, a.s, Dr) == v
                       && Resolve(e, u, Ptr(e.stackAt), off) == Some(OnStack(e.fp + 1 + i)))
  {
    var a := StepUnbounded(e, u, LabiLoc(i));
    if a.Ran? {
      var off := MakeDptr(e.stackAt, e.stackAt + STACK_HDR + (e.fp + 1 + i) * WORD);
      assert u.stack + [Ptr(e.stackAt)] + [off] == u.stack + [Ptr(e.stackAt), off];
      PairOnTop(e, u, Ptr(e.stackAt), off, a.s);
    }
  }

  /** And for a static variable. */
  lemma StaticAddress(e: Layout, u: State, k: nat)
    requires |u.stack| + 2 <= STACK_SIZE
    ensures var a, v := StepUnbounded(e, u, LabiCv(k)), StepUnbounded(e, u, LvbiCv(k));
            && (a.Ran? <==> v.Ran?)
            && (a.Ran? ==>
                  && k < |u.statics| && v == Ran(With(u, [u.statics[k]]), [])
                  && exists off :: a == Ran(With(u, [Null, off]), []) && StepUnbounded(e, a.s, Dr) == v
                       && Resolve(e, u, Null, off) == Some(InStatics(k)))
  {
    var a := StepUnbounded(e, u, LabiCv(k));
    if a.Ran? {
      var off := MakeDptr(0, e.staticsAt + k * WORD);
      assert u.stack + [Null] + [off] == u.stack + [Null, off];
      PairOnTop(e, u, Null, off, a.s);
    }
  }

  /** DR on a pair that names a slot. */
  lemma PairOnTop(e: Layout, t: State, base: Word, off: Word, s: State)
    requires s.stack == t.stack + [base, off] && t == s.(stack := t.stack)
    ensures Resolve(e, t, base, off).Some? && SlotThere(t, Resolve(e, t, base, off).value) ==>
              StepUnbounded(e, s, Dr) == Ran(With(t, [ReadSlot(t, Resolve(e, t, base, off).value)]), [])
  {
    hide Resolve;
    assert Top(s, 1) == base && Top(s, 0) == off && Drop(s, 2) == t;
    if Resolve(e, t, base, off).Some? && SlotThere(t, Resolve(e, t, base, off).value) {
      ReadBelow(s, t, Resolve(e, t, base, off).value);
    }
  }

  // ----- new objects ----------------------------------------------------------------

  /** NEW gives a reference to an object that was not there, with all its variables unset. */
  lemma NewObject(e: Layout, u: State, cls: int, count: nat, off: nat)
    requires UnboundedOk(e, u) && |u.stack| < STACK_SIZE
    ensures var r := StepUnbounded(e, u, NewUdo(cls, count, off));
            && r.Ran? && r.out == [] && Kept(u, r.s) && |r.s.stack| == |u.stack| + 1 && r.s.stack[..|u.stack|] == u.stack
            && var w := r.s.stack[|u.stack|];
               && w.Ptr? && w.at !in u.mem && w.at in r.s.mem
               && var o := r.s.mem[w.at];
                  && o.Udo? && o.cls == cls && o.varOffset == off && |o.vars| == count
                  && forall j :: 0 <= j < count ==> o.vars[j] == Null
  {
    var r := StepUnbounded(e, u, NewUdo(cls, count, off));
    assert r.s.stack == u.stack + [Ptr(u.space.hi)];
  }

  // ----- arrays ---------------------------------------------------------------------

  /** The array has its elements. */
  predicate HasElements(m: Mem, a: int) {
    && a in m && m[a].Arr? && m[a].elems != 0 && BlockOf(m[a].elems) in m
    && m[BlockOf(m[a].elems)].ArrObjs? && 0 <= m[a].length == m[BlockOf(m[a].elems)].len <= |m[BlockOf(m[a].elems)].slots|
  }

  function Elements(m: Mem, a: int): seq<Word>
    requires HasElements(m, a)
  {
    m[BlockOf(m[a].elems)].slots[..m[a].length]
  }

  /** In a sound heap an array with a block has as many elements as its length says. */
  lemma ArrayBlock(s: State, a: int)
    requires Sound(s) && a in s.mem && s.mem[a].Arr? && s.mem[a].elems != 0
    ensures HasElements(s.mem, a)
    ensures var b := BlockOf(s.mem[a].elems);
            && s.space.Has(b) && s.mem[b].len == s.mem[a].length && s.mem[b].cap == s.mem[a].allocSize == |s.mem[b].slots|
            && forall i :: s.mem[a].length <= i < |s.mem[b].slots| ==> NilWord(s.mem, s.space, s.mem[b].slots[i])
  {
    assert ObjOk(s.mem, s.space, s.mem[a]);
    assert ObjOk(s.mem, s.space, s.mem[BlockOf(s.mem[a].elems)]);
  }

  /** A new array has no elements. */
  lemma NewArray(e: Layout, u: State, cls: int)
    requires UnboundedOk(e, u) && |u.stack| < STACK_SIZE
    ensures var r := StepUnbounded(e, u, NewArr(cls));
            && r.Ran? && r.out == [] && Kept(u, r.s) && |r.s.stack| == |u.stack| + 1 && r.s.stack[..|u.stack|] == u.stack
            && var w := r.s.stack[|u.stack|];
               && w.Ptr? && w.at !in u.mem && r.s.space.Has(w.at) && w.at in r.s.mem && r.s.mem[w.at] == Arr(cls, 0, 0, 0)
  {
    var r := StepUnbounded(e, u, NewArr(cls));
    assert r.s.stack == u.stack + [Ptr(u.space.hi)];
  }

  /** Its constructor gives it a block, in which it has no elements yet. */
  lemma ArrayInitialised(e: Layout, u: State, a: int)
    requires UnboundedOk(e, u) && a in u.mem && u.mem[a].Arr? && u.space.Has(a)
    ensures var r := StepUnbounded(e, With(u, [Ptr(a)]), InitArr);
            && r.Ran? && r.out == [] && r.s.stack == u.stack + [Ptr(a)] && HasElements(r.s.mem, a) && Elements(r.s.mem, a) == []
            && r.s.mem[a].cls == u.mem[a].cls && r.s.mem[a].allocSize == 512
            && forall c :: c in u.mem && c != a ==> c in r.s.mem && r.s.mem[c] == u.mem[c]
  {
    var s := With(u, [Ptr(a)]);
    assert Top(s, 0) == Ptr(a);
    assert u.space.hi !in u.mem;
    var t := AllocFresh(s, ArrObjs(0, ARR_INIT_SIZE, Nils(e, ARR_INIT_SIZE)), HDR + ARR_INIT_SIZE * WORD);
    assert Top(t, 0) == Ptr(a);
  }

  /** IDX gives the element, and stops behind the last one. */
  lemma IndexReads(e: Layout, u: State, a: int, w: Word, n: int)
    requires HasElements(u.mem, a) && Means(u.mem, w, n)
    ensures StepUnbounded(e, With(u, [Ptr(a), w]), Idx) ==
            if 0 <= n < |Elements(u.mem, a)| then Ran(With(u, [Elements(u.mem, a)[n]]), []) else Halted([])
  {
    MeansInt(u.mem, w, n);
    var s := With(u, [Ptr(a), w]);
    assert Top(s, 1) == Ptr(a) && Top(s, 0) == w && Drop(s, 2) == u;
  }

  /** IDX on a string gives its character, and stops behind the last one. */
  lemma IndexReadsText(e: Layout, u: State, a: int, w: Word, n: int)
    requires a in u.mem && u.mem[a].Str? && Means(u.mem, w, n)
    ensures StepUnbounded(e, With(u, [Ptr(a), w]), Idx) ==
            if 0 <= n < |u.mem[a].text| then Ran(With(u, [Imm(4 * (u.mem[a].text[n] as int) + 2)]), []) else Halted([])
  {
    MeansInt(u.mem, w, n);
    var s := With(u, [Ptr(a), w]);
    assert Top(s, 1) == Ptr(a) && Top(s, 0) == w && Drop(s, 2) == u;
  }

  /** A sequence stored into at an index, nil in between when it was too short. */
  ghost predicate StoredAt(m: Mem, was: seq<Word>, now: seq<Word>, n: nat, w: Word) {
    && |now| == (if n < |was| then |was| else n + 1) && now[n] == w
    && (forall i :: 0 <= i < |was| && i != n ==> now[i] == was[i])
    && (forall i :: |was| <= i < n ==> now[i].Ptr? && now[i].at in m && m[now[i].at].Nil?)
  }

  /** After IDXA the pair on the stack is element `n` of the array, whose block holds the old
      elements and nil behind them. */
  ghost predicate Addressed(u: State, s: State, a: int, n: nat) {
    && a in u.mem && HasElements(u.mem, a) && HasElements(s.mem, a)
    && var b := BlockOf(s.mem[a].elems);
       && s.stack == u.stack + [Ptr(b), MakeDptr(b, b + HDR + n * WORD)]
       && s.space.Has(b) && n < s.mem[a].length == s.mem[b].len && (b in u.mem ==> b == BlockOf(u.mem[a].elems))
       && s.mem[a].length == (if n < u.mem[a].length then u.mem[a].length else n + 1)
       && (forall i :: 0 <= i < u.mem[a].length ==> s.mem[b].slots[i] == Elements(u.mem, a)[i])
       && (forall i :: u.mem[a].length <= i < s.mem[a].length ==>
             var w := s.mem[b].slots[i]; w.Ptr? && w.at in u.mem && u.mem[w.at].Nil?)
       && (forall c :: c in u.mem && c != a && c != BlockOf(u.mem[a].elems) ==> c in s.mem && s.mem[c] == u.mem[c])
       && (BlockOf(u.mem[a].elems) != b ==>
             BlockOf(u.mem[a].elems) in s.mem && s.mem[BlockOf(u.mem[a].elems)] == u.mem[BlockOf(u.mem[a].elems)])
       && s.statics == u.statics
  }

  lemma AddressedInPlace(e: Layout, u: State, a: int, w: Word, n: nat)
    requires UnboundedOk(e, u) && a in u.mem && u.mem[a].Arr? && u.mem[a].elems != 0 && Means(u.mem, w, n)
    requires n < u.mem[a].allocSize
    ensures var r := StepUnbounded(e, With(u, [Ptr(a), w]), Idxa); r.Ran? && r.out == [] && Addressed(u, r.s, a, n)
  {
    hide Begin, PushElemAddr, SetLength, UnboundedOk;
    BeginInPlace(e, u, a, w, n);
    UnboundedSound(e, u);
    ArrayBlock(u, a);
    var b := BlockOf(u.mem[a].elems);
    var d := With(u, [Ptr(a)]);
    var t := if n >= u.mem[a].length then SetLength(d, a, n + 1) else d;
    LengthSet(d, a, n + 1);
    PairPushed(t, u.stack, a, b, n);
  }

  lemma UnboundedSound(e: Layout, u: State)
    requires UnboundedOk(e, u)
    ensures Sound(u)
  {
  }

  lemma LengthSet(s: State, a: int, n: int)
    requires a in s.mem && s.mem[a].Arr? && BlockOf(s.mem[a].elems) in s.mem && s.mem[BlockOf(s.mem[a].elems)].ArrObjs?
    ensures SetLength(s, a, n) == s.(mem := SetLength(s, a, n).mem)
    ensures var b, m := BlockOf(s.mem[a].elems), SetLength(s, a, n).mem;
            && m.Keys == s.mem.Keys && m[a] == s.mem[a].(length := n) && m[b] == s.mem[b].(len := n)
            && forall c :: c in s.mem && c != a && c != b ==> m[c] == s.mem[c]
  {
  }

  lemma BeginInPlace(e: Layout, u: State, a: int, w: Word, n: nat)
    requires UnboundedOk(e, u) && a in u.mem && u.mem[a].Arr? && u.mem[a].elems != 0 && Means(u.mem, w, n)
    requires n < u.mem[a].allocSize
    ensures HasElements(u.mem, a)
    ensures var d, b := With(u, [Ptr(a)]), BlockOf(u.mem[a].elems);
            Begin(e, With(u, [Ptr(a), w]), Idxa) ==
            Done(PushElemAddr(if n >= u.mem[a].length then SetLength(d, a, n + 1) else d, b, n), [])
  {
    hide SetLength, PushElemAddr;
    ArrayBlock(u, a);
    MeansInt(u.mem, w, n);
    var s := With(u, [Ptr(a), w]);
    assert Top(s, 1) == Ptr(a) && Top(s, 0) == w && Drop(s, 1) == With(u, [Ptr(a)]);
  }

  lemma AddressedGrown(e: Layout, u: State, a: int, w: Word, n: nat)
    requires UnboundedOk(e, u) && a in u.mem && u.mem[a].Arr? && u.mem[a].elems != 0 && Means(u.mem, w, n)
    requires n >= u.mem[a].allocSize >= 2
    ensures var r := StepUnbounded(e, With(u, [Ptr(a), w]), Idxa); r.Ran? && r.out == [] && Addressed(u, r.s, a, n)
  {
    hide Grown, Begin, GrowInto, PushElemAddr, UnboundedOk;
    var cap, b := Grown(u.mem[a].allocSize, n + 1), u.space.hi;
    var d := With(u, [Ptr(a)]);
    var m := AllocFresh(d, ArrObjs(u.mem[a].length, cap, Nils(e, cap)), HDR + cap * WORD);
    UnboundedSound(e, u);
    ArrayBlock(u, a);
    BeginGrows(e, u, a, w, n, cap);
    GrownInto(e, u, m, a, n, cap);
    var t := GrowInto(m, a, b, n + 1);
    assert Top(m, 0) == Ptr(a);
    var r := StepUnbounded(e, With(u, [Ptr(a), w]), Idxa);
    assert r == Ran(PushElemAddr(t, b, n), []);
    PairPushed(t, u.stack, a, b, n);
    NilAndFresh(e, u, HDR + cap * WORD);
  }

  lemma NilAndFresh(e: Layout, u: State, size: int)
    requires UnboundedOk(e, u) && size > 0
    ensures e.nilAt in u.mem && u.mem[e.nilAt].Nil? && 0 < u.space.lo <= u.space.hi < u.space.hi + Aligned(size)
  {
  }

  lemma PairPushed(t: State, stack: seq<Word>, a: int, b: int, n: int)
    requires t.stack == stack + [Ptr(a)]
    ensures PushElemAddr(t, b, n) == t.(stack := stack + [Ptr(b), MakeDptr(b, b + HDR + n * WORD)])
  {
    assert Drop(t, 1).stack == stack;
    assert stack + [Ptr(b)] + [MakeDptr(b, b + HDR + n * WORD)] == stack + [Ptr(b), MakeDptr(b, b + HDR + n * WORD)];
  }

  lemma BeginGrows(e: Layout, u: State, a: int, w: Word, n: nat, cap: int)
    requires UnboundedOk(e, u) && a in u.mem && u.mem[a].Arr? && u.mem[a].elems != 0 && Means(u.mem, w, n)
    requires n >= u.mem[a].allocSize >= 2 && cap == Grown(u.mem[a].allocSize, n + 1)
    ensures Begin(e, With(u, [Ptr(a), w]), Idxa) ==
            Allocate(With(u, [Ptr(a)]), ArrObjs(u.mem[a].length, cap, Nils(e, cap)), HDR + cap * WORD, n)
  {
    hide Grown;
    ArrayBlock(u, a);
    MeansInt(u.mem, w, n);
    var s := With(u, [Ptr(a), w]);
    assert Top(s, 1) == Ptr(a) && Top(s, 0) == w && Drop(s, 1) == With(u, [Ptr(a)]);
  }

  /** The elements in the bigger block. */
  lemma GrownInto(e: Layout, u: State, m: State, a: int, n: nat, cap: int)
    requires UnboundedOk(e, u) && a in u.mem && u.mem[a].Arr? && u.mem[a].elems != 0 && n >= u.mem[a].allocSize && cap > n
    requires m.mem == u.mem[u.space.hi := ArrObjs(u.mem[a].length, cap, Nils(e, cap))]
    ensures u.space.hi !in u.mem && HasElements(u.mem, a)
    ensures var b, t := u.space.hi, GrowInto(m, a, u.space.hi, n + 1);
            && a in t.mem && t.mem[a] == Arr(u.mem[a].cls, n + 1, cap, b + HDR)
            && b in t.mem && t.mem[b].ArrObjs? && t.mem[b].len == n + 1 && |t.mem[b].slots| == cap
            && (forall i :: 0 <= i < u.mem[a].length ==> t.mem[b].slots[i] == Elements(u.mem, a)[i])
            && (forall i :: u.mem[a].length <= i <= n ==> t.mem[b].slots[i] == Ptr(e.nilAt))
            && (forall c :: c in u.mem && c != a ==> c in t.mem && t.mem[c] == u.mem[c])
            && t.space == m.space && t.stack == m.stack && t.statics == m.statics
  {
    ArrayBlock(u, a);
  }

  /** Storing through the pair. */
  lemma StoreElement(e: Layout, u: State, s: State, a: int, n: nat, w: Word)
    requires Addressed(u, s, a, n) && w != Null && (w.Ptr? ==> w.at in s.mem && !Unmoved(s.mem[w.at]))
    ensures var r := StepUnbounded(e, With(s, [w]), St);
            && r.Ran? && r.out == [] && r.s.stack == u.stack && r.s.statics == u.statics && HasElements(r.s.mem, a)
            && r.s.mem[a] == s.mem[a] && BlockOf(s.mem[a].elems) in r.s.mem
            && r.s.mem == s.mem[BlockOf(s.mem[a].elems) := s.mem[BlockOf(s.mem[a].elems)].(slots :=
                                  s.mem[BlockOf(s.mem[a].elems)].slots[n := w])]
  {
    var b := BlockOf(s.mem[a].elems);
    var off := MakeDptr(b, b + HDR + n * WORD);
    var x := With(s, [w]);
    assert Top(x, 2) == Ptr(b) && Top(x, 1) == off && Top(x, 0) == w;
    assert Drop(x, 3) == s.(stack := u.stack);
    assert Resolve(e, Drop(x, 3), Ptr(b), off) == Some(InObject(b, n));
  }

  /** IDXA and ST at an index, within the capacity or with the array growing: the array has the
      word there, its other elements as they were, and nil up to it; no other array and no
      other object changes. */
  lemma IndexStores(e: Layout, u: State, a: int, i: Word, n: nat, w: Word)
    requires UnboundedOk(e, u) && a in u.mem && u.mem[a].Arr? && u.mem[a].elems != 0 && u.mem[a].allocSize >= 2
    requires Means(u.mem, i, n) && w != Null && (w.Ptr? ==> w.at in u.mem && !Unmoved(u.mem[w.at]))
    ensures HasElements(u.mem, a)
    ensures var p := StepUnbounded(e, With(u, [Ptr(a), i]), Idxa);
            && p.Ran? && p.out == []
            && var r := StepUnbounded(e, With(p.s, [w]), St);
               && r.Ran? && r.out == [] && r.s.stack == u.stack && r.s.statics == u.statics
               && HasElements(r.s.mem, a) && StoredAt(r.s.mem, Elements(u.mem, a), Elements(r.s.mem, a), n, w)
               && (forall c :: c in u.mem && c != a && c != BlockOf(u.mem[a].elems) ==> c in r.s.mem && r.s.mem[c] == u.mem[c])
               && (forall c :: c != a && HasElements(u.mem, c) && Sound(u) ==>
                     HasElements(r.s.mem, c) && Elements(r.s.mem, c) == Elements(u.mem, c))
  {
    ArrayBlock(u, a);
    if n < u.mem[a].allocSize { AddressedInPlace(e, u, a, i, n); } else { AddressedGrown(e, u, a, i, n); }
    var s := StepUnbounded(e, With(u, [Ptr(a), i]), Idxa).s;
    StillStorable(u, s, a, n, w);
    StoreElement(e, u, s, a, n, w);
    var t := StepUnbounded(e, With(s, [w]), St).s;
    ElementStored(u, s, t, a, n, w);
    OthersKept(u, s, t, a, n, w);
  }

  /** IDXA and ST, then IDX: at the same index the stored word comes back, at any other what was
      there before, and behind the last element reading stops. */
  lemma ElementReadBack(e: Layout, u: State, a: int, i: Word, n: nat, w: Word, j: Word, k: nat)
    requires UnboundedOk(e, u) && a in u.mem && u.mem[a].Arr? && u.mem[a].elems != 0 && u.mem[a].allocSize >= 2
    requires Means(u.mem, i, n) && w != Null && (w.Ptr? ==> w.at in u.mem && !Unmoved(u.mem[w.at]))
    ensures HasElements(u.mem, a)
    ensures var p := StepUnbounded(e, With(u, [Ptr(a), i]), Idxa);
            && p.Ran?
            && var r := StepUnbounded(e, With(p.s, [w]), St);
               && r.Ran?
               && (Means(r.s.mem, j, k) ==>
                     var q := StepUnbounded(e, With(r.s, [Ptr(a), j]), Idx);
                     && (k == n ==> q == Ran(With(r.s, [w]), []))
                     && (k != n && k < |Elements(u.mem, a)| ==> q == Ran(With(r.s, [Elements(u.mem, a)[k]]), []))
                     && (k > n && k >= |Elements(u.mem, a)| ==> q == Halted([])))
  {
    hide StepUnbounded, UnboundedOk;
    IndexStores(e, u, a, i, n, w);
    var r := StepUnbounded(e, With(StepUnbounded(e, With(u, [Ptr(a), i]), Idxa).s, [w]), St);
    if Means(r.s.mem, j, k) { IndexReads(e, r.s, a, j, k); }
  }

  lemma StillStorable(u: State, s: State, a: int, n: nat, w: Word)
    requires Addressed(u, s, a, n) && (w.Ptr? ==> w.at in u.mem && !Unmoved(u.mem[w.at]))
    ensures w.Ptr? ==> w.at in s.mem && !Unmoved(s.mem[w.at])
  {
  }

  lemma ElementStored(u: State, s: State, t: State, a: int, n: nat, w: Word)
    requires Addressed(u, s, a, n) && HasElements(t.mem, a) && t.mem[a] == s.mem[a]
    requires t.mem == s.mem[BlockOf(s.mem[a].elems) := s.mem[BlockOf(s.mem[a].elems)].(slots :=
                              s.mem[BlockOf(s.mem[a].elems)].slots[n := w])]
    ensures StoredAt(t.mem, Elements(u.mem, a), Elements(t.mem, a), n, w)
  {
    var b := BlockOf(s.mem[a].elems);
    var was, now := Elements(u.mem, a), Elements(t.mem, a);
    forall i | |was| <= i < n ensures now[i].Ptr? && now[i].at in t.mem && t.mem[now[i].at].Nil? {
      assert now[i] == s.mem[b].slots[i];
    }
  }

  lemma OthersKept(u: State, s: State, t: State, a: int, n: nat, w: Word)
    requires Sound(u) && Addressed(u, s, a, n) && u.mem[a].elems != 0
    requires t.mem == s.mem[BlockOf(s.mem[a].elems) := s.mem[BlockOf(s.mem[a].elems)].(slots :=
                              s.mem[BlockOf(s.mem[a].elems)].slots[n := w])]
    ensures forall c :: c in u.mem && c != a && c != BlockOf(u.mem[a].elems) ==> c in t.mem && t.mem[c] == u.mem[c]
    ensures forall c :: c != a && HasElements(u.mem, c) ==> HasElements(t.mem, c) && Elements(t.mem, c) == Elements(u.mem, c)
  {
    forall c | c != a && HasElements(u.mem, c) ensures HasElements(t.mem, c) && Elements(t.mem, c) == Elements(u.mem, c) {
      assert BlockOf(u.mem[c].elems) != BlockOf(u.mem[a].elems);
      assert t.mem[c] == u.mem[c] && t.mem[BlockOf(u.mem[c].elems)] == u.mem[BlockOf(u.mem[c].elems)];
    }
  }
}
