/** The virtual machine's heap instructions over the copying collector, run beside
    a ghost machine with an unbounded heap. */
module Machine {
  import opened Basics
  import opened KekObjects
  import opened HeapGraph
  import opened CopyLedger
  import opened HeapState
  import opened HeapLayout
  import opened Cheney
  import opened Instructions
  import opened SoundSteps
  import opened Simulation
  import opened SimulationGc
  import opened SimulationSpace
  import opened SimulationStep
  import Programs
  import ConstantArrays

  datatype Want = Halt | Written(out: seq<Output>) | NeedObj(o: Obj, size: int, k: int)

  datatype Status = Going | Stopped | OutOfMemory

  class Vm {
    const heap: Heap
    const e: Layout
    var output: seq<Output>

    /** The state of the unbounded machine, and where its objects are here. */
    ghost var u: State
    ghost var ren: map<int, int>

    ghost predicate Valid()
      reads this, heap
    {
      && heap.Valid() && LayoutOk(e, heap.Snap())
      && UnboundedOk(e, u) && Sim(u, heap.Snap(), ren)
    }

    constructor (h: Heap, l: Layout, ghost start: State, ghost r: map<int, int>)
      requires h.Valid() && LayoutOk(l, h.Snap())
      requires UnboundedOk(l, start) && Sim(start, h.Snap(), r)
      ensures Valid() && heap == h && e == l && output == [] && u == start
    {
      heap, e, output, u, ren := h, l, [], start, r;
    }

    // ----- allocation -----------------------------------------------------------------

    /** A scavenge, forced when `size` bytes do not fit. */
    method MakeRoom(size: int) returns (ok: bool)
      requires Valid() && size > 0
      modifies heap, `ren
      ensures ok ==> Valid() && heap.CanMalloc(size)
      ensures !ok ==> LiveBytes(u) + Aligned(size) >= SEGMENT
    {
      ok := heap.CanMalloc(size);
      if !ok {
        ghost var g := heap.Snap();
        SameLiveBytes(u, g, ren) by { UnboundedApart(u); }
        ok := heap.Scavenge();
        if ok {
          SimMoved(u, g, heap.Snap(), ren, heap.led.fwd);
          MovedKeepsLayout(e, g, heap.Snap(), heap.led.fwd);
          ren := Compose(ren, heap.led.fwd);
          ok := heap.CanMalloc(size);
        }
      }
    }

    lemma MovedKeepsLayout(e: Layout, s: State, t: State, f: map<int, int>)
      requires LayoutOk(e, s) && Moved(s, t, f) && Vacant(s.mem, t.space)
      ensures LayoutOk(e, t)
    {
      assert forall o: Obj :: Slots(o) == [] ==> MapPrefix(Slots(o), Traced(o), f) == [];
    }

    lemma BlankBothMachines(o: Obj)
      requires Valid() && Blank(u, o)
      ensures Blank(heap.Snap(), o)
    {
      BlankBoth(u, heap.Snap(), ren, o);
    }

    /** gc_obj_malloc, in both machines. */
    method Allocate(o: Obj, size: int) returns (at: int, ok: bool)
      requires Valid() && size > 0 && End(o) <= size && Blank(u, o)
      modifies heap, `u, `ren
      ensures ok ==> Valid() && u == AllocFresh(old(u), o, size)
      ensures ok ==> old(u).space.hi in ren && ren[old(u).space.hi] == at && at > 0 && Unowned(heap.mem, at)
      ensures !ok ==> LiveBytes(old(u)) + Aligned(size) >= SEGMENT
      ensures old(heap.CanMalloc(size)) && ok ==>
        heap.Snap() == old(heap.Snap()).(mem := old(heap.mem)[at := o])
    {
      hide HeapState.Sound, Simulation.Sim, HeapState.Moved, HeapState.Live, HeapState.Blank;
      ghost var g := heap.Snap();
      SameLiveBytes(u, g, ren) by { UnboundedApart(u); }
      LiveBytesNatural(u);
      BlankBothMachines(o);
      ghost var moved, mid;
      at, ok, moved, mid := heap.Malloc(o, size);
      if ok {
        if moved {
          SimMoved(u, g, mid, ren, heap.led.fwd);
          MovedKeepsLayout(e, g, mid, heap.led.fwd);
          ren := Compose(ren, heap.led.fwd);
        }
        AllocatedBoth(e, u, mid, ren, o, size, at);
        ren := ren[u.space.hi := at];
        u := AllocFresh(u, o, size);
      }
    }

    // ----- the instructions ---------------------------------------------------------------

    /** `want` is what `Begin` says, and the heap is in the state it says. */
    twostate predicate Begins(op: Op, want: Want)
      reads heap
    {
      match Begin(e, old(heap.Snap()), op)
      case Stuck => want.Halt?
      case Done(s, out) => want == Written(out) && heap.Snap() == s
      case Allocate(s, o, size, k) => want == NeedObj(o, size, k) && heap.Snap() == s
    }

    method Pop() returns (w: Word)
      requires |heap.stack| >= 1
      modifies heap`stack
      ensures w == old(heap.stack)[|old(heap.stack)| - 1]
      ensures heap.stack == old(heap.stack)[..|old(heap.stack)| - 1]
    {
      w := heap.stack[|heap.stack| - 1];
      heap.stack := heap.stack[..|heap.stack| - 1];
    }

    method Push(w: Word)
      modifies heap`stack
      ensures heap.stack == old(heap.stack) + [w]
    {
      heap.stack := heap.stack + [w];
    }

    /** The loads: constants, locals, statics, and addresses of the latter two. */
    method Load(op: Op) returns (want: Want)
      requires op.LvbiC? || op.LvbiLoc? || op.LabiLoc? || op.LvbiCv? || op.LabiCv? || op.Dup?
      modifies heap`stack
      ensures Begins(op, want)
    {
      var n := |heap.stack|;
      match op {
      case LvbiC(at) =>
        if !heap.IsConst(at) || at !in heap.mem || n + 1 > STACK_SIZE { return Halt; }
        Push(Ptr(at));
      case LvbiLoc(i) =>
        if e.fp + 1 + i >= n || n + 1 > STACK_SIZE { return Halt; }
        Push(heap.stack[e.fp + 1 + i]);
      case LabiLoc(i) =>
        if e.fp + 1 + i >= n || n + 2 > STACK_SIZE || e.stackAt !in heap.mem || !heap.mem[e.stackAt].StackHeader? {
          return Halt;
        }
        Push(Ptr(e.stackAt));
        Push(MakeDptr(e.stackAt, e.stackAt + STACK_HDR + (e.fp + 1 + i) * WORD));
      case LvbiCv(k) =>
        if k >= |heap.statics| || n + 1 > STACK_SIZE { return Halt; }
        Push(heap.statics[k]);
      case LabiCv(k) =>
        if k >= |heap.statics| || n + 2 > STACK_SIZE { return Halt; }
        Push(Null);
        Push(MakeDptr(0, e.staticsAt + k * WORD));
      case Dup =>
        if n < 2 || n + 2 > STACK_SIZE { return Halt; }
        Push(heap.stack[n - 2]);
        Push(heap.stack[|heap.stack| - 2]);
      }
      want := Written([]);
    }

    /** LVBS_IVE and LABS_IVE. */
    method Field(op: Op) returns (want: Want)
      requires op.LvbsIve? || op.LabsIve?
      modifies heap`stack
      ensures Begins(op, want)
    {
      var n := |heap.stack|;
      if n < 1 || n + 1 > STACK_SIZE { return Halt; }
      var w := heap.stack[n - 1];
      if !w.Ptr? || w.at !in heap.mem || !heap.mem[w.at].Udo? || !SpaceAt(heap.toBase).Has(w.at) { return Halt; }
      var o := heap.mem[w.at];
      var j := op.i + o.varOffset;
      if j < 0 || j >= |o.vars| { return Halt; }
      if op.LvbsIve? {
        w := Pop();
        Push(o.vars[j]);
      } else {
        Push(MakeDptr(w.at, w.at + HDR + j * WORD));
      }
      want := Written([]);
    }

    /** DR. */
    method Deref() returns (want: Want)
      modifies heap`stack
      ensures Begins(Dr, want)
    {
      hide Resolve, SlotThere, ReadSlot;
      if |heap.stack| < 2 { return Halt; }
      var addr := Pop();
      var base := Pop();
      assert heap.Snap() == Drop(old(heap.Snap()), 2);
      var w, ok := Fetch(base, addr);
      if !ok { return Halt; }
      ReadBelow(old(heap.Snap()), Resolve(e, heap.Snap(), base, addr).value);
      Push(w);
      want := Written([]);
    }

    /** *DPTR_VAL(base, addr), on the right of an assignment. */
    method Fetch(base: Word, addr: Word) returns (w: Word, ok: bool)
      ensures var s := Resolve(e, heap.Snap(), base, addr);
        ok <==> s.Some? && SlotThere(heap.Snap(), s.value)
      ensures ok ==> w == ReadSlot(heap.Snap(), Resolve(e, heap.Snap(), base, addr).value)
    {
      var r := SlotOf(base, addr);
      if r.None? { return Null, false; }
      match r.value {
        case OnStack(i) => return heap.stack[i], true;
        case InStatics(k) => return heap.statics[k], true;
        case InObject(at, j) => return Slots(heap.mem[at])[j], true;
      }
    }

    /** DPTR_VAL. */
    method SlotOf(base: Word, addr: Word) returns (r: Option<Slot>)
      ensures r == Resolve(e, heap.Snap(), base, addr)
      ensures r.Some? ==> SlotThere(heap.Snap(), r.value)
    {
      if !addr.Imm? { return None; }
      var d := addr.bits - 3;
      match base {
        case Imm(_) => return None;
        case Null =>
          var n := d - e.staticsAt;
          if n < 0 || n % WORD != 0 || n / WORD >= |heap.statics| { return None; }
          return Some(InStatics(n / WORD));
        case Ptr(at) =>
          if at !in heap.mem { return None; }
          if heap.mem[at].StackHeader? {
            var n := d - STACK_HDR;
            if n < 0 || n % WORD != 0 || n / WORD >= |heap.stack| { return None; }
            return Some(OnStack(n / WORD));
          }
          var n := d - HDR;
          var o := heap.mem[at];
          if o.Expt? || !SpaceAt(heap.toBase).Has(at) || n < 0 || n % WORD != 0
             || n / WORD >= Traced(o) || n / WORD >= |Slots(o)| {
            return None;
          }
          return Some(InObject(at, n / WORD));
      }
    }

    /** ST. */
    method Store() returns (want: Want)
      modifies heap`stack, heap`mem, heap`statics
      ensures Begins(St, want)
    {
      hide Instructions.Resolve, Instructions.WriteSlot;
      if |heap.stack| < 3 { return Halt; }
      var obj := Pop();
      var addr := Pop();
      var base := Pop();
      if obj == Null { return Halt; }
      assert heap.Snap() == Drop(old(heap.Snap()), 3);
      var r := SlotOf(base, addr);
      if r.None? { return Halt; }
      if !r.value.OnStack? && obj.Ptr?
         && (obj.at !in heap.mem || heap.mem[obj.at].Class? || heap.mem[obj.at].StackHeader?) {
        return Halt;
      }
      Assign(r.value, obj);
      want := Written([]);
    }

    /** *DPTR_VAL(base, addr), on the left of an assignment. */
    method Assign(slot: Slot, w: Word)
      requires SlotThere(heap.Snap(), slot)
      modifies heap`stack, heap`mem, heap`statics
      ensures heap.Snap() == WriteSlot(old(heap.Snap()), slot, w)
    {
      match slot {
        case OnStack(i) => heap.stack := heap.stack[i := w];
        case InStatics(k) => heap.statics := heap.statics[k := w];
        case InObject(at, j) =>
          heap.mem := heap.mem[at := WithSlots(heap.mem[at], Slots(heap.mem[at])[j := w])];
      }
    }

    /** IDX. */
    method Index() returns (want: Want)
      modifies heap`stack
      ensures Begins(Idx, want)
    {
      if |heap.stack| < 2 { return Halt; }
      var idx := Pop();
      var obj := Pop();
      if !IsInt(heap.mem, idx) || !obj.Ptr? || obj.at !in heap.mem { return Halt; }
      var n := IntVal(heap.mem, idx);
      var o := heap.mem[obj.at];
      if n < 0 { return Halt; }
      if o.Arr? {
        var b := BlockOf(o.elems);
        if n >= o.length || o.elems == 0 || b !in heap.mem || !heap.mem[b].ArrObjs?
           || n >= |heap.mem[b].slots| || n >= heap.mem[b].len {
          return Halt;
        }
        Push(heap.mem[b].slots[n]);
      } else if o.Str? && n < |o.text| {
        Push(MakeChar(o.text[n]));
      } else {
        return Halt;
      }
      want := Written([]);
    }

    /** The loop of arr_realloc_elems. */
    static method GrownSize(cap: int, n: int) returns (size: int)
      requires cap >= 2
      ensures size == Grown(cap, n)
    {
      size := cap;
      while size < n
        invariant size >= 2 && Grown(size, n) == Grown(cap, n)
        decreases n - size
      {
        size := size * 3 / 2;
      }
    }

    /** IDXA, up to the allocation of a bigger block. */
    method IndexAddr() returns (want: Want)
      modifies heap`stack, heap`mem
      ensures Begins(Idxa, want)
    {
      hide Grown;
      if |heap.stack| < 2 { return Halt; }
      var idx := Pop();
      var obj := heap.stack[|heap.stack| - 1];
      if !IsInt(heap.mem, idx) || !IsArr(heap.mem, obj) { return Halt; }
      var n := IntVal(heap.mem, idx);
      var arr := heap.mem[obj.at];
      var b := BlockOf(arr.elems);
      if n < 0 || arr.elems == 0 || b !in heap.mem || !heap.mem[b].ArrObjs? || arr.length < 0 { return Halt; }
      if n >= arr.allocSize {
        if arr.allocSize < 2 { return Halt; }
        var newSize := GrownSize(arr.allocSize, n + 1);
        return NeedObj(ArrObjs(arr.length, newSize, Nils(e, newSize)), HDR + newSize * WORD, n);
      }
      if n >= arr.length {
        heap.mem := heap.mem[obj.at := arr.(length := n + 1)][b := heap.mem[b].(len := n + 1)];
      }
      obj := Pop();
      Push(Ptr(b));
      Push(MakeDptr(b, b + HDR + n * WORD));
      want := Written([]);
    }

    /** POP and WRT. */
    method Consume(op: Op) returns (want: Want)
      requires op.PopTop? || op.Wrt?
      modifies heap`stack
      ensures Begins(op, want)
    {
      if |heap.stack| < 1 { return Halt; }
      var b := Pop();
      if op.PopTop? { return Written([]); }
      if IsChar(b) { return Written([OutChar(b.bits / 4)]); }
      if IsInt(heap.mem, b) { return Written([OutInt(IntVal(heap.mem, b))]); }
      if b.Ptr? && b.at in heap.mem && heap.mem[b.at].Str? { return Written([OutText(heap.mem[b.at].text)]); }
      return Halt;
    }

    /** BOP Minus on integers. */
    method Subtract() returns (want: Want)
      modifies heap`stack
      ensures Begins(Minus, want)
    {
      if |heap.stack| < 2 { return Halt; }
      var b := Pop();
      var a := Pop();
      if !IsInt(heap.mem, a) || !IsInt(heap.mem, b) { return Halt; }
      var r := IntVal(heap.mem, a) - IntVal(heap.mem, b);
      if r < INT_MIN || r > INT_MAX { return Halt; }
      if r < 0 { return NeedObj(Int(r), INT_SIZE, 0); }
      Push(MakeSmallInt(r));
      return Written([]);
    }

    /** BOP Eq. */
    method Compare() returns (want: Want)
      modifies heap`stack
      ensures Begins(Equal, want)
    {
      if |heap.stack| < 2 { return Halt; }
      var b := Pop();
      var a := Pop();
      if a == Null || b == Null { return Halt; }
      var same := a == b;
      if IsInt(heap.mem, a) && IsInt(heap.mem, b) {
        same := IntVal(heap.mem, a) == IntVal(heap.mem, b);
      } else if TextOf(heap.mem, a).Some? && TextOf(heap.mem, b).Some? {
        same := TextOf(heap.mem, a) == TextOf(heap.mem, b);
      } else if a.Ptr? && b.Ptr? && a.at in heap.mem && b.at in heap.mem && heap.mem[a.at].Sym? && heap.mem[b.at].Sym? {
        same := heap.mem[a.at].name == heap.mem[b.at].name;
      }
      Push(MakeSmallInt(if same then 1 else 0));
      want := Written([]);
    }

    /** NEW and the constructor of Array, up to their allocation. */
    method Create(op: Op) returns (want: Want)
      requires op.NewUdo? || op.NewArr? || op.InitArr?
      ensures Begins(op, want)
    {
      var n := |heap.stack|;
      match op {
        case NewUdo(cls, count, off) =>
          if n + 1 > STACK_SIZE { return Halt; }
          return NeedObj(Udo(cls, off, Nulls(count)), UDO_SIZE + (if count > 0 then count - 1 else 0) * OBJ_SIZE, 0);
        case NewArr(cls) =>
          if n + 1 > STACK_SIZE { return Halt; }
          return NeedObj(Arr(cls, 0, 0, 0), ARR_SIZE, 0);
        case InitArr =>
          if n < 1 || !IsArr(heap.mem, heap.stack[n - 1]) || !SpaceAt(heap.toBase).Has(heap.stack[n - 1].at) { return Halt; }
          return NeedObj(ArrObjs(0, ARR_INIT_SIZE, Nils(e, ARR_INIT_SIZE)), HDR + ARR_INIT_SIZE * WORD, 0);
      }
    }

    /** One turn of the dispatch loop, up to the allocation if there is one. */
    method Dispatch(op: Op) returns (want: Want)
      modifies heap`stack, heap`mem, heap`statics
      ensures Begins(op, want)
    {
      match op {
        case LvbsIve(_) => want := Field(op);
        case LabsIve(_) => want := Field(op);
        case Dr => want := Deref();
        case St => want := Store();
        case Idx => want := Index();
        case Idxa => want := IndexAddr();
        case PopTop => want := Consume(op);
        case Wrt => want := Consume(op);
        case Equal => want := Compare();
        case Minus => want := Subtract();
        case NewUdo(_, _, _) => want := Create(op);
        case NewArr(_) => want := Create(op);
        case InitArr => want := Create(op);
        case _ => want := Load(op);
      }
    }

    // ----- after the allocation -------------------------------------------------------------

    /** The end of arr_realloc_elems and native_grow_array for the array at `a`. */
    method GrowArray(a: int, b: int, n: int)
      requires a in heap.mem && heap.mem[a].Arr? && b in heap.mem && heap.mem[b].ArrObjs? && n >= 0 && a != b
      requires BlockOf(heap.mem[a].elems) in heap.mem && heap.mem[BlockOf(heap.mem[a].elems)].ArrObjs?
      modifies heap`mem
      ensures heap.Snap() == GrowInto(old(heap.Snap()), a, b, n)
    {
      var arr := heap.mem[a];
      var was := heap.mem[BlockOf(arr.elems)];
      var slots := heap.mem[b].slots;
      ghost var blank := slots;
      var i := 0;
      while i < arr.length && i < |was.slots| && i < |slots|
        invariant 0 <= i && |slots| == |blank|
        invariant forall j :: 0 <= j < |slots| ==>
          slots[j] == if j < i && j < arr.length && j < |was.slots| then was.slots[j] else blank[j]
      {
        slots := slots[i := was.slots[i]];
        i := i + 1;
      }
      assert slots == GrowInto(old(heap.Snap()), a, b, n).mem[b].slots;
      heap.mem := heap.mem[b := ArrObjs(n, heap.mem[b].cap, slots)];
      heap.mem := heap.mem[a := Arr(arr.cls, n, heap.mem[b].cap, b + HDR)];
    }

    /** The rest of an instruction once its object is at `at`; `arr` is the array
        reference it works on, read again after the allocation. */
    method Complete(op: Op, at: int, k: int, arr: Word)
      requires Pending(heap.Snap(), op, at, k)
      requires op.Idxa? ==> Sound(heap.Snap()) && arr == Top(heap.Snap(), 0)
      modifies heap`mem, heap`stack
      ensures heap.Snap() == Instructions.Finish(old(heap.Snap()), op, at, k)
    {
      match op {
        case InitArr =>
          var a := heap.stack[|heap.stack| - 1].at;
          heap.mem := heap.mem[a := Arr(heap.mem[a].cls, 0, ARR_INIT_SIZE, at + HDR)];
        case Idxa =>
          ghost var g := heap.Snap();
          assert ObjOk(g.mem, g.space, g.mem[arr.at]);
          GrowArray(arr.at, at, k + 1);
          var _ := Pop();
          Push(Ptr(at));
          Push(MakeDptr(at, at + HDR + k * WORD));
        case _ =>
          Push(Ptr(at));
      }
    }

    /** Nothing the collector relies on is disturbed by an instruction. */
    twostate lemma StillValid()
      requires old(heap.Valid()) && Sound(heap.Snap()) && SameShape(old(heap.Snap()), heap.Snap())
      requires unchanged(heap`fromBase, heap`toBase, heap`free)
      ensures heap.Valid()
    {
      hide HeapState.Sound, HeapLayout.Laid;
      LaidStays(old(heap.mem), heap.mem, SpaceAt(heap.toBase), heap.free);
    }

    /** The allocation of an instruction.  Growing an array registers the two local
        variables that hold it meanwhile; the constructor of Array makes room first,
        because it keeps the array in a variable that is not registered. */
    method AllocateFor(op: Op, o: Obj, size: int) returns (at: int, ok: bool, arr: Word)
      requires Valid() && size > 0 && End(o) <= size && Blank(u, o)
      requires op.Idxa? ==> |u.stack| >= 1 && IsArr(u.mem, Top(u, 0))
      modifies heap, `u, `ren
      ensures ok ==> Valid() && u == AllocFresh(old(u), o, size)
      ensures ok ==> old(u).space.hi in ren && ren[old(u).space.hi] == at && at > 0 && Unowned(heap.mem, at)
      ensures ok && op.Idxa? ==> |heap.stack| >= 1 && arr == Top(heap.Snap(), 0)
      ensures !ok ==> LiveBytes(old(u)) + Aligned(size) >= SEGMENT
    {
      arr := Null;
      if op.InitArr? {
        ok := MakeRoom(size);
        if !ok { return 0, false, Null; }
      }
      if op.Idxa? {
        at, ok, arr := AllocateRegistered(o, size);
      } else {
        at, ok := Allocate(o, size);
      }
    }

    /** gc_rootset_add for the array on top of the stack, the allocation, and
        gc_rootset_remove_id. */
    method AllocateRegistered(o: Obj, size: int) returns (at: int, ok: bool, arr: Word)
      requires Valid() && size > 0 && End(o) <= size && Blank(u, o)
      requires |u.stack| >= 1 && IsArr(u.mem, Top(u, 0))
      modifies heap, `u, `ren
      ensures ok ==> Valid() && u == AllocFresh(old(u), o, size)
      ensures ok ==> old(u).space.hi in ren && ren[old(u).space.hi] == at && at > 0 && Unowned(heap.mem, at)
      ensures ok ==> |heap.stack| >= 1 && arr == Top(heap.Snap(), 0)
      ensures !ok ==> LiveBytes(old(u)) + Aligned(size) >= SEGMENT
    {
      hide HeapState.Sound, Simulation.Sim, HeapState.Live, SoundSteps.LayoutOk, SimulationGc.Unbounded;
      RegisterSameLive(u);
      RegisterTop();
      at, ok := Allocate(o, size);
      if ok {
        RegisteredIsTop(u, heap.Snap(), ren);
        arr := heap.locals[0];
        UnregisterTop();
      } else {
        arr := Null;
      }
    }

    method RegisterTop()
      requires Valid() && |u.stack| >= 1 && IsArr(u.mem, Top(u, 0))
      modifies heap`locals, `u
      ensures Valid() && u == Register(old(u), Top(old(u), 0))
    {
      hide HeapState.Sound, Simulation.Sim, SoundSteps.LayoutOk, SimulationGc.Unbounded;
      SimTopObj(u, heap.Snap(), ren, 0);
      var arr := heap.stack[|heap.stack| - 1];
      RegisterBoth(e, u, heap.Snap(), ren, Top(u, 0), arr);
      heap.locals := [arr, arr] + heap.locals;
      u := Register(u, Top(u, 0));
    }

    method UnregisterTop()
      requires Valid() && |u.locals| >= 2 && |u.stack| >= 1 && u.locals[0] == Top(u, 0)
      requires |heap.locals| >= 2
      modifies heap`locals, `u
      ensures Valid() && u == Unregister(old(u))
      ensures |heap.stack| >= 1 && old(heap.locals)[0] == Top(heap.Snap(), 0)
    {
      hide HeapState.Sound, Simulation.Sim, SoundSteps.LayoutOk, SimulationGc.Unbounded;
      RegisteredIsTop(u, heap.Snap(), ren);
      UnregisterBoth(e, u, heap.Snap(), ren);
      heap.locals := heap.locals[2..];
      u := Unregister(u);
    }

    // ----- before the program starts --------------------------------------------------

    /** The elements are stored in the block one by one. */
    method FillBlock(b: int, words: seq<Word>)
      requires b in heap.mem && heap.mem[b].ArrObjs? && |heap.mem[b].slots| == |words| == heap.mem[b].len == heap.mem[b].cap
      modifies heap`mem
      ensures heap.mem == old(heap.mem)[b := ArrObjs(|words|, |words|, words)]
    {
      ghost var was := heap.mem[b].slots;
      var i := 0;
      while i < |words|
        invariant 0 <= i <= |words| && b in heap.mem && heap.mem == old(heap.mem)[b := heap.mem[b]]
        invariant heap.mem[b] == ArrObjs(|words|, |words|, words[..i] + was[i..])
      {
        heap.mem := heap.mem[b := heap.mem[b].(slots := heap.mem[b].slots[i := words[i]])];
        OneStored(words, was, i);
        i := i + 1;
      }
      AllStored(words, was);
    }

    /** An array of the constant table gets its block, which becomes a root. */
    method InitConstArray(c: int, words: seq<Word>) returns (ok: bool)
      requires Valid() && ConstantArrays.Pending(u, c, words)
      modifies heap, `u, `ren
      ensures ok ==> Valid() && u == ConstantArrays.WithBlock(
                                       AllocFresh(old(u), ConstantArrays.Block(e, |words|), ConstantArrays.BlockSize(|words|)),
                                       c, old(u).space.hi, words)
      ensures !ok ==> LiveBytes(old(u)) + Aligned(ConstantArrays.BlockSize(|words|)) >= SEGMENT
    {
      hide HeapState.Sound, Simulation.Sim, HeapState.Live, HeapState.Blank, SoundSteps.Unowned, ConstantArrays.WithBlock,
           HeapLayout.Laid, SoundSteps.LayoutOk, SimulationGc.Unbounded, LiveBytes, End;
      ghost var u0 := u;
      ConstantArrays.BlankBlock(e, u, |words|);
      var o := ConstantArrays.Block(e, |words|);
      var b;
      b, ok := Allocate(o, ConstantArrays.BlockSize(|words|));
      if !ok { return; }
      ghost var g, a := heap.Snap(), u0.space.hi;
      ConstantArrays.Allocated(e, u0, o, ConstantArrays.BlockSize(|words|), c, words);
      ConstantArrays.InBoth(u, g, ren, c, a, words);
      UnboundedApart(u);
      ConstantArrays.WithBlockSound(u, c, a, words);
      ConstantArrays.WithBlockSound(g, c, b, words);
      ConstantArrays.WithBlockLayout(e, u, c, a, words);
      ConstantArrays.WithBlockLayout(e, g, c, b, words);
      ConstantArrays.WithBlockBoth(u, g, ren, c, a, words);
      FillBlock(b, words);
      heap.mem := heap.mem[c := Arr(heap.mem[c].cls, |words|, |words|, b + HDR)];
      heap.constArrs := [c] + heap.constArrs;
      ConstantArrays.WithBlockIs(g, c, b, words);
      ConstantArrays.WithBlockSizes(g, c, b, words);
      LaidStays(g.mem, heap.mem, SpaceAt(heap.toBase), heap.free);
      u := ConstantArrays.WithBlock(u, c, a, words);
    }

    /** One turn of the dispatch loop.  It does what the unbounded machine does,
        unless the live objects and the new one do not fit in a semispace. */
    method Step(op: Op) returns (r: Status)
      requires Valid()
      modifies this, heap
      ensures r.Going? ==>
        Valid() && StepUnbounded(e, old(u), op).Ran? && u == StepUnbounded(e, old(u), op).s
        && output == old(output) + StepUnbounded(e, old(u), op).out
      ensures r.Stopped? ==> StepUnbounded(e, old(u), op).Halted? && output == old(output)
      ensures r.OutOfMemory? ==> !Fits(e, old(u), op) && output == old(output)
    {
      hide HeapState.Sound, Simulation.Sim, HeapState.Live, HeapState.Blank, SoundSteps.Pending, Instructions.Begin, SoundSteps.SameShape;
      ghost var u0, g0 := u, heap.Snap();
      BegunBoth(e, u, g0, ren, op);
      PendingIn(e, u, op);
      var want := Dispatch(op);
      if want.Halt? {
        return Stopped;
      }
      StillValid();
      u := Begin(e, u0, op).s;
      if want.Written? {
        output := output + want.out;
        return Going;
      }
      var at, ok, arr := AllocateFor(op, want.o, want.size);
      if !ok {
        return OutOfMemory;
      }
      ghost var a := Begin(e, u0, op).s.space.hi;
      FinishedBoth(e, u, heap.Snap(), ren, op, a, at, want.k);
      label Allocated:
      Complete(op, at, want.k, arr);
      StillValid@Allocated();
      u := Instructions.Finish(u, op, a, want.k);
      r := Going;
    }

    /** A whole program: the same output as on the unbounded heap, up to the end or
        to the same failing instruction, unless some allocation did not fit. */
    method Run(ops: seq<Op>) returns (r: Status)
      requires Valid()
      modifies this, heap
      ensures r.Going? ==>
        Valid() && RunUnbounded(e, old(u), ops).Ran? && u == RunUnbounded(e, old(u), ops).s
      ensures !r.OutOfMemory? ==> output == old(output) + RunUnbounded(e, old(u), ops).out
      ensures r.Stopped? ==> RunUnbounded(e, old(u), ops).Halted?
      ensures r.OutOfMemory? ==> !FitsThroughout(e, old(u), ops)
    {
      hide HeapState.Sound, Simulation.Sim, Instructions.Begin, HeapState.Live, Instructions.StepUnbounded;
      hide Instructions.RunUnbounded, FitsThroughout, Fits;
      var i := 0;
      ghost var u0 := u;
      ghost var out0 := output;
      ghost var written: seq<Output> := [];
      assert ops[0..] == ops;
      assert After([], RunUnbounded(e, u, ops)) == RunUnbounded(e, u, ops);
      while i < |ops|
        invariant 0 <= i <= |ops| && Valid() && output == out0 + written
        invariant RunUnbounded(e, u0, ops) == After(written, RunUnbounded(e, u, ops[i..]))
        invariant FitsThroughout(e, u0, ops) ==> FitsThroughout(e, u, ops[i..])
      {
        ghost var v := u;
        RunNext(e, v, ops[i..], written);
        assert ops[i..][0] == ops[i] && ops[i..][1..] == ops[i + 1..];
        r := Step(ops[i]);
        if !r.Going? { return; }
        written := written + StepUnbounded(e, v, ops[i]).out;
        i := i + 1;
      }
      RunNothing(e, u);
      assert ops[i..] == [];
      r := Going;
    }

    /** IFNJ: pops the condition and tells whether to jump, or that it is none. */
    method Branch() returns (jumps: Option<bool>)
      requires Valid()
      modifies heap`stack, `u
      ensures jumps == Programs.Jumps(old(u))
      ensures jumps.Some? ==> Valid() && |old(u).stack| >= 1 && u == Drop(old(u), 1)
      ensures jumps.None? ==> u == old(u)
    {
      hide HeapState.Sound, Simulation.Sim;
      Programs.BranchBoth(e, u, heap.Snap(), ren);
      if |heap.stack| < 1 { return None; }
      var w := heap.stack[|heap.stack| - 1];
      var zero;
      if IsInt(heap.mem, w) {
        zero := IntVal(heap.mem, w) == 0;
      } else if w.Ptr? && w.at in heap.mem && heap.mem[w.at].Nil? {
        zero := true;
      } else {
        return None;
      }
      var popped := Pop();
      StillValid();
      u := Drop(u, 1);
      jumps := Some(zero);
    }

    /** One turn of the dispatch loop at `ip`, jumps included. */
    method Turn(prog: seq<Programs.Instr>, ip: nat) returns (r: Status, next: nat)
      requires Valid()
      modifies this, heap
      ensures var t := Programs.Turn(e, old(u), ip, prog);
              && (r.Going? ==> Valid() && t.At? && t.s == u && t.ip == next && output == old(output) + t.out)
              && (r.Stopped? ==> t.Failed? && output == old(output))
              && (r.OutOfMemory? ==> ip < |prog| && prog[ip].Do? && !Fits(e, old(u), prog[ip].op) && output == old(output))
    {
      hide HeapState.Sound, Simulation.Sim, Instructions.Begin, HeapState.Live, Instructions.StepUnbounded, Fits, Programs.Jumps;
      next := ip + 1;
      if ip >= |prog| { return Stopped, next; }
      match prog[ip] {
        case Jump(target) =>
          return Going, target;
        case JumpUnless(target) =>
          var j := Branch();
          if j.None? { return Stopped, next; }
          return Going, if j.value then target else next;
        case Do(op) =>
          r := Step(op);
      }
    }

    /** Any number of turns of a program with jumps: the same output, up to the same place or
        the same failing instruction, as on the unbounded heap, unless some allocation on the
        way does not fit. */
    method RunProgram(prog: seq<Programs.Instr>, start: nat, n: nat) returns (r: Status, ip: nat)
      requires Valid()
      modifies this, heap
      ensures r.Going? ==>
        var t := Programs.Turns(e, old(u), start, prog, n); Valid() && t.At? && t.s == u && t.ip == ip
      ensures !r.OutOfMemory? ==> output == old(output) + Programs.Turns(e, old(u), start, prog, n).out
      ensures r.Stopped? ==> Programs.Turns(e, old(u), start, prog, n).Failed?
      ensures r.OutOfMemory? ==> !FitsAlong(e, old(u), start, prog, n)
    {
      hide HeapState.Sound, Simulation.Sim, HeapState.Live, Programs.Turn, Programs.Turns, FitsAlong, Fits;
      var i := 0;
      ip := start;
      ghost var u0, out0 := u, output;
      ghost var written: seq<Output> := [];
      Programs.TurnsStart(e, u, ip, prog, n);
      while i < n
        invariant 0 <= i <= n && Valid() && output == out0 + written
        invariant Programs.Turns(e, u0, start, prog, n) == Programs.Behind(written, Programs.Turns(e, u, ip, prog, n - i))
        invariant FitsAlong(e, u0, start, prog, n) ==> FitsAlong(e, u, ip, prog, n - i)
      {
        ghost var v, k := u, ip;
        Programs.TurnsNext(e, v, k, prog, n - i, written);
        AlongNext(e, v, k, prog, n - i);
        r, ip := Turn(prog, ip);
        if !r.Going? { return; }
        written := written + Programs.Turn(e, v, k, prog).out;
        i := i + 1;
      }
      Programs.TurnsStart(e, u, ip, prog, n);
      r := Going;
    }
  }

  /** Every allocation of the first `n` turns fits. */
  ghost predicate FitsAlong(e: Layout, u: State, ip: nat, prog: seq<Programs.Instr>, n: nat)
    decreases n
  {
    n == 0 || ip >= |prog| ||
    ((prog[ip].Do? ==> Fits(e, u, prog[ip].op)) && match Programs.Turn(e, u, ip, prog)
                                                   case Failed(_) => true
                                                   case At(v, k, _) => FitsAlong(e, v, k, prog, n - 1))
  }

  lemma AlongNext(e: Layout, u: State, ip: nat, prog: seq<Programs.Instr>, n: nat)
    requires n > 0
    ensures var t := Programs.Turn(e, u, ip, prog);
            FitsAlong(e, u, ip, prog, n) ==>
              (ip < |prog| && prog[ip].Do? ==> Fits(e, u, prog[ip].op))
              && (t.At? ==> FitsAlong(e, t.s, t.ip, prog, n - 1))
  {
    hide Fits, Instructions.StepUnbounded, Programs.Jumps;
  }

  lemma RunNothing(e: Layout, u: State)
    ensures RunUnbounded(e, u, []) == Ran(u, [])
  {
  }

  /** Unrolling a run by one instruction. */
  lemma RunNext(e: Layout, u: State, ops: seq<Op>, written: seq<Output>)
    requires ops != []
    ensures var s := StepUnbounded(e, u, ops[0]);
      && (s.Halted? ==> After(written, RunUnbounded(e, u, ops)) == Halted(written))
      && (s.Ran? ==> After(written, RunUnbounded(e, u, ops)) == After(written + s.out, RunUnbounded(e, s.s, ops[1..]))
                     && (FitsThroughout(e, u, ops) ==> FitsThroughout(e, s.s, ops[1..])))
    ensures FitsThroughout(e, u, ops) ==> Fits(e, u, ops[0])
  {
    hide Instructions.Begin, Fits;
    var s := StepUnbounded(e, u, ops[0]);
    if s.Halted? {
      HaltedSilently(e, u, ops[0]);
    } else {
      var r := RunUnbounded(e, s.s, ops[1..]);
      assert written + (s.out + r.out) == (written + s.out) + r.out;
    }
  }

  lemma HaltedSilently(e: Layout, u: State, op: Op)
    ensures StepUnbounded(e, u, op).Halted? ==> StepUnbounded(e, u, op).out == []
  {
  }

  ghost predicate FitsThroughout(e: Layout, u: State, ops: seq<Op>)
    decreases |ops|
  {
    ops == [] ||
    (Fits(e, u, ops[0]) && match StepUnbounded(e, u, ops[0])
                           case Halted(_) => true
                           case Ran(v, _) => FitsThroughout(e, v, ops[1..]))
  }

  /** The live objects, once copied, leave room for what the instruction allocates. */
  ghost predicate Fits(e: Layout, u: State, op: Op) {
    var b := Begin(e, u, op);
    b.Allocate? ==> LiveBytes(b.s) + Aligned(b.size) < SEGMENT
  }

  /** A growing array is on top of the stack when its block is allocated. */
  lemma PendingIn(e: Layout, u: State, op: Op)
    requires UnboundedOk(e, u)
    ensures Begin(e, u, op).Allocate? && op.Idxa? ==>
      |Begin(e, u, op).s.stack| >= 1 && IsArr(Begin(e, u, op).s.mem, Top(Begin(e, u, op).s, 0))
    ensures Begin(e, u, op).Allocate? ==>
      var b := Begin(e, u, op); Pending(AllocFresh(b.s, b.o, b.size), op, b.s.space.hi, b.k)
  {
    hide *;
    if Begin(e, u, op).Allocate? {
      PendingUnbounded(e, u, op);
      if op.Idxa? { GrowingTop(e, u); }
    }
  }

  /** A slot that is there without two words of the stack is the same with them. */
  lemma ReadBelow(s: State, slot: Slot)
    requires |s.stack| >= 2 && SlotThere(Drop(s, 2), slot)
    ensures SlotThere(s, slot) && ReadSlot(s, slot) == ReadSlot(Drop(s, 2), slot)
  {
  }

  lemma OneStored(words: seq<Word>, was: seq<Word>, i: nat)
    requires i < |words| == |was|
    ensures words[..i + 1] + was[i + 1..] == (words[..i] + was[i..])[i := words[i]]
  {
  }

  lemma AllStored(words: seq<Word>, was: seq<Word>)
    requires |words| == |was|
    ensures words[..|words|] + was[|words|..] == words
  {
  }

  /** The array that IDXA lets grow stays on the stack. */
  lemma GrowingTop(e: Layout, u: State)
    requires Begin(e, u, Idxa).Allocate?
    ensures |Begin(e, u, Idxa).s.stack| >= 1 && IsArr(Begin(e, u, Idxa).s.mem, Top(Begin(e, u, Idxa).s, 0))
  {
  }

  lemma LiveBytesNatural(s: State)
    requires Sound(s)
    ensures LiveBytes(s) >= 0
  {
    HeapSizesPositive(s.mem, s.space);
    BytesMonotone(s.mem, {}, Live(s));
  }
}
