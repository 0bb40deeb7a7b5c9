/** The instructions of the dispatch loop (vm/vm.c) that read, write and allocate
    objects, on a heap state.  An instruction that allocates is cut in two at the
    allocation: `Begin` up to it, `Finish` after it.  The same two functions serve
    the machine with the copying collector and the one with an unbounded heap. */
module Instructions {
  import opened Basics
  import opened KekObjects
  import opened HeapState

  datatype Output = OutInt(value: int) | OutChar(code: int) | OutText(text: string)

  /** Where things are that never move: the stack object, the static variables,
      nil, and the frame pointer of the running method. */
  datatype Layout = Layout(stackAt: int, staticsAt: int, nilAt: int, fp: nat)

  datatype Op =
    | LvbiC(at: int) | LvbiLoc(i: nat) | LabiLoc(i: nat) | LvbiCv(k: nat) | LabiCv(k: nat)
    | LvbsIve(i: nat) | LabsIve(i: nat)
    | Dup | Dr | St | Idx | Idxa | PopTop | Wrt | Equal | Minus
    | NewUdo(cls: int, count: nat, off: nat) | NewArr(cls: int) | InitArr

  datatype Begun =
    | Stuck
    | Done(s: State, out: seq<Output>)
    | Allocate(s: State, o: Obj, size: int, k: int)

  const STACK_SIZE := 4096
  const STACK_HDR := 24
  const UDO_SIZE := 40
  const INT_MIN := -0x8000_0000
  const INT_MAX := 0x7fff_ffff

  // ----- tagged words (vm/types.h) ------------------------------------------------

  function MakeSmallInt(v: nat): Word { Imm(2 * v + 1) }
  function MakeChar(c: char): Word { Imm(4 * (c as int) + 2) }
  function MakeDptr(obj: int, addr: int): Word { Imm(addr - obj + 3) }

  predicate IsInt(m: Mem, w: Word) {
    (w.Imm? && w.bits % 2 == 1) || (w.Ptr? && w.at in m && m[w.at].Int?)
  }

  function IntVal(m: Mem, w: Word): int
    requires IsInt(m, w)
  {
    if w.Imm? then w.bits / 2 else m[w.at].value
  }

  predicate IsChar(w: Word) { w.Imm? && w.bits % 4 == 2 }

  predicate IsArr(m: Mem, w: Word) { w.Ptr? && w.at in m && m[w.at].Arr? }

  /** The text a string or a character compares as. */
  function TextOf(m: Mem, w: Word): Option<seq<int>> {
    if IsChar(w) then Some([w.bits / 4])
    else if w.Ptr? && w.at in m && m[w.at].Str? then
      Some(seq(|m[w.at].text|, i requires 0 <= i < |m[w.at].text| => m[w.at].text[i] as int))
    else None
  }

  // ----- base/offset references ---------------------------------------------------

  datatype Slot = OnStack(i: nat) | InStatics(k: nat) | InObject(at: int, j: nat)

  /** DPTR_VAL: the slot at a base plus an offset, when there is one. */
  function Resolve(e: Layout, s: State, base: Word, off: Word): Option<Slot> {
    if !off.Imm? then None
    else
      var d := off.bits - 3;
      match base
      case Imm(_) => None
      case Null =>
        var n := d - e.staticsAt;
        if 0 <= n && n % WORD == 0 && n / WORD < |s.statics| then Some(InStatics(n / WORD)) else None
      case Ptr(at) =>
        if at !in s.mem then None
        else if s.mem[at].StackHeader? then
          var n := d - STACK_HDR;
          if 0 <= n && n % WORD == 0 && n / WORD < |s.stack| then Some(OnStack(n / WORD)) else None
        else
          var n := d - HDR;
          if !s.mem[at].Expt? && s.space.Has(at) && 0 <= n && n % WORD == 0
             && n / WORD < Traced(s.mem[at]) && n / WORD < |Slots(s.mem[at])|
          then Some(InObject(at, n / WORD)) else None
  }

  predicate SlotThere(s: State, slot: Slot) {
    match slot
    case OnStack(i) => i < |s.stack|
    case InStatics(k) => k < |s.statics|
    case InObject(at, j) => at in s.mem && s.space.Has(at) && j < |Slots(s.mem[at])| && j < Traced(s.mem[at])
  }

  function ReadSlot(s: State, slot: Slot): Word
    requires SlotThere(s, slot)
  {
    match slot
    case OnStack(i) => s.stack[i]
    case InStatics(k) => s.statics[k]
    case InObject(at, j) => Slots(s.mem[at])[j]
  }

  function WriteSlot(s: State, slot: Slot, w: Word): State
    requires SlotThere(s, slot)
  {
    match slot
    case OnStack(i) => s.(stack := s.stack[i := w])
    case InStatics(k) => s.(statics := s.statics[k := w])
    case InObject(at, j) => s.(mem := s.mem[at := WithSlots(s.mem[at], Slots(s.mem[at])[j := w])])
  }

  // ----- stack helpers --------------------------------------------------------------

  function Push(s: State, w: Word): State { s.(stack := s.stack + [w]) }
  function Drop(s: State, n: nat): State
    requires n <= |s.stack|
  {
    s.(stack := s.stack[..|s.stack| - n])
  }
  function Top(s: State, n: nat): Word
    requires n < |s.stack|
  {
    s.stack[|s.stack| - 1 - n]
  }
  predicate Room(s: State, n: nat) { |s.stack| + n <= STACK_SIZE }

  // ----- arrays -----------------------------------------------------------------------

  function Nils(e: Layout, n: nat): seq<Word> { seq(n, i => Ptr(e.nilAt)) }

  function Nulls(n: nat): seq<Word> { seq(n, i => Null) }

  /** arr_set_length, on an array that has a block. */
  function SetLength(s: State, a: int, n: int): State
    requires a in s.mem && s.mem[a].Arr? && BlockOf(s.mem[a].elems) in s.mem
    requires s.mem[BlockOf(s.mem[a].elems)].ArrObjs?
  {
    var b := BlockOf(s.mem[a].elems);
    s.(mem := s.mem[a := s.mem[a].(length := n)][b := s.mem[b].(len := n)])
  }

  /** The rest of native_grow_array once the new block is at `b`: the elements are
      copied over and the array gets the block and the length `n`. */
  function GrowInto(s: State, a: int, b: int, n: int): State {
    if a in s.mem && s.mem[a].Arr? && b in s.mem && s.mem[b].ArrObjs?
       && BlockOf(s.mem[a].elems) in s.mem && s.mem[BlockOf(s.mem[a].elems)].ArrObjs?
    then
      var arr := s.mem[a];
      var was := s.mem[BlockOf(arr.elems)];
      var new_ := s.mem[b];
      var slots := seq(|new_.slots|, i requires 0 <= i < |new_.slots| =>
                     if i < arr.length && i < |was.slots| then was.slots[i] else new_.slots[i]);
      s.(mem := s.mem[b := ArrObjs(n, new_.cap, slots)][a := Arr(arr.cls, n, new_.cap, b + HDR)])
    else s
  }

  // ----- one instruction ----------------------------------------------------------------

  function Begin(e: Layout, s: State, op: Op): Begun {
    match op
    case LvbiC(at) =>
      if s.consts.Has(at) && at in s.mem && Room(s, 1) then Done(Push(s, Ptr(at)), []) else Stuck
    case LvbiLoc(i) =>
      if e.fp + 1 + i < |s.stack| && Room(s, 1) then Done(Push(s, s.stack[e.fp + 1 + i]), []) else Stuck
    case LabiLoc(i) =>
      if e.fp + 1 + i < |s.stack| && Room(s, 2) && e.stackAt in s.mem && s.mem[e.stackAt].StackHeader? then
        Done(Push(Push(s, Ptr(e.stackAt)),
                  MakeDptr(e.stackAt, e.stackAt + STACK_HDR + (e.fp + 1 + i) * WORD)), [])
      else Stuck
    case LvbiCv(k) =>
      if k < |s.statics| && Room(s, 1) then Done(Push(s, s.statics[k]), []) else Stuck
    case LabiCv(k) =>
      if k < |s.statics| && Room(s, 2) then
        Done(Push(Push(s, Null), MakeDptr(0, e.staticsAt + k * WORD)), [])
      else Stuck
    case LvbsIve(i) => BeginField(s, i, true)
    case LabsIve(i) => BeginField(s, i, false)
    case Dup =>
      if 2 <= |s.stack| && Room(s, 2) then Done(Push(Push(s, Top(s, 1)), Top(s, 0)), []) else Stuck
    case Dr =>
      if |s.stack| < 2 then Stuck else
      (match Resolve(e, Drop(s, 2), Top(s, 1), Top(s, 0))
       case None => Stuck
       case Some(slot) => if SlotThere(Drop(s, 2), slot) then Done(Push(Drop(s, 2), ReadSlot(s, slot)), []) else Stuck)
    case St => BeginStore(e, s)
    case Idx => BeginIndex(s)
    case Idxa => BeginIndexAddr(e, s)
    case PopTop => if |s.stack| < 1 then Stuck else Done(Drop(s, 1), [])
    case Wrt => if |s.stack| < 1 then Stuck else BeginWrite(s)
    case Equal => if |s.stack| < 2 then Stuck else BeginEqual(s)
    case Minus => BeginMinus(s)
    case NewUdo(cls, count, off) =>  // asks for a whole object a variable; copying charges a word
      if Room(s, 1) then
        Allocate(s, Udo(cls, off, Nulls(count)), UDO_SIZE + (if count > 0 then count - 1 else 0) * OBJ_SIZE, 0)
      else Stuck
    case NewArr(cls) =>
      if Room(s, 1) then Allocate(s, Arr(cls, 0, 0, 0), ARR_SIZE, 0) else Stuck
    case InitArr =>
      if 1 <= |s.stack| && IsArr(s.mem, Top(s, 0)) && s.space.Has(Top(s, 0).at) then
        Allocate(s, ArrObjs(0, ARR_INIT_SIZE, Nils(e, ARR_INIT_SIZE)), HDR + ARR_INIT_SIZE * WORD, 0)
      else Stuck
  }

  /** LVBS_IVE and LABS_IVE, the member's address already found. */
  function BeginField(s: State, i: nat, value: bool): Begun {
    if |s.stack| < 1 || !Top(s, 0).Ptr? || Top(s, 0).at !in s.mem || !Room(s, 1) then Stuck
    else
      var at := Top(s, 0).at;
      if !s.mem[at].Udo? || !s.space.Has(at) then Stuck
      else
        var j := i + s.mem[at].varOffset;
        if !(0 <= j < |s.mem[at].vars|) then Stuck
        else if value then Done(Push(Drop(s, 1), s.mem[at].vars[j]), [])
        else Done(Push(s, MakeDptr(at, at + HDR + j * WORD)), [])
  }

  /** ST.  Class and stack references are only ever stored on the stack. */
  function BeginStore(e: Layout, s: State): Begun {
    if |s.stack| < 3 then Stuck
    else
      var w := Top(s, 0);
      var t := Drop(s, 3);
      if w == Null then Stuck
      else match Resolve(e, t, Top(s, 2), Top(s, 1))
        case None => Stuck
        case Some(slot) =>
          if !SlotThere(t, slot) then Stuck
          else if !slot.OnStack? && w.Ptr? && (w.at !in s.mem || s.mem[w.at].Class? || s.mem[w.at].StackHeader?) then Stuck
          else Done(WriteSlot(t, slot, w), [])
  }

  function BeginIndex(s: State): Begun {
    if |s.stack| < 2 || !IsInt(s.mem, Top(s, 0)) || !Top(s, 1).Ptr? || Top(s, 1).at !in s.mem then Stuck
    else
      var n := IntVal(s.mem, Top(s, 0));
      var o := s.mem[Top(s, 1).at];
      if n < 0 then Stuck
      else if o.Arr? then
        var b := BlockOf(o.elems);
        if n < o.length && o.elems != 0 && b in s.mem && s.mem[b].ArrObjs? && n < |s.mem[b].slots| && n < s.mem[b].len
        then Done(Push(Drop(s, 2), s.mem[b].slots[n]), []) else Stuck
      else if o.Str? && n < |o.text| then Done(Push(Drop(s, 2), MakeChar(o.text[n])), [])
      else Stuck
  }

  function BeginIndexAddr(e: Layout, s: State): Begun {
    if |s.stack| < 2 || !IsInt(s.mem, Top(s, 0)) || !IsArr(s.mem, Top(s, 1)) then Stuck
    else
      var n := IntVal(s.mem, Top(s, 0));
      var a := Top(s, 1).at;
      var arr := s.mem[a];
      var b := BlockOf(arr.elems);
      if n < 0 || arr.elems == 0 || b !in s.mem || !s.mem[b].ArrObjs? || arr.length < 0 then Stuck
      else if n >= arr.allocSize then
        // growth by half never leaves capacity 1
        if arr.allocSize < 2 then Stuck
        else
          var cap := Grown(arr.allocSize, n + 1);
          Allocate(Drop(s, 1), ArrObjs(arr.length, cap, Nils(e, cap)), HDR + cap * WORD, n)
      else
        var t := if n >= arr.length then SetLength(Drop(s, 1), a, n + 1) else Drop(s, 1);
        Done(PushElemAddr(t, b, n), [])
  }

  /** The array reference on top is replaced by the address of element `n`. */
  function PushElemAddr(s: State, b: int, n: int): State {
    if |s.stack| < 1 then s
    else Push(Push(Drop(s, 1), Ptr(b)), MakeDptr(b, b + HDR + n * WORD))
  }

  function BeginWrite(s: State): Begun
    requires |s.stack| >= 1
  {
    var w := Top(s, 0);
    if IsChar(w) then Done(Drop(s, 1), [OutChar(w.bits / 4)])
    else if IsInt(s.mem, w) then Done(Drop(s, 1), [OutInt(IntVal(s.mem, w))])
    else if w.Ptr? && w.at in s.mem && s.mem[w.at].Str? then Done(Drop(s, 1), [OutText(s.mem[w.at].text)])
    else Stuck
  }

  /** BOP Eq: integers, texts and symbols by value, everything else by identity. */
  function BeginEqual(s: State): Begun
    requires |s.stack| >= 2
  {
    var a, b := Top(s, 1), Top(s, 0);
    if a == Null || b == Null then Stuck
    else
      var r :=
        if IsInt(s.mem, a) && IsInt(s.mem, b) then IntVal(s.mem, a) == IntVal(s.mem, b)
        else if TextOf(s.mem, a).Some? && TextOf(s.mem, b).Some? then TextOf(s.mem, a) == TextOf(s.mem, b)
        else if a.Ptr? && b.Ptr? && a.at in s.mem && b.at in s.mem && s.mem[a.at].Sym? && s.mem[b.at].Sym?
          then s.mem[a.at].name == s.mem[b.at].name
        else a == b;
      Done(Push(Drop(s, 2), MakeSmallInt(if r then 1 else 0)), [])
  }

  /** BOP Minus on integers; make_integer allocates for a negative result. */
  function BeginMinus(s: State): Begun {
    if |s.stack| < 2 || !IsInt(s.mem, Top(s, 1)) || !IsInt(s.mem, Top(s, 0)) then Stuck
    else
      var r := IntVal(s.mem, Top(s, 1)) - IntVal(s.mem, Top(s, 0));
      if !(INT_MIN <= r <= INT_MAX) then Stuck
      else if r >= 0 then Done(Push(Drop(s, 2), MakeSmallInt(r)), [])
      else Allocate(Drop(s, 2), Int(r), INT_SIZE, 0)
  }

  /** The rest of an instruction once the object it asked for is at `at`. */
  function Finish(s: State, op: Op, at: int, k: int): State {
    match op
    case InitArr =>
      if |s.stack| >= 1 && IsArr(s.mem, Top(s, 0)) then
        var a := Top(s, 0).at;
        s.(mem := s.mem[a := Arr(s.mem[a].cls, 0, ARR_INIT_SIZE, at + HDR)])
      else s
    case Idxa =>
      if |s.stack| >= 1 && IsArr(s.mem, Top(s, 0)) then
        PushElemAddr(GrowInto(s, Top(s, 0).at, at, k + 1), at, k)
      else s
    case _ => Push(s, Ptr(at))
  }

  // ----- the machine with an unbounded heap ---------------------------------------------

  function AllocFresh(s: State, o: Obj, size: int): State {
    s.(mem := s.mem[s.space.hi := o],
       space := s.space.(hi := s.space.hi + Aligned(size)))
  }

  /** How far a program got, and what it had written by then. */
  datatype Ran = Halted(out: seq<Output>) | Ran(s: State, out: seq<Output>)

  function StepUnbounded(e: Layout, u: State, op: Op): Ran {
    match Begin(e, u, op)
    case Stuck => Halted([])
    case Done(s, out) => Ran(s, out)
    case Allocate(s, o, size, k) => Ran(Finish(AllocFresh(s, o, size), op, s.space.hi, k), [])
  }

  function RunUnbounded(e: Layout, u: State, ops: seq<Op>): Ran
    decreases |ops|
  {
    if ops == [] then Ran(u, [])
    else match StepUnbounded(e, u, ops[0])
      case Halted(out) => Halted(out)
      case Ran(v, out) => After(out, RunUnbounded(e, v, ops[1..]))
  }

  function After(out: seq<Output>, r: Ran): Ran { r.(out := out + r.out) }
}
