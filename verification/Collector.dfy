/** The copying collector of vm/memory.c in its default mode (new space only):
    two semispaces, bump allocation, forwarding headers, and a scan pointer that
    chases the free pointer. */
module Cheney {
  import opened KekObjects
  import opened HeapGraph
  import opened CopyLedger
  import opened HeapState
  import opened HeapLayout

  function SpaceAt(base: int): Region { Region(base, base + SEGMENT) }

  class Heap {
    const constTable: Region
    var mem: Mem
    var fromBase: int
    var toBase: int
    var free: int
    var scan: int

    // The roots: static variables, registered local variables, the array objects
    // of the constant table, and the virtual machine's stack below sp.
    var statics: seq<Word>
    var locals: seq<Word>
    var constArrs: seq<int>
    var stack: seq<Word>

    ghost var led: Ledger
    /** The object that no longer fitted, when a scavenge fails. */
    ghost var stuck: int

    // ----- what holds between scavenges --------------------------------------

    predicate IsConst(a: int) { constTable.Has(a) }

    ghost function Snap(): State
      reads this
    {
      State(mem, SpaceAt(toBase), constTable, statics, locals, constArrs, stack)
    }

    ghost predicate SpacesApart()
      reads `fromBase, `toBase
    {
      && 0 < fromBase && 0 < toBase && Apart(SpaceAt(fromBase), SpaceAt(toBase))
      && Apart(constTable, SpaceAt(fromBase)) && Apart(constTable, SpaceAt(toBase))
    }

    ghost predicate Valid()
      reads this
    {
      && SpacesApart() && Sound(Snap())
      && Vacant(mem, SpaceAt(fromBase))
      && Vacant(mem, Region(free, toBase + SEGMENT))
      && toBase <= free < toBase + SEGMENT
      && Laid(mem, SpaceAt(toBase), free)
    }

    /** gc_cheney_init, with the constant table, classes and stack object in place. */
    constructor (consts: Region, outside: Mem, from: int, to: int, words: seq<Word>, vars: seq<Word>)
      requires 0 < from && 0 < to && Apart(SpaceAt(from), SpaceAt(to))
      requires Apart(consts, SpaceAt(from)) && Apart(consts, SpaceAt(to))
      requires Vacant(outside, SpaceAt(from)) && Vacant(outside, SpaceAt(to))
      requires Placed(outside, SpaceAt(to), consts)
      requires forall a :: a in outside ==> !outside[a].Copied? && Slots(outside[a]) == [] && !outside[a].ArrObjs?
      requires forall a :: a in outside && outside[a].Arr? ==> outside[a].elems == 0
      requires forall w :: w in words && w.Ptr? ==> w.at in outside
      requires forall w :: w in vars ==> Plain(outside, w)
      ensures Valid() && Snap() == State(outside, SpaceAt(to), consts, vars, [], [], words)
    {
      constTable, mem, fromBase, toBase, free, scan := consts, outside, from, to, to, to;
      statics, locals, constArrs, stack := vars, [], [], words;
    }

    // ----- copying one object ------------------------------------------------

    /** A scavenge is under way and the books are in order. */
    ghost predicate Collecting()
      reads this
    {
      && led.base == toBase && led.from == SpaceAt(fromBase) && led.consts == constTable
      && Copying(led, mem, free)
    }

    /** There was a reachable object, not copied yet, with no room left for it. */
    ghost predicate Overflow()
      reads this
    {
      && Collecting()
      && stuck in led.before && led.from.Has(stuck) && stuck !in led.fwd
      && Reach(led.before, led.from, led.roots, stuck)
      && free + CopySize(led.before[stuck]) >= toBase + SEGMENT
    }

    /** gc_cheney_copy_obj_to_space_free */
    method CopyObjToSpaceFree(a: int) returns (to: int, ok: bool)
      requires a in mem
      modifies `mem, `free
      ensures ok <==> old(free) + CopySize(old(mem)[a]) < toBase + SEGMENT
      ensures ok ==> to == old(free) && free == old(free) + CopySize(old(mem)[a])
                     && mem == old(mem)[to := old(mem)[a]]
      ensures !ok ==> mem == old(mem) && free == old(free)
    {
      var size := CopySize(mem[a]);
      to := free;
      if free + size >= toBase + SEGMENT {
        return to, false;
      }
      mem := mem[to := mem[a]];
      free := free + size;
      ok := true;
    }

    /** gc_cheney_copy_root_obj and gc_cheney_copy_neighbor_inner: the new value of
        a slot that holds the address `a`. */
    method Forward(a: int) returns (to: int, ok: bool)
      requires Collecting()
      requires a in led.before && !Unmoved(led.before[a])
      requires led.from.Has(a) ==> Reach(led.before, led.from, led.roots, a)
      modifies `mem, `free, `led, `stuck
      ensures ok ==> Collecting() && Grows(old(led), led, -1)
      ensures ok ==> to == MapAddr(a, led.fwd) && (led.from.Has(a) ==> a in led.fwd)
      ensures ok ==> forall c :: c in old(mem) && !led.from.Has(c) && !SpaceAt(toBase).Has(c) ==>
                       c in mem && mem[c] == old(mem)[c]
      ensures !ok ==> Overflow() && led == old(led)
    {
      hide CopyLedger.Grows, CopyLedger.Copying, Reach, CopyLedger.Append, MapAddr;
      PointerCases(led, mem, free, a);
      if IsConst(a) {
        return a, true;
      }
      if mem[a].Copied? {
        return mem[a].to, true;
      }
      if SpaceAt(toBase).Has(a) {
        assert false;
      }
      FreeIsTo(led, mem, free);
      to, ok := CopyObjToSpaceFree(a);
      if !ok {
        stuck := a;
        return;
      }
      CopyOne(led, old(mem), old(free), a);
      AppendGrows(led, a, to);
      mem := mem[a := Copied(to)];
      led := Append(led, a, to);
    }

    // ----- scanning ------------------------------------------------------------

    /** What the steps of a scan leave alone: memory outside the two spaces. */
    twostate predicate OutsideKept()
      reads this
    {
      forall c :: c in old(mem) && !led.from.Has(c) && !SpaceAt(toBase).Has(c) ==>
        c in mem && mem[c] == old(mem)[c]
    }

    twostate predicate SameScavenge()
      reads `led
    {
      led.before == old(led).before && led.roots == old(led).roots
    }

    /** One turn of a loop of gc_cheney_copy_neighbor: slot `i` of the copy at
        `at`, which is number `n` in the books. */
    method ForwardSlot(at: int, i: int, ghost n: nat) returns (ok: bool)
      requires Collecting() && SlotsDone(led, n, i) && i < Traced(led.before[led.order[n]])
      requires at in mem && led.place[n] == at && 0 <= i < |Slots(mem[at])|
      modifies `mem, `free, `led, `stuck
      ensures ok ==> Collecting() && Grows(old(led), led, n) && SlotsDone(led, n, i + 1) && OutsideKept()
      ensures !ok ==> Overflow() && SameScavenge()
    {
      hide CopyLedger.Grows, CopyLedger.Copying;
      SlotRaw(led, mem, free, n, i);
      ghost var l0 := led;
      var w := Slots(mem[at])[i];
      if !w.Ptr? {
        SlotSkip(led, n, i);
        GrowsReflexive(led, n);
        return true;
      }
      var to;
      to, ok := Forward(w.at);
      if !ok { return; }
      SlotForwarded(l0, led, mem, free, n, i, to);
      var obj := WithSlots(mem[at], Slots(mem[at])[i := Ptr(to)]);
      mem := mem[at := obj];
      led := led.(img := led.img[n := obj]);
    }

    /** The loops of gc_cheney_copy_neighbor over the slots of one copy. */
    method ForwardSlots(at: int, ghost n: nat) returns (ok: bool)
      requires Collecting() && n < |led.order| && led.place[n] == at && led.order[n] in led.before
      requires at in mem && !mem[at].Arr? && led.img[n] == led.before[led.order[n]]
      modifies `mem, `free, `led, `stuck
      ensures ok ==> Collecting() && Grows(old(led), led, n) && Scanned(led, n) && OutsideKept()
      ensures !ok ==> Overflow() && SameScavenge()
    {
      hide CopyLedger.Grows, CopyLedger.Copying;
      CopyAt(led, mem, free, n);
      NoSlotsYet(led, n);
      GrowsReflexive(led, n);
      var count := Traced(mem[at]);
      var i := 0;
      while i < count
        invariant 0 <= i <= count
        invariant Collecting() && Grows(old(led), led, n) && OutsideKept() && SameScavenge()
        invariant SlotsDone(led, n, i) && n < |led.place| && led.place[n] == at && count == Traced(led.before[led.order[n]])
      {
        SlotRaw(led, mem, free, n, i);
        ghost var l1 := led;
        ok := ForwardSlot(at, i, n);
        if !ok { return; }
        GrowsTransitive(old(led), l1, led, n);
        i := i + 1;
      }
      AllSlotsDone(led, n);
      ok := true;
    }

    /** The KEK_ARR case of gc_cheney_copy_neighbor: the interior pointer is turned
        into its block, the block forwarded, and the pointer set inside the copy. */
    method ForwardBlock(at: int, ghost n: nat) returns (ok: bool)
      requires Collecting() && n < |led.order| && led.place[n] == at && led.order[n] in led.before
      requires at in mem && mem[at] == led.img[n] == led.before[led.order[n]]
      requires mem[at].Arr?
      modifies `mem, `free, `led, `stuck
      ensures ok ==> Collecting() && Grows(old(led), led, n) && Scanned(led, n) && OutsideKept()
      ensures !ok ==> Overflow() && SameScavenge()
    {
      hide CopyLedger.Grows, CopyLedger.Copying, Reach;
      if mem[at].elems == 0 {
        CopyAt(led, mem, free, n);
        GrowsReflexive(led, n);
        NothingToScan(led, n);
        return true;
      }
      CopyAt(led, mem, free, n);
      BlockRaw(led, mem, free, n);
      ghost var l0 := led;
      var to;
      to, ok := Forward(BlockOf(mem[at].elems));
      if !ok { return; }
      BlockForwarded(l0, led, mem, free, n, to);
      var obj := mem[at].(elems := to + HDR);
      mem := mem[at := obj];
      led := led.(img := led.img[n := obj]);
    }

    /** gc_cheney_copy_neighbor */
    method CopyNeighbor(at: int, ghost n: nat) returns (ok: bool)
      requires Collecting() && n < |led.order| && led.place[n] == at && led.order[n] in led.before
      requires at in mem && mem[at] == led.img[n] == led.before[led.order[n]]
      modifies `mem, `free, `led, `stuck
      ensures ok ==> Collecting() && Grows(old(led), led, n) && Scanned(led, n) && OutsideKept()
      ensures !ok ==> Overflow() && SameScavenge()
    {
      match mem[at]
      case Arr(_, _, _, _) =>
        ok := ForwardBlock(at, n);
      case ArrObjs(_, _, _) =>
        ok := ForwardSlots(at, n);
      case Expt(_, _) =>
        ok := ForwardSlots(at, n);
      case Udo(_, _, _) =>
        ok := ForwardSlots(at, n);
      case _ =>
        NothingToScan(led, n);
        ok := true;
    }

    /** The loop of gc_cheney_scavenge. */
    method ScanLoop() returns (ok: bool)
      requires Collecting() && scan == toBase && ScannedUpTo(led, 0)
      modifies `mem, `free, `scan, `led, `stuck
      ensures ok ==> Collecting() && ScannedUpTo(led, |led.order|) && OutsideKept()
      ensures ok ==> SameScavenge() && Extends(old(led).fwd, led.fwd)
      ensures !ok ==> Overflow() && SameScavenge()
    {
      hide Reach, Fresh, HeapOk, Outside, Placed, CopyLedger.Scanned;
      ghost var n := 0;
      while scan < free
        invariant Collecting() && ScannedUpTo(led, n) && scan == led.place[n]
        invariant OutsideKept() && Extends(old(led).fwd, led.fwd)
        invariant SameScavenge()
        decreases |led.before| - n
      {
        ghost var l0 := led;
        assert Entry(led, mem, n);
        CopiesBounded(led, mem, free);
        var at := scan;
        scan := scan + CopySize(mem[at]);
        ok := CopyNeighbor(at, n);
        if !ok { return; }
        ScanStep(l0, led, mem, free, n);
        n := n + 1;
      }
      assert n == |led.order|;
      ok := true;
    }

    // ----- the roots -------------------------------------------------------------

    /** Forwarding one root. */
    method ForwardRoot(a: int) returns (to: int, ok: bool)
      requires Collecting() && ScannedUpTo(led, 0)
      requires a in led.before && !Unmoved(led.before[a])
      requires led.from.Has(a) ==> a in led.roots
      modifies `mem, `free, `led, `stuck
      ensures ok ==> Collecting() && ScannedUpTo(led, 0) && OutsideKept() && Grows(old(led), led, -1)
      ensures ok ==> to == MapAddr(a, led.fwd) && (led.from.Has(a) ==> a in led.fwd)
      ensures ok ==> Extends(old(led).fwd, led.fwd) && led.from == old(led).from
      ensures ok ==> forall b :: b in led.fwd ==> led.from.Has(b)
      ensures !ok ==> Overflow() && SameScavenge()
    {
      if led.from.Has(a) { RootReach(led.before, led.from, led.roots, a); }
      to, ok := Forward(a);
      if ok {
        RawStaysRaw(old(led), led);
        ForwardedFromHeap(led, mem, free);
      }
    }

    /** gc_rootset, first loop: the static variables. */
    method CopyStatics() returns (ok: bool)
      requires Collecting() && ScannedUpTo(led, 0) && RootWords(statics, led)
      requires forall i :: 0 <= i < |statics| && statics[i].Ptr? ==> !Unmoved(led.before[statics[i].at])
      modifies `mem, `free, `led, `stuck, `statics
      ensures ok ==> Collecting() && ScannedUpTo(led, 0) && OutsideKept() && Grows(old(led), led, -1)
      ensures ok ==> WordsDone(old(statics), statics, 0, |statics|, led)
      ensures !ok ==> Overflow() && SameScavenge()
    {
      var i := 0;
      ghost var s0 := statics;
      hide CopyLedger.Grows, CopyLedger.Copying;
      GrowsReflexive(led, -1);
      ForwardedFromHeap(led, mem, free);
      while i < |statics|
        invariant 0 <= i <= |statics| == |s0|
        invariant Collecting() && ScannedUpTo(led, 0) && OutsideKept() && Grows(old(led), led, -1)
        invariant WordsDone(s0, statics, 0, i, led) && SameScavenge() && led.from == old(led).from
        invariant forall b :: b in led.fwd ==> led.from.Has(b)
      {
        ghost var l1 := led;
        var w := statics[i];
        if w.Ptr? {
          var to;
          to, ok := ForwardRoot(w.at);
          if !ok { return; }
          w := Ptr(to);
          GrowsTransitive(old(led), l1, led, -1);
        }
        WordDone(s0, statics, i, l1, led, w);
        statics := statics[i := w];
        i := i + 1;
      }
      ok := true;
    }

    /** Second loop: the registered local variables, which are followed unconditionally. */
    method CopyLocals() returns (ok: bool)
      requires Collecting() && ScannedUpTo(led, 0) && RootWords(locals, led)
      requires forall i :: 0 <= i < |locals| ==> locals[i].Ptr? && !Unmoved(led.before[locals[i].at])
      modifies `mem, `free, `led, `stuck, `locals
      ensures ok ==> Collecting() && ScannedUpTo(led, 0) && OutsideKept() && Grows(old(led), led, -1)
      ensures ok ==> WordsDone(old(locals), locals, 0, |locals|, led)
      ensures !ok ==> Overflow() && SameScavenge()
    {
      var i := 0;
      ghost var s0 := locals;
      hide CopyLedger.Grows, CopyLedger.Copying;
      GrowsReflexive(led, -1);
      ForwardedFromHeap(led, mem, free);
      while i < |locals|
        invariant 0 <= i <= |locals| == |s0|
        invariant Collecting() && ScannedUpTo(led, 0) && OutsideKept() && Grows(old(led), led, -1)
        invariant WordsDone(s0, locals, 0, i, led) && SameScavenge() && led.from == old(led).from
        invariant forall b :: b in led.fwd ==> led.from.Has(b)
      {
        ghost var l1 := led;
        var to;
        to, ok := ForwardRoot(locals[i].at);
        if !ok { return; }
        GrowsTransitive(old(led), l1, led, -1);
        WordDone(s0, locals, i, l1, led, Ptr(to));
        locals := locals[i := Ptr(to)];
        i := i + 1;
      }
      ok := true;
    }

    /** Last loop: the stack from the top down.  Class and stack references and
        pointers into the constant table are skipped. */
    method CopyStack() returns (ok: bool)
      requires Collecting() && ScannedUpTo(led, 0) && RootWords(stack, led)
      modifies `mem, `free, `led, `stuck, `stack
      ensures ok ==> Collecting() && ScannedUpTo(led, 0) && OutsideKept() && Grows(old(led), led, -1)
      ensures ok ==> WordsDone(old(stack), stack, 0, |stack|, led)
      ensures !ok ==> Overflow() && SameScavenge()
    {
      var i := |stack|;
      ghost var s0 := stack;
      hide CopyLedger.Grows, CopyLedger.Copying;
      GrowsReflexive(led, -1);
      ForwardedFromHeap(led, mem, free);
      while i > 0
        invariant 0 <= i <= |stack| == |s0|
        invariant Collecting() && ScannedUpTo(led, 0) && OutsideKept() && Grows(old(led), led, -1)
        invariant WordsDone(s0, stack, i, |s0|, led) && SameScavenge() && led.from == old(led).from
        invariant forall b :: b in led.fwd ==> led.from.Has(b)
      {
        ghost var l1 := led;
        i := i - 1;
        var w := stack[i];
        if w.Ptr? {
          TellingKinds(led, mem, free, w.at);
          if mem[w.at].Class? || mem[w.at].StackHeader? || IsConst(w.at) {
          } else {
            var to;
            to, ok := ForwardRoot(w.at);
            if !ok { return; }
            w := Ptr(to);
            GrowsTransitive(old(led), l1, led, -1);
          }
        }
        WordDoneDown(s0, stack, i, l1, led, w);
        stack := stack[i := w];
      }
      ok := true;
    }

    /** Third loop: the element blocks of the arrays in the constant table.  The
        array objects themselves stay where they are. */
    method CopyConstArrays() returns (ok: bool)
      requires Collecting() && ScannedUpTo(led, 0) && ConstRoots(constArrs, led)
      requires ConstsDone(constArrs, 0, led, mem)
      modifies `mem, `free, `led, `stuck
      ensures ok ==> Collecting() && ScannedUpTo(led, 0) && Grows(old(led), led, -1)
      ensures ok ==> ConstRoots(constArrs, led) && ConstsDone(constArrs, |constArrs|, led, mem)
      ensures ok ==> forall c :: c in old(mem) && !led.from.Has(c) && !SpaceAt(toBase).Has(c) && c !in constArrs ==>
                       c in mem && mem[c] == old(mem)[c]
      ensures !ok ==> Overflow() && SameScavenge()
    {
      var i := 0;
      hide CopyLedger.Grows, CopyLedger.Copying;
      GrowsReflexive(led, -1);
      while i < |constArrs|
        invariant 0 <= i <= |constArrs|
        invariant Collecting() && ScannedUpTo(led, 0) && Grows(old(led), led, -1) && SameScavenge()
        invariant ConstRoots(constArrs, led) && ConstsDone(constArrs, i, led, mem)
        invariant forall c :: c in old(mem) && !led.from.Has(c) && !SpaceAt(toBase).Has(c) && c !in constArrs ==>
                    c in mem && mem[c] == old(mem)[c]
      {
        ghost var l1, m1 := led, mem;
        var c := constArrs[i];
        var to;
        to, ok := ForwardRoot(BlockOf(mem[c].elems));
        if !ok { return; }
        GrowsTransitive(old(led), l1, led, -1);
        ConstForwarded(constArrs, i, l1, led, m1, mem, free, to);
        mem := mem[c := mem[c].(elems := to + HDR)];
        i := i + 1;
      }
      ok := true;
    }

    // ----- the whole scavenge ----------------------------------------------------

    /** gc_rootset. */
    method CopyRoots(ghost s: State) returns (ok: bool)
      requires Collecting() && ScannedUpTo(led, 0) && BooksOf(s, led) && Sound(s) && mem == s.mem
      requires statics == s.statics && locals == s.locals && stack == s.stack && constArrs == s.constArrs
      modifies `mem, `free, `led, `stuck, `statics, `locals, `stack
      ensures ok ==> Collecting() && ScannedUpTo(led, 0) && BooksOf(s, led) && RootsDone(s, Snap(), led, mem)
      ensures !ok ==> Overflow() && SameScavenge()
    {
      hide CopyLedger.Grows, CopyLedger.Copying, HeapState.Sound, CopyLedger.RootWords, CopyLedger.ConstRoots;
      AreasAreRoots(s, led);
      ok := CopyStatics();
      if !ok { return; }
      ghost var l1, m1 := led, mem;
      GrowsKeepsBooks(s, old(led), led);
      AreasAreRoots(s, led);
      ok := CopyLocals();
      if !ok { return; }
      ghost var l2, m2 := led, mem;
      GrowsKeepsBooks(s, l1, led);
      ConstsAreRoots(s, led);
      assert SameOutside(led, s.mem, mem);
      ConstsElsewhere(led, mem, free);
      ConstsUntouched(s, led, mem);
      ok := CopyConstArrays();
      if !ok { return; }
      ghost var l3, m3 := led, mem;
      GrowsKeepsBooks(s, l2, led);
      AreasAreRoots(s, led);
      ok := CopyStack();
      if !ok { return; }
      GrowsKeepsBooks(s, l3, led);
      assert SameOutside(led, m3, mem);
      PhasesMakeRootsDone(s, Snap(), l1, l2, l3, led, m3, mem, free);
    }

    /** Everything between the swap of the spaces and the end of the scan. */
    method CopyAll(ghost s: State) returns (ok: bool)
      requires Collecting() && ScannedUpTo(led, 0) && BooksOf(s, led) && Sound(s) && mem == s.mem
      requires statics == s.statics && locals == s.locals && stack == s.stack && constArrs == s.constArrs
      requires scan == toBase
      modifies `mem, `free, `scan, `led, `stuck, `statics, `locals, `stack
      ensures ok ==> Collecting() && ScannedUpTo(led, |led.order|) && BooksOf(s, led) && RootsDone(s, Snap(), led, mem)
      ensures !ok ==> LiveBytes(s) >= SEGMENT
    {
      hide CopyLedger.Grows, CopyLedger.Copying, CopyLedger.ScannedUpTo, HeapState.RootsDone, HeapState.Sound, HeapState.Live;
      ok := CopyRoots(s);
      if !ok {
        StuckMeansFull(s, led, mem, free, stuck);
        return;
      }
      ghost var l, m, t := led, mem, Snap();
      ok := ScanLoop();
      if !ok {
        StuckMeansFull(s, led, mem, free, stuck);
        return;
      }
      assert SameOutside(led, m, mem);
      RootsStayDone(s, t, l, led, m, mem, free);
      assert RootsDone(s, Snap(), led, mem) by { RootsDoneAreas(s, t, Snap(), led, mem); }
    }

    /** gc_cheney_scavenge: it succeeds exactly when the live objects fit. */
    method Scavenge() returns (ok: bool)
      requires Valid()
      modifies this
      ensures ok <==> LiveBytes(old(Snap())) < SEGMENT
      ensures ok ==> Valid() && Moved(old(Snap()), Snap(), led.fwd)
      ensures ok ==> Packed(mem, SpaceAt(toBase), free)
      ensures ok ==> free - toBase == LiveBytes(old(Snap()))
      ensures ok ==> toBase == old(fromBase) && fromBase == old(toBase)
    {
      hide HeapState.Sound, HeapState.Moved, HeapState.Live, HeapState.RootsDone, CopyLedger.Copying, CopyLedger.ScannedUpTo,
           HeapLayout.Laid, HeapLayout.Packed;
      ghost var s := Snap();
      OpenBooks(s, fromBase);
      fromBase, toBase := toBase, fromBase;
      free := toBase;
      scan := free;
      led := Ledger(mem, constTable, SpaceAt(fromBase), toBase, RootSet(s), [], [toBase], [], map[]);
      ok := CopyAll(s);
      if ok {
        ghost var m, t := mem, Snap();
        mem := map a | a in mem && !SpaceAt(fromBase).Has(a) :: mem[a];
        RootsDoneAreas(s, t, Snap(), led, m);
        FinishScavenge(s, Snap(), led, m, free);
        CopiesPacked(led, m, free, mem);
        PackedIsLaid(mem, SpaceAt(toBase), free) by { SoundIsOk(Snap()); }
      }
    }

    // ----- allocation ----------------------------------------------------------------

    /** gc_cheney_can_malloc */
    predicate CanMalloc(size: int)
      reads `free, `toBase
    {
      free + Aligned(size) < toBase + SEGMENT
    }

    /** gc_cheney_malloc.  `mid` is the state the object was added to: the old one,
        or the old one moved by `led.fwd`. */
    method Malloc(o: Obj, size: int) returns (at: int, ok: bool, ghost moved: bool, ghost mid: State)
      requires Valid() && size > 0 && End(o) <= size && Blank(Snap(), o)
      modifies this
      ensures ok <==> Aligned(size) < SEGMENT
                      && (old(CanMalloc(size)) || LiveBytes(old(Snap())) + Aligned(size) < SEGMENT)
      ensures ok ==> Valid() && Snap() == mid.(mem := mid.mem[at := o])
      ensures ok ==> at !in mid.mem && mid.space.Has(at) && Sound(mid)
      ensures ok && !moved ==> mid == old(Snap())
      ensures old(CanMalloc(size)) ==> !moved
      ensures ok && moved ==> Moved(old(Snap()), mid, led.fwd) && Vacant(old(mem), mid.space)
    {
      hide HeapState.Sound, HeapState.Moved, HeapState.Live, HeapState.Blank, HeapLayout.Laid, HeapLayout.Packed;
      moved, mid, at := false, Snap(), free;
      if Aligned(size) >= SEGMENT {
        return free, false, false, mid;
      }
      if !CanMalloc(size) {
        ghost var s := Snap();
        ok := Scavenge();
        if !ok { return; }
        moved, mid := true, Snap();
        BlankStays(s, mid, led.fwd, o);
        if !CanMalloc(size) {
          return free, false, true, mid;
        }
      }
      ok := true;
      at := free;
      AllocLaid(mem, SpaceAt(toBase), free, o, size);
      free := free + Aligned(size);
      AllocKeepsSound(Snap(), at, o);
      mem := mem[at := o];
    }
  }
}
