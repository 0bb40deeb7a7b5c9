/** The bookkeeping of one scavenge: which objects have been copied, in which
    order, to where, and what the copies hold at the moment.  It is the ghost
    side of the collector; the predicate `Copying` is what every step of
    gc_cheney_scavenge keeps. */
module CopyLedger {
  import opened KekObjects
  import opened HeapGraph

  /** `before` is memory when the scavenge began, `from` the space being emptied,
      `base` the start of the space being filled.  Object `order[k]` was the k-th
      to be copied, its copy is at `place[k]` and holds `img[k]`; `place` has one
      entry more, the free pointer.  `fwd` is the forwarding map. */
  datatype Ledger = Ledger(
    before: Mem, consts: Region, from: Region, base: int, roots: set<int>,
    order: seq<int>, place: seq<int>, img: seq<Obj>, fwd: map<int, int>)

  /** A pointer to the nil object, which lives outside the heap. */
  ghost predicate NilWord(h: Mem, r: Region, w: Word) {
    w.Ptr? && !r.Has(w.at) && w.at in h && h[w.at].Nil?
  }

  /** An array and its element block store the same length and capacity. */
  ghost predicate Owns(h: Mem, r: Region, o: Obj)
    requires o.Arr?
  {
    var b := BlockOf(o.elems);
    b in h && r.Has(b) && h[b].ArrObjs? && h[b].len == o.length && h[b].cap == o.allocSize
  }

  /** Every element block has as many slots as its header says, nil in the unused
      ones; an array's block is there; and no traced pointer leads to a class or
      to the stack. */
  ghost predicate ObjOk(h: Mem, r: Region, o: Obj) {
    && !o.Copied?
    && (o.ArrObjs? ==> 0 <= o.len <= o.cap == |o.slots|)
    && (o.ArrObjs? ==> forall i :: 0 <= i < o.len ==> o.slots[i] != Null)
    && (o.ArrObjs? ==> forall i :: o.len <= i < o.cap ==> NilWord(h, r, o.slots[i]))
    && (o.Arr? && o.elems != 0 ==> Owns(h, r, o))
    && (forall a :: a in Refs(o) ==> a in h && !Unmoved(h[a]))
  }

  ghost predicate HeapOk(h: Mem, r: Region) {
    forall a :: a in h ==> ObjOk(h, r, h[a])
  }

  ghost predicate Fresh(h: Mem, base: int) {
    forall a :: a in h ==> !(base <= a < base + SEGMENT)
  }

  predicate Unmoved(o: Obj) { o.Class? || o.StackHeader? }

  /** Objects live in the given space or in the constant table; only class and
      stack references, which are never traced, are elsewhere. */
  ghost predicate Placed(h: Mem, space: Region, consts: Region) {
    forall a :: a in h ==>
      if Unmoved(h[a]) then !space.Has(a) && !consts.Has(a) else space.Has(a) || consts.Has(a)
  }

  ghost predicate Apart(r: Region, s: Region) { r.hi <= s.lo || s.hi <= r.lo }

  /** Outside the two spaces the same addresses are in use, for the same kind of
      object, as when the scavenge began. */
  ghost predicate Outside(l: Ledger, mem: Mem) {
    && (forall a :: a in mem && !l.from.Has(a) && !To(l).Has(a) ==> a in l.before)
    && (forall a :: a in l.before && !l.from.Has(a) ==> a in mem && Unmoved(mem[a]) == Unmoved(l.before[a]))
  }

  function To(l: Ledger): Region { Region(l.base, l.base + SEGMENT) }

  ghost predicate Copying(l: Ledger, mem: Mem, free: int) {
    && Apart(l.from, To(l)) && Apart(l.consts, l.from) && Apart(l.consts, To(l))
    && Placed(l.before, l.from, l.consts) && Outside(l, mem)
    && HeapOk(l.before, l.from) && Fresh(l.before, l.base)
    && |l.img| == |l.order| && |l.place| == |l.order| + 1
    && l.place[0] == l.base && l.place[|l.order|] == free < l.base + SEGMENT
    && (forall k :: 0 <= k < |l.order| ==> Entry(l, mem, k))
    && (forall j, k :: 0 <= j < k < |l.place| ==> l.place[j] < l.place[k])
    && (forall a :: a in l.fwd ==> a in l.order)
    && (forall a :: a in mem && l.base <= a < l.base + SEGMENT ==> a in l.place[..|l.order|])
    && (forall a :: a in l.before && l.from.Has(a) ==>
          a in mem && mem[a] == if a in l.fwd then Copied(l.fwd[a]) else l.before[a])
  }

  /** The k-th copied object: reachable, forwarded, and charged its size. */
  ghost predicate Entry(l: Ledger, mem: Mem, k: nat)
    requires k < |l.order| == |l.img| == |l.place| - 1
  {
    var a := l.order[k];
    && a in l.before && l.from.Has(a) && Reach(l.before, l.from, l.roots, a)
    && a in l.fwd && l.fwd[a] == l.place[k]
    && l.place[k] in mem && mem[l.place[k]] == l.img[k]
    && CopySize(l.img[k]) == CopySize(l.before[a])
    && l.place[k + 1] == l.place[k] + CopySize(l.before[a])
  }

  lemma ObjOkPlain(h: Mem, r: Region, o: Obj)
    requires ObjOk(h, r, o)
    ensures !o.Copied? && CopySize(o) > 0
  {
    CopySizePositive(o);
  }

  function Append(l: Ledger, a: int, free: int): Ledger
    requires a in l.before
  {
    l.(order := l.order + [a],
       place := l.place + [free + CopySize(l.before[a])],
       img := l.img + [l.before[a]],
       fwd := l.fwd[a := free])
  }

  /** Copying one more object keeps the books. */
  lemma CopyOne(l: Ledger, mem: Mem, free: int, a: int)
    requires Copying(l, mem, free)
    requires a in l.before && l.from.Has(a) && a !in l.fwd
    requires Reach(l.before, l.from, l.roots, a)
    requires free + CopySize(l.before[a]) < l.base + SEGMENT
    ensures Copying(Append(l, a, free),
                    mem[free := l.before[a]][a := Copied(free)],
                    free + CopySize(l.before[a]))
  {
    hide Entry, ObjOk, Reach;
    CopyOneEntries(l, mem, free, a, Append(l, a, free), mem[free := l.before[a]][a := Copied(free)]);
    CopyOneCovers(l, mem, free, a);
    ObjOkPlain(l.before, l.from, l.before[a]);
  }

  /** The entries so far, and the new one. */
  lemma CopyOneEntries(l: Ledger, mem: Mem, free: int, a: int, m: Ledger, mem': Mem)
    requires Copying(l, mem, free) && a in l.before && l.from.Has(a) && a !in l.fwd && Reach(l.before, l.from, l.roots, a)
    requires free + CopySize(l.before[a]) < l.base + SEGMENT
    requires m == Append(l, a, free) && mem' == mem[free := l.before[a]][a := Copied(free)]
    ensures |m.order| == |m.img| == |m.place| - 1
    ensures forall k :: 0 <= k < |m.order| ==> Entry(m, mem', k)
  {
    hide Reach, ObjOk, HeapOk;
    var n := |l.order|;
    forall k | 0 <= k < n ensures Entry(m, mem', k) {
      assert Entry(l, mem, k);
      assert l.base <= l.place[k] < l.place[n];
    }
    assert Entry(m, mem', n);
  }

  /** Nothing else is in the new space, and nothing else is forwarded. */
  lemma CopyOneCovers(l: Ledger, mem: Mem, free: int, a: int)
    requires Copying(l, mem, free) && a in l.before && l.from.Has(a) && a !in l.fwd
    ensures var m, mem' := Append(l, a, free), mem[free := l.before[a]][a := Copied(free)];
            && (forall b :: b in m.fwd ==> b in m.order)
            && (forall b :: b in mem' && l.base <= b < l.base + SEGMENT ==> b in m.place[..|m.order|])
  {
    hide Reach, ObjOk, HeapOk, Entry, Outside, Placed, Fresh;
    var m, n := Append(l, a, free), |l.order|;
    assert m.place[..n + 1] == l.place[..n] + [free];
    assert m.order[n] == a;
  }

  lemma ForwardedFromHeap(l: Ledger, mem: Mem, free: int)
    requires Copying(l, mem, free)
    ensures forall a :: a in l.fwd ==>
      a in l.before && l.from.Has(a) && Reach(l.before, l.from, l.roots, a)
      && l.base <= l.fwd[a] < free && l.fwd[a] in mem
  {
    forall a | a in l.fwd
      ensures a in l.before && l.from.Has(a) && Reach(l.before, l.from, l.roots, a)
        && l.base <= l.fwd[a] < free && l.fwd[a] in mem
    {
      var k :| 0 <= k < |l.order| && l.order[k] == a;
      assert Entry(l, mem, k);
      assert l.place[0] <= l.place[k] < l.place[|l.order|];
    }
  }

  /** What the books say of copy number `n`. */
  lemma CopyAt(l: Ledger, mem: Mem, free: int, n: nat)
    requires Copying(l, mem, free) && n < |l.order|
    ensures |l.order| == |l.img| == |l.place| - 1 && l.order[n] in l.before
    ensures l.place[n] in mem && mem[l.place[n]] == l.img[n]
    ensures ObjOk(l.before, l.from, l.before[l.order[n]])
    ensures 0 <= Traced(l.before[l.order[n]]) <= |Slots(l.before[l.order[n]])|
    ensures l.place[n] < free && l.place[n + 1] == l.place[n] + CopySize(l.img[n])
  {
    assert Entry(l, mem, n);
    assert l.place[n] < l.place[|l.order|];
  }

  /** Overwriting a copy with an object of the same size keeps the books. */
  lemma Rewrite(l: Ledger, mem: Mem, free: int, n: nat, o: Obj)
    requires Copying(l, mem, free) && n < |l.order|
    requires CopySize(o) == CopySize(l.img[n])
    ensures Copying(l.(img := l.img[n := o]), mem[l.place[n] := o], free)
  {
    var l' := l.(img := l.img[n := o]);
    var mem' := mem[l.place[n] := o];
    assert Entry(l, mem, n);
    assert l.base <= l.place[n] < free;
    forall k | 0 <= k < |l.order| ensures Entry(l', mem', k) {
      assert Entry(l, mem, k);
      if k < n { assert l.place[k] < l.place[n]; }
      if n < k { assert l.place[n] < l.place[k]; }
    }
  }

  /** Changes outside the two spaces do not concern the books. */
  lemma Elsewhere(l: Ledger, mem: Mem, free: int, c: int, o: Obj)
    requires Copying(l, mem, free)
    requires !l.from.Has(c) && !To(l).Has(c) && c in mem && Unmoved(o) == Unmoved(mem[c])
    ensures Copying(l, mem[c := o], free)
  {
    var mem' := mem[c := o];
    forall k | 0 <= k < |l.order| ensures Entry(l, mem', k) {
      assert Entry(l, mem, k);
      assert l.place[0] <= l.place[k] < l.place[|l.order|];
    }
  }

  // ----- how the books grow ------------------------------------------------

  /** `m` continues `l`: more objects may have been copied, and every copy made
      before, except perhaps number `n`, is as it was. */
  ghost predicate Grows(l: Ledger, m: Ledger, n: int) {
    && m.before == l.before && m.consts == l.consts && m.from == l.from && m.base == l.base && m.roots == l.roots
    && |l.order| <= |m.order| && |l.img| == |l.order| && |m.img| == |m.order|
    && l.order <= m.order && l.place <= m.place
    && Extends(l.fwd, m.fwd)
    && (forall k :: 0 <= k < |l.img| && k != n ==> m.img[k] == l.img[k])
    && (forall k :: |l.img| <= k < |m.img| ==> m.order[k] in m.before && m.img[k] == m.before[m.order[k]])
  }

  lemma GrowsReflexive(l: Ledger, n: int)
    requires |l.img| == |l.order|
    ensures Grows(l, l, n)
  {
  }

  /** What a pointer to an object that may be copied leads to. */
  lemma PointerCases(l: Ledger, mem: Mem, free: int, a: int)
    requires Copying(l, mem, free) && a in l.before && !Unmoved(l.before[a])
    ensures Grows(l, l, -1) && |l.order| == |l.img|
    ensures l.consts.Has(a) ==> MapAddr(a, l.fwd) == a && !l.from.Has(a)
    ensures !l.consts.Has(a) ==> l.from.Has(a) && a in mem && !To(l).Has(a)
    ensures !l.consts.Has(a) ==> (mem[a].Copied? <==> a in l.fwd)
    ensures !l.consts.Has(a) && a in l.fwd ==> mem[a] == Copied(MapAddr(a, l.fwd))
    ensures !l.consts.Has(a) && a !in l.fwd ==> mem[a] == l.before[a]
  {
    hide Entry, Reach, Fresh, Outside;
    ForwardedFromHeap(l, mem, free);
    GrowsReflexive(l, -1);
    if l.from.Has(a) { assert ObjOk(l.before, l.from, l.before[a]); }
  }

  lemma AppendGrows(l: Ledger, a: int, free: int)
    requires a in l.before && a !in l.fwd && |l.order| == |l.img|
    ensures Grows(l, Append(l, a, free), -1) && a in Append(l, a, free).fwd && MapAddr(a, Append(l, a, free).fwd) == free
  {
  }

  /** The new space is no part of the memory outside the two spaces. */
  lemma FreeIsTo(l: Ledger, mem: Mem, free: int)
    requires Copying(l, mem, free)
    ensures To(l).Has(free)
  {
    assert l.place[0] <= l.place[|l.order|];
  }

  lemma GrowsTransitive(l: Ledger, m: Ledger, p: Ledger, n: int)
    requires Grows(l, m, n) && Grows(m, p, n) && n < |l.order| && -1 <= n
    ensures Grows(l, p, n)
    ensures p.before == m.before && p.roots == m.roots
    ensures n >= 0 && |m.place| > n ==> |p.place| > n && p.place[n] == m.place[n]
    ensures n >= 0 ==> p.order[n] == m.order[n]
  {
  }

  // ----- what the finished books say -----------------------------------------

  /** Every object scanned so far points only at copies. */
  ghost predicate Scanned(l: Ledger, k: nat)
    requires k < |l.order| == |l.img|
  {
    var a := l.order[k];
    && a in l.before
    && l.img[k] == Image(l.before[a], l.fwd)
    && forall b :: Edge(l.before, l.from, a, b) ==> b in l.fwd
  }

  lemma ScannedStable(l: Ledger, m: Ledger, k: nat, n: nat)
    requires |l.img| == |l.order| && k < |l.order| && Scanned(l, k) && Grows(l, m, n) && n != k
    requires forall a :: a in m.fwd ==> a in m.before && m.from.Has(a)
    ensures Scanned(m, k)
  {
    var a := l.order[k];
    assert m.order[k] == a;
    forall b | b in Refs(l.before[a]) && b in m.fwd ensures b in l.fwd {
      assert Edge(l.before, l.from, a, b);
    }
    ImageStable(l.before[a], l.fwd, m.fwd);
  }

  /** The first `i` slots of copy number `n` are renamed, the others raw. */
  ghost predicate SlotsDone(l: Ledger, n: nat, i: int) {
    && n < |l.order| == |l.img| && l.order[n] in l.before
    && var o := l.before[l.order[n]];
    && !o.Arr? && 0 <= i <= Traced(o) <= |Slots(o)|
    && l.img[n] == WithSlots(o, MapPrefix(Slots(o), i, l.fwd))
    && forall j :: 0 <= j < i && Slots(o)[j].Ptr? && l.from.Has(Slots(o)[j].at) ==> Slots(o)[j].at in l.fwd
  }

  lemma NoSlotsYet(l: Ledger, n: nat)
    requires n < |l.order| == |l.img| && l.order[n] in l.before
    requires l.img[n] == l.before[l.order[n]] && !l.img[n].Arr? && 0 <= Traced(l.img[n]) <= |Slots(l.img[n])|
    ensures SlotsDone(l, n, 0)
  {
    var o := l.img[n];
    assert MapPrefix(Slots(o), 0, l.fwd) == Slots(o);
  }

  lemma SlotStep(l: Ledger, m: Ledger, n: nat, i: int, w: Word)
    requires SlotsDone(l, n, i) && i < Traced(l.before[l.order[n]])
    requires Grows(l, m, -1)
    requires forall a :: a in m.fwd ==> m.from.Has(a)
    requires var v := Slots(l.before[l.order[n]])[i];
      w == MapWord(v, m.fwd) && (v.Ptr? && m.from.Has(v.at) ==> v.at in m.fwd)
    ensures |Slots(m.img[n])| == |Slots(l.before[l.order[n]])|
    ensures Slots(m.img[n])[i] == Slots(l.before[l.order[n]])[i]
    ensures var m' := m.(img := m.img[n := WithSlots(m.img[n], Slots(m.img[n])[i := w])]);
      SlotsDone(m', n, i + 1) && Grows(l, m', n)
  {
    var o := l.before[l.order[n]];
    assert m.order[n] == l.order[n];
    PrefixStep(Slots(o), i, l.fwd, m.fwd);
    PrefixStable(Slots(o), i, l.fwd, m.fwd);
  }

  /** The next slot to look at still holds what it held before the scavenge, and
      a heap address in it is reachable. */
  lemma SlotRaw(l: Ledger, mem: Mem, free: int, n: nat, i: int)
    requires Copying(l, mem, free) && SlotsDone(l, n, i) && i < Traced(l.before[l.order[n]])
    ensures n < |l.place|
    ensures l.place[n] in mem && mem[l.place[n]] == l.img[n] && i < |Slots(l.img[n])|
    ensures var v := Slots(l.img[n])[i];
      && v == Slots(l.before[l.order[n]])[i]
      && (v.Ptr? ==> v.at in l.before && !Unmoved(l.before[v.at]))
      && (v.Ptr? && l.from.Has(v.at) ==> Reach(l.before, l.from, l.roots, v.at))
  {
    assert Entry(l, mem, n);
    var a := l.order[n];
    var v := Slots(l.before[a])[i];
    assert ObjOk(l.before, l.from, l.before[a]);
    if v.Ptr? {
      assert v.at in Refs(l.before[a]);
      if l.from.Has(v.at) { StepReach(l.before, l.from, l.roots, a, v.at); }
    }
  }

  /** Storing the forwarded address in slot `i` of copy number `n`. */
  lemma SlotForwarded(l: Ledger, m: Ledger, mem: Mem, free: int, n: nat, i: int, to: int)
    requires SlotsDone(l, n, i) && i < Traced(l.before[l.order[n]])
    requires Grows(l, m, -1) && Copying(m, mem, free)
    requires var v := Slots(l.before[l.order[n]])[i];
      v.Ptr? && to == MapAddr(v.at, m.fwd) && (m.from.Has(v.at) ==> v.at in m.fwd)
    ensures m.place[n] in mem && mem[m.place[n]] == m.img[n] && i < |Slots(m.img[n])|
    ensures m.before == l.before && m.roots == l.roots && To(m).Has(m.place[n])
    ensures n < |l.place| ==> m.place[n] == l.place[n]
    ensures n < |m.img|
    ensures var obj := WithSlots(m.img[n], Slots(m.img[n])[i := Ptr(to)]);
      var m' := m.(img := m.img[n := obj]);
      Copying(m', mem[m.place[n] := obj], free) && Grows(l, m', n) && SlotsDone(m', n, i + 1)
  {
    ForwardedFromHeap(m, mem, free);
    SlotStep(l, m, n, i, Ptr(to));
    CopyAt(m, mem, free, n);
    assert m.place[0] <= m.place[n];
    var obj := WithSlots(m.img[n], Slots(m.img[n])[i := Ptr(to)]);
    Rewrite(m, mem, free, n, obj);
  }

  /** A slot that holds no pointer counts as renamed. */
  lemma SlotSkip(l: Ledger, n: nat, i: int)
    requires SlotsDone(l, n, i) && i < Traced(l.before[l.order[n]])
    requires !Slots(l.before[l.order[n]])[i].Ptr?
    ensures SlotsDone(l, n, i + 1)
  {
    var o := l.before[l.order[n]];
    PrefixStep(Slots(o), i, l.fwd, l.fwd);
    assert MapPrefix(Slots(o), i + 1, l.fwd) == MapPrefix(Slots(o), i, l.fwd);
  }

  /** The block pointer of an array copy: its address before the scavenge. */
  lemma BlockRaw(l: Ledger, mem: Mem, free: int, n: nat)
    requires Copying(l, mem, free) && n < |l.order| && l.order[n] in l.before
    requires l.img[n] == l.before[l.order[n]] && l.img[n].Arr? && l.img[n].elems != 0
    ensures var b := BlockOf(l.img[n].elems);
      b in l.before && !Unmoved(l.before[b]) && l.from.Has(b) && Reach(l.before, l.from, l.roots, b)
  {
    assert Entry(l, mem, n);
    var a := l.order[n];
    assert ObjOk(l.before, l.from, l.before[a]);
    assert BlockOf(l.img[n].elems) in Refs(l.before[a]);
    StepReach(l.before, l.from, l.roots, a, BlockOf(l.img[n].elems));
  }

  lemma BlockForwarded(l: Ledger, m: Ledger, mem: Mem, free: int, n: nat, to: int)
    requires Grows(l, m, -1) && Copying(m, mem, free)
    requires n < |l.order| && l.order[n] in l.before
    requires l.img[n] == l.before[l.order[n]] && l.img[n].Arr? && l.img[n].elems != 0
    requires var b := BlockOf(l.img[n].elems); b in m.fwd && to == m.fwd[b]
    ensures (n < |l.place| ==> m.place[n] == l.place[n]) && n < |m.img| && To(m).Has(m.place[n])
    ensures m.before == l.before && m.roots == l.roots && m.from == l.from && m.base == l.base && m.consts == l.consts
    ensures m.place[n] in mem && mem[m.place[n]] == m.img[n] == l.img[n]
    ensures var obj := m.img[n].(elems := to + HDR);
      var m' := m.(img := m.img[n := obj]);
      Copying(m', mem[m.place[n] := obj], free) && Grows(l, m', n) && Scanned(m', n)
  {
    hide Reach, Fresh, Outside, HeapOk;
    assert Entry(m, mem, n);
    assert m.place[0] <= m.place[n];
    var obj := m.img[n].(elems := to + HDR);
    assert m.order[n] == l.order[n];
    Rewrite(m, mem, free, n, obj);
  }

  /** An object without pointers is scanned as soon as it is copied. */
  lemma NothingToScan(l: Ledger, n: nat)
    requires n < |l.order| == |l.img| && l.order[n] in l.before
    requires l.img[n] == l.before[l.order[n]]
    requires Refs(l.img[n]) == {} && (!l.img[n].Arr? ==> Slots(l.img[n]) == [])
    ensures Scanned(l, n)
  {
    assert !l.img[n].Arr? ==> MapPrefix(Slots(l.img[n]), Traced(l.img[n]), l.fwd) == Slots(l.img[n]);
  }

  /** Copies up to `n` are scanned, the others raw. */
  ghost predicate ScannedUpTo(l: Ledger, n: nat) {
    && n <= |l.order| == |l.img|
    && (forall k :: 0 <= k < n ==> Scanned(l, k))
    && (forall k :: n <= k < |l.order| ==> l.order[k] in l.before && l.img[k] == l.before[l.order[k]])
  }

  lemma ScanStep(l: Ledger, m: Ledger, mem: Mem, free: int, n: nat)
    requires ScannedUpTo(l, n) && n < |l.order| && Copying(m, mem, free)
    requires Grows(l, m, n) && Scanned(m, n)
    ensures ScannedUpTo(m, n + 1)
    ensures m.place[n + 1] == m.place[n] + CopySize(m.img[n])
  {
    ForwardedFromHeap(m, mem, free);
    forall k | 0 <= k < n ensures Scanned(m, k) {
      ScannedStable(l, m, k, n);
    }
    forall k | n + 1 <= k < |m.order|
      ensures m.order[k] in m.before && m.img[k] == m.before[m.order[k]]
    {
      if k < |l.order| { assert m.order[k] == l.order[k]; }
    }
    assert Entry(m, mem, n);
  }

  lemma AllSlotsDone(l: Ledger, n: nat)
    requires n < |l.order| && l.order[n] in l.before && SlotsDone(l, n, Traced(l.before[l.order[n]]))
    ensures Scanned(l, n)
  {
    var a := l.order[n];
    var o := l.before[a];
    forall b | Edge(l.before, l.from, a, b) ensures b in l.fwd {
      var j :| 0 <= j < Traced(o) && Slots(o)[j].Ptr? && Slots(o)[j].at == b;
    }
  }

  /** The space used is the summed size of the objects copied. */
  lemma BytesOfNone(h: Mem)
    ensures Bytes(h, {}) == 0
  {
  }

  lemma {:induction false} PlaceIsBytes(l: Ledger, n: nat)
    requires |l.place| == |l.order| + 1 && n <= |l.order|
    requires forall k :: 0 <= k < |l.order| ==>
      l.order[k] in l.before && l.place[k + 1] == l.place[k] + CopySize(l.before[l.order[k]])
    requires forall j, k :: 0 <= j < k < |l.order| ==> l.order[j] != l.order[k]
    ensures (set k | 0 <= k < n :: l.order[k]) <= l.before.Keys
    ensures l.place[n] - l.place[0] == Bytes(l.before, set k | 0 <= k < n :: l.order[k])
  {
    hide Bytes, CopySize;
    var s := set k | 0 <= k < n :: l.order[k];
    if n == 0 {
      assert s == {};
      BytesOfNone(l.before);
    } else {
      var p := set k | 0 <= k < n - 1 :: l.order[k];
      PlaceIsBytes(l, n - 1);
      assert s - {l.order[n - 1]} == p;
      BytesTake(l.before, s, l.order[n - 1]);
    }
  }

  lemma Distinct(l: Ledger, mem: Mem, free: int)
    requires Copying(l, mem, free)
    ensures forall j, k :: 0 <= j < k < |l.order| ==> l.order[j] != l.order[k]
    ensures Injective(l.fwd)
  {
    forall j, k | 0 <= j < k < |l.order| ensures l.order[j] != l.order[k] {
      assert Entry(l, mem, j) && Entry(l, mem, k);
      assert l.place[j] < l.place[k];
    }
    forall a, b | a in l.fwd && b in l.fwd && l.fwd[a] == l.fwd[b] ensures a == b {
      var j :| 0 <= j < |l.order| && l.order[j] == a;
      var k :| 0 <= k < |l.order| && l.order[k] == b;
      assert Entry(l, mem, j) && Entry(l, mem, k);
    }
  }

  /** No object is copied twice, so the scan ends. */
  lemma CopiesBounded(l: Ledger, mem: Mem, free: int)
    requires Copying(l, mem, free)
    ensures |l.order| <= |l.before|
  {
    Distinct(l, mem, free);
    CountDistinct(l.order, l.before.Keys) by {
      forall k | 0 <= k < |l.order| ensures l.order[k] in l.before { assert Entry(l, mem, k); }
    }
  }

  lemma {:induction false} CountDistinct(s: seq<int>, keys: set<int>)
    requires forall j, k :: 0 <= j < k < |s| ==> s[j] != s[k]
    requires forall k :: 0 <= k < |s| ==> s[k] in keys
    ensures |s| <= |keys|
  {
    if |s| > 0 {
      var n := |s| - 1;
      CountDistinct(s[..n], keys - {s[n]});
    }
  }

  // ----- roots ---------------------------------------------------------------

  /** The words of a root area: their heap addresses are among the roots. */
  ghost predicate RootWords(s: seq<Word>, l: Ledger) {
    forall i :: 0 <= i < |s| && s[i].Ptr? ==>
      s[i].at in l.before && (l.from.Has(s[i].at) ==> s[i].at in l.roots)
  }

  /** Of the words `s`, now `t`, those from `lo` to `hi` have been forwarded. */
  ghost predicate WordsDone(s: seq<Word>, t: seq<Word>, lo: int, hi: int, l: Ledger) {
    && |t| == |s|
    && (forall i :: 0 <= i < |s| && lo <= i < hi ==> t[i] == MapWord(s[i], l.fwd))
    && (forall i :: 0 <= i < |s| && !(lo <= i < hi) ==> t[i] == s[i])
    && (forall i :: 0 <= i < |s| && lo <= i < hi && s[i].Ptr? && l.from.Has(s[i].at) ==> s[i].at in l.fwd)
  }

  lemma WordsStayDone(s: seq<Word>, t: seq<Word>, lo: int, hi: int, l: Ledger, m: Ledger)
    requires WordsDone(s, t, lo, hi, l)
    requires Extends(l.fwd, m.fwd) && m.from == l.from && forall a :: a in m.fwd ==> m.from.Has(a)
    ensures WordsDone(s, t, lo, hi, m)
  {
  }

  /** One word more, possibly after more objects have been forwarded. */
  lemma WordDone(s: seq<Word>, t: seq<Word>, i: int, l: Ledger, m: Ledger, w: Word)
    requires 0 <= i < |s| && WordsDone(s, t, 0, i, l)
    requires Extends(l.fwd, m.fwd) && m.from == l.from && forall a :: a in m.fwd ==> m.from.Has(a)
    requires w == MapWord(s[i], m.fwd) && (s[i].Ptr? && m.from.Has(s[i].at) ==> s[i].at in m.fwd)
    ensures WordsDone(s, t[i := w], 0, i + 1, m)
  {
  }

  /** The same from the top down. */
  lemma WordDoneDown(s: seq<Word>, t: seq<Word>, i: int, l: Ledger, m: Ledger, w: Word)
    requires 0 <= i < |s| && WordsDone(s, t, i + 1, |s|, l)
    requires Extends(l.fwd, m.fwd) && m.from == l.from && forall a :: a in m.fwd ==> m.from.Has(a)
    requires w == MapWord(s[i], m.fwd) && (s[i].Ptr? && m.from.Has(s[i].at) ==> s[i].at in m.fwd)
    ensures WordsDone(s, t[i := w], i, |s|, m)
  {
  }

  lemma RawStaysRaw(l: Ledger, m: Ledger)
    requires ScannedUpTo(l, 0) && Grows(l, m, -1)
    ensures ScannedUpTo(m, 0)
  {
    forall k | 0 <= k < |m.order|
      ensures m.order[k] in m.before && m.img[k] == m.before[m.order[k]]
    {
      if k < |l.order| { assert m.order[k] == l.order[k]; }
    }
  }

  /** What the type and address of an object tell while objects are being moved. */
  lemma TellingKinds(l: Ledger, mem: Mem, free: int, a: int)
    requires Copying(l, mem, free) && a in l.before
    ensures a in mem
    ensures Unmoved(mem[a]) || l.consts.Has(a) ==> !l.from.Has(a)
    ensures Unmoved(mem[a]) == Unmoved(l.before[a])
  {
    assert ObjOk(l.before, l.from, l.before[a]);
  }

  /** The constant arrays `cs`: what the collector may rely on. */
  ghost predicate ConstRoots(cs: seq<int>, l: Ledger) {
    && (forall i, j :: 0 <= i < j < |cs| ==> cs[i] != cs[j])
    && forall i :: 0 <= i < |cs| ==>
         && cs[i] in l.before && l.consts.Has(cs[i])
         && l.before[cs[i]].Arr? && l.before[cs[i]].elems != 0
         && var b := BlockOf(l.before[cs[i]].elems);
            b in l.before && l.before[b].ArrObjs? && l.from.Has(b) && b in l.roots
  }

  /** The first `n` constant arrays point at the copies of their blocks. */
  ghost predicate ConstsDone(cs: seq<int>, n: int, l: Ledger, mem: Mem)
    requires ConstRoots(cs, l)
  {
    && (forall i :: 0 <= i < |cs| ==> cs[i] in mem)
    && (forall i :: 0 <= i < |cs| && i < n ==>
          BlockOf(l.before[cs[i]].elems) in l.fwd && mem[cs[i]] == Image(l.before[cs[i]], l.fwd))
    && (forall i :: 0 <= i < |cs| && n <= i ==> mem[cs[i]] == l.before[cs[i]])
  }

  lemma ConstsElsewhere(l: Ledger, mem: Mem, free: int)
    requires Copying(l, mem, free)
    ensures forall c :: l.consts.Has(c) ==> !l.from.Has(c) && !To(l).Has(c)
  {
  }

  lemma ConstForwarded(cs: seq<int>, n: int, l: Ledger, m: Ledger, mem0: Mem, mem: Mem, free: int, to: int)
    requires ConstRoots(cs, l) && 0 <= n < |cs| && ConstsDone(cs, n, l, mem0)
    requires Grows(l, m, -1) && Copying(m, mem, free)
    requires forall c :: c in mem0 && !m.from.Has(c) && !To(m).Has(c) ==> c in mem && mem[c] == mem0[c]
    requires var b := BlockOf(l.before[cs[n]].elems); b in m.fwd && to == m.fwd[b]
    ensures cs[n] in mem && mem[cs[n]] == l.before[cs[n]]
    ensures ConstRoots(cs, m)
    ensures var mem' := mem[cs[n] := mem[cs[n]].(elems := to + HDR)];
      Copying(m, mem', free) && ConstsDone(cs, n + 1, m, mem')
  {
    hide Copying;
    ConstsElsewhere(m, mem, free);
    var c := cs[n];
    forall i | 0 <= i < |cs| ensures cs[i] in mem && mem[cs[i]] == mem0[cs[i]] {
      assert l.consts.Has(cs[i]);
    }
    Elsewhere(m, mem, free, c, mem[c].(elems := to + HDR));
  }

  lemma ConstsStayDone(cs: seq<int>, l: Ledger, m: Ledger, mem0: Mem, mem: Mem)
    requires ConstRoots(cs, l) && ConstsDone(cs, |cs|, l, mem0)
    requires m.before == l.before && m.from == l.from && m.base == l.base && Extends(l.fwd, m.fwd)
    requires ConstRoots(cs, m) && Apart(l.consts, l.from) && Apart(l.consts, To(l))
    requires forall c :: c in mem0 && !m.from.Has(c) && !To(m).Has(c) ==> c in mem && mem[c] == mem0[c]
    ensures ConstsDone(cs, |cs|, m, mem)
  {
  }
}
