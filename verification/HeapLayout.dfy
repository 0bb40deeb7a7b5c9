/** Where objects lie in a space: how much copying takes for an object against the fields it
    has, and that no two objects get in each other's way. */
module HeapLayout {
  import opened KekObjects
  import opened HeapGraph
  import opened CopyLedger
  import opened HeapState

  // ----- sizes and fields -----------------------------------------------------------

  /** The address of slot `j` of an object. */
  function SlotAt(at: int, j: int): int { at + HDR + j * WORD }

  /** What copying takes for an object holds all its fields: every slot and, for texts, the
      zero behind the last character. */
  lemma FieldsFit(o: Obj)
    requires o.ArrObjs? ==> o.cap == |o.slots|
    ensures End(o) <= CopySize(o) && CopySize(o) % WORD == 0
    ensures forall j :: 0 <= j < |Slots(o)| ==> SlotAt(0, j) + WORD <= CopySize(o)
    ensures o.Str? ==> STR_TEXT + |o.text| + 1 <= CopySize(o)
    ensures o.Sym? ==> STR_TEXT + |o.name| + 1 <= CopySize(o)
  {
  }

  /** For element blocks and user-defined objects it is the least that does so. */
  lemma NoMoreThanSlots(o: Obj, n: int)
    requires (o.ArrObjs? && o.cap == |o.slots|) || o.Udo?
    requires n % WORD == 0 && n >= SlotAt(0, 0) && forall j :: 0 <= j < |Slots(o)| ==> SlotAt(0, j) + WORD <= n
    ensures CopySize(o) <= n
  {
    if |Slots(o)| > 0 { assert SlotAt(0, |Slots(o)| - 1) + WORD <= n; }
  }

  /** Every field lies inside: the slots, the characters of a text, the value of an integer,
      and the interior pointer of an array or the handle of a file, which stand where the first
      slot of another object does. */
  lemma SlotsInside(o: Obj)
    ensures HEADER <= End(o)
    ensures forall j :: 0 <= j < |Slots(o)| ==> SlotAt(0, 0) <= SlotAt(0, j) && SlotAt(0, j) + WORD <= End(o)
    ensures o.Str? ==> STR_TEXT + |o.text| < End(o)
    ensures o.Sym? ==> STR_TEXT + |o.name| < End(o)
    ensures o.Int? ==> HEADER + 4 <= End(o)
    ensures o.Arr? || o.File? ==> SlotAt(0, 0) + WORD <= End(o)
  {
  }

  // ----- what the collector follows and replaces --------------------------------------

  /** An address is followed exactly when it is the message of an exception, a variable of an
      object, an element of a block below its length, or the block of an array. */
  lemma PointersTraced(o: Obj, a: int)
    requires o.ArrObjs? ==> 0 <= o.len <= |o.slots|
    ensures a in Refs(o) <==>
              || (o.Expt? && o.msg == Ptr(a)) || (o.Udo? && Ptr(a) in o.vars)
              || (o.ArrObjs? && Ptr(a) in o.slots[..o.len])
              || (o.Arr? && o.elems != 0 && o.elems == SlotAt(a, 0))
  {
    if o.ArrObjs? && Ptr(a) in o.slots[..o.len] {
      var i :| 0 <= i < o.len && o.slots[i] == Ptr(a);
      assert Slots(o)[i].Ptr?;
    }
    if o.Udo? && Ptr(a) in o.vars {
      var i :| 0 <= i < |o.vars| && o.vars[i] == Ptr(a);
      assert Slots(o)[i].Ptr?;
    }
    if o.Expt? && o.msg == Ptr(a) { assert Slots(o)[0].Ptr?; }
    if a in Refs(o) && !o.Arr? {
      var i :| 0 <= i < |Slots(o)| && i < Traced(o) && Slots(o)[i].Ptr? && Slots(o)[i].at == a;
      assert Slots(o)[i] == Ptr(a);
      if o.ArrObjs? { assert o.slots[..o.len][i] == Ptr(a); }
    }
  }

  /** The image of an object is the object with exactly these replaced: nothing else of it
      changes, and what is no pointer or not renamed stays. */
  lemma ImageFields(o: Obj, f: map<int, int>)
    requires o.ArrObjs? ==> 0 <= o.len <= |o.slots|
    ensures o.Expt? ==> Image(o, f) == Expt(o.cls, MapWord(o.msg, f))
    ensures o.Udo? ==> var p := Image(o, f);
              p.Udo? && p.cls == o.cls && p.varOffset == o.varOffset && |p.vars| == |o.vars|
              && forall j :: 0 <= j < |o.vars| ==> p.vars[j] == MapWord(o.vars[j], f)
    ensures o.ArrObjs? ==> var p := Image(o, f);
              p.ArrObjs? && p.len == o.len && p.cap == o.cap && |p.slots| == |o.slots|
              && (forall j :: 0 <= j < o.len ==> p.slots[j] == MapWord(o.slots[j], f)) && p.slots[o.len..] == o.slots[o.len..]
    ensures o.Arr? && o.elems != 0 ==> Image(o, f) == o.(elems := SlotAt(MapAddr(BlockOf(o.elems), f), 0))
    ensures !o.Expt? && !o.Udo? && !o.ArrObjs? && (o.Arr? ==> o.elems == 0) ==> Image(o, f) == o
    ensures forall w: Word :: MapWord(w, f) == if w.Ptr? && w.at in f then Ptr(f[w.at]) else w
  {
  }

  // ----- objects in a space ---------------------------------------------------------

  /** The fields of every object of a space end before the next object and before the free
      pointer. */
  ghost predicate Laid(m: Mem, space: Region, free: int) {
    && (forall a :: a in m && space.Has(a) ==> a + End(m[a]) <= free)
    && (forall a, b :: a in m && b in m && space.Has(a) && space.Has(b) && a < b ==> a + End(m[a]) <= b)
  }

  /** The same for the bytes that copying takes. */
  ghost predicate Packed(m: Mem, space: Region, free: int) {
    && (forall a :: a in m && space.Has(a) ==> a + CopySize(m[a]) <= free)
    && (forall a, b :: a in m && b in m && space.Has(a) && space.Has(b) && a < b ==> a + CopySize(m[a]) <= b)
  }

  /** No slot belongs to two objects. */
  lemma SlotsApart(m: Mem, space: Region, free: int, a: int, b: int, j: int, k: int)
    requires Laid(m, space, free) && a in m && b in m && space.Has(a) && space.Has(b)
    requires 0 <= j < |Slots(m[a])| && 0 <= k < |Slots(m[b])|
    ensures SlotAt(a, j) + WORD <= free
    ensures SlotAt(a, j) == SlotAt(b, k) ==> a == b && j == k
  {
    SlotsInside(m[a]);
    SlotsInside(m[b]);
  }

  /** Changing contents and no sizes leaves everything where it is. */
  lemma LaidStays(m: Mem, n: Mem, space: Region, free: int)
    requires Laid(m, space, free) && n.Keys == m.Keys && forall a :: a in m ==> End(n[a]) == End(m[a])
    ensures Laid(n, space, free)
  {
  }

  lemma PackedIsLaid(m: Mem, space: Region, free: int)
    requires HeapOk(m, space) && Packed(m, space, free)
    ensures Laid(m, space, free)
  {
    forall a | a in m ensures End(m[a]) <= CopySize(m[a]) {
      assert ObjOk(m, space, m[a]);
      FieldsFit(m[a]);
    }
  }

  lemma SoundIsOk(s: State)
    requires Sound(s)
    ensures HeapOk(s.mem, s.space)
  {
  }

  // ----- allocation -----------------------------------------------------------------

  /** An object for which enough is asked lies behind all others and gets in no one's way. */
  lemma AllocLaid(m: Mem, space: Region, free: int, o: Obj, size: int)
    requires Laid(m, space, free) && End(o) <= size
    requires forall a :: a in m && space.Has(a) ==> a < free
    ensures Laid(m[free := o], space, free + Aligned(size))
  {
  }

  /** Allocation charges the size of the object's own type and copying, for most types, that of
      the union of all: a new object leaves the space ready to be copied in place exactly when
      it was and no more is copied for the object than was allocated. */
  lemma AllocPacked(m: Mem, space: Region, free: int, o: Obj, size: int)
    requires size > 0 && space.Has(free) && forall a :: a in m && space.Has(a) ==> a < free
    ensures Packed(m[free := o], space, free + Aligned(size)) <==> Packed(m, space, free) && CopySize(o) <= Aligned(size)
  {
    var n := m[free := o];
    if Packed(n, space, free + Aligned(size)) {
      forall a | a in m && space.Has(a) ensures a + CopySize(m[a]) <= free {
        assert a in n && free in n && n[a] == m[a];
      }
      assert free in n;
    }
  }

  /** So it is not for a new array: 40 bytes are allocated for it and 48 are copied. */
  lemma NewArrayOverlapsItsCopy(m: Mem, space: Region, free: int, cls: int)
    requires space.Has(free) && forall a :: a in m && space.Has(a) ==> a < free
    ensures !Packed(m[free := Arr(cls, 0, 0, 0)], space, free + Aligned(ARR_SIZE))
  {
    AllocPacked(m, space, free, Arr(cls, 0, 0, 0), ARR_SIZE);
  }

  // ----- after a scavenge -----------------------------------------------------------

  /** The copies stand one behind the other, each in the bytes that were charged for it. */
  lemma CopiesPacked(l: Ledger, mem: Mem, free: int, t: Mem)
    requires Copying(l, mem, free) && forall a :: a in t && To(l).Has(a) ==> a in mem && t[a] == mem[a]
    ensures Packed(t, To(l), free)
  {
    hide Reach, HeapOk, Outside, Fresh, Placed;
    forall a | a in t && To(l).Has(a) ensures a + CopySize(t[a]) <= free {
      var k := CopyIndex(l, mem, free, a);
      assert l.place[k + 1] <= l.place[|l.order|];
    }
    forall a, b | a in t && b in t && To(l).Has(a) && To(l).Has(b) && a < b ensures a + CopySize(t[a]) <= b {
      var j := CopyIndex(l, mem, free, a);
      var k := CopyIndex(l, mem, free, b);
      assert l.place[j + 1] <= l.place[k];
    }
  }

  lemma CopyIndex(l: Ledger, mem: Mem, free: int, a: int) returns (k: nat)
    requires Copying(l, mem, free) && a in mem && To(l).Has(a)
    ensures k < |l.order| == |l.place| - 1 && l.place[k] == a && l.place[k + 1] == a + CopySize(mem[a])
  {
    hide Reach, HeapOk, Outside, Fresh, Placed;
    k :| 0 <= k < |l.order| && l.place[..|l.order|][k] == a;
    assert Entry(l, mem, k);
  }
}
