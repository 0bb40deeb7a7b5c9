/** What the mutator sees of the heap: memory and the four kinds of roots, as a
    value, and what it means for one such state to be another one renamed. */
module HeapState {
  import opened KekObjects
  import opened HeapGraph
  import opened CopyLedger

  datatype State = State(
    mem: Mem, space: Region, consts: Region,
    statics: seq<Word>, locals: seq<Word>, constArrs: seq<int>, stack: seq<Word>)

  /** A word a static variable or a registered local may hold. */
  ghost predicate Plain(m: Mem, w: Word) {
    w.Ptr? ==> w.at in m && !Unmoved(m[w.at])
  }

  ghost predicate ConstArr(s: State, c: int) {
    && s.consts.Has(c) && c in s.mem && s.mem[c].Arr? && s.mem[c].elems != 0
  }

  ghost predicate RootsOk(s: State) {
    && (forall i :: 0 <= i < |s.statics| ==> Plain(s.mem, s.statics[i]))
    && (forall i :: 0 <= i < |s.locals| ==> s.locals[i].Ptr? && Plain(s.mem, s.locals[i]))
    && (forall i :: 0 <= i < |s.stack| && s.stack[i].Ptr? ==> s.stack[i].at in s.mem)
    && (forall i :: 0 <= i < |s.constArrs| ==> ConstArr(s, s.constArrs[i]))
    && (forall i, j :: 0 <= i < j < |s.constArrs| ==> s.constArrs[i] != s.constArrs[j])
    // the constant table holds no other object with pointers in it; arrays get their blocks
    // one after the other when the table is initialised
    && (forall c :: c in s.mem && s.consts.Has(c) ==>
          if s.mem[c].Arr? then s.mem[c].elems == 0 || c in s.constArrs else Slots(s.mem[c]) == [])
  }

  /** No two arrays share an element block. */
  ghost predicate Unshared(m: Mem) {
    forall a, b :: a in m && b in m && m[a].Arr? && m[b].Arr? && m[a].elems == m[b].elems != 0 ==> a == b
  }

  ghost predicate Sound(s: State) {
    Placed(s.mem, s.space, s.consts) && HeapOk(s.mem, s.space) && RootsOk(s) && Unshared(s.mem)
  }

  /** The heap objects the roots name. */
  ghost function RootSet(s: State): set<int> {
    set a | a in s.mem && s.space.Has(a)
      && (Ptr(a) in s.statics || Ptr(a) in s.locals || Ptr(a) in s.stack
          || exists c :: c in s.constArrs && c in s.mem && s.mem[c].Arr? && s.mem[c].elems == a + HDR)
  }

  ghost function Live(s: State): set<int> {
    ReachSet(s.mem, s.space, RootSet(s))
  }

  /** The words of `t` are those of `s` renamed. */
  ghost predicate Renamed(s: seq<Word>, t: seq<Word>, f: map<int, int>) {
    |t| == |s| && forall i :: 0 <= i < |s| ==> t[i] == MapWord(s[i], f)
  }

  /** `t` is `s` after a collection that moved the objects as `f` says: exactly the
      live objects were moved, no two to one place, each is as it was with its
      pointers renamed, and so is every root. */
  ghost predicate Moved(s: State, t: State, f: map<int, int>) {
    && f.Keys == Live(s) && Injective(f)
    && t.consts == s.consts && t.constArrs == s.constArrs
    && Renamed(s.statics, t.statics, f) && Renamed(s.locals, t.locals, f) && Renamed(s.stack, t.stack, f)
    && (forall a :: a in f ==> t.space.Has(f[a]) && f[a] in t.mem && t.mem[f[a]] == Image(s.mem[a], f))
    && (forall a :: a in s.mem && !s.space.Has(a) ==> a in t.mem && t.mem[a] == Image(s.mem[a], f))
    && (forall a :: a in t.mem ==>
          (a in s.mem && !s.space.Has(a)) || (exists b :: b in f && f[b] == a))
  }

  lemma LiveIsClosed(s: State, a: int, b: int)
    requires a in Live(s) && b in Refs(s.mem[a]) && b in s.mem && s.space.Has(b)
    ensures b in Live(s)
  {
    StepReach(s.mem, s.space, RootSet(s), a, b);
  }

  /** Roots are live. */
  lemma RootsAreLive(s: State)
    ensures forall a :: a in RootSet(s) ==> a in Live(s)
  {
    forall a | a in RootSet(s) ensures a in Live(s) {
      RootReach(s.mem, s.space, RootSet(s), a);
    }
  }

  ghost predicate Vacant(m: Mem, r: Region) {
    forall a :: a in m ==> !r.Has(a)
  }

  /** Where an address of `s` is found in `t`. */
  lemma MovedAddr(s: State, t: State, f: map<int, int>, a: int)
    requires Moved(s, t, f) && a in s.mem
    requires s.space.Has(a) ==> a in Live(s)
    ensures MapAddr(a, f) in t.mem && t.mem[MapAddr(a, f)] == Image(s.mem[a], f)
    ensures s.space.Has(a) ==> a in f && t.space.Has(f[a])
    ensures !s.space.Has(a) && (forall b :: b in f ==> s.space.Has(b)) ==> MapAddr(a, f) == a
  {
    hide Live, HeapGraph.Reach;
  }

  lemma LiveInSpace(s: State, a: int)
    requires a in Live(s)
    ensures a in s.mem && s.space.Has(a)
  {
    var p :| IsPath(s.mem, s.space, RootSet(s), p) && p[|p| - 1] == a;
    if |p| > 1 {
      assert Edge(s.mem, s.space, p[|p| - 2], p[|p| - 1]);
    }
  }

  /** The pointers of an image, traced back. */
  lemma ImageRefs(o: Obj, f: map<int, int>, b: int)
    requires b in Refs(Image(o, f))
    requires forall a :: a in f ==> f[a] != 0 - HDR
    ensures exists a :: a in Refs(o) && b == MapAddr(a, f)
  {
    if o.Arr? {
      assert BlockOf(o.elems) in Refs(o);
    } else {
      var i :| 0 <= i < |Slots(o)| && i < Traced(o) && Slots(Image(o, f))[i] == Ptr(b);
      assert Slots(o)[i].at in Refs(o);
    }
  }

  /** Objects a scavenge keeps: the live ones and those outside the heap. */
  ghost predicate Kept(s: State, a: int) {
    a in s.mem && (s.space.Has(a) ==> a in Live(s))
  }

  /** A kept object refers only to kept objects. */
  lemma KeptRefs(s: State, a: int, b: int)
    requires Sound(s) && Kept(s, a) && b in Refs(s.mem[a])
    requires !s.space.Has(a) ==> s.consts.Has(a) || Unmoved(s.mem[a])
    ensures Kept(s, b) && !Unmoved(s.mem[b])
  {
    assert ObjOk(s.mem, s.space, s.mem[a]);
    if s.space.Has(b) {
      if s.space.Has(a) {
        LiveIsClosed(s, a, b);
      } else {
        assert s.mem[a].elems == b + HDR;
        assert b in RootSet(s);
        RootsAreLive(s);
      }
    }
  }

  lemma ImageRefsKept(s: State, t: State, f: map<int, int>, a: int)
    requires Sound(s) && Moved(s, t, f) && Kept(s, a)
    requires !s.space.Has(a) ==> s.consts.Has(a) || Unmoved(s.mem[a])
    requires t.space.lo > 0
    ensures forall b :: b in Refs(Image(s.mem[a], f)) ==> b in t.mem && !Unmoved(t.mem[b])
  {
    hide Live, HeapGraph.Reach, Sound, CopyLedger.ObjOk;
    var o := s.mem[a];
    forall b | b in Refs(Image(o, f)) ensures b in t.mem && !Unmoved(t.mem[b]) {
      ImageRefs(o, f, b);
      var x :| x in Refs(o) && b == MapAddr(x, f);
      KeptRefs(s, a, x);
      MovedAddr(s, t, f, x);
    }
  }

  lemma ImageOk(s: State, t: State, f: map<int, int>, a: int)
    requires Sound(s) && Moved(s, t, f) && Kept(s, a)
    requires !s.space.Has(a) ==> s.consts.Has(a) || Unmoved(s.mem[a])
    requires t.space.lo > 0 && Vacant(s.mem, t.space)
    ensures ObjOk(t.mem, t.space, Image(s.mem[a], f))
  {
    hide Live, HeapGraph.Reach;
    var o := s.mem[a];
    ImageRefsKept(s, t, f, a);
    if o.Arr? && o.elems != 0 { BlockOk(s, t, f, a); }
    assert ObjOk(s.mem, s.space, o);
    if o.ArrObjs? {
      forall i | o.len <= i < o.cap ensures NilWord(t.mem, t.space, Slots(Image(o, f))[i]) {
        assert NilWord(s.mem, s.space, o.slots[i]);
        NilStays(s, t, f, o.slots[i].at);
      }
    }
  }

  lemma NilStays(s: State, t: State, f: map<int, int>, n: int)
    requires Sound(s) && Moved(s, t, f) && n in s.mem && !s.space.Has(n) && s.mem[n].Nil?
    requires Vacant(s.mem, t.space)
    ensures n in t.mem && t.mem[n].Nil? && !t.space.Has(n)
  {
    assert MapPrefix(Slots(s.mem[n]), Traced(s.mem[n]), f) == [];
  }

  lemma BlockOk(s: State, t: State, f: map<int, int>, a: int)
    requires Sound(s) && Moved(s, t, f) && Kept(s, a) && s.mem[a].Arr? && s.mem[a].elems != 0
    requires !s.space.Has(a) ==> s.consts.Has(a)
    ensures Owns(t.mem, t.space, Image(s.mem[a], f))
  {
    hide Live, HeapGraph.Reach;
    var b := BlockOf(s.mem[a].elems);
    assert ObjOk(s.mem, s.space, s.mem[a]);
    assert b in Refs(s.mem[a]);
    KeptRefs(s, a, b);
    MovedAddr(s, t, f, b);
  }

  lemma WordStaysPlain(s: State, t: State, f: map<int, int>, w: Word)
    requires Moved(s, t, f) && Plain(s.mem, w)
    requires w.Ptr? && s.space.Has(w.at) ==> w.at in Live(s)
    ensures Plain(t.mem, MapWord(w, f))
  {
    hide Live, HeapGraph.Reach;
    if w.Ptr? { MovedAddr(s, t, f, w.at); }
  }

  /** A collection keeps the heap sound. */
  lemma MovedKeepsSound(s: State, t: State, f: map<int, int>)
    requires Sound(s) && Moved(s, t, f) && Vacant(s.mem, t.space)
    requires Apart(t.space, t.consts) && Apart(s.space, s.consts) && t.space.lo > 0
    ensures Sound(t)
  {
    hide Live, HeapGraph.Reach;
    forall x | x in f ensures s.space.Has(x) && x in s.mem { LiveInSpace(s, x); }
    RootsAreLive(s);
    MovedKeepsPlaced(s, t, f);
    forall a | a in t.mem ensures ObjOk(t.mem, t.space, t.mem[a]) {
      if a in s.mem && !s.space.Has(a) {
        ImageOk(s, t, f, a);
      } else {
        var b :| b in f && f[b] == a;
        ImageOk(s, t, f, b);
      }
    }
    MovedKeepsRoots(s, t, f);
    MovedKeepsUnshared(s, t, f);
  }

  lemma MovedKeepsUnshared(s: State, t: State, f: map<int, int>)
    requires Sound(s) && Moved(s, t, f)
    requires Vacant(s.mem, t.space)
    ensures Unshared(t.mem)
  {
    hide Live, HeapGraph.Reach;
    forall a, b | a in t.mem && b in t.mem && t.mem[a].Arr? && t.mem[b].Arr? && t.mem[a].elems == t.mem[b].elems != 0
      ensures a == b
    {
      var x := Origin(s, t, f, a);
      var y := Origin(s, t, f, b);
      assert ObjOk(s.mem, s.space, s.mem[x]) && ObjOk(s.mem, s.space, s.mem[y]);
      assert BlockOf(s.mem[x].elems) in Refs(s.mem[x]) && BlockOf(s.mem[y].elems) in Refs(s.mem[y]);
      KeptRefs(s, x, BlockOf(s.mem[x].elems));
      KeptRefs(s, y, BlockOf(s.mem[y].elems));
      assert s.mem[x].elems == s.mem[y].elems;
    }
  }

  /** The object of `s` that an array of `t` comes from. */
  lemma Origin(s: State, t: State, f: map<int, int>, a: int) returns (x: int)
    requires Sound(s) && Moved(s, t, f) && a in t.mem && t.mem[a].Arr?
    ensures Kept(s, x) && a == MapAddr(x, f) && s.mem[x].Arr? && t.mem[a] == Image(s.mem[x], f)
    ensures !s.space.Has(x) ==> s.consts.Has(x)
    ensures t.mem[a].elems != 0 ==> s.mem[x].elems != 0
  {
    hide HeapGraph.Reach;
    if a in s.mem && !s.space.Has(a) {
      x := a;
      if a in f { LiveInSpace(s, a); }
    } else {
      x :| x in f && f[x] == a;
      LiveInSpace(s, x);
    }
  }

  lemma MovedKeepsPlaced(s: State, t: State, f: map<int, int>)
    requires Sound(s) && Moved(s, t, f) && Vacant(s.mem, t.space)
    requires Apart(t.space, t.consts)
    ensures Placed(t.mem, t.space, t.consts)
  {
    hide Live, HeapGraph.Reach;
    forall a | a in t.mem
      ensures if Unmoved(t.mem[a]) then !t.space.Has(a) && !t.consts.Has(a) else t.space.Has(a) || t.consts.Has(a)
    {
      if a in s.mem && !s.space.Has(a) {
      } else {
        var b :| b in f && f[b] == a;
        LiveInSpace(s, b);
      }
    }
  }

  lemma MovedKeepsRoots(s: State, t: State, f: map<int, int>)
    requires Sound(s) && Moved(s, t, f) && Vacant(s.mem, t.space)
    requires Apart(t.space, t.consts) && Apart(s.space, s.consts) && t.space.lo > 0
    ensures RootsOk(t)
  {
    hide Live, HeapGraph.Reach;
    forall x | x in f ensures s.space.Has(x) && x in s.mem { LiveInSpace(s, x); }
    RootsAreLive(s);
    forall i | 0 <= i < |t.statics| ensures Plain(t.mem, t.statics[i]) {
      assert s.statics[i] in s.statics;
      WordStaysPlain(s, t, f, s.statics[i]);
    }
    forall i | 0 <= i < |t.locals| ensures t.locals[i].Ptr? && Plain(t.mem, t.locals[i]) {
      assert s.locals[i] in s.locals;
      WordStaysPlain(s, t, f, s.locals[i]);
    }
    forall i | 0 <= i < |t.stack| && t.stack[i].Ptr? ensures t.stack[i].at in t.mem {
      assert s.stack[i] in s.stack;
      MovedAddr(s, t, f, s.stack[i].at);
    }
    forall i | 0 <= i < |t.constArrs| ensures ConstArr(t, t.constArrs[i]) {
      ConstArrMoved(s, t, f, s.constArrs[i]);
    }
    forall c | c in t.mem && t.consts.Has(c)
      ensures if t.mem[c].Arr? then t.mem[c].elems == 0 || c in t.constArrs else Slots(t.mem[c]) == []
    {
      assert c in s.mem && !s.space.Has(c);
    }
  }

  lemma ConstArrMoved(s: State, t: State, f: map<int, int>, c: int)
    requires Sound(s) && Moved(s, t, f) && c in s.constArrs
    requires Apart(s.space, s.consts) && t.space.lo > 0
    ensures ConstArr(t, c)
  {
    hide Live, HeapGraph.Reach;
    var i :| 0 <= i < |s.constArrs| && s.constArrs[i] == c;
    assert ConstArr(s, s.constArrs[i]);
    var b := BlockOf(s.mem[c].elems);
    assert ObjOk(s.mem, s.space, s.mem[c]);
    assert b in RootSet(s);
    RootsAreLive(s);
    assert t.space.Has(f[b]);
  }

  // ----- what a finished scavenge has done -------------------------------------

  /** `l` are the books of a scavenge of `s`. */
  ghost predicate BooksOf(s: State, l: Ledger) {
    l.before == s.mem && l.from == s.space && l.consts == s.consts && l.roots == RootSet(s)
  }

  /** All roots have been forwarded. */
  ghost predicate RootsDone(s: State, t: State, l: Ledger, mem: Mem) {
    && WordsDone(s.statics, t.statics, 0, |s.statics|, l)
    && WordsDone(s.locals, t.locals, 0, |s.locals|, l)
    && WordsDone(s.stack, t.stack, 0, |s.stack|, l)
    && ConstRoots(s.constArrs, l) && ConstsDone(s.constArrs, |s.constArrs|, l, mem)
    && (forall c :: c in s.mem && !s.space.Has(c) && c !in s.constArrs ==> c in mem && mem[c] == s.mem[c])
  }

  /** Once everything is scanned, forwarded objects refer to forwarded objects. */
  lemma ForwardedIsClosed(l: Ledger, x: int, y: int)
    requires ScannedUpTo(l, |l.order|) && (forall a :: a in l.fwd ==> a in l.order)
    requires x in l.fwd && Edge(l.before, l.from, x, y)
    ensures y in l.fwd
  {
    hide HeapGraph.Edge;
    var k :| 0 <= k < |l.order| && l.order[k] == x;
    assert Scanned(l, k);
  }

  /** At the end the forwarded objects are exactly the live ones. */
  lemma ForwardedAreLive(s: State, t: State, l: Ledger, mem: Mem, free: int)
    requires BooksOf(s, l) && Copying(l, mem, free)
    requires ScannedUpTo(l, |l.order|) && RootsDone(s, t, l, mem)
    ensures l.fwd.Keys == Live(s)
  {
    hide HeapGraph.Edge, HeapGraph.Reach, CopyLedger.ScannedUpTo, RootsDone, RootSet;
    ForwardedFromHeap(l, mem, free);
    assert forall a :: a in l.fwd ==> a in l.order;
    hide CopyLedger.Copying;
    forall a | a in l.fwd ensures a in Live(s) {
      assert Reach(l.before, l.from, l.roots, a);
    }
    forall a | a in RootSet(s) ensures a in l.fwd {
      RootForwarded(s, t, l, mem, a);
    }
    forall x, y | x in l.fwd.Keys && Edge(s.mem, s.space, x, y) ensures y in l.fwd.Keys {
      ForwardedIsClosed(l, x, y);
    }
    forall a | a in Live(s) ensures a in l.fwd {
      ClosedHoldsReach(s.mem, s.space, RootSet(s), l.fwd.Keys, a);
    }
  }

  lemma RootForwarded(s: State, t: State, l: Ledger, mem: Mem, a: int)
    requires BooksOf(s, l) && RootsDone(s, t, l, mem) && a in RootSet(s)
    ensures a in l.fwd
  {
    if Ptr(a) in s.statics {
      var i :| 0 <= i < |s.statics| && s.statics[i] == Ptr(a);
    } else if Ptr(a) in s.locals {
      var i :| 0 <= i < |s.locals| && s.locals[i] == Ptr(a);
    } else if Ptr(a) in s.stack {
      var i :| 0 <= i < |s.stack| && s.stack[i] == Ptr(a);
    } else {
      var c :| c in s.constArrs && c in s.mem && s.mem[c].Arr? && s.mem[c].elems == a + HDR;
      var i :| 0 <= i < |s.constArrs| && s.constArrs[i] == c;
      assert BlockOf(l.before[s.constArrs[i]].elems) == a;
    }
  }

  lemma OutsideMoved(s: State, t: State, l: Ledger, mem: Mem, c: int)
    requires BooksOf(s, l) && RootsOk(s) && RootsDone(s, t, l, mem)
    requires Placed(s.mem, s.space, s.consts)
    requires c in s.mem && !s.space.Has(c)
    ensures c in mem && mem[c] == Image(s.mem[c], l.fwd)
  {
    if c in s.constArrs {
      var i :| 0 <= i < |s.constArrs| && s.constArrs[i] == c;
    } else {
      assert Slots(s.mem[c]) == [];
      assert MapPrefix(Slots(s.mem[c]), Traced(s.mem[c]), l.fwd) == [];
    }
  }

  /** The finished scavenge moved exactly the live objects. */
  lemma MovedTo(s: State, t: State, l: Ledger, mem: Mem, free: int, a: int)
    requires BooksOf(s, l) && Copying(l, mem, free) && ScannedUpTo(l, |l.order|) && a in l.fwd
    requires t.space == To(l) && t.mem == map b | b in mem && !s.space.Has(b) :: mem[b]
    ensures a in s.mem && t.space.Has(l.fwd[a]) && l.fwd[a] in t.mem && t.mem[l.fwd[a]] == Image(s.mem[a], l.fwd)
  {
    hide HeapGraph.Reach, HeapOk, Fresh, Outside, Placed;
    var k :| 0 <= k < |l.order| && l.order[k] == a;
    assert Entry(l, mem, k) && Scanned(l, k);
    assert l.place[0] <= l.place[k] < l.place[|l.order|];
  }

  lemma FinishMoved(s: State, t: State, l: Ledger, mem: Mem, free: int)
    requires BooksOf(s, l) && Sound(s) && Copying(l, mem, free)
    requires ScannedUpTo(l, |l.order|) && RootsDone(s, t, l, mem)
    requires t.space == To(l) && t.consts == s.consts && t.constArrs == s.constArrs
    requires t.mem == map a | a in mem && !s.space.Has(a) :: mem[a]
    ensures Moved(s, t, l.fwd)
  {
    hide Live, HeapGraph.Reach;
    ForwardedAreLive(s, t, l, mem, free);
    Distinct(l, mem, free);
    ForwardedFromHeap(l, mem, free);
    forall a | a in l.fwd
      ensures t.space.Has(l.fwd[a]) && l.fwd[a] in t.mem && t.mem[l.fwd[a]] == Image(s.mem[a], l.fwd)
    {
      MovedTo(s, t, l, mem, free, a);
    }
    forall c | c in s.mem && !s.space.Has(c)
      ensures c in t.mem && t.mem[c] == Image(s.mem[c], l.fwd)
    {
      OutsideMoved(s, t, l, mem, c);
    }
    forall a | a in t.mem
      ensures (a in s.mem && !s.space.Has(a)) || (exists b :: b in l.fwd && l.fwd[b] == a)
    {
      if t.space.Has(a) {
        var k :| 0 <= k < |l.order| && l.place[..|l.order|][k] == a;
        assert Entry(l, mem, k);
        assert l.fwd[l.order[k]] == a;
      }
    }
  }

  // ----- space -------------------------------------------------------------------

  /** The space the live objects take once copied. */
  ghost function LiveBytes(s: State): int {
    assert Live(s) <= s.mem.Keys;
    Bytes(s.mem, Live(s))
  }

  lemma CopiedBytes(l: Ledger, mem: Mem, free: int)
    requires Copying(l, mem, free)
    ensures l.fwd.Keys <= l.before.Keys && free - l.base == Bytes(l.before, l.fwd.Keys)
  {
    hide HeapGraph.Reach;
    var n := |l.order|;
    Distinct(l, mem, free);
    ForwardedFromHeap(l, mem, free);
    forall k | 0 <= k < n
      ensures l.order[k] in l.fwd && l.order[k] in l.before
      ensures l.place[k + 1] == l.place[k] + CopySize(l.before[l.order[k]])
    {
      assert Entry(l, mem, k);
    }
    PlaceIsBytes(l, n);
    var taken := set k | 0 <= k < n :: l.order[k];
    forall a | a in l.fwd ensures a in taken {
      var k :| 0 <= k < n && l.order[k] == a;
    }
    assert taken == l.fwd.Keys;
  }

  lemma HeapSizesPositive(h: Mem, r: Region)
    requires HeapOk(h, r)
    ensures forall a :: a in h ==> CopySize(h[a]) > 0
  {
    forall a | a in h ensures CopySize(h[a]) > 0 {
      assert ObjOk(h, r, h[a]);
      CopySizePositive(h[a]);
    }
  }

  /** The object that does not fit shows the live objects do not. */
  lemma StuckMeansFull(s: State, l: Ledger, mem: Mem, free: int, stuck: int)
    requires BooksOf(s, l) && Copying(l, mem, free)
    requires stuck in l.before && stuck !in l.fwd && Reach(l.before, l.from, l.roots, stuck)
    requires free + CopySize(l.before[stuck]) >= l.base + SEGMENT
    ensures LiveBytes(s) >= SEGMENT
  {
    hide HeapGraph.Reach, RootSet;
    CopiedBytes(l, mem, free);
    ForwardedFromHeap(l, mem, free);
    HeapSizesPositive(l.before, l.from);
    hide CopyLedger.Copying;
    var some := l.fwd.Keys + {stuck};
    assert some - {stuck} == l.fwd.Keys;
    BytesTake(s.mem, some, stuck);
    forall a | a in some ensures a in Live(s) {
      assert Reach(l.before, l.from, l.roots, a);
    }
    BytesMonotone(s.mem, some, Live(s));
  }

  // ----- between the phases of a scavenge --------------------------------------

  lemma GrowsKeepsBooks(s: State, l: Ledger, m: Ledger)
    requires BooksOf(s, l) && Grows(l, m, -1)
    ensures BooksOf(s, m) && Extends(l.fwd, m.fwd) && m.base == l.base
  {
  }

  lemma AreasAreRoots(s: State, l: Ledger)
    requires BooksOf(s, l) && Sound(s)
    ensures RootWords(s.statics, l) && RootWords(s.locals, l) && RootWords(s.stack, l)
    ensures forall i :: 0 <= i < |s.statics| && s.statics[i].Ptr? ==> !Unmoved(l.before[s.statics[i].at])
    ensures forall i :: 0 <= i < |s.locals| ==> s.locals[i].Ptr? && !Unmoved(l.before[s.locals[i].at])
  {
    forall i | 0 <= i < |s.statics| && s.statics[i].Ptr? && s.space.Has(s.statics[i].at)
      ensures s.statics[i].at in l.roots
    {
      assert s.statics[i] in s.statics;
    }
    forall i | 0 <= i < |s.locals| && s.space.Has(s.locals[i].at)
      ensures s.locals[i].at in l.roots
    {
      assert s.locals[i] in s.locals;
    }
    forall i | 0 <= i < |s.stack| && s.stack[i].Ptr? && s.space.Has(s.stack[i].at)
      ensures s.stack[i].at in l.roots
    {
      assert s.stack[i] in s.stack;
    }
  }

  lemma ConstsAreRoots(s: State, l: Ledger)
    requires BooksOf(s, l) && Sound(s)
    ensures ConstRoots(s.constArrs, l)
  {
    forall i | 0 <= i < |s.constArrs|
      ensures var c := s.constArrs[i];
        && c in l.before && l.consts.Has(c) && l.before[c].Arr? && l.before[c].elems != 0
        && var b := BlockOf(l.before[c].elems);
           b in l.before && l.before[b].ArrObjs? && l.from.Has(b) && b in l.roots
    {
      var c := s.constArrs[i];
      assert ConstArr(s, c) && ObjOk(s.mem, s.space, s.mem[c]);
      assert c in s.constArrs && s.mem[c].elems == BlockOf(s.mem[c].elems) + HDR;
    }
  }

  /** Memory outside both spaces after another step. */
  ghost predicate SameOutside(l: Ledger, m0: Mem, m1: Mem) {
    forall c :: c in m0 && !l.from.Has(c) && !To(l).Has(c) ==> c in m1 && m1[c] == m0[c]
  }

  lemma RootsStayDone(s: State, t: State, l: Ledger, m: Ledger, m0: Mem, m1: Mem, free: int)
    requires BooksOf(s, l) && Sound(s) && RootsDone(s, t, l, m0)
    requires BooksOf(s, m) && Extends(l.fwd, m.fwd) && m.base == l.base
    requires Copying(m, m1, free) && SameOutside(m, m0, m1)
    ensures RootsDone(s, t, m, m1)
  {
    ForwardedFromHeap(m, m1, free);
    WordsStayDone(s.statics, t.statics, 0, |s.statics|, l, m);
    WordsStayDone(s.locals, t.locals, 0, |s.locals|, l, m);
    WordsStayDone(s.stack, t.stack, 0, |s.stack|, l, m);
    ConstsAreRoots(s, m);
    ConstsStayDone(s.constArrs, l, m, m0, m1);
  }

  lemma ConstsUntouched(s: State, l: Ledger, m: Mem)
    requires BooksOf(s, l) && ConstRoots(s.constArrs, l) && SameOutside(l, s.mem, m)
    requires forall c :: l.consts.Has(c) ==> !l.from.Has(c) && !To(l).Has(c)
    ensures ConstsDone(s.constArrs, 0, l, m)
  {
  }

  /** The four phases together: statics forwarded by `l1`, locals by `l2`, the
      constant arrays by `l3` and the stack by `l4`. */
  lemma PhasesMakeRootsDone(s: State, t: State, l1: Ledger, l2: Ledger, l3: Ledger, l4: Ledger, m3: Mem, m4: Mem, free: int)
    requires BooksOf(s, l1) && BooksOf(s, l2) && BooksOf(s, l3) && BooksOf(s, l4) && Sound(s)
    requires l3.base == l4.base
    requires Extends(l1.fwd, l2.fwd) && Extends(l2.fwd, l3.fwd) && Extends(l3.fwd, l4.fwd)
    requires Copying(l4, m4, free) && SameOutside(l4, m3, m4)
    requires WordsDone(s.statics, t.statics, 0, |s.statics|, l1)
    requires WordsDone(s.locals, t.locals, 0, |s.locals|, l2)
    requires ConstRoots(s.constArrs, l3) && ConstsDone(s.constArrs, |s.constArrs|, l3, m3)
    requires WordsDone(s.stack, t.stack, 0, |s.stack|, l4)
    requires forall c :: c in s.mem && !s.space.Has(c) && !To(l4).Has(c) && c !in s.constArrs ==>
      c in m4 && m4[c] == s.mem[c]
    ensures RootsDone(s, t, l4, m4)
  {
    ForwardedFromHeap(l4, m4, free);
    ConstsElsewhere(l4, m4, free);
    ConstsAreRoots(s, l4);
    var sp := s.constArrs;
    assert forall c :: c in s.mem ==> !To(l4).Has(c);
    assert Apart(l4.consts, l4.from) && Apart(l4.consts, To(l4));
    hide CopyLedger.Copying, Sound;
    assert Extends(l1.fwd, l4.fwd) && Extends(l2.fwd, l4.fwd);
    WordsStayDone(s.statics, t.statics, 0, |s.statics|, l1, l4);
    WordsStayDone(s.locals, t.locals, 0, |s.locals|, l2, l4);
    ConstsStayDone(sp, l3, l4, m3, m4);
  }

  /** The books when a scavenge begins. */
  lemma OpenBooks(s: State, base: int)
    requires Sound(s) && Vacant(s.mem, Region(base, base + SEGMENT))
    requires Apart(s.space, Region(base, base + SEGMENT)) && Apart(s.consts, s.space)
    requires Apart(s.consts, Region(base, base + SEGMENT))
    ensures var l := Ledger(s.mem, s.consts, s.space, base, RootSet(s), [], [base], [], map[]);
      Copying(l, s.mem, base) && ScannedUpTo(l, 0) && BooksOf(s, l)
  {
  }

  /** What a finished scavenge has achieved. */
  lemma FinishScavenge(s: State, t: State, l: Ledger, mem: Mem, free: int)
    requires BooksOf(s, l) && Sound(s) && Copying(l, mem, free)
    requires ScannedUpTo(l, |l.order|) && RootsDone(s, t, l, mem)
    requires t.space == To(l) && t.consts == s.consts && t.constArrs == s.constArrs && l.base > 0
    requires t.mem == map a | a in mem && !s.space.Has(a) :: mem[a]
    ensures Moved(s, t, l.fwd) && Sound(t)
    ensures free - l.base == LiveBytes(s) < SEGMENT
    ensures Vacant(t.mem, s.space) && Vacant(t.mem, Region(free, l.base + SEGMENT)) && l.base <= free
  {
    hide HeapGraph.Reach, Live, RootSet;
    FinishMoved(s, t, l, mem, free);
    ForwardedAreLive(s, t, l, mem, free);
    CopiedBytes(l, mem, free);
    SpacesStayApart(l, mem, free);
    MovedKeepsSound(s, t, l.fwd);
  }

  lemma SpacesStayApart(l: Ledger, mem: Mem, free: int)
    requires Copying(l, mem, free)
    ensures Vacant(l.before, To(l)) && Apart(To(l), l.consts) && Apart(l.from, l.consts)
    ensures forall a :: a in mem && To(l).Has(a) ==> a < free
    ensures l.base <= free
  {
    forall a | a in mem && To(l).Has(a) ensures a < free {
      var k :| 0 <= k < |l.order| && l.place[..|l.order|][k] == a;
      assert l.place[k] < l.place[|l.order|];
    }
    if |l.order| > 0 { assert l.place[0] < l.place[|l.order|]; }
  }

  lemma RootsDoneAreas(s: State, t: State, u: State, l: Ledger, mem: Mem)
    requires RootsDone(s, t, l, mem)
    requires u.statics == t.statics && u.locals == t.locals && u.stack == t.stack
    ensures RootsDone(s, u, l, mem)
  {
  }

  // ----- allocation ----------------------------------------------------------------

  /** An object as an allocator leaves it: its pointers are NULL or nil. */
  ghost predicate Blank(s: State, o: Obj) {
    && !Unmoved(o) && !o.Copied?
    && (o.Arr? ==> o.elems == 0)
    && (o.ArrObjs? ==> 0 <= o.len <= o.cap == |o.slots|)
    && (forall i :: 0 <= i < |Slots(o)| ==> Slots(o)[i] == Null || NilWord(s.mem, s.space, Slots(o)[i]))
    && (o.ArrObjs? ==> forall i :: 0 <= i < |o.slots| ==> o.slots[i] != Null)
  }

  lemma AllocKeepsSound(s: State, at: int, o: Obj)
    requires Sound(s) && s.space.Has(at) && !s.consts.Has(at) && at !in s.mem && Blank(s, o)
    ensures Sound(s.(mem := s.mem[at := o]))
  {
    var m := s.mem[at := o];
    forall a | a in m ensures ObjOk(m, s.space, m[a]) {
      if a == at {
        forall i | 0 <= i < |Slots(o)| && Slots(o)[i] != Null ensures NilWord(m, s.space, Slots(o)[i]) {
          assert NilWord(s.mem, s.space, Slots(o)[i]);
        }
        if o.ArrObjs? {
          forall i | o.len <= i < o.cap ensures NilWord(m, s.space, o.slots[i]) {
            assert Slots(o)[i] == o.slots[i];
          }
        }
      } else {
        assert ObjOk(s.mem, s.space, s.mem[a]);
        ObjOkGrows(s.mem, s.space, at, o, s.mem[a]);
      }
    }
    AllocKeepsRoots(s, at, o);
  }

  lemma ObjOkGrows(h: Mem, r: Region, at: int, o: Obj, p: Obj)
    requires at !in h && ObjOk(h, r, p)
    ensures ObjOk(h[at := o], r, p)
  {
    if p.ArrObjs? {
      forall i | p.len <= i < p.cap ensures NilWord(h[at := o], r, p.slots[i]) {
        assert NilWord(h, r, p.slots[i]);
      }
    }
  }

  lemma AllocKeepsRoots(s: State, at: int, o: Obj)
    requires RootsOk(s) && at !in s.mem && !s.consts.Has(at)
    ensures RootsOk(s.(mem := s.mem[at := o]))
  {
    var t := s.(mem := s.mem[at := o]);
    forall i | 0 <= i < |t.constArrs| ensures ConstArr(t, t.constArrs[i]) {
      assert ConstArr(s, s.constArrs[i]);
    }
  }

  lemma BlankStays(s: State, t: State, f: map<int, int>, o: Obj)
    requires Sound(s) && Moved(s, t, f) && Vacant(s.mem, t.space) && Blank(s, o)
    ensures Blank(t, o)
  {
    forall i | 0 <= i < |Slots(o)| && Slots(o)[i] != Null
      ensures NilWord(t.mem, t.space, Slots(o)[i])
    {
      NilStays(s, t, f, Slots(o)[i].at);
    }
  }
}
