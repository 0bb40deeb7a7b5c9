/** Related machines have the same live objects, so the space the collector needs
    can be read off the unbounded machine. */
module SimulationSpace {
  import opened KekObjects
  import opened HeapGraph
  import opened CopyLedger
  import opened HeapState
  import opened Instructions
  import opened SoundSteps
  import opened Simulation
  import opened SimulationGc

  ghost function ImageSet(r: map<int, int>, s: set<int>): set<int>
    requires s <= r.Keys
  {
    set a | a in s :: r[a]
  }

  lemma RootTwin(u: State, g: State, r: map<int, int>, a: int)
    requires Sim(u, g, r) && Sound(u) && g.space.lo > 0 && Apart(u.space, u.consts) && a in RootSet(u)
    ensures a in r && r[a] in RootSet(g)
  {
    if Ptr(a) in u.statics {
      var i :| 0 <= i < |u.statics| && u.statics[i] == Ptr(a);
      RootWordTwin(u, g, r, u.statics[i], g.statics[i]);
      assert g.statics[i] in g.statics;
    } else if Ptr(a) in u.locals {
      var i :| 0 <= i < |u.locals| && u.locals[i] == Ptr(a);
      RootWordTwin(u, g, r, u.locals[i], g.locals[i]);
      assert g.locals[i] in g.locals;
    } else if Ptr(a) in u.stack {
      var i :| 0 <= i < |u.stack| && u.stack[i] == Ptr(a);
      RootWordTwin(u, g, r, u.stack[i], g.stack[i]);
      assert g.stack[i] in g.stack;
    } else {
      var c :| c in u.constArrs && c in u.mem && u.mem[c].Arr? && u.mem[c].elems == a + HDR;
      ConstRootTwin(u, g, r, c, a);
    }
  }

  lemma RootWordTwin(u: State, g: State, r: map<int, int>, w: Word, x: Word)
    requires SimHeap(u, g, r) && SimWord(u, r, w, x) && w.Ptr? && u.space.Has(w.at)
    ensures w.at in r && x == Ptr(r[w.at]) && r[w.at] in g.mem && g.space.Has(r[w.at])
  {
    assert Mirrored(u, g, r, w.at);
  }

  lemma ConstRootTwin(u: State, g: State, r: map<int, int>, c: int, a: int)
    requires Sim(u, g, r) && Sound(u) && g.space.lo > 0 && Apart(u.space, u.consts)
    requires c in u.constArrs && c in u.mem && u.mem[c].Arr? && u.mem[c].elems == a + HDR
    requires u.space.Has(a)
    ensures a in r && r[a] in RootSet(g)
  {
    var i :| 0 <= i < |u.constArrs| && u.constArrs[i] == c;
    assert ConstArr(u, u.constArrs[i]);
    assert ObjOk(u.mem, u.space, u.mem[c]);
    assert a in Refs(u.mem[c]);
    assert Twin(u, r, c) && Mirrored(u, g, r, c);
    assert Twin(u, r, a) && Mirrored(u, g, r, a);
    assert g.mem[c].elems == r[a] + HDR;
  }

  lemma RootInMem(s: State, a: int)
    requires a in RootSet(s)
    ensures a in s.mem
  {
  }

  /** Live objects of the unbounded machine are renamed, to live ones. */
  lemma LiveForward(u: State, g: State, r: map<int, int>, a: int)
    requires Sim(u, g, r) && Sound(u) && Sound(g) && g.space.lo > 0 && Apart(u.space, u.consts)
    requires a in Live(u)
    ensures a in r && r[a] in Live(g)
  {
    hide HeapGraph.Reach, RootSet, Sound, Sim;
    var s := set x | x in r && r[x] in Live(g);
    forall x | x in RootSet(u) ensures x in s {
      RootTwin(u, g, r, x);
      RootReach(g.mem, g.space, RootSet(g), r[x]);
      assert r[x] in g.mem by { RootInMem(g, r[x]); }
    }
    forall x, y | x in s && Edge(u.mem, u.space, x, y) ensures y in s {
      EdgeForward(u, g, r, x, y);
    }
    ClosedHoldsReach(u.mem, u.space, RootSet(u), s, a);
  }

  lemma EdgeForward(u: State, g: State, r: map<int, int>, x: int, y: int)
    requires Sim(u, g, r) && Sound(g) && g.space.lo > 0
    requires x in r && r[x] in Live(g) && Edge(u.mem, u.space, x, y)
    ensures y in r && r[y] in Live(g)
  {
    hide HeapGraph.Reach, Live;
    assert Twin(u, r, x) && Mirrored(u, g, r, x);
    assert Twin(u, r, y) && Mirrored(u, g, r, y);
    BlockNotNull(u, g, r, x);
    RefImage(u.mem[x], r, y);
    LiveIsClosed(g, r[x], r[y]);
  }

  /** Every live object of the collected machine renames a live one. */
  lemma LiveBackward(u: State, g: State, r: map<int, int>, b: int)
    requires Sim(u, g, r) && Sound(u) && g.space.lo > 0 && Apart(u.space, u.consts) && Apart(g.space, g.consts) && Sound(g)
    requires b in Live(g)
    ensures exists a :: a in Live(u) && a in r && r[a] == b
  {
    hide HeapGraph.Reach, RootSet, Sound, Sim;
    forall a | a in Live(u) ensures a in r { LiveForward(u, g, r, a); }
    var s := set x | x in Live(u) :: r[x];
    forall y | y in RootSet(g) ensures y in s {
      var x := RootBackward(u, g, r, y);
      RootsAreLive(u);
    }
    forall y, z | y in s && Edge(g.mem, g.space, y, z) ensures z in s {
      var x :| x in Live(u) && r[x] == y;
      var w := EdgeBackward(u, g, r, x, z);
    }
    ClosedHoldsReach(g.mem, g.space, RootSet(g), s, b);
  }

  lemma EdgeBackward(u: State, g: State, r: map<int, int>, x: int, z: int) returns (w: int)
    requires Sim(u, g, r) && Sound(g) && g.space.lo > 0
    requires x in Live(u) && x in r && Edge(g.mem, g.space, r[x], z)
    ensures w in Live(u) && w in r && r[w] == z
  {
    hide HeapGraph.Reach, Live;
    assert Twin(u, r, x) && Mirrored(u, g, r, x);
    forall a | a in r ensures r[a] != 0 - HDR { assert Twin(u, r, a) && Mirrored(u, g, r, a); }
    ImageRefs(u.mem[x], r, z);
    w :| w in Refs(u.mem[x]) && z == MapAddr(w, r);
    assert Twin(u, r, w) && Mirrored(u, g, r, w);
    LiveIsClosed(u, x, w);
  }

  lemma RootBackward(u: State, g: State, r: map<int, int>, y: int) returns (x: int)
    requires Sim(u, g, r) && Sound(u) && g.space.lo > 0 && Apart(u.space, u.consts) && Apart(g.space, g.consts) && Sound(g)
    requires y in RootSet(g)
    ensures x in RootSet(u) && x in r && r[x] == y
  {
    if Ptr(y) in g.statics {
      var i :| 0 <= i < |g.statics| && g.statics[i] == Ptr(y);
      x := u.statics[i].at;
      assert SimWord(u, r, u.statics[i], g.statics[i]) && u.statics[i] in u.statics;
      assert Mirrored(u, g, r, x);
    } else if Ptr(y) in g.locals {
      var i :| 0 <= i < |g.locals| && g.locals[i] == Ptr(y);
      x := u.locals[i].at;
      assert SimWord(u, r, u.locals[i], g.locals[i]) && u.locals[i] in u.locals;
      assert Mirrored(u, g, r, x);
    } else if Ptr(y) in g.stack {
      var i :| 0 <= i < |g.stack| && g.stack[i] == Ptr(y);
      x := u.stack[i].at;
      assert SimWord(u, r, u.stack[i], g.stack[i]) && u.stack[i] in u.stack;
      assert Mirrored(u, g, r, x);
    } else {
      var c :| c in g.constArrs && c in g.mem && g.mem[c].Arr? && g.mem[c].elems == y + HDR;
      x := ConstRootBackward(u, g, r, c, y);
    }
  }

  lemma ConstRootBackward(u: State, g: State, r: map<int, int>, c: int, y: int) returns (x: int)
    requires Sim(u, g, r) && Sound(u) && g.space.lo > 0 && Apart(u.space, u.consts) && Apart(g.space, g.consts) && Sound(g)
    requires c in g.constArrs && c in g.mem && g.mem[c].Arr? && g.mem[c].elems == y + HDR && g.space.Has(y)
    ensures x in RootSet(u) && x in r && r[x] == y
  {
    var i :| 0 <= i < |u.constArrs| && u.constArrs[i] == c;
    assert ConstArr(u, u.constArrs[i]);
    assert ObjOk(u.mem, u.space, u.mem[c]);
    x := BlockOf(u.mem[c].elems);
    assert x in Refs(u.mem[c]);
    assert Twin(u, r, c) && Mirrored(u, g, r, c);
    assert Twin(u, r, x) && Mirrored(u, g, r, x);
    assert u.mem[c].elems == x + HDR;
  }

  lemma {:induction false} BytesImage(h: Mem, m: Mem, r: map<int, int>, s: set<int>)
    requires s <= r.Keys && s <= h.Keys && Injective(r)
    requires forall a :: a in s ==> r[a] in m && CopySize(m[r[a]]) == CopySize(h[a])
    ensures ImageSet(r, s) <= m.Keys && Bytes(m, ImageSet(r, s)) == Bytes(h, s)
    decreases s
  {
    if s != {} {
      Inhabited(s);
      var a :| a in s;
      var t := s - {a};
      BytesImage(h, m, r, t);
      assert ImageSet(r, s) - {r[a]} == ImageSet(r, t);
      BytesTake(h, s, a);
      BytesTake(m, ImageSet(r, s), r[a]);
    } else {
      assert ImageSet(r, s) == {};
    }
  }

  /** What a scavenge would have to copy is the same in both machines. */
  lemma SameLiveBytes(u: State, g: State, r: map<int, int>)
    requires Sim(u, g, r) && Sound(u) && g.space.lo > 0 && Apart(u.space, u.consts) && Apart(g.space, g.consts) && Sound(g)
    ensures LiveBytes(u) == LiveBytes(g)
  {
    hide HeapGraph.Reach, Sound;
    forall a | a in Live(u)
      ensures a in r && r[a] in Live(g) && CopySize(g.mem[r[a]]) == CopySize(u.mem[a])
    {
      LiveForward(u, g, r, a);
      assert Twin(u, r, a) && Mirrored(u, g, r, a);
      ImageKeepsSize(u.mem[a], r);
    }
    forall b | b in Live(g) ensures b in ImageSet(r, Live(u)) {
      LiveBackward(u, g, r, b);
    }
    assert ImageSet(r, Live(u)) == Live(g);
    BytesImage(u.mem, g.mem, r, Live(u));
  }
}
