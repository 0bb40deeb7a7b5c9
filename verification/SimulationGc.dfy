/** Allocation and collection keep the two machines related. */
module SimulationGc {
  import opened KekObjects
  import opened HeapGraph
  import opened CopyLedger
  import opened HeapState
  import opened Instructions
  import opened SoundSteps
  import opened Simulation

  // ----- collection -----------------------------------------------------------------------

  function Compose(r: map<int, int>, f: map<int, int>): map<int, int> {
    map a | a in r && r[a] in f :: f[r[a]]
  }

  lemma ImageCompose(o: Obj, r: map<int, int>, f: map<int, int>, q: map<int, int>)
    requires forall a :: a in Refs(o) ==> MapAddr(MapAddr(a, r), f) == MapAddr(a, q)
    requires o.Arr? && o.elems != 0 ==> MapAddr(BlockOf(o.elems), r) + HDR != 0
    ensures Image(Image(o, r), f) == Image(o, q)
  {
    if o.Arr? {
      if o.elems != 0 { assert BlockOf(o.elems) in Refs(o); }
    } else {
      var s := Slots(o);
      forall i | 0 <= i < |s| && i < Traced(o)
        ensures MapWord(MapWord(s[i], r), f) == MapWord(s[i], q)
      {
        if s[i].Ptr? { assert Slots(o)[i].at in Refs(o); }
      }
      assert MapPrefix(MapPrefix(s, Traced(o), r), Traced(o), f) == MapPrefix(s, Traced(o), q);
    }
  }

  lemma RefImage(o: Obj, r: map<int, int>, b: int)
    requires b in Refs(o)
    requires o.Arr? && o.elems != 0 ==> MapAddr(BlockOf(o.elems), r) + HDR != 0
    ensures MapAddr(b, r) in Refs(Image(o, r))
  {
    if !o.Arr? {
      var i :| 0 <= i < |Slots(o)| && i < Traced(o) && Slots(o)[i] == Ptr(b);
      assert Slots(Image(o, r))[i] == Ptr(MapAddr(b, r));
    }
  }

  /** What a collection keeps of the related objects. */
  ghost predicate KeptTwin(u: State, g: State, r: map<int, int>, a: int) {
    Twin(u, r, a) && Kept(g, MapAddr(a, r))
  }

  /** Addresses are renamed as the composition says. */
  lemma ComposeAddr(u: State, g: State, h: State, r: map<int, int>, f: map<int, int>, a: int)
    requires SimHeap(u, g, r) && Moved(g, h, f) && KeptTwin(u, g, r, a)
    ensures MapAddr(MapAddr(a, r), f) == MapAddr(a, Compose(r, f))
    ensures Twin(u, Compose(r, f), a)
  {
    hide HeapGraph.Reach;
    assert Mirrored(u, g, r, a);
    if MapAddr(a, r) in f { LiveInSpace(g, MapAddr(a, r)); }
  }

  lemma KeptTwinRefs(u: State, g: State, r: map<int, int>, a: int, b: int)
    requires SimHeap(u, g, r) && Sound(g) && g.space.lo > 0 && KeptTwin(u, g, r, a) && b in Refs(u.mem[a])
    ensures KeptTwin(u, g, r, b)
  {
    hide HeapGraph.Reach, Live;
    assert Mirrored(u, g, r, a) && Twin(u, r, b);
    BlockNotNull(u, g, r, a);
    RefImage(u.mem[a], r, b);
    KeptRefs(g, MapAddr(a, r), MapAddr(b, r));
  }

  /** A renamed block pointer is not NULL. */
  lemma BlockNotNull(u: State, g: State, r: map<int, int>, a: int)
    requires SimHeap(u, g, r) && Sound(g) && g.space.lo > 0 && Twin(u, r, a)
    ensures u.mem[a].Arr? && u.mem[a].elems != 0 ==> MapAddr(BlockOf(u.mem[a].elems), r) + HDR != 0
  {
    assert Mirrored(u, g, r, a);
    if u.mem[a].Arr? && u.mem[a].elems != 0 {
      var b := BlockOf(u.mem[a].elems);
      assert b in Refs(u.mem[a]);
      assert Mirrored(u, g, r, b);
      if u.space.Has(b) { assert g.space.Has(MapAddr(b, r)); }
    }
  }

  lemma MirroredMoved(u: State, g: State, h: State, r: map<int, int>, f: map<int, int>, a: int)
    requires SimHeap(u, g, r) && Sound(g) && g.space.lo > 0 && Moved(g, h, f) && KeptTwin(u, g, r, a)
    requires Vacant(g.mem, h.space)
    ensures Mirrored(u, h, Compose(r, f), a)
  {
    hide HeapGraph.Reach, Live, Sound;
    var q := Compose(r, f);
    ComposeAddr(u, g, h, r, f, a);
    assert Mirrored(u, g, r, a);
    MovedAddr(g, h, f, MapAddr(a, r));
    forall b | b in Refs(u.mem[a])
      ensures MapAddr(MapAddr(b, r), f) == MapAddr(b, q) && Twin(u, q, b)
    {
      KeptTwinRefs(u, g, r, a, b);
      ComposeAddr(u, g, h, r, f, b);
    }
    BlockNotNull(u, g, r, a);
    ImageCompose(u.mem[a], r, f, q);
  }

  /** Composition only forgets objects that were not kept. */
  lemma TwinWasKept(u: State, g: State, h: State, r: map<int, int>, f: map<int, int>, a: int)
    requires SimHeap(u, g, r) && Moved(g, h, f) && Twin(u, Compose(r, f), a)
    ensures KeptTwin(u, g, r, a)
  {
    assert Mirrored(u, g, r, a) by { assert Twin(u, r, a); }
  }

  lemma ComposeInjective(u: State, g: State, r: map<int, int>, f: map<int, int>)
    requires SimHeap(u, g, r) && Injective(f)
    ensures Injective(Compose(r, f))
  {
  }

  lemma SimHeapMoved(u: State, g: State, h: State, r: map<int, int>, f: map<int, int>)
    requires SimHeap(u, g, r) && Sound(g) && g.space.lo > 0 && Moved(g, h, f)
    requires Vacant(g.mem, h.space)
    ensures SimHeap(u, h, Compose(r, f))
  {
    hide HeapGraph.Reach, Live, Sound;
    var q := Compose(r, f);
    ComposeInjective(u, g, r, f);
    forall a | Twin(u, q, a) ensures Mirrored(u, h, q, a) {
      TwinWasKept(u, g, h, r, f, a);
      MirroredMoved(u, g, h, r, f, a);
    }
    forall a | a in h.mem && !h.space.Has(a) ensures a in u.mem && !u.space.Has(a) {
      assert a in g.mem && !g.space.Has(a);
    }
  }

  lemma WordsMoved(u: State, g: State, h: State, r: map<int, int>, f: map<int, int>,
                   s: seq<Word>, t: seq<Word>, t': seq<Word>)
    requires SimHeap(u, g, r) && Moved(g, h, f)
    requires SimWords(u, r, s, t) && Renamed(t, t', f)
    requires forall i :: 0 <= i < |t| && t[i].Ptr? && g.space.Has(t[i].at) ==> t[i].at in Live(g)
    ensures SimWords(u, Compose(r, f), s, t')
  {
    hide HeapGraph.Reach, Live;
    forall i | 0 <= i < |s| ensures SimWord(u, Compose(r, f), s[i], t'[i]) {
      assert SimWord(u, r, s[i], t[i]);
      if s[i].Ptr? {
        assert Mirrored(u, g, r, s[i].at);
        ComposeAddr(u, g, h, r, f, s[i].at);
      }
    }
  }

  lemma RootWordsLive(g: State)
    requires Sound(g)
    ensures forall i :: 0 <= i < |g.statics| && g.statics[i].Ptr? && g.space.Has(g.statics[i].at) ==> g.statics[i].at in Live(g)
    ensures forall i :: 0 <= i < |g.locals| && g.locals[i].Ptr? && g.space.Has(g.locals[i].at) ==> g.locals[i].at in Live(g)
    ensures forall i :: 0 <= i < |g.stack| && g.stack[i].Ptr? && g.space.Has(g.stack[i].at) ==> g.stack[i].at in Live(g)
  {
    hide HeapGraph.Reach, Live;
    RootsAreLive(g);
    forall i | 0 <= i < |g.statics| && g.statics[i].Ptr? && g.space.Has(g.statics[i].at)
      ensures g.statics[i].at in Live(g)
    {
      assert g.statics[i] in g.statics;
      assert g.statics[i].at in RootSet(g);
    }
    forall i | 0 <= i < |g.locals| && g.locals[i].Ptr? && g.space.Has(g.locals[i].at)
      ensures g.locals[i].at in Live(g)
    {
      assert g.locals[i] in g.locals;
      assert g.locals[i].at in RootSet(g);
    }
    forall i | 0 <= i < |g.stack| && g.stack[i].Ptr? && g.space.Has(g.stack[i].at)
      ensures g.stack[i].at in Live(g)
    {
      assert g.stack[i] in g.stack;
      assert g.stack[i].at in RootSet(g);
    }
  }

  /** A collection keeps the machines related, under the composed renaming. */
  lemma SimMoved(u: State, g: State, h: State, r: map<int, int>, f: map<int, int>)
    requires Sim(u, g, r) && Sound(g) && g.space.lo > 0 && Moved(g, h, f)
    requires Vacant(g.mem, h.space)
    ensures Sim(u, h, Compose(r, f))
  {
    hide HeapGraph.Reach, Live, Sound;
    SimHeapMoved(u, g, h, r, f);
    RootWordsLive(g);
    WordsMoved(u, g, h, r, f, u.statics, g.statics, h.statics);
    WordsMoved(u, g, h, r, f, u.locals, g.locals, h.locals);
    WordsMoved(u, g, h, r, f, u.stack, g.stack, h.stack);
  }

  // ----- allocation ---------------------------------------------------------------------------

  /** The unbounded heap ends above every address in use. */
  ghost predicate Unbounded(u: State) {
    && 0 < u.space.lo <= u.space.hi && u.consts.hi <= u.space.lo
    && forall a :: a in u.mem ==> a < (if u.space.Has(a) then u.space.hi else u.space.lo)
  }

  lemma SimAlloc(u: State, g: State, r: map<int, int>, o: Obj, size: int, at: int)
    requires Sim(u, g, r) && Unbounded(u) && Blank(u, o) && size > 0
    requires at !in g.mem && g.space.Has(at)
    ensures Sim(AllocFresh(u, o, size), g.(mem := g.mem[at := o]), r[u.space.hi := at])
  {
    var n := u.space.hi;
    var v, h, q := AllocFresh(u, o, size), g.(mem := g.mem[at := o]), r[n := at];
    assert n !in u.mem && n !in r;
    forall a | a in r ensures r[a] != at { assert Twin(u, r, a) && Mirrored(u, g, r, a); }
    BlankRefs(u, o, q);
    forall a | Twin(v, q, a) ensures Mirrored(v, h, q, a) {
      if a != n {
        assert Twin(u, r, a) && Mirrored(u, g, r, a);
        forall b | b in Refs(u.mem[a]) ensures Twin(v, q, b) && b != n { assert Twin(u, r, b); }
        ImageStable(u.mem[a], r, q);
      }
    }
    WordsAlloc(u, v, r, q, n, u.statics, g.statics);
    WordsAlloc(u, v, r, q, n, u.locals, g.locals);
    WordsAlloc(u, v, r, q, n, u.stack, g.stack);
  }

  lemma BlankRefs(u: State, o: Obj, q: map<int, int>)
    requires Blank(u, o) && forall a :: a in q ==> u.space.Has(a) || a == u.space.hi
    requires u.space.hi !in u.mem
    ensures Image(o, q) == o
    ensures forall b :: b in Refs(o) ==> b in u.mem && !u.space.Has(b)
  {
    if !o.Arr? {
      forall i | 0 <= i < |Slots(o)| ensures MapWord(Slots(o)[i], q) == Slots(o)[i] {
      }
      assert MapPrefix(Slots(o), Traced(o), q) == Slots(o);
    }
  }

  lemma WordsAlloc(u: State, v: State, r: map<int, int>, q: map<int, int>, n: int, s: seq<Word>, t: seq<Word>)
    requires SimWords(u, r, s, t) && n !in u.mem && v.mem.Keys == u.mem.Keys + {n}
    requires Extends(r, q) && q.Keys == r.Keys + {n} && Unbounded(u)
    requires v.space.lo == u.space.lo && n == u.space.hi
    ensures SimWords(v, q, s, t)
  {
    forall i | 0 <= i < |s| ensures SimWord(v, q, s[i], t[i]) {
      assert SimWord(u, r, s[i], t[i]);
    }
  }
}
