/** The arrays of the constant table get their element blocks, in the heap, before a program
    starts (vm_init_const_table_elems in vm/vm.c); the blocks are roots from then on. */
module ConstantArrays {
  import opened KekObjects
  import opened HeapGraph
  import opened CopyLedger
  import opened HeapState
  import opened Instructions
  import opened SoundSteps
  import opened Simulation
  import opened SimulationGc
  import opened SimulationStep

  /** An array of the constant table without its block, and constants for its elements. */
  ghost predicate Pending(s: State, c: int, words: seq<Word>) {
    && s.consts.Has(c) && c in s.mem && s.mem[c].Arr? && s.mem[c].elems == 0 && words != []
    && forall i :: 0 <= i < |words| ==> Constant(s, words[i])
  }

  ghost predicate Constant(s: State, w: Word) {
    w.Ptr? && s.consts.Has(w.at) && w.at in s.mem
  }

  /** What alloc_const_arr_elems asks for. */
  function Block(e: Layout, n: nat): Obj { ArrObjs(n, n, Nils(e, n)) }

  function BlockSize(n: nat): int { HDR + n * WORD }

  /** The array with its block at `b`, registered as a root. */
  function WithBlock(s: State, c: int, b: int, words: seq<Word>): State
    requires c in s.mem && s.mem[c].Arr?
  {
    var n := |words|;
    s.(mem := s.mem[b := ArrObjs(n, n, words)][c := Arr(s.mem[c].cls, n, n, b + HDR)], constArrs := [c] + s.constArrs)
  }

  lemma BlankBlock(e: Layout, s: State, n: nat)
    requires LayoutOk(e, s)
    ensures Blank(s, Block(e, n)) && End(Block(e, n)) <= BlockSize(n)
  {
  }

  lemma WithBlockIs(s: State, c: int, b: int, words: seq<Word>)
    requires c in s.mem && s.mem[c].Arr?
    ensures WithBlock(s, c, b, words) ==
            s.(mem := s.mem[b := ArrObjs(|words|, |words|, words)][c := Arr(s.mem[c].cls, |words|, |words|, b + HDR)],
               constArrs := [c] + s.constArrs)
  {
  }

  /** What holds in the unbounded machine once the block has been allocated. */
  lemma Allocated(e: Layout, s: State, o: Obj, size: int, c: int, words: seq<Word>)
    requires UnboundedOk(e, s) && Pending(s, c, words) && size > 0 && o == Block(e, |words|)
    ensures var t, a := AllocFresh(s, o, size), s.space.hi;
            && Pending(t, c, words) && a in t.mem && t.mem[a] == o && t.space.Has(a) && a > 0 && Unowned(t.mem, a) && a != c
  {
    FreshUnowned(s, s.space.hi, o);
    forall i | 0 <= i < |words| ensures Constant(AllocFresh(s, o, size), words[i]) { assert Constant(s, words[i]); }
  }

  /** And then in the collected one. */
  lemma InBoth(u: State, g: State, r: map<int, int>, c: int, a: int, words: seq<Word>)
    requires Sim(u, g, r) && Unbounded(u) && Pending(u, c, words) && a in r && a in u.mem && u.space.Has(a) && u.mem[a].ArrObjs?
    requires u.mem[a].cap == |u.mem[a].slots|
    ensures Pending(g, c, words) && g.mem[c] == u.mem[c] && MapAddr(c, r) == c
    ensures r[a] in g.mem && g.space.Has(r[a]) && g.mem[r[a]].ArrObjs? && g.mem[r[a]].cap == u.mem[a].cap
    ensures g.mem[r[a]].len == u.mem[a].len && |g.mem[r[a]].slots| == |u.mem[a].slots|
  {
    PendingBoth(u, g, r, c, words);
    TwinOf(u, g, r, a);
  }

  /** Filling the block. */
  lemma FillSound(s: State, b: int, words: seq<Word>)
    requires Sound(s) && Apart(s.space, s.consts) && b in s.mem && s.space.Has(b) && s.mem[b].ArrObjs? && Unowned(s.mem, b)
    requires forall i :: 0 <= i < |words| ==> Constant(s, words[i])
    ensures Sound(s.(mem := s.mem[b := ArrObjs(|words|, |words|, words)]))
  {
    var o := ArrObjs(|words|, |words|, words);
    forall a | a in Refs(o) ensures a in s.mem && !Unmoved(s.mem[a]) {
      var i :| 0 <= i < |words| && words[i] == Ptr(a);
      assert Constant(s, words[i]);
    }
    OverwriteSound(s, b, o);
  }

  /** Giving the array its block. */
  lemma RegisterSound(s: State, c: int, b: int, n: nat)
    requires Sound(s) && Apart(s.space, s.consts) && s.consts.Has(c) && c in s.mem && s.mem[c].Arr? && s.mem[c].elems == 0
    requires b in s.mem && s.space.Has(b) && b > 0 && s.mem[b].ArrObjs? && s.mem[b].len == s.mem[b].cap == n && Unowned(s.mem, b)
    ensures Sound(s.(mem := s.mem[c := Arr(s.mem[c].cls, n, n, b + HDR)], constArrs := [c] + s.constArrs))
  {
    var o := Arr(s.mem[c].cls, n, n, b + HDR);
    var t := s.(mem := s.mem[c := o], constArrs := [c] + s.constArrs);
    forall a | a in t.mem ensures ObjOk(t.mem, t.space, t.mem[a]) {
      if a != c { OthersOk(s, c, o, a); }
    }
    forall i | 0 <= i < |s.constArrs| ensures s.constArrs[i] != c { assert ConstArr(s, s.constArrs[i]); }
    forall i | 0 <= i < |t.constArrs| ensures ConstArr(t, t.constArrs[i]) {
      if i > 0 { assert ConstArr(s, s.constArrs[i - 1]); }
    }
  }

  lemma WithBlockSound(s: State, c: int, b: int, words: seq<Word>)
    requires Sound(s) && Apart(s.space, s.consts) && Pending(s, c, words)
    requires b in s.mem && s.space.Has(b) && b > 0 && s.mem[b].ArrObjs? && Unowned(s.mem, b)
    ensures Sound(WithBlock(s, c, b, words))
  {
    hide Sound;
    FillSound(s, b, words);
    RegisterSound(s.(mem := s.mem[b := ArrObjs(|words|, |words|, words)]), c, b, |words|);
  }

  lemma WithBlockSizes(s: State, c: int, b: int, words: seq<Word>)
    requires c in s.mem && s.mem[c].Arr? && b in s.mem && s.mem[b].ArrObjs? && |s.mem[b].slots| == |words|
    ensures WithBlock(s, c, b, words).mem.Keys == s.mem.Keys
    ensures forall a :: a in s.mem ==> End(WithBlock(s, c, b, words).mem[a]) == End(s.mem[a])
  {
  }

  lemma WithBlockLayout(e: Layout, s: State, c: int, b: int, words: seq<Word>)
    requires LayoutOk(e, s) && Pending(s, c, words) && b in s.mem && s.space.Has(b)
    ensures LayoutOk(e, WithBlock(s, c, b, words)) && WithBlock(s, c, b, words).mem.Keys == s.mem.Keys
    ensures Unbounded(s) ==> Unbounded(WithBlock(s, c, b, words))
  {
  }

  /** Constants are the same in both machines. */
  lemma ConstantImage(u: State, g: State, r: map<int, int>, words: seq<Word>)
    requires SimHeap(u, g, r) && Apart(u.space, u.consts) && forall i :: 0 <= i < |words| ==> Constant(u, words[i])
    ensures Image(ArrObjs(|words|, |words|, words), r) == ArrObjs(|words|, |words|, words)
    ensures forall b :: b in Refs(ArrObjs(|words|, |words|, words)) ==> Twin(u, r, b)
  {
    var o := ArrObjs(|words|, |words|, words);
    forall i | 0 <= i < |words| ensures MapWord(words[i], r) == words[i] && Twin(u, r, words[i].at) {
      assert Constant(u, words[i]);
    }
    assert MapPrefix(words, |words|, r) == words;
  }

  lemma PendingBoth(u: State, g: State, r: map<int, int>, c: int, words: seq<Word>)
    requires SimHeap(u, g, r) && Apart(u.space, u.consts) && Pending(u, c, words)
    ensures Pending(g, c, words) && g.mem[c] == u.mem[c] && MapAddr(c, r) == c
  {
    assert Twin(u, r, c) && Mirrored(u, g, r, c);
    forall i | 0 <= i < |words| ensures Constant(g, words[i]) {
      assert Constant(u, words[i]);
      assert Twin(u, r, words[i].at) && Mirrored(u, g, r, words[i].at);
    }
  }

  /** The array gets its block in both machines. */
  lemma WithBlockBoth(u: State, g: State, r: map<int, int>, c: int, a: int, words: seq<Word>)
    requires Sim(u, g, r) && Apart(u.space, u.consts) && Pending(u, c, words) && c in g.mem && g.mem[c] == u.mem[c]
    requires a in r && u.space.Has(a) && a > 0 && r[a] > 0 && MapAddr(c, r) == c
    ensures Sim(WithBlock(u, c, a, words), WithBlock(g, c, r[a], words), r)
  {
    hide Sim, Image;
    var n := |words|;
    var o, arr := ArrObjs(n, n, words), Arr(u.mem[c].cls, n, n, a + HDR);
    assert SimHeap(u, g, r) && Twin(u, r, a) by { TwinOf(u, g, r, a); TwinHeap(u, g, r, a); }
    ConstantImage(u, g, r, words);
    SimUpdate(u, g, r, a, o);
    var v, h := u.(mem := u.mem[a := o]), g.(mem := g.mem[r[a] := o]);
    BlockRef(arr, a, r);
    assert Twin(v, r, a) && Twin(v, r, c);
    SimUpdate(v, h, r, c, arr);
    SimConstArrs(v.(mem := v.mem[c := arr]), h.(mem := h.mem[c := Arr(u.mem[c].cls, n, n, r[a] + HDR)]), r, [c] + u.constArrs);
  }

  lemma TwinHeap(u: State, g: State, r: map<int, int>, a: int)
    requires Sim(u, g, r)
    ensures SimHeap(u, g, r) && u.constArrs == g.constArrs
  {
  }

  lemma BlockRef(arr: Obj, a: int, r: map<int, int>)
    requires arr.Arr? && arr.elems == a + HDR && a > 0 && a in r
    ensures Refs(arr) == {a} && Image(arr, r) == arr.(elems := r[a] + HDR)
  {
  }

  lemma SimConstArrs(u: State, g: State, r: map<int, int>, cs: seq<int>)
    requires Sim(u, g, r)
    ensures Sim(u.(constArrs := cs), g.(constArrs := cs), r)
  {
    var v, h := u.(constArrs := cs), g.(constArrs := cs);
    forall a | Twin(v, r, a) ensures Mirrored(v, h, r, a) {
      assert Twin(u, r, a) && Mirrored(u, g, r, a);
      forall b | b in Refs(u.mem[a]) ensures Twin(v, r, b) { assert Twin(u, r, b); }
    }
    SameTwins(u, v, r, u.statics, g.statics);
    SameTwins(u, v, r, u.locals, g.locals);
    SameTwins(u, v, r, u.stack, g.stack);
  }
}
