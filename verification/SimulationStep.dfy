/** From the allocation of an instruction to its end, in both machines. */
module SimulationStep {
  import opened KekObjects
  import opened HeapGraph
  import opened CopyLedger
  import opened HeapState
  import opened Instructions
  import opened SoundSteps
  import opened Simulation
  import opened SimulationGc

  /** The invariant of the unbounded machine. */
  ghost predicate UnboundedOk(e: Layout, u: State) {
    Sound(u) && Unbounded(u) && LayoutOk(e, u)
  }

  // ----- the unbounded machine keeps its invariant -----------------------------------------

  lemma WidenSound(s: State, hi: int)
    requires Sound(s) && Unbounded(s) && s.space.hi <= hi
    ensures Sound(s.(space := s.space.(hi := hi)))
  {
    var t := s.(space := s.space.(hi := hi));
    forall a | a in t.mem ensures ObjOk(t.mem, t.space, t.mem[a]) {
      var p := s.mem[a];
      assert ObjOk(s.mem, s.space, p);
      if p.ArrObjs? {
        forall i | p.len <= i < p.cap ensures NilWord(t.mem, t.space, p.slots[i]) {
          assert NilWord(s.mem, s.space, p.slots[i]);
        }
      }
    }
    forall i | 0 <= i < |t.constArrs| ensures ConstArr(t, t.constArrs[i]) {
      assert ConstArr(s, s.constArrs[i]);
    }
  }

  lemma NilWiden(s: State, hi: int, w: Word)
    requires Unbounded(s) && s.space.hi <= hi && NilWord(s.mem, s.space, w)
    ensures NilWord(s.mem, s.space.(hi := hi), w)
  {
  }

  lemma AllocFreshSound(s: State, o: Obj, size: int)
    requires Sound(s) && Unbounded(s) && Blank(s, o) && size > 0
    ensures Sound(AllocFresh(s, o, size)) && Unbounded(AllocFresh(s, o, size))
    ensures Unowned(AllocFresh(s, o, size).mem, s.space.hi)
  {
    hide Sound, Unowned, Blank;
    var at := s.space.hi;
    var t := s.(space := s.space.(hi := at + Aligned(size)));
    WidenSound(s, at + Aligned(size));
    BlankWiden(s, at + Aligned(size), o);
    AllocKeepsSound(t, at, o);
    FreshUnowned(t, at, o);
  }

  lemma BlankWiden(s: State, hi: int, o: Obj)
    requires Unbounded(s) && s.space.hi <= hi && Blank(s, o)
    ensures Blank(s.(space := s.space.(hi := hi)), o)
    ensures o.Arr? ==> o.elems == 0
  {
    var t := s.(space := s.space.(hi := hi));
    forall i | 0 <= i < |Slots(o)| && Slots(o)[i] != Null ensures NilWord(t.mem, t.space, Slots(o)[i]) {
      NilWiden(s, hi, Slots(o)[i]);
    }
  }

  /** A new address belongs to no array. */
  lemma FreshUnowned(s: State, at: int, o: Obj)
    requires Sound(s) && at !in s.mem && (o.Arr? ==> o.elems == 0)
    ensures Unowned(s.mem[at := o], at)
  {
    forall a | a in s.mem && s.mem[a].Arr? && s.mem[a].elems != 0 ensures BlockOf(s.mem[a].elems) != at {
      assert ObjOk(s.mem, s.space, s.mem[a]);
    }
  }

  /** The request of an instruction answered in the unbounded machine. */
  lemma PendingUnbounded(e: Layout, u: State, op: Op)
    requires UnboundedOk(e, u) && Begin(e, u, op).Allocate?
    ensures var b := Begin(e, u, op);
      && Sound(b.s) && Unbounded(b.s) && Blank(b.s, b.o) && b.size > 0
      && Sound(AllocFresh(b.s, b.o, b.size)) && Unbounded(AllocFresh(b.s, b.o, b.size))
      && Pending(AllocFresh(b.s, b.o, b.size), op, b.s.space.hi, b.k)
  {
    var b := Begin(e, u, op);
    BeginSound(e, u, op);
    assert Unbounded(b.s);
    AllocFreshSound(b.s, b.o, b.size);
    if op.Idxa? {
      PendingIdxa(e, u);
    }
  }

  lemma PendingIdxa(e: Layout, u: State)
    requires UnboundedOk(e, u) && BeginIndexAddr(e, u).Allocate?
    ensures var b := BeginIndexAddr(e, u); PendingGrow(AllocFresh(b.s, b.o, b.size), b.s.space.hi, b.k)
  {
    var b := BeginIndexAddr(e, u);
    var v := AllocFresh(b.s, b.o, b.size);
    var arr := u.mem[Top(u, 1).at];
    assert ObjOk(u.mem, u.space, arr);
    assert ObjOk(u.mem, u.space, u.mem[BlockOf(arr.elems)]);
    assert Top(v, 0) == Top(u, 1);
    assert v.mem[Top(v, 0).at] == arr;
  }

  lemma UnboundedApart(s: State)
    requires Unbounded(s)
    ensures Apart(s.space, s.consts)
  {
  }

  lemma ShapeKeepsLayout(e: Layout, s: State, t: State)
    requires SameShape(s, t) && LayoutOk(e, s)
    ensures LayoutOk(e, t)
    ensures Unbounded(s) ==> Unbounded(t)
  {
  }

  lemma AllocKeepsLayout(e: Layout, s: State, o: Obj, size: int)
    requires LayoutOk(e, s) && Unbounded(s) && size > 0
    ensures LayoutOk(e, AllocFresh(s, o, size))
  {
  }

  lemma StepUnboundedOk(e: Layout, u: State, op: Op)
    requires UnboundedOk(e, u)
    ensures StepUnbounded(e, u, op).Ran? ==> UnboundedOk(e, StepUnbounded(e, u, op).s)
  {
    hide Sound, Pending, Begin, Instructions.Finish, AllocFresh;
    BeginSound(e, u, op);
    var b := Begin(e, u, op);
    if b.Done? {
      ShapeKeepsLayout(e, u, b.s);
    }
    if b.Allocate? {
      PendingUnbounded(e, u, op);
      ShapeKeepsLayout(e, u, b.s);
      AllocKeepsLayout(e, b.s, b.o, b.size);
      var v := AllocFresh(b.s, b.o, b.size);
      UnboundedApart(v);
      FinishSound(v, op, b.s.space.hi, b.k);
      ShapeKeepsLayout(e, v, Instructions.Finish(v, op, b.s.space.hi, b.k));
    }
  }

  // ----- finishing ------------------------------------------------------------------------------

  lemma PendingCollected(u: State, g: State, r: map<int, int>, op: Op, a: int, at: int, k: int)
    requires Sim(u, g, r) && Pending(u, op, a, k) && a in r && r[a] == at && at > 0
    requires Unowned(g.mem, at) && Sound(u) && g.space.lo > 0
    ensures Pending(g, op, at, k)
  {
    assert Twin(u, r, a) && Mirrored(u, g, r, a);
    if op.InitArr? {
      SimTopObj(u, g, r, 0);
    }
    if op.Idxa? {
      SimTopObj(u, g, r, 0);
      SimBlock(u, g, r, Top(u, 0).at);
      hide Sound;
      forall i | 0 <= i < |g.mem[at].slots| ensures NilWord(g.mem, g.space, g.mem[at].slots[i]) {
        assert NilWord(u.mem, u.space, u.mem[a].slots[i]);
        NilTwin(u, g, r, u.mem[a].slots[i]);
      }
    }
  }

  lemma NilTwin(u: State, g: State, r: map<int, int>, w: Word)
    requires SimHeap(u, g, r) && NilWord(u.mem, u.space, w)
    ensures MapWord(w, r) == w && NilWord(g.mem, g.space, w)
  {
    assert Twin(u, r, w.at) && Mirrored(u, g, r, w.at);
  }

  lemma SimFinish(u: State, g: State, r: map<int, int>, op: Op, a: int, at: int, k: int)
    requires Sim(u, g, r) && Pending(u, op, a, k) && a in r && r[a] == at && at > 0
    requires Sound(u) && g.space.lo > 0
    ensures Sim(Instructions.Finish(u, op, a, k), Instructions.Finish(g, op, at, k), r)
  {
    hide Sound, Sim;
    TwinOf(u, g, r, a);
    match op
    case InitArr => SimFinishInit(u, g, r, a, at, k);
    case Idxa => SimFinishGrow(u, g, r, a, at, k);
    case _ => SimPush(u, g, r, Ptr(a), Ptr(at));
  }

  lemma TwinOf(u: State, g: State, r: map<int, int>, a: int)
    requires Sim(u, g, r) && a in r
    ensures Twin(u, r, a) && Mirrored(u, g, r, a)
  {
    assert Twin(u, r, a);
  }

  lemma SimFinishInit(u: State, g: State, r: map<int, int>, a: int, at: int, k: int)
    requires Sim(u, g, r) && Pending(u, InitArr, a, k) && a in r && r[a] == at && at > 0
    ensures Sim(Instructions.Finish(u, InitArr, a, k), Instructions.Finish(g, InitArr, at, k), r)
  {
    hide Sim;
    TwinOf(u, g, r, a);
    SimTopObj(u, g, r, 0);
    var b := Top(u, 0).at;
    var o := Arr(u.mem[b].cls, 0, ARR_INIT_SIZE, a + HDR);
    assert Refs(o) == {a};
    SimUpdate(u, g, r, b, o);
  }

  lemma SimFinishGrow(u: State, g: State, r: map<int, int>, a: int, at: int, k: int)
    requires Sim(u, g, r) && Pending(u, Idxa, a, k) && a in r && r[a] == at && at > 0
    requires Sound(u) && g.space.lo > 0
    ensures Sim(Instructions.Finish(u, Idxa, a, k), Instructions.Finish(g, Idxa, at, k), r)
  {
    hide Sound, Sim;
    TwinOf(u, g, r, a);
    SimTopObj(u, g, r, 0);
    var b := Top(u, 0).at;
    SimGrow(u, g, r, b, a, k + 1);
    hide Instructions.GrowInto;
    SimPushElem(GrowInto(u, b, a, k + 1), GrowInto(g, Top(g, 0).at, at, k + 1), r, a, k);
  }

  /** Copying the elements over commutes with renaming. */
  lemma RefilledImage(u: State, g: State, r: map<int, int>, arr: Obj, was: Obj, new_: Obj, arr': Obj, n: int)
    requires SimHeap(u, g, r)
    requires arr.Arr? && was.ArrObjs? && new_.ArrObjs? && arr'.Arr? && arr'.length == arr.length
    requires 0 <= arr.length == was.len <= |was.slots| && arr.length <= n
    requires forall i :: 0 <= i < |new_.slots| ==> NilWord(u.mem, u.space, new_.slots[i])
    ensures Image(was, r).ArrObjs? && Image(new_, r).ArrObjs?
    ensures Image(Refilled(arr, was, new_, n), r) == Refilled(arr', Image(was, r), Image(new_, r), n)
  {
    var o := Refilled(arr, was, new_, n);
    var p := Refilled(arr', Image(was, r), Image(new_, r), n);
    forall i | 0 <= i < |o.slots| ensures MapPrefix(o.slots, n, r)[i] == p.slots[i] {
      NilTwin(u, g, r, new_.slots[i]);
    }
    assert MapPrefix(o.slots, n, r) == p.slots;
  }

  lemma RefilledRefs(u: State, r: map<int, int>, arr: Obj, was: Obj, new_: Obj, n: int)
    requires arr.Arr? && was.ArrObjs? && new_.ArrObjs? && arr.length == was.len
    requires forall b :: b in Refs(was) ==> Twin(u, r, b)
    requires forall i :: 0 <= i < |new_.slots| ==> NilWord(u.mem, u.space, new_.slots[i])
    ensures forall b :: b in Refs(Refilled(arr, was, new_, n)) ==> Twin(u, r, b)
  {
    var o := Refilled(arr, was, new_, n);
    forall b | b in Refs(o) ensures Twin(u, r, b) {
      var i :| 0 <= i < |o.slots| && i < n && o.slots[i] == Ptr(b);
      if i < arr.length && i < |was.slots| { assert Slots(was)[i].at in Refs(was); }
    }
  }

  lemma SimGrow(u: State, g: State, r: map<int, int>, a: int, b: int, n: int)
    requires Sim(u, g, r) && Sound(u) && g.space.lo > 0
    requires Twin(u, r, a) && u.mem[a].Arr? && u.mem[a].elems != 0
    requires Twin(u, r, b) && u.space.Has(b) && u.mem[b].ArrObjs? && a != b && b + HDR != 0
    requires u.mem[a].length <= n
    requires forall i :: 0 <= i < |u.mem[b].slots| ==> NilWord(u.mem, u.space, u.mem[b].slots[i])
    ensures Sim(GrowInto(u, a, b, n), GrowInto(g, MapAddr(a, r), MapAddr(b, r), n), r)
    ensures b in GrowInto(u, a, b, n).mem && Twin(GrowInto(u, a, b, n), r, b)
  {
    hide Sound, Sim, SimHeap, Refilled, ObjOk, Mirrored, NilWord;
    SimBlock(u, g, r, a);
    BlockParts(u, r, a);
    TwinMirrored(u, g, r, a);
    TwinMirrored(u, g, r, b);
    var w := BlockOf(u.mem[a].elems);
    var arr, was, new_ := u.mem[a], u.mem[w], u.mem[b];
    TwinMirrored(u, g, r, w);
    var o := Refilled(arr, was, new_, n);
    RefilledRefs(u, r, arr, was, new_, n);
    RefilledImage(u, g, r, arr, was, new_, g.mem[MapAddr(a, r)], n);
    SimUpdate(u, g, r, b, o);
    var v, h := u.(mem := u.mem[b := o]), g.(mem := g.mem[MapAddr(b, r) := Image(o, r)]);
    if MapAddr(b, r) == MapAddr(a, r) { AddrInjective(u, g, r, a, b); }
    var p := Arr(arr.cls, n, new_.cap, b + HDR);
    assert Refs(p) == {b};
    assert Twin(v, r, a) && Twin(v, r, b);
    SimUpdate(v, h, r, a, p);
    GrownAs(u, a, b, n);
    GrownAs(g, MapAddr(a, r), MapAddr(b, r), n);
  }

  lemma GrownAs(s: State, a: int, b: int, n: int)
    requires a in s.mem && s.mem[a].Arr? && b in s.mem && s.mem[b].ArrObjs?
    requires BlockOf(s.mem[a].elems) in s.mem && s.mem[BlockOf(s.mem[a].elems)].ArrObjs?
    ensures var arr, was, new_ := s.mem[a], s.mem[BlockOf(s.mem[a].elems)], s.mem[b];
            GrowInto(s, a, b, n) == s.(mem := s.mem[b := Refilled(arr, was, new_, n)][a := Arr(arr.cls, n, new_.cap, b + HDR)])
  {
    var arr, was, new_ := s.mem[a], s.mem[BlockOf(s.mem[a].elems)], s.mem[b];
    var slots := seq(|new_.slots|, i requires 0 <= i < |new_.slots| =>
                       if i < arr.length && i < |was.slots| then was.slots[i] else new_.slots[i]);
    assert slots == Refilled(arr, was, new_, n).slots;
  }

  lemma TwinMirrored(u: State, g: State, r: map<int, int>, a: int)
    requires Sim(u, g, r) && Twin(u, r, a)
    ensures SimHeap(u, g, r) && Mirrored(u, g, r, a)
    ensures a in u.mem && MapAddr(a, r) in g.mem && g.mem[MapAddr(a, r)] == Image(u.mem[a], r)
  {
  }

  lemma BlockParts(u: State, r: map<int, int>, a: int)
    requires Sound(u) && a in u.mem && u.mem[a].Arr? && u.mem[a].elems != 0
    ensures var w := BlockOf(u.mem[a].elems); w in u.mem && u.mem[w].ArrObjs? && 0 <= u.mem[a].length == u.mem[w].len <= |u.mem[w].slots|
    ensures var w := BlockOf(u.mem[a].elems); forall b :: b in Refs(u.mem[w]) ==> b in u.mem
  {
    assert ObjOk(u.mem, u.space, u.mem[a]);
    assert ObjOk(u.mem, u.space, u.mem[BlockOf(u.mem[a].elems)]);
  }

  /** One object added on both sides. */
  lemma AllocatedBoth(e: Layout, u: State, g: State, r: map<int, int>, o: Obj, size: int, at: int)
    requires UnboundedOk(e, u) && Sound(g) && LayoutOk(e, g) && Sim(u, g, r)
    requires Blank(u, o) && size > 0 && at !in g.mem && g.space.Has(at)
    ensures UnboundedOk(e, AllocFresh(u, o, size))
    ensures LayoutOk(e, g.(mem := g.mem[at := o])) && Unowned(g.mem[at := o], at)
    ensures Sim(AllocFresh(u, o, size), g.(mem := g.mem[at := o]), r[u.space.hi := at])
  {
    SimAlloc(u, g, r, o, size, at);
    FreshUnowned(g, at, o);
    AllocFreshSound(u, o, size);
    AllocKeepsLayout(e, u, o, size);
  }

  // ----- registered local variables ----------------------------------------------------------

  function Register(s: State, w: Word): State { s.(locals := [w, w] + s.locals) }

  function Unregister(s: State): State
    requires |s.locals| >= 2
  {
    s.(locals := s.locals[2..])
  }

  lemma LocalsSound(s: State, locals: seq<Word>)
    requires Sound(s) && forall i :: 0 <= i < |locals| ==> locals[i].Ptr? && Plain(s.mem, locals[i])
    ensures Sound(s.(locals := locals))
  {
    var t := s.(locals := locals);
    forall i | 0 <= i < |t.constArrs| ensures ConstArr(t, t.constArrs[i]) {
      assert ConstArr(s, s.constArrs[i]);
    }
  }

  lemma SimLocals(u: State, g: State, r: map<int, int>, s: seq<Word>, t: seq<Word>)
    requires Sim(u, g, r) && SimWords(u, r, s, t)
    ensures Sim(u.(locals := s), g.(locals := t), r)
  {
    var v, h := u.(locals := s), g.(locals := t);
    forall a | Twin(v, r, a) ensures Mirrored(v, h, r, a) {
      assert Twin(u, r, a) && Mirrored(u, g, r, a);
      forall b | b in Refs(u.mem[a]) ensures Twin(v, r, b) { assert Twin(u, r, b); }
    }
    SameTwins(u, v, r, u.statics, g.statics);
    SameTwins(u, v, r, s, t);
    SameTwins(u, v, r, u.stack, g.stack);
  }

  /** Registering a local variable that holds an object, in both machines. */
  lemma RegisterBoth(e: Layout, u: State, g: State, r: map<int, int>, w: Word, x: Word)
    requires UnboundedOk(e, u) && Sound(g) && Sim(u, g, r) && SimWord(u, r, w, x) && w.Ptr? && Plain(u.mem, w)
    ensures UnboundedOk(e, Register(u, w)) && Sound(Register(g, x)) && Sim(Register(u, w), Register(g, x), r)
    ensures LayoutOk(e, g) ==> LayoutOk(e, Register(g, x))
  {
    assert Mirrored(u, g, r, w.at);
    hide Sim;
    LocalsSound(u, [w, w] + u.locals);
    LocalsSound(g, [x, x] + g.locals);
    SimLocals(u, g, r, [w, w] + u.locals, [x, x] + g.locals);
  }

  lemma UnregisterBoth(e: Layout, u: State, g: State, r: map<int, int>)
    requires UnboundedOk(e, u) && Sound(g) && Sim(u, g, r) && |u.locals| >= 2
    ensures |g.locals| >= 2
    ensures UnboundedOk(e, Unregister(u)) && Sound(Unregister(g)) && Sim(Unregister(u), Unregister(g), r)
    ensures LayoutOk(e, g) ==> LayoutOk(e, Unregister(g))
  {
    LocalsSound(u, u.locals[2..]);
    LocalsSound(g, g.locals[2..]);
    SimLocals(u, g, r, u.locals[2..], g.locals[2..]);
  }

  /** After a growth's allocation the registered variable and the stack still name
      the same array. */
  lemma RegisteredIsTop(u: State, g: State, r: map<int, int>)
    requires Sim(u, g, r) && |u.locals| >= 2 && |u.stack| >= 1 && u.locals[0] == Top(u, 0)
    ensures |g.locals| >= 2 && |g.stack| >= 1 && g.locals[0] == Top(g, 0)
  {
    assert SimWord(u, r, u.locals[0], g.locals[0]);
    SimTop(u, g, r, 0);
  }

  /** Registering what the stack holds anyway adds no live object. */
  lemma RegisterSameLive(s: State)
    requires |s.stack| >= 1
    ensures LiveBytes(Register(s, Top(s, 0))) == LiveBytes(s)
  {
    assert Top(s, 0) in s.stack;
    assert RootSet(Register(s, Top(s, 0))) == RootSet(s);
  }

  /** An object blank for one machine is blank for the other. */
  lemma BlankBoth(u: State, g: State, r: map<int, int>, o: Obj)
    requires SimHeap(u, g, r) && Blank(u, o)
    ensures Blank(g, o)
  {
    forall i | 0 <= i < |Slots(o)| && Slots(o)[i] != Null ensures NilWord(g.mem, g.space, Slots(o)[i]) {
      NilTwin(u, g, r, Slots(o)[i]);
    }
  }

  // ----- one whole instruction ------------------------------------------------------------------

  /** What the two machines have in common after the first part of an instruction. */
  lemma BegunBoth(e: Layout, u: State, g: State, r: map<int, int>, op: Op)
    requires UnboundedOk(e, u) && Sound(g) && LayoutOk(e, g) && Apart(g.space, g.consts) && Sim(u, g, r) && g.space.lo > 0
    ensures SimBegun(Begin(e, u, op), Begin(e, g, op), r)
    ensures var b, c := Begin(e, u, op), Begin(e, g, op);
      && (b.Done? || b.Allocate? ==> UnboundedOk(e, b.s))
      && (c.Done? || c.Allocate? ==> Sound(c.s) && SameShape(g, c.s) && LayoutOk(e, c.s))
      && (b.Allocate? && c.Allocate? ==> Blank(b.s, b.o) && Blank(c.s, c.o) && b.size > 0 && End(b.o) <= b.size)
  {
    hide Sound, Begin, Sim, SimBegun;
    UnboundedApart(u);
    SimBegin(e, u, g, r, op);
    BeginSound(e, u, op);
    BeginSound(e, g, op);
    var b, c := Begin(e, u, op), Begin(e, g, op);
    if b.Done? || b.Allocate? { ShapeKeepsLayout(e, u, b.s); }
    if c.Done? || c.Allocate? { ShapeKeepsLayout(e, g, c.s); }
  }

  /** And after the second part. */
  lemma FinishedBoth(e: Layout, u: State, g: State, r: map<int, int>, op: Op, a: int, at: int, k: int)
    requires UnboundedOk(e, u) && Sound(g) && LayoutOk(e, g) && Apart(g.space, g.consts) && Sim(u, g, r) && g.space.lo > 0
    requires Pending(u, op, a, k) && Unowned(g.mem, at) && a in r && r[a] == at && at > 0
    ensures Pending(g, op, at, k)
    ensures UnboundedOk(e, Instructions.Finish(u, op, a, k))
    ensures var h := Instructions.Finish(g, op, at, k);
      Sound(h) && SameShape(g, h) && LayoutOk(e, h) && Sim(Instructions.Finish(u, op, a, k), h, r)
  {
    hide Sound, Sim, Pending, Instructions.Finish;
    UnboundedApart(u);
    PendingCollected(u, g, r, op, a, at, k);
    SimFinish(u, g, r, op, a, at, k);
    FinishSound(u, op, a, k);
    FinishSound(g, op, at, k);
    ShapeKeepsLayout(e, u, Instructions.Finish(u, op, a, k));
    ShapeKeepsLayout(e, g, Instructions.Finish(g, op, at, k));
  }

  // ----- the start ------------------------------------------------------------------------------

  lemma EmptyStartObj(g: State, top: int, a: int)
    requires HeapOk(g.mem, g.space) && Vacant(g.mem, g.space) && a in g.mem && forall b :: b in g.mem ==> b < top
    ensures ObjOk(g.mem, Region(top, top), g.mem[a]) && Image(g.mem[a], map[]) == g.mem[a]
  {
    var p := g.mem[a];
    assert ObjOk(g.mem, g.space, p);
    if p.ArrObjs? {
      forall i | p.len <= i < p.cap ensures NilWord(g.mem, Region(top, top), p.slots[i]) {
        assert NilWord(g.mem, g.space, p.slots[i]);
      }
    }
    assert !p.Arr? ==> MapPrefix(Slots(p), Traced(p), map[]) == Slots(p);
  }

  /** Before anything is allocated the two machines are the same, with the
      unbounded heap above every address in use. */
  lemma EmptyStart(e: Layout, g: State, top: int)
    requires Sound(g) && LayoutOk(e, g) && Vacant(g.mem, g.space) && g.constArrs == []
    requires 0 < top && g.consts.hi <= top && forall a :: a in g.mem ==> a < top
    ensures var u := g.(space := Region(top, top)); UnboundedOk(e, u) && Sim(u, g, map[])
  {
    hide *;
    EmptyOk(e, g, top);
    EmptySim(g, top);
  }

  lemma EmptyOk(e: Layout, g: State, top: int)
    requires Sound(g) && LayoutOk(e, g) && Vacant(g.mem, g.space) && g.constArrs == []
    requires 0 < top && g.consts.hi <= top && forall a :: a in g.mem ==> a < top
    ensures UnboundedOk(e, g.(space := Region(top, top)))
  {
    hide ObjOk;
    var u := g.(space := Region(top, top));
    forall a | a in u.mem ensures ObjOk(u.mem, u.space, u.mem[a]) {
      EmptyStartObj(g, top, a);
    }
  }

  lemma EmptySim(g: State, top: int)
    requires Sound(g) && Vacant(g.mem, g.space) && g.constArrs == [] && forall a :: a in g.mem ==> a < top
    ensures Sim(g.(space := Region(top, top)), g, map[])
  {
    var u := g.(space := Region(top, top));
    forall a | Twin(u, map[], a) ensures Mirrored(u, g, map[], a) {
      EmptyStartObj(g, top, a);
    }
  }
}
