/** The frame protocol of the virtual machine (vm/stack.h): calls, returns, and tail
    calls that reuse the frame of their caller. */
module Frames {
  datatype Slot = Null | Int(value: int) | Ref(id: nat) | Exinfo(blocks: seq<(nat, nat)>)

  const NATIVE := -1

  /** The stack memory and the registers. */
  datatype Regs = Regs(stack: seq<Slot>, sp: nat, ap: nat, fp: nat, ip: int)

  /** From ap: arguments, receiver, return address, the caller's ap and fp; at fp the
      exception table; above it locals and operands. */
  predicate Framed(m: Regs) {
    && m.ap + 4 <= m.fp < m.sp <= |m.stack|
    && m.stack[m.fp - 3].Int?
    && m.stack[m.fp - 2].Int? && m.stack[m.fp - 2].value >= 0
    && m.stack[m.fp - 1].Int? && m.stack[m.fp - 1].value >= 0
  }

  function RetAddr(m: Regs): int requires Framed(m) { m.stack[m.fp - 3].value }
  function CallerAp(m: Regs): nat requires Framed(m) { m.stack[m.fp - 2].value }
  function CallerFp(m: Regs): nat requires Framed(m) { m.stack[m.fp - 1].value }

  function Nulled(s: seq<Slot>, lo: nat, hi: nat): (r: seq<Slot>)
    requires lo <= hi <= |s|
    ensures |r| == |s| && forall i :: 0 <= i < |s| ==> r[i] == if lo <= i < hi then Null else s[i]
  {
    s[..lo] + seq(hi - lo, i => Null) + s[hi..]
  }

  /** Three slots overwritten. */
  function Linked(s: seq<Slot>, at: nat, ret: int, ap: nat, fp: nat): (r: seq<Slot>)
    requires at + 3 <= |s|
    ensures |r| == |s| && r[at] == Int(ret) && r[at + 1] == Int(ap) && r[at + 2] == Int(fp)
    ensures forall i :: 0 <= i < |s| && !(at <= i < at + 3) ==> r[i] == s[i]
  {
    s[at := Int(ret)][at + 1 := Int(ap)][at + 2 := Int(fp)]
  }

  /** The arguments and the receiver lie on top of the stack. */
  predicate CanCall(m: Regs, argc: nat, locals: nat) {
    argc + 1 <= m.sp && m.sp + 4 + locals <= |m.stack|
  }

  /** BC_CALL. */
  function Called(m: Regs, entry: int, ret: int, argc: nat, locals: nat): Regs
    requires CanCall(m, argc, locals)
  {
    var fp := m.sp + 3;
    Regs(Nulled(Linked(m.stack, m.sp, ret, m.ap, m.fp), fp, fp + locals + 1), fp + locals + 1, m.sp - argc - 1, fp, entry)
  }

  predicate CanTailCall(m: Regs, argc: nat, locals: nat) {
    Framed(m) && m.fp + argc + 2 <= m.sp && m.ap + argc + 5 + locals <= |m.stack|
  }

  /** `count` slots moved from `from` to `to`. */
  function Moved(s: seq<Slot>, from: nat, to: nat, count: nat): (r: seq<Slot>)
    requires from + count <= |s| && to + count <= |s|
    ensures |r| == |s| && forall i :: 0 <= i < |s| ==> r[i] == if to <= i < to + count then s[from + i - to] else s[i]
  {
    s[..to] + s[from..from + count] + s[to + count..]
  }

  /** BC_TCALL. */
  function TailCalled(m: Regs, entry: int, argc: nat, locals: nat): Regs
    requires CanTailCall(m, argc, locals)
  {
    var fp := m.ap + argc + 4;
    var s := Moved(m.stack, m.sp - argc - 1, m.ap, argc + 1);
    Regs(Nulled(Linked(s, m.ap + argc + 1, RetAddr(m), CallerAp(m), CallerFp(m)), fp, fp + locals + 1),
         fp + locals + 1, m.ap, fp, entry)
  }

  /** BC_RET with the value on top of the stack. */
  function Returned(m: Regs): Regs
    requires Framed(m)
  {
    Regs(m.stack[m.ap := m.stack[m.sp - 1]], m.ap + 1, CallerAp(m), CallerFp(m), RetAddr(m))
  }

  /** BC_RET_SELF: the value is the receiver. */
  function ReturnedSelf(m: Regs): Regs
    requires Framed(m)
  {
    Regs(m.stack[m.ap := m.stack[m.fp - 4]], m.ap + 1, CallerAp(m), CallerFp(m), RetAddr(m))
  }

  // ----- the macros -----------------------------------------------------------------

  class FrameStack {
    const stack: array<Slot>
    var sp: nat
    var ap: nat
    var fp: nat
    var ip: int

    function Snapshot(): Regs
      reads this, stack
    {
      Regs(stack[..], sp, ap, fp, ip)
    }

    constructor (size: nat)
      ensures fresh(stack) && stack.Length == size && sp == 0 && ap == 0 && fp == 0
    {
      stack := new Slot[size](_ => Null);
      sp, ap, fp, ip := 0, 0, 0, 0;
    }

    method Push(v: Slot)
      requires sp < stack.Length
      modifies stack, `sp
      ensures sp == old(sp) + 1 && stack[..] == old(stack[..])[old(sp) := v]
    {
      stack[sp] := v;
      sp := sp + 1;
    }

    /** Clears the exception slot and the locals of a new frame. */
    method ClearLocals(locals: nat)
      requires fp + locals + 1 <= stack.Length
      modifies stack, `sp
      ensures sp == fp + locals + 1 && stack[..] == Nulled(old(stack[..]), fp, fp + locals + 1)
    {
      stack[fp] := Null;
      sp := fp + locals + 1;
      var i := fp + 1;
      while i < sp
        invariant fp + 1 <= i <= sp == fp + locals + 1
        invariant forall k :: 0 <= k < stack.Length ==> stack[k] == if fp <= k < i then Null else old(stack[k])
      {
        stack[i] := Null;
        i := i + 1;
      }
    }

    method Call(entry: int, ret: int, argc: nat, locals: nat)
      requires CanCall(Snapshot(), argc, locals)
      modifies stack, `sp, `ap, `fp, `ip
      ensures Snapshot() == Called(old(Snapshot()), entry, ret, argc, locals)
    {
      Push(Int(ret));
      Push(Int(ap));
      ap := sp - argc - 3;
      Push(Int(fp));
      fp := sp;
      ClearLocals(locals);
      ip := entry;
    }

    /** The arguments and the receiver move down in place, lowest first: the target is not
        above the source, so no slot is overwritten before it is read. */
    method MoveDown(from: nat, count: nat)
      requires ap <= from && from + count <= stack.Length
      modifies stack
      ensures stack[..] == Moved(old(stack[..]), from, ap, count)
    {
      hide Moved;
      ghost var s := stack[..];
      MovedNothing(s, from, ap);
      var i := 0;
      while i < count
        invariant i <= count && stack[..] == Moved(s, from, ap, i)
      {
        MovedStep(s, from, ap, i);
        assert stack[from + i] == stack[..][from + i];
        stack[ap + i] := stack[from + i];
        i := i + 1;
      }
    }

    method PushLinkage(ret: int, callerAp: nat, callerFp: nat)
      requires sp + 3 <= stack.Length
      modifies stack, `sp
      ensures sp == old(sp) + 3 && stack[..] == Linked(old(stack[..]), old(sp), ret, callerAp, callerFp)
    {
      Push(Int(ret));
      Push(Int(callerAp));
      Push(Int(callerFp));
    }

    method TailCall(entry: int, argc: nat, locals: nat)
      requires CanTailCall(Snapshot(), argc, locals)
      modifies stack, `sp, `fp, `ip
      ensures Snapshot() == TailCalled(old(Snapshot()), entry, argc, locals)
    {
      hide Nulled, Moved, Linked;
      var ret, callerAp, callerFp := stack[fp - 3].value, stack[fp - 2].value, stack[fp - 1].value;
      MoveDown(sp - argc - 1, argc + 1);
      sp := ap + argc + 1;
      PushLinkage(ret, callerAp, callerFp);
      fp := sp;
      ClearLocals(locals);
      ip := entry;
    }

    method Return()
      requires Framed(Snapshot())
      modifies stack, `sp, `ap, `fp, `ip
      ensures Snapshot() == Returned(old(Snapshot()))
    {
      var v := stack[sp - 1];
      sp := ap;
      var ret := stack[fp - 3].value;
      ap := stack[fp - 2].value;
      fp := stack[fp - 1].value;
      Push(v);
      ip := ret;
    }

    method ReturnSelf()
      requires Framed(Snapshot())
      modifies stack, `sp, `ap, `fp, `ip
      ensures Snapshot() == ReturnedSelf(old(Snapshot()))
    {
      var v := stack[fp - 4];
      sp := ap;
      var ret := stack[fp - 3].value;
      ap := stack[fp - 2].value;
      fp := stack[fp - 1].value;
      Push(v);
      ip := ret;
    }
  }

  // ----- a call and its return ------------------------------------------------------

  /** What running in a frame leaves alone: everything below it, its linkage, and the
      registers that locate it.  Arguments, locals and operands may change. */
  predicate Kept(m: Regs, w: Regs)
    requires Framed(m)
  {
    SameBase(m, w) && w.fp == m.fp
  }

  /** The same place on the stack, the same slots below, and the same caller. */
  predicate SameBase(m: Regs, w: Regs)
    requires Framed(m)
  {
    && Framed(w) && w.ap == m.ap && |w.stack| == |m.stack|
    && w.stack[..m.ap] == m.stack[..m.ap]
    && RetAddr(w) == RetAddr(m) && CallerAp(w) == CallerAp(m) && CallerFp(w) == CallerFp(m)
  }

  /** What a method sees of its caller: the arguments and the receiver. */
  function Handed(m: Regs, argc: nat): seq<Slot>
    requires m.ap + argc + 1 <= |m.stack|
  {
    m.stack[m.ap..m.ap + argc + 1]
  }

  /** The frame a call builds has cleared locals, and hands over the top of the stack. */
  lemma CallHands(m: Regs, entry: int, ret: int, argc: nat, locals: nat)
    requires CanCall(m, argc, locals)
    ensures var c := Called(m, entry, ret, argc, locals);
            && Framed(c) && RetAddr(c) == ret && CallerAp(c) == m.ap && CallerFp(c) == m.fp
            && c.ip == entry && c.ap == m.sp - argc - 1 && c.fp == c.ap + argc + 4
            && Handed(c, argc) == m.stack[m.sp - argc - 1..m.sp]
            && c.stack[..m.sp] == m.stack[..m.sp] && |c.stack| == |m.stack|
            && (forall i :: c.fp <= i < c.sp ==> c.stack[i] == Null)
  {
    hide Nulled, Linked;
    var l := Linked(m.stack, m.sp, ret, m.ap, m.fp);
    var n := Nulled(l, m.sp + 3, m.sp + locals + 4);
    forall i | 0 <= i < m.sp ensures n[i] == m.stack[i] { assert l[i] == m.stack[i]; }
    assert n[m.sp] == l[m.sp] && n[m.sp + 1] == l[m.sp + 1] && n[m.sp + 2] == l[m.sp + 2];
  }

  /** A tail call keeps the linkage of its caller and clears as many locals. */
  lemma TailCallLinks(m: Regs, entry: int, argc: nat, locals: nat)
    requires CanTailCall(m, argc, locals)
    ensures var t := TailCalled(m, entry, argc, locals);
            && Framed(t) && RetAddr(t) == RetAddr(m) && CallerAp(t) == CallerAp(m) && CallerFp(t) == CallerFp(m)
            && t.ip == entry && t.ap == m.ap && t.fp == t.ap + argc + 4
            && |t.stack| == |m.stack| && t.sp == m.ap + argc + locals + 5
            && (forall i :: t.fp <= i < t.sp ==> t.stack[i] == Null)
  {
    hide Nulled, Linked, Moved;
    var s := Moved(m.stack, m.sp - argc - 1, m.ap, argc + 1);
    LinkedThenNulled(s, m.ap + argc + 1, RetAddr(m), CallerAp(m), CallerFp(m), locals);
  }

  /** A tail call hands over what a call would, and keeps all slots below its frame. */
  lemma TailCallHands(m: Regs, entry: int, argc: nat, locals: nat)
    requires CanTailCall(m, argc, locals)
    ensures var t := TailCalled(m, entry, argc, locals);
            t.ap + argc + 1 <= |t.stack| && Handed(t, argc) == m.stack[m.sp - argc - 1..m.sp]
            && t.stack[..m.ap] == m.stack[..m.ap]
  {
    hide Nulled, Linked, Moved, RetAddr, CallerAp, CallerFp;
    var top := m.ap + argc + 1;
    var s := Moved(m.stack, m.sp - argc - 1, m.ap, argc + 1);
    var n := TailCalled(m, entry, argc, locals).stack;
    LinkedThenNulled(s, top, RetAddr(m), CallerAp(m), CallerFp(m), locals);
    MovedAt(m.stack, m.sp - argc - 1, m.ap, argc + 1);
    SplitPrefix(n, m.ap, top);
    SplitPrefix(s, m.ap, top);
  }

  lemma SplitPrefix(s: seq<Slot>, a: nat, b: nat)
    requires a <= b <= |s|
    ensures s[..b][..a] == s[..a] && s[..b][a..] == s[a..b]
  {
  }

  lemma MovedNothing(s: seq<Slot>, from: nat, to: nat)
    requires from <= |s| && to <= |s|
    ensures Moved(s, from, to, 0) == s
  {
  }

  lemma MovedStep(s: seq<Slot>, from: nat, to: nat, i: nat)
    requires to <= from && from + i < |s|
    ensures Moved(s, from, to, i)[from + i] == s[from + i]
    ensures Moved(s, from, to, i + 1) == Moved(s, from, to, i)[to + i := s[from + i]]
  {
  }

  lemma MovedAt(s: seq<Slot>, from: nat, to: nat, count: nat)
    requires from + count <= |s| && to + count <= |s|
    ensures Moved(s, from, to, count)[..to] == s[..to]
    ensures Moved(s, from, to, count)[to..to + count] == s[from..from + count]
  {
  }

  lemma LinkedThenNulled(s: seq<Slot>, at: nat, ret: int, ap: nat, fp: nat, locals: nat)
    requires at + 4 + locals <= |s|
    ensures var n := Nulled(Linked(s, at, ret, ap, fp), at + 3, at + 4 + locals);
            && n[..at] == s[..at] && n[at] == Int(ret) && n[at + 1] == Int(ap) && n[at + 2] == Int(fp)
            && (forall i :: at + 3 <= i < at + 4 + locals ==> n[i] == Null)
  {
    hide Linked;
    var l := Linked(s, at, ret, ap, fp);
    var n := Nulled(l, at + 3, at + 4 + locals);
    forall i | 0 <= i < at + 3 ensures n[i] == l[i] { }
    forall i | 0 <= i < at ensures n[i] == s[i] { assert n[i] == l[i]; }
  }

  /** Calling a method and returning from it replaces the arguments and the receiver on
      the caller's stack by the result, whatever the method did in its frame. */
  lemma CallReturns(m: Regs, entry: int, ret: int, argc: nat, locals: nat, b: Regs)
    requires CanCall(m, argc, locals) && Framed(Called(m, entry, ret, argc, locals))
    requires Kept(Called(m, entry, ret, argc, locals), b)
    ensures var r := Returned(b);
            && r.ip == ret && r.ap == m.ap && r.fp == m.fp && r.sp == m.sp - argc
            && r.stack[..r.sp] == m.stack[..m.sp - argc - 1] + [b.stack[b.sp - 1]]
  {
    CallHands(m, entry, ret, argc, locals);
    var c, r := Called(m, entry, ret, argc, locals), Returned(b);
    assert c.stack[..c.ap] == m.stack[..c.ap] by { assert c.stack[..m.sp][..c.ap] == m.stack[..m.sp][..c.ap]; }
  }

  // ----- tail calls -----------------------------------------------------------------

  /** Calling a constructor and returning the receiver replaces the arguments and the
      receiver by the receiver, as long as the slot that holds it keeps it. */
  lemma CallReturnsSelf(m: Regs, entry: int, ret: int, argc: nat, locals: nat, b: Regs)
    requires CanCall(m, argc, locals) && Framed(Called(m, entry, ret, argc, locals))
    requires Kept(Called(m, entry, ret, argc, locals), b)
    requires b.stack[b.fp - 4] == Called(m, entry, ret, argc, locals).stack[b.fp - 4]
    ensures var r := ReturnedSelf(b);
            && r.ip == ret && r.ap == m.ap && r.fp == m.fp && r.sp == m.sp - argc
            && r.stack[..r.sp] == m.stack[..m.sp - argc - 1] + [m.stack[m.sp - 1]]
  {
    hide Nulled, Linked;
    CallHands(m, entry, ret, argc, locals);
    var c := Called(m, entry, ret, argc, locals);
    assert c.stack[..m.sp][..c.ap] == m.stack[..c.ap];
    assert c.stack[..m.sp][m.sp - 1] == m.stack[m.sp - 1];
    assert b.stack[..c.ap] == m.stack[..c.ap] && b.fp - 4 == m.sp - 1;
    var r := ReturnedSelf(b);
    assert r.stack[..c.ap + 1] == b.stack[..c.ap] + [b.stack[b.fp - 4]];
  }

  /** The observable state after a return. */
  predicate Same(a: Regs, b: Regs) {
    && a.sp == b.sp && a.ap == b.ap && a.fp == b.fp && a.ip == b.ip
    && a.sp <= |a.stack| && a.sp <= |b.stack| && a.stack[..a.sp] == b.stack[..b.sp]
  }

  function Popped(m: Regs): Regs
    requires Framed(m)
  {
    m.(sp := m.ap, ap := CallerAp(m), fp := CallerFp(m))
  }

  /** `c` has `k` frames above the frame of `t`, each waiting at a return instruction, and
      the frame of `t` has the linkage of the frame below them. */
  predicate Ahead(rets: set<int>, t: Regs, c: Regs, k: nat)
    decreases k
  {
    && Framed(t) && Framed(c)
    && if k == 0 then
         t.ap == c.ap && t.stack[..t.ap] == c.stack[..c.ap]
         && RetAddr(t) == RetAddr(c) && CallerAp(t) == CallerAp(c) && CallerFp(t) == CallerFp(c)
       else
         RetAddr(c) in rets && CallerFp(c) < c.ap && Ahead(rets, t, Popped(c), k - 1)
  }

  /** Slots above the frame pointer do not matter for Ahead, nor what `t` does in its frame. */
  lemma {:induction false} AheadStable(rets: set<int>, t: Regs, c: Regs, k: nat, u: Regs, d: Regs)
    requires Ahead(rets, t, c, k) && SameBase(t, u) && Framed(d) && d.ap == c.ap && d.fp == c.fp
    requires d.stack[..c.ap] == c.stack[..c.ap]
    requires RetAddr(d) == RetAddr(c) && CallerAp(d) == CallerAp(c) && CallerFp(d) == CallerFp(c)
    ensures Ahead(rets, u, d, k)
    decreases k
  {
    if k > 0 {
      var p, q := Popped(c), Popped(d);
      PrefixAgrees(c.stack, d.stack, c.ap, p.fp);
      AheadStable(rets, t, p, k - 1, u, q);
    }
  }

  lemma PrefixAgrees(a: seq<Slot>, b: seq<Slot>, n: nat, fp: nat)
    requires n <= |a| && n <= |b| && b[..n] == a[..n] && fp < n
    ensures forall i :: 0 <= i < n ==> b[i] == a[i]
    ensures forall k :: 0 <= k <= n ==> b[..k] == a[..k]
  {
    assert forall i :: 0 <= i < n ==> b[i] == b[..n][i] && a[i] == a[..n][i];
  }

  /** Running in both frames keeps the relation. */
  lemma BodyKeepsAhead(rets: set<int>, t: Regs, c: Regs, k: nat, u: Regs, d: Regs)
    requires Ahead(rets, t, c, k) && Kept(t, u) && Kept(c, d)
    ensures Ahead(rets, u, d, k)
  {
    AheadStable(rets, t, c, k, u, d);
  }

  /** A tail call on one side is a call, from before a return instruction, on the other. */
  lemma CallKeepsAhead(rets: set<int>, t: Regs, c: Regs, k: nat, entry: int, ret: int, argc: nat, locals: nat)
    requires Ahead(rets, t, c, k) && CanTailCall(t, argc, locals) && CanCall(c, argc, locals)
    requires c.fp + argc + 2 <= c.sp && ret in rets
    ensures Ahead(rets, TailCalled(t, entry, argc, locals), Called(c, entry, ret, argc, locals), k + 1)
  {
    hide Called, TailCalled;
    CallHands(c, entry, ret, argc, locals);
    TailCallHands(t, entry, argc, locals);
    TailCallLinks(t, entry, argc, locals);
    var t1, c1 := TailCalled(t, entry, argc, locals), Called(c, entry, ret, argc, locals);
    PrefixAgrees(c.stack, c1.stack, c.sp, c.fp);
    CalledPlace(c, entry, ret, argc, locals);
    AheadStable(rets, t, c, k, t1, Popped(c1));
  }

  lemma CalledPlace(c: Regs, entry: int, ret: int, argc: nat, locals: nat)
    requires CanCall(c, argc, locals)
    ensures Called(c, entry, ret, argc, locals).ap == c.sp - argc - 1 && Called(c, entry, ret, argc, locals).fp == c.sp + 3
    ensures Called(c, entry, ret, argc, locals).sp == c.sp + locals + 4
  {
  }

  /** `n` returns in a row. */
  function Unwound(c: Regs, n: nat): Regs
    decreases n
  {
    if n == 0 || !Framed(c) then c else Unwound(Returned(c), n - 1)
  }

  /** The waiting frames return one after the other and end where the one return of the
      tail calls ends. */
  lemma {:induction false} ReturnsAgree(rets: set<int>, t: Regs, c: Regs, k: nat)
    requires Ahead(rets, t, c, k) && t.stack[t.sp - 1] == c.stack[c.sp - 1]
    ensures Same(Unwound(c, k + 1), Returned(t))
    decreases k
  {
    var r := Returned(c);
    if k == 0 {
      assert Unwound(r, 0) == r;
      var s := Returned(t);
      assert s.stack[..s.sp] == t.stack[..t.ap] + [t.stack[t.sp - 1]];
      assert r.stack[..r.sp] == c.stack[..c.ap] + [c.stack[c.sp - 1]];
    } else {
      var p := Popped(c);
      PrefixAgrees(c.stack, r.stack, c.ap, p.fp) by { assert r.stack[..c.ap] == c.stack[..c.ap]; }
      AheadStable(rets, t, p, k - 1, t, r);
      ReturnsAgree(rets, t, r, k - 1);
    }
  }

  /** One hop of a chain: how far the two machines have run in their frames, and the call
      they make there. */
  datatype Hop = Hop(t: Regs, c: Regs, entry: int, ret: int, argc: nat, locals: nat) {
    predicate Possible() {
      CanTailCall(t, argc, locals) && CanCall(c, argc, locals) && c.fp + argc + 2 <= c.sp
    }

    function AfterTailCall(): Regs requires Possible() { TailCalled(t, entry, argc, locals) }

    function AfterCall(): Regs requires Possible() { Called(c, entry, ret, argc, locals) }
  }

  /** From the frames `t0` and `c0` two machines run the same chain of calls, the first one
      with tail calls, and come to the returns at `t` and `c` with the same result. */
  predicate Follows(rets: set<int>, t0: Regs, c0: Regs, hops: seq<Hop>, t: Regs, c: Regs)
    decreases |hops|
  {
    && Framed(t0) && Framed(c0)
    && if hops == [] then
         Kept(t0, t) && Kept(c0, c) && t.stack[t.sp - 1] == c.stack[c.sp - 1]
       else
         var h := hops[0];
         && Kept(t0, h.t) && Kept(c0, h.c) && h.Possible() && h.ret in rets
         && Follows(rets, h.AfterTailCall(), h.AfterCall(), hops[1..], t, c)
  }

  lemma {:induction false} ChainReturns(rets: set<int>, t0: Regs, c0: Regs, k: nat, hops: seq<Hop>, t: Regs, c: Regs)
    requires Ahead(rets, t0, c0, k) && Follows(rets, t0, c0, hops, t, c)
    ensures Framed(t) && Same(Unwound(c, k + |hops| + 1), Returned(t)) && t.ap == t0.ap
    ensures forall i :: 0 <= i < |hops| ==> hops[i].t.ap == t0.ap
    decreases |hops|
  {
    hide Kept, Ahead, Unwound, Same, Returned, TailCalled, Called;
    if hops == [] {
      BodyKeepsAhead(rets, t0, c0, k, t, c);
      KeptAp(t0, t);
      KeptAp(c0, c);
      ReturnsAgree(rets, t, c, k);
    } else {
      var h, rest := hops[0], hops[1..];
      KeptAp(t0, h.t);
      BodyKeepsAhead(rets, t0, c0, k, h.t, h.c);
      CallKeepsAhead(rets, h.t, h.c, k, h.entry, h.ret, h.argc, h.locals);
      TailCallLinks(h.t, h.entry, h.argc, h.locals);
      ChainReturns(rets, h.AfterTailCall(), h.AfterCall(), k + 1, rest, t, c);
      forall i | 0 <= i < |hops| ensures hops[i].t.ap == t0.ap {
        if i > 0 { assert hops[i] == rest[i - 1]; }
      }
    }
  }

  lemma KeptAp(m: Regs, w: Regs)
    requires Framed(m) && Kept(m, w)
    ensures w.ap == m.ap && Framed(w)
  {
  }

  /** Any chain of tail calls from a frame, with any argument and local counts, ends with
      one return in the state that the same chain of calls reaches with all its returns:
      the same ip, ap, fp, sp, result and slots below.  The frame never moves, and after
      each tail call the stack is as high as that one frame. */
  lemma TailCallsRefineCalls(rets: set<int>, m: Regs, hops: seq<Hop>, t: Regs, c: Regs)
    requires Follows(rets, m, m, hops, t, c)
    ensures Framed(t) && Same(Unwound(c, |hops| + 1), Returned(t)) && t.ap == m.ap
    ensures forall i :: 0 <= i < |hops| && hops[i].Possible() ==>
              hops[i].AfterTailCall().sp == m.ap + hops[i].argc + hops[i].locals + 5
  {
    hide Kept, Unwound, Same, Returned;
    ChainReturns(rets, m, m, 0, hops, t, c);
  }
}
