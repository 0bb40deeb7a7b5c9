/** Two machines that run the same methods, one with tail calls and one with calls, and that
    share nothing but the start: they make the same calls and end with the same result. */
module TailCalls {
  import opened Frames

  /** What a method does with its arguments and receiver: it returns a value, or ends in a
      call of another method, for which it leaves arguments and receiver. */
  datatype Act = Result(v: Slot) | Next(entry: int, argc: nat, locals: nat, handed: seq<Slot>)

  /** The methods of a program.  What a method does depends on the world outside the stack, on
      its entry, on what it is handed, and on how many cleared locals it has. */
  type Methods<!W> = (W, int, seq<Slot>, nat) -> (W, Act)

  /** Where a machine is when a method is about to call, and the return address it pushes. */
  datatype Stop = Stop(m: Regs, ret: int)

  /** From the frame `m0` the machine runs the methods to the return at `end`, in any way that
      keeps to each frame and leaves what the method says on top of the stack. */
  predicate Runs<W>(tail: bool, rets: set<int>, body: Methods<W>, w: W, m0: Regs, argc: nat, locals: nat,
                    stops: seq<Stop>, end: Regs)
    decreases |stops|
  {
    && Framed(m0) && m0.ap + argc + 1 <= |m0.stack|
    && match body(w, m0.ip, Handed(m0, argc), locals)
       case (_, Result(v)) => stops == [] && Kept(m0, end) && end.stack[end.sp - 1] == v
       case (w1, Next(entry, a, l, handed)) =>
         && stops != [] && Leaves(m0, stops[0].m, a, l, handed) && stops[0].ret in rets
         && Runs(tail, rets, body, w1, Entered(tail, stops[0], entry, a, l), a, l, stops[1..], end)
  }

  /** The method has come from `m0` to a call, with the handed slots on top of the stack. */
  predicate Leaves(m0: Regs, m: Regs, argc: nat, locals: nat, handed: seq<Slot>)
    requires Framed(m0)
  {
    && Kept(m0, m) && CanTailCall(m, argc, locals) && CanCall(m, argc, locals)
    && m.stack[m.sp - argc - 1..m.sp] == handed
  }

  function Entered(tail: bool, s: Stop, entry: int, argc: nat, locals: nat): Regs
    requires CanTailCall(s.m, argc, locals) && CanCall(s.m, argc, locals)
  {
    if tail then TailCalled(s.m, entry, argc, locals) else Called(s.m, entry, s.ret, argc, locals)
  }

  /** Entering a method hands it the slots, either way. */
  lemma EnteredSees(tail: bool, s: Stop, entry: int, argc: nat, locals: nat)
    requires CanTailCall(s.m, argc, locals) && CanCall(s.m, argc, locals)
    ensures var m := Entered(tail, s, entry, argc, locals);
            && m.ip == entry && m.ap + argc + 1 <= |m.stack|
            && Handed(m, argc) == s.m.stack[s.m.sp - argc - 1..s.m.sp]
            && forall i :: m.fp <= i < m.sp ==> i < |m.stack| && m.stack[i] == Null
  {
    hide Called, TailCalled;
    CallHands(s.m, entry, s.ret, argc, locals);
    TailCallHands(s.m, entry, argc, locals);
    TailCallLinks(s.m, entry, argc, locals);
  }

  /** The calls the two machines make. */
  function Hops<W>(body: Methods<W>, w: W, ip: int, seen: seq<Slot>, locals: nat, ts: seq<Stop>, cs: seq<Stop>): seq<Hop>
    requires |ts| == |cs|
    decreases |ts|
  {
    if ts == [] then []
    else match body(w, ip, seen, locals)
      case (_, Result(_)) => []
      case (w1, Next(entry, a, l, handed)) =>
        [Hop(ts[0].m, cs[0].m, entry, cs[0].ret, a, l)] + Hops(body, w1, entry, handed, l, ts[1..], cs[1..])
  }

  /** A run whose first method calls another one. */
  lemma RunsNext<W>(tail: bool, rets: set<int>, body: Methods<W>, w: W, m0: Regs, argc: nat, locals: nat,
                    stops: seq<Stop>, end: Regs)
    requires Runs(tail, rets, body, w, m0, argc, locals, stops, end)
    requires body(w, m0.ip, Handed(m0, argc), locals).1.Next?
    ensures var (w1, x) := body(w, m0.ip, Handed(m0, argc), locals);
      && stops != [] && Framed(m0) && Leaves(m0, stops[0].m, x.argc, x.locals, x.handed) && stops[0].ret in rets
      && var m1 := Entered(tail, stops[0], x.entry, x.argc, x.locals);
         && Runs(tail, rets, body, w1, m1, x.argc, x.locals, stops[1..], end)
         && m1.ip == x.entry && m1.ap + x.argc + 1 <= |m1.stack| && Handed(m1, x.argc) == x.handed
  {
    hide Kept, Handed, Entered;
    var (w1, x) := body(w, m0.ip, Handed(m0, argc), locals);
    EnteredSees(tail, stops[0], x.entry, x.argc, x.locals);
  }

  lemma HopsNext<W>(body: Methods<W>, w: W, ip: int, seen: seq<Slot>, locals: nat, ts: seq<Stop>, cs: seq<Stop>)
    requires |ts| == |cs| && ts != [] && body(w, ip, seen, locals).1.Next?
    ensures var (w1, x) := body(w, ip, seen, locals);
            Hops(body, w, ip, seen, locals, ts, cs) ==
            [Hop(ts[0].m, cs[0].m, x.entry, cs[0].ret, x.argc, x.locals)] + Hops(body, w1, x.entry, x.handed, x.locals, ts[1..], cs[1..])
  {
  }

  lemma RunsDone<W>(tail: bool, rets: set<int>, body: Methods<W>, w: W, m0: Regs, argc: nat, locals: nat,
                    stops: seq<Stop>, end: Regs)
    requires Runs(tail, rets, body, w, m0, argc, locals, stops, end)
    requires body(w, m0.ip, Handed(m0, argc), locals).1.Result?
    ensures stops == [] && Framed(m0) && Kept(m0, end) && end.stack[end.sp - 1] == body(w, m0.ip, Handed(m0, argc), locals).1.v
  {
  }

  lemma {:induction false} RunsFollow<W>(rets: set<int>, body: Methods<W>, w: W, t0: Regs, c0: Regs, argc: nat, locals: nat,
                                         ts: seq<Stop>, cs: seq<Stop>, t: Regs, c: Regs)
    requires Runs(true, rets, body, w, t0, argc, locals, ts, t) && Runs(false, rets, body, w, c0, argc, locals, cs, c)
    requires t0.ap + argc + 1 <= |t0.stack| && c0.ap + argc + 1 <= |c0.stack|
    requires t0.ip == c0.ip && Handed(t0, argc) == Handed(c0, argc)
    ensures |ts| == |cs|
    ensures var hops := Hops(body, w, t0.ip, Handed(t0, argc), locals, ts, cs);
            |hops| == |ts| && Follows(rets, t0, c0, hops, t, c)
    decreases |ts|
  {
    hide Kept, Handed, Entered, Runs, Hops, Follows, CanTailCall, CanCall;
    var (w1, x) := body(w, t0.ip, Handed(t0, argc), locals);
    if x.Result? {
      RunsDone(true, rets, body, w, t0, argc, locals, ts, t);
      RunsDone(false, rets, body, w, c0, argc, locals, cs, c);
      NoHops(rets, body, w, t0, c0, Handed(t0, argc), locals, t, c);
    } else {
      RunsNext(true, rets, body, w, t0, argc, locals, ts, t);
      RunsNext(false, rets, body, w, c0, argc, locals, cs, c);
      var t1, c1 := Entered(true, ts[0], x.entry, x.argc, x.locals), Entered(false, cs[0], x.entry, x.argc, x.locals);
      RunsFollow(rets, body, w1, t1, c1, x.argc, x.locals, ts[1..], cs[1..], t, c);
      HopsNext(body, w, t0.ip, Handed(t0, argc), locals, ts, cs);
      var hops := Hops(body, w, t0.ip, Handed(t0, argc), locals, ts, cs);
      assert hops[1..] == Hops(body, w1, x.entry, x.handed, x.locals, ts[1..], cs[1..]);
      FirstHop(rets, t0, c0, ts[0], cs[0], x.entry, x.argc, x.locals, x.handed, hops, t, c);
    }
  }

  lemma NoHops<W>(rets: set<int>, body: Methods<W>, w: W, t0: Regs, c0: Regs, seen: seq<Slot>, locals: nat, t: Regs, c: Regs)
    requires Framed(t0) && Framed(c0) && Kept(t0, t) && Kept(c0, c) && t.stack[t.sp - 1] == c.stack[c.sp - 1]
    ensures Hops(body, w, t0.ip, seen, locals, [], []) == [] && Follows(rets, t0, c0, [], t, c)
  {
  }

  lemma FirstHop(rets: set<int>, t0: Regs, c0: Regs, s: Stop, d: Stop, entry: int, argc: nat, locals: nat, handed: seq<Slot>,
                 hops: seq<Hop>, t: Regs, c: Regs)
    requires Framed(t0) && Framed(c0) && Leaves(t0, s.m, argc, locals, handed) && Leaves(c0, d.m, argc, locals, handed)
    requires d.ret in rets && hops != [] && hops[0] == Hop(s.m, d.m, entry, d.ret, argc, locals)
    requires Follows(rets, Entered(true, s, entry, argc, locals), Entered(false, d, entry, argc, locals), hops[1..], t, c)
    ensures Follows(rets, t0, c0, hops, t, c)
  {
    hide Kept, Called, TailCalled;
  }

  /** Tail calls refine calls: from one frame, two machines that run the same methods, one
      with tail calls and one with calls, make the same number of calls and, when all have
      returned, agree on ip, ap, fp, sp, the result and all slots below the frame. */
  lemma TailCallsAreCalls<W>(rets: set<int>, body: Methods<W>, w: W, m: Regs, argc: nat, locals: nat,
                             ts: seq<Stop>, cs: seq<Stop>, t: Regs, c: Regs)
    requires Runs(true, rets, body, w, m, argc, locals, ts, t) && Runs(false, rets, body, w, m, argc, locals, cs, c)
    ensures Framed(t) && |ts| == |cs| && Same(Unwound(c, |cs| + 1), Returned(t)) && t.ap == m.ap
  {
    hide Runs, Kept, Unwound, Same, Returned, Follows;
    RunsFollow(rets, body, w, m, m, argc, locals, ts, cs, t, c) by { RunsFramed(true, rets, body, w, m, argc, locals, ts, t); }
    var hops := Hops(body, w, m.ip, Handed(m, argc), locals, ts, cs) by { RunsFramed(true, rets, body, w, m, argc, locals, ts, t); }
    TailCallsRefineCalls(rets, m, hops, t, c);
  }

  lemma RunsFramed<W>(tail: bool, rets: set<int>, body: Methods<W>, w: W, m: Regs, argc: nat, locals: nat,
                      stops: seq<Stop>, end: Regs)
    requires Runs(tail, rets, body, w, m, argc, locals, stops, end)
    ensures Framed(m) && m.ap + argc + 1 <= |m.stack|
  {
  }
}
