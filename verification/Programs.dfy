/** Programs with jumps: an instruction pointer over heap instructions, JU and IFNJ
    (vm/vm.c), on the unbounded heap, and what relates their branches on the collected one. */
module Programs {
  import opened Basics
  import opened KekObjects
  import opened HeapGraph
  import opened CopyLedger
  import opened HeapState
  import opened Instructions
  import opened SoundSteps
  import opened Simulation
  import opened SimulationGc
  import opened SimulationStep

  datatype Instr = Do(op: Op) | Jump(target: nat) | JumpUnless(target: nat)

  /** Does IFNJ jump?  Zero and nil do; anything but an integer or nil is an error. */
  function Jumps(s: State): Option<bool> {
    if |s.stack| < 1 then None
    else
      var w := Top(s, 0);
      if IsInt(s.mem, w) then Some(IntVal(s.mem, w) == 0)
      else if w.Ptr? && w.at in s.mem && s.mem[w.at].Nil? then Some(true)
      else None
  }

  /** Where a program has got. */
  datatype Place = Failed(out: seq<Output>) | At(s: State, ip: nat, out: seq<Output>)

  /** One turn; running outside the program is a failure. */
  function Turn(e: Layout, u: State, ip: nat, prog: seq<Instr>): Place {
    if ip >= |prog| then Failed([])
    else match prog[ip]
      case Jump(target) => At(u, target, [])
      case JumpUnless(target) =>
        var j := Jumps(u);
        if j.None? then Failed([]) else At(Drop(u, 1), if j.value then target else ip + 1, [])
      case Do(op) =>
        match StepUnbounded(e, u, op)
        case Halted(out) => Failed(out)
        case Ran(s, out) => At(s, ip + 1, out)
  }

  function Turns(e: Layout, u: State, ip: nat, prog: seq<Instr>, n: nat): Place
    decreases n
  {
    if n == 0 then At(u, ip, [])
    else match Turn(e, u, ip, prog)
      case Failed(out) => Failed(out)
      case At(v, k, out) => Behind(out, Turns(e, v, k, prog, n - 1))
  }

  function Behind(out: seq<Output>, r: Place): Place { r.(out := out + r.out) }

  /** Both machines decide a branch alike and go on related. */
  lemma BranchBoth(e: Layout, u: State, g: State, r: map<int, int>)
    requires UnboundedOk(e, u) && Sound(g) && LayoutOk(e, g) && Sim(u, g, r)
    ensures Jumps(u) == Jumps(g)
    ensures Jumps(u).Some? ==>
      && |u.stack| >= 1 && |g.stack| >= 1
      && UnboundedOk(e, Drop(u, 1)) && Sound(Drop(g, 1)) && SameShape(g, Drop(g, 1)) && LayoutOk(e, Drop(g, 1))
      && Sim(Drop(u, 1), Drop(g, 1), r)
  {
    hide Sound;
    if |u.stack| >= 1 {
      SimTopObj(u, g, r, 0);
      SimDrop(u, g, r, 1);
      DropSound(u, 1);
      DropSound(g, 1);
    }
  }

  lemma TurnsStart(e: Layout, u: State, ip: nat, prog: seq<Instr>, n: nat)
    ensures Behind([], Turns(e, u, ip, prog, n)) == Turns(e, u, ip, prog, n)
    ensures Turns(e, u, ip, prog, 0) == At(u, ip, [])
  {
  }

  /** Unrolling a run by one turn. */
  lemma TurnsNext(e: Layout, u: State, ip: nat, prog: seq<Instr>, n: nat, written: seq<Output>)
    requires n > 0
    ensures var t := Turn(e, u, ip, prog);
      && (t.Failed? ==> Behind(written, Turns(e, u, ip, prog, n)) == Failed(written))
      && (t.At? ==> Behind(written, Turns(e, u, ip, prog, n)) == Behind(written + t.out, Turns(e, t.s, t.ip, prog, n - 1)))
  {
    hide StepUnbounded;
    var t := Turn(e, u, ip, prog);
    if t.Failed? {
      FailsSilently(e, u, ip, prog);
      assert written + [] == written;
    } else {
      var r := Turns(e, t.s, t.ip, prog, n - 1);
      assert written + (t.out + r.out) == (written + t.out) + r.out;
    }
  }

  lemma FailsSilently(e: Layout, u: State, ip: nat, prog: seq<Instr>)
    ensures Turn(e, u, ip, prog).Failed? ==> Turn(e, u, ip, prog).out == []
  {
    hide Begin;
  }
}
