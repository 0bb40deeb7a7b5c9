/** Exception handling: the search for a handler in the virtual machine (vm/vm.c) and the
    order in which the compiler emits the try blocks of a method (compiler/strom.cpp). */
module Exceptions {
  import opened Frames

  datatype Handler = NoHandler | Handler(catchAddr: nat, ap: nat, fp: nat, sp: nat)

  type TryBlocks = seq<(nat, nat)>

  predicate Covers(block: (nat, nat), addr: int) { block.0 <= addr < block.1 }

  /** The catch address of the first block that covers an address, or -1. */
  function FirstCover(blocks: TryBlocks, addr: int): int {
    if blocks == [] then -1
    else if Covers(blocks[0], addr) then blocks[0].1
    else FirstCover(blocks[1..], addr)
  }

  // ----- the search -----------------------------------------------------------------

  /** The frames of the running methods: each lies above its caller's, and the last one was
      entered from native code. */
  predicate Stacked(m: Regs)
    decreases m.fp
  {
    Framed(m) && (m.stack[m.fp] == Null || m.stack[m.fp].Exinfo?)
    && (RetAddr(m) == NATIVE || (CallerFp(m) < m.ap && Stacked(Popped(m))))
  }

  function BlocksOf(m: Regs): TryBlocks
    requires Framed(m)
  {
    if m.stack[m.fp].Exinfo? then m.stack[m.fp].blocks else []
  }

  /** The innermost frame with a block that covers where it stands, and that block.  A
      caller stands just before its return address. */
  function Search(m: Regs, addr: int): Handler
    requires Stacked(m)
    decreases m.fp
  {
    var c := FirstCover(BlocksOf(m), addr);
    if c >= 0 then Handler(c, m.ap, m.fp, m.sp)
    else if RetAddr(m) == NATIVE then NoHandler
    else Search(Popped(m), RetAddr(m) - 1)
  }

  lemma {:induction false} CoverFound(blocks: TryBlocks, addr: int)
    ensures FirstCover(blocks, addr) >= 0 ==>
              exists i :: 0 <= i < |blocks| && Covers(blocks[i], addr) && blocks[i].1 == FirstCover(blocks, addr)
    ensures FirstCover(blocks, addr) < 0 ==> forall i :: 0 <= i < |blocks| ==> !Covers(blocks[i], addr)
    ensures FirstCover(blocks, addr) >= -1
  {
    if blocks != [] && !Covers(blocks[0], addr) {
      CoverFound(blocks[1..], addr);
      if FirstCover(blocks, addr) >= 0 {
        var i :| 0 <= i < |blocks[1..]| && Covers(blocks[1..][i], addr) && blocks[1..][i].1 == FirstCover(blocks, addr);
        assert blocks[i + 1] == blocks[1..][i];
      } else {
        forall i | 0 <= i < |blocks| ensures !Covers(blocks[i], addr) {
          if i > 0 { assert blocks[i] == blocks[1..][i - 1]; }
        }
      }
    }
  }

  /** The loop over the blocks of one frame. */
  method CoveringBlock(blocks: TryBlocks, addr: int) returns (c: int)
    ensures c == FirstCover(blocks, addr)
  {
    var i := 0;
    while i < |blocks|
      invariant i <= |blocks| && FirstCover(blocks[i..], addr) == FirstCover(blocks, addr)
    {
      assert blocks[i..][1..] == blocks[i + 1..];
      if blocks[i].0 <= addr && addr < blocks[i].1 { return blocks[i].1; }
      i := i + 1;
    }
    return -1;
  }

  /** What one turn of the search needs to know about the frame on top. */
  lemma SearchStep(m: Regs, addr: int)
    requires Stacked(m)
    ensures Framed(m) && (m.stack[m.fp] == Null || m.stack[m.fp].Exinfo?)
    ensures RetAddr(m) != NATIVE ==> Stacked(Popped(m)) && CallerFp(m) < m.fp
    ensures var c := FirstCover(BlocksOf(m), addr);
            Search(m, addr) == if c >= 0 then Handler(c, m.ap, m.fp, m.sp)
                               else if RetAddr(m) == NATIVE then NoHandler else Search(Popped(m), RetAddr(m) - 1)
    ensures FirstCover(BlocksOf(m), addr) >= -1 && (m.stack[m.fp] == Null ==> FirstCover(BlocksOf(m), addr) == -1)
  {
    CoverFound(BlocksOf(m), addr);
  }

  /** The search of the virtual machine.  It terminates because fp decreases. */
  method FindHandler(m: Regs) returns (h: Handler)
    requires Stacked(m)
    ensures h == Search(m, m.ip)
  {
    hide Stacked, Search, FirstCover;
    var ap: nat, fp: nat, sp: nat, retAddr := m.ap, m.fp, m.sp, m.ip + 1;
    ghost var w := m;
    SearchStep(w, retAddr - 1);
    while true
      invariant w == m.(ap := ap, fp := fp, sp := sp) && Stacked(w) && Framed(w)
      invariant m.stack[fp] == Null || m.stack[fp].Exinfo?
      invariant Search(m, m.ip) == Search(w, retAddr - 1)
      decreases fp
    {
      while m.stack[fp] == Null
        invariant w == m.(ap := ap, fp := fp, sp := sp) && Stacked(w) && Framed(w)
        invariant m.stack[fp] == Null || m.stack[fp].Exinfo?
        invariant Search(m, m.ip) == Search(w, retAddr - 1)
        decreases fp
      {
        SearchStep(w, retAddr - 1);
        w := Popped(w);
        sp := ap;
        retAddr := m.stack[fp - 3].value;
        ap := m.stack[fp - 2].value;
        fp := m.stack[fp - 1].value;
        if retAddr == NATIVE { return NoHandler; }
        SearchStep(w, retAddr - 1);
      }
      SearchStep(w, retAddr - 1);
      var c := CoveringBlock(m.stack[fp].blocks, retAddr - 1);
      if c != -1 { return Handler(c, ap, fp, sp); }
      w := Popped(w);
      sp := ap;
      retAddr := m.stack[fp - 3].value;
      ap := m.stack[fp - 2].value;
      fp := m.stack[fp - 1].value;
      if retAddr == NATIVE { return NoHandler; }
      SearchStep(w, retAddr - 1);
    }
  }

  /** The state after `j` frames have been popped, and where the frame then on top stands. */
  function PoppedTimes(m: Regs, j: nat): Regs
    decreases j
  {
    if j == 0 || !Framed(m) then m else PoppedTimes(Popped(m), j - 1)
  }

  function StandsAt(m: Regs, addr: int, j: nat): int
    decreases j
  {
    if j == 0 || !Framed(m) then addr else StandsAt(Popped(m), RetAddr(m) - 1, j - 1)
  }

  /** Popping a frame leaves the registers a return leaves, before the return pushes its
      value. */
  lemma PoppedAsReturned(m: Regs)
    requires Framed(m)
    ensures var p, r := Popped(m), Returned(m);
            p.ap == r.ap && p.fp == r.fp && p.sp + 1 == r.sp && p.stack[..p.sp] == r.stack[..p.sp]
  {
  }

  /** The handler found is that of the innermost frame that has one: no frame above it
      covers where it stands, its own first covering block is taken, and ap, fp and sp are
      those after popping the frames above it. */
  lemma {:induction false} SearchFindsInnermost(m: Regs, addr: int) returns (j: nat)
    requires Stacked(m)
    ensures Search(m, addr).Handler? ==>
              var p, h := PoppedTimes(m, j), Search(m, addr);
              && Framed(p) && h.ap == p.ap && h.fp == p.fp && h.sp == p.sp
              && FirstCover(BlocksOf(p), StandsAt(m, addr, j)) == h.catchAddr
              && forall i :: 0 <= i < j ==> Uncovered(m, addr, i)
    ensures Search(m, addr).NoHandler? ==>
              Framed(PoppedTimes(m, j)) && RetAddr(PoppedTimes(m, j)) == NATIVE && forall i :: 0 <= i <= j ==> Uncovered(m, addr, i)
    decreases m.fp
  {
    j := 0;
    CoverFound(BlocksOf(m), addr);
    if FirstCover(BlocksOf(m), addr) < 0 {
      assert Uncovered(m, addr, 0);
      if RetAddr(m) != NATIVE {
        var k := SearchFindsInnermost(Popped(m), RetAddr(m) - 1);
        forall i | 0 < i && Uncovered(Popped(m), RetAddr(m) - 1, i - 1) ensures Uncovered(m, addr, i) { }
        j := k + 1;
      }
    }
  }

  /** The `i`-th frame from the top has no block that covers where it stands. */
  predicate Uncovered(m: Regs, addr: int, i: nat) {
    var p := PoppedTimes(m, i);
    Framed(p) && FirstCover(BlocksOf(p), StandsAt(m, addr, i)) < 0
  }

  // ----- the order of blocks --------------------------------------------------------

  /** The layout of a method body as far as try blocks matter. */
  datatype Layout =
    | Code(size: nat)
    | Seq(first: Layout, rest: Layout)
    | Try(body: Layout, handler: Layout)

  function Size(x: Layout): nat {
    match x
    case Code(n) => n
    case Seq(a, b) => Size(a) + Size(b)
    case Try(b, h) => Size(b) + 3 + Size(h)
  }

  /** The exception table in the order Try::Translate fills it: a try block is added after
      its body and its handler.  Its range ends with the jump over the handler. */
  function Emitted(x: Layout, org: nat): TryBlocks {
    match x
    case Code(_) => []
    case Seq(a, b) => Emitted(a, org) + Emitted(b, org + Size(a))
    case Try(b, h) =>
      var catchAddr := org + Size(b) + 3;
      Emitted(b, org) + Emitted(h, catchAddr) + [(org, catchAddr)]
  }

  /** The handler of the innermost try statement whose try block an address is in. */
  function Innermost(x: Layout, org: nat, addr: int): int {
    match x
    case Code(_) => -1
    case Seq(a, b) => if addr < org + Size(a) then Innermost(a, org, addr) else Innermost(b, org + Size(a), addr)
    case Try(b, h) =>
      var catchAddr := org + Size(b) + 3;
      if addr >= catchAddr then Innermost(h, catchAddr, addr)
      else
        var inner := if addr < org + Size(b) then Innermost(b, org, addr) else -1;
        if inner >= 0 then inner else catchAddr
  }

  /** Translating a body: bytes are counted, and each try statement adds its block after
      its body and its handler have been translated. */
  class TryOutput {
    var ip: nat
    var blocks: TryBlocks

    constructor (entry: nat)
      ensures ip == entry && blocks == []
    {
      ip, blocks := entry, [];
    }

    method Translate(x: Layout)
      modifies this
      ensures ip == old(ip) + Size(x) && blocks == old(blocks) + Emitted(x, old(ip))
      decreases x
    {
      match x {
        case Code(n) =>
          ip := ip + n;
        case Seq(a, b) =>
          Translate(a);
          Translate(b);
        case Try(b, h) =>
          var tryAddr := ip;
          Translate(b);
          ip := ip + 3;
          var catchAddr := ip;
          Translate(h);
          blocks := blocks + [(tryAddr, catchAddr)];
      }
    }
  }

  lemma {:induction false} CoverAppend(a: TryBlocks, b: TryBlocks, addr: int)
    ensures FirstCover(a + b, addr) == if FirstCover(a, addr) >= 0 then FirstCover(a, addr) else FirstCover(b, addr)
  {
    if a == [] {
      assert a + b == b;
    } else {
      assert (a + b)[1..] == a[1..] + b;
      CoverAppend(a[1..], b, addr);
    }
  }

  /** Ranges lie inside their piece of code, so pieces do not cover each other's addresses. */
  lemma {:induction false} EmittedInside(x: Layout, org: nat, addr: int)
    requires !(org <= addr < org + Size(x))
    ensures FirstCover(Emitted(x, org), addr) == -1
  {
    match x
    case Code(_) =>
    case Seq(a, b) =>
      EmittedInside(a, org, addr);
      EmittedInside(b, org + Size(a), addr);
      CoverAppend(Emitted(a, org), Emitted(b, org + Size(a)), addr);
    case Try(b, h) =>
      var catchAddr := org + Size(b) + 3;
      EmittedInside(b, org, addr);
      EmittedInside(h, catchAddr, addr);
      CoverAppend(Emitted(b, org), Emitted(h, catchAddr), addr);
      CoverAppend(Emitted(b, org) + Emitted(h, catchAddr), [(org, catchAddr)], addr);
      assert [(org, catchAddr)][1..] == [];
  }

  /** The first covering block, in the order of emission, belongs to the innermost try
      statement around the address. */
  lemma {:induction false} FirstIsInnermost(x: Layout, org: nat, addr: int)
    requires org <= addr < org + Size(x)
    ensures FirstCover(Emitted(x, org), addr) == Innermost(x, org, addr)
    ensures Innermost(x, org, addr) == -1 || org < Innermost(x, org, addr)
  {
    match x
    case Code(_) =>
    case Seq(a, b) =>
      CoverAppend(Emitted(a, org), Emitted(b, org + Size(a)), addr);
      if addr < org + Size(a) {
        FirstIsInnermost(a, org, addr);
        EmittedInside(b, org + Size(a), addr);
      } else {
        EmittedInside(a, org, addr);
        FirstIsInnermost(b, org + Size(a), addr);
      }
    case Try(b, h) =>
      var catchAddr := org + Size(b) + 3;
      CoverAppend(Emitted(b, org), Emitted(h, catchAddr), addr);
      CoverAppend(Emitted(b, org) + Emitted(h, catchAddr), [(org, catchAddr)], addr);
      assert [(org, catchAddr)][1..] == [];
      if addr >= catchAddr {
        EmittedInside(b, org, addr);
        FirstIsInnermost(h, catchAddr, addr);
      } else {
        EmittedInside(h, catchAddr, addr);
        if addr < org + Size(b) { FirstIsInnermost(b, org, addr); } else { EmittedInside(b, org, addr); }
      }
  }

  // ----- a throw right before a try block -------------------------------------------

  /** A try statement starts at the address. */
  predicate TryStarts(x: Layout, org: nat, addr: int) {
    match x
    case Code(_) => false
    case Seq(a, b) => TryStarts(a, org, addr) || TryStarts(b, org + Size(a), addr)
    case Try(b, h) => addr == org || TryStarts(b, org, addr) || TryStarts(h, org + Size(b) + 3, addr)
  }

  lemma {:induction false} StartsInside(x: Layout, org: nat, addr: int)
    ensures TryStarts(x, org, addr) ==> org <= addr < org + Size(x)
  {
    match x
    case Code(_) =>
    case Seq(a, b) => StartsInside(a, org, addr); StartsInside(b, org + Size(a), addr);
    case Try(b, h) => StartsInside(b, org, addr); StartsInside(h, org + Size(b) + 3, addr);
  }

  /** Handlers found inside a piece of code lie inside it; at its first address one is found
      exactly when a try statement starts there. */
  lemma {:induction false} InnermostInside(x: Layout, org: nat, addr: int)
    requires org <= addr < org + Size(x)
    ensures Innermost(x, org, addr) == -1 || addr < Innermost(x, org, addr) <= org + Size(x)
    ensures addr == org ==> (TryStarts(x, org, addr) <==> Innermost(x, org, addr) >= 0)
  {
    match x
    case Code(_) =>
    case Seq(a, b) =>
      StartsInside(a, org, addr);
      StartsInside(b, org + Size(a), addr);
      if addr < org + Size(a) { InnermostInside(a, org, addr); } else { InnermostInside(b, org + Size(a), addr); }
    case Try(b, h) =>
      if addr < org + Size(b) { InnermostInside(b, org, addr); }
      else if addr >= org + Size(b) + 3 { InnermostInside(h, org + Size(b) + 3, addr); }
  }

  /** The address is in ordinary code, where a throw can stand. */
  predicate InCode(x: Layout, org: nat, addr: int) {
    match x
    case Code(n) => org <= addr < org + n
    case Seq(a, b) => InCode(a, org, addr) || InCode(b, org + Size(a), addr)
    case Try(b, h) => InCode(b, org, addr) || InCode(h, org + Size(b) + 3, addr)
  }

  lemma {:induction false} InCodeInside(x: Layout, org: nat, addr: int)
    requires InCode(x, org, addr)
    ensures org <= addr < org + Size(x)
  {
    match x
    case Code(_) =>
    case Seq(a, b) => if InCode(a, org, addr) { InCodeInside(a, org, addr); } else { InCodeInside(b, org + Size(a), addr); }
    case Try(b, h) => if InCode(b, org, addr) { InCodeInside(b, org, addr); } else { InCodeInside(h, org + Size(b) + 3, addr); }
  }

  /** Ordinary code at the very end of a piece is in none of its try blocks. */
  lemma {:induction false} LastIsFree(x: Layout, org: nat, addr: int)
    requires InCode(x, org, addr) && addr + 1 == org + Size(x)
    ensures Innermost(x, org, addr) == -1
  {
    match x
    case Code(_) =>
    case Seq(a, b) =>
      if InCode(a, org, addr) {
        InCodeInside(a, org, addr);
        LastIsFree(a, org, addr);
      } else {
        InCodeInside(b, org + Size(a), addr);
        LastIsFree(b, org + Size(a), addr);
      }
    case Try(b, h) =>
      if InCode(b, org, addr) { InCodeInside(b, org, addr); assert false; }
      InCodeInside(h, org + Size(b) + 3, addr);
      LastIsFree(h, org + Size(b) + 3, addr);
  }

  lemma {:induction false} NextAddress(x: Layout, org: nat, addr: int)
    requires InCode(x, org, addr) && addr + 1 < org + Size(x)
    ensures Innermost(x, org, addr + 1) == Innermost(x, org, addr) <==> !TryStarts(x, org, addr + 1)
  {
    match x
    case Code(_) =>
    case Seq(a, b) =>
      var mid := org + Size(a);
      StartsInside(a, org, addr + 1);
      StartsInside(b, mid, addr + 1);
      if InCode(a, org, addr) {
        InCodeInside(a, org, addr);
        if addr + 1 < mid {
          NextAddress(a, org, addr);
        } else {
          LastIsFree(a, org, addr);
          InnermostInside(b, mid, mid);
        }
      } else {
        InCodeInside(b, mid, addr);
        NextAddress(b, mid, addr);
      }
    case Try(b, h) =>
      var catchAddr := org + Size(b) + 3;
      StartsInside(b, org, addr + 1);
      StartsInside(h, catchAddr, addr + 1);
      if InCode(b, org, addr) {
        InCodeInside(b, org, addr);
        InnermostInside(b, org, addr);
        if addr + 1 < org + Size(b) {
          InnermostInside(b, org, addr + 1);
          NextAddress(b, org, addr);
        } else {
          LastIsFree(b, org, addr);
        }
      } else {
        InCodeInside(h, catchAddr, addr);
        NextAddress(h, catchAddr, addr);
      }
  }

  /** The search looks one byte behind a throw.  It finds the handler of the innermost try
      statement around the throw exactly when no try statement starts right behind it. */
  lemma ThrowFindsInnermost(x: Layout, org: nat, addr: int)
    requires InCode(x, org, addr)
    ensures FirstCover(Emitted(x, org), addr + 1) == Innermost(x, org, addr) <==> !TryStarts(x, org, addr + 1)
  {
    InCodeInside(x, org, addr);
    StartsInside(x, org, addr + 1);
    if addr + 1 < org + Size(x) {
      FirstIsInnermost(x, org, addr + 1);
      NextAddress(x, org, addr);
    } else {
      EmittedInside(x, org, addr + 1);
      LastIsFree(x, org, addr);
    }
  }
}
