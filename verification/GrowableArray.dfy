/** Arrays that grow (vm/memory.c, vm/k_array.c, vm/vm.c) as a sequence extended with nil.
    Where arrays live in the collected heap is the matter of modules Instructions and
    Machine; here an array owns its element block. */
module GrowableArray {
  import opened Basics

  datatype Slot = NilSlot | Ref(id: nat)

  const ARR_INIT_SIZE := 512

  /** The sequence, made long enough to have the index. */
  function Extended(s: seq<Slot>, idx: nat): (r: seq<Slot>)
    ensures |r| > idx && |r| >= |s| && (forall i :: 0 <= i < |r| ==> r[i] == if i < |s| then s[i] else NilSlot)
    ensures |r| == if idx < |s| then |s| else idx + 1
  {
    if idx < |s| then s else s + seq(idx + 1 - |s|, i => NilSlot)
  }

  /** One turn of the loop makes a capacity larger exactly from two on: with one the loop
      would not end. */
  lemma GrowsFromTwo(cap: nat)
    ensures cap * 3 / 2 > cap <==> cap >= 2
  {
  }

  class KekArray {
    var length: nat
    var allocSize: nat
    var elems: array<Slot>
    /** What the header of the element block says. */
    var blockLength: nat
    var blockAlloc: nat
    /** The elements moved by growing so far, and how often the array has grown. */
    ghost var copied: nat
    ghost var growths: nat

    /** Both stored lengths agree and stay within the capacity; unused slots are nil. */
    predicate Valid()
      reads this, elems
    {
      && 2 <= allocSize == blockAlloc == elems.Length && length == blockLength <= allocSize
      && forall i :: length <= i < elems.Length ==> elems[i] == NilSlot
    }

    function Contents(): seq<Slot>
      requires Valid()
      reads this, elems
    {
      elems[..length]
    }

    constructor ()
      ensures Valid() && fresh(elems) && Contents() == [] && allocSize == ARR_INIT_SIZE && copied == 0 && growths == 0
    {
      length, blockLength := 0, 0;
      elems := new Slot[ARR_INIT_SIZE](_ => NilSlot);
      allocSize, blockAlloc := ARR_INIT_SIZE, ARR_INIT_SIZE;
      copied, growths := 0, 0;
    }

    /** Reading an element, or an error behind the end. */
    method Get(idx: nat) returns (v: Option<Slot>)
      requires Valid()
      ensures v == if idx < |Contents()| then Some(Contents()[idx]) else None
    {
      v := if idx < length then Some(elems[idx]) else None;
    }

    /** A new block of sufficient capacity, with the elements copied. */
    method Grow(newLength: nat)
      requires Valid() && length < newLength
      modifies this
      ensures Valid() && fresh(elems) && length == newLength && allocSize == Grown(old(allocSize), newLength)
      ensures Contents() == Extended(old(Contents()), newLength - 1)
      ensures copied == old(copied) + old(length) && growths == old(growths) + 1
    {
      ghost var was := Contents();
      var newSize := allocSize;
      while newSize < newLength
        invariant newSize >= 2 && Grown(newSize, newLength) == Grown(allocSize, newLength)
        decreases newLength - newSize
      {
        newSize := newSize * 3 / 2;
      }
      var block := NewBlock(newSize);
      CopySlots(block, 0, elems, length);
      copied, growths := copied + length, growths + 1;
      elems := block;
      allocSize, blockAlloc := newSize, newSize;
      length, blockLength := newLength, newLength;
    }

    /** Makes room for an index: what IDXA does before it pushes the element's address. */
    method Address(idx: nat)
      requires Valid()
      modifies this
      ensures Valid() && idx < length && Contents() == Extended(old(Contents()), idx)
      ensures elems == old(elems) || fresh(elems)
      ensures old(allocSize) > idx ==> allocSize == old(allocSize) && copied == old(copied) && growths == old(growths)
      ensures old(allocSize) <= idx ==> allocSize == Grown(old(allocSize), idx + 1)
                                        && copied == old(copied) + old(length) && growths == old(growths) + 1
    {
      if idx >= allocSize {
        Grow(idx + 1);
      } else if idx >= length {
        length, blockLength := idx + 1, idx + 1;
      }
    }

    method Set(idx: nat, v: Slot)
      requires Valid()
      modifies this, elems
      ensures Valid() && Contents() == Extended(old(Contents()), idx)[idx := v]
      ensures elems == old(elems) || fresh(elems)
      ensures old(allocSize) > idx ==> allocSize == old(allocSize) && copied == old(copied) && growths == old(growths)
      ensures old(allocSize) <= idx ==> allocSize == Grown(old(allocSize), idx + 1)
                                        && copied == old(copied) + old(length) && growths == old(growths) + 1
    {
      Address(idx);
      elems[idx] := v;
    }

    /** Appending another array.  Without growing, the length in the block is left behind, so
        the stored lengths agree afterwards exactly when the array has grown or nothing was
        appended. */
    method Append(other: KekArray)
      requires Valid() && other.Valid() && other != this && other.elems != elems
      modifies this, elems
      ensures length == old(length) + other.length <= elems.Length
      ensures elems[..length] == old(Contents()) + old(other.Contents())
      ensures blockLength == length <==> (old(length) + other.length > old(allocSize) || other.length == 0)
    {
      var newLen, oldLen := length + other.length, length;
      ghost var mine, its := Contents(), other.Contents();
      if newLen > allocSize {
        Grow(newLen);
      } else {
        length := newLen;
      }
      CopySlots(elems, oldLen, other.elems, other.length);
      assert elems[..length] == mine + its;
    }

    /** Appending an array to itself.  The loop runs to the length that has just been raised,
        so it copies twice the elements there were: inside the block exactly when that has
        room for three times as many, and then the unused slots behind the new length are
        no longer nil. */
    method AppendSelf() returns (inside: bool)
      requires Valid()
      modifies this, elems
      ensures length == 2 * old(length)
      ensures allocSize == elems.Length == if length > old(allocSize) then Grown(old(allocSize), length) else old(allocSize)
      ensures inside <==> 3 * old(length) <= elems.Length
      ensures inside ==> elems[..length] == old(Contents()) + old(Contents())
      ensures inside ==> elems[length..length + old(length)] == old(Contents())
    {
      hide Grown;
      var newLen, oldLen := length + length, length;
      ghost var mine := Contents();
      if newLen > allocSize {
        Grow(newLen);
        assert Contents()[..oldLen] == mine;
      } else {
        length := newLen;
      }
      assert elems[..oldLen] == mine;
      inside := CopyAhead(elems, oldLen, length);
      if inside { Repeated(elems[..], mine); }
    }
  }

  /** An element block full of nil. */
  method NewBlock(size: nat) returns (block: array<Slot>)
    ensures fresh(block) && block.Length == size && forall i :: 0 <= i < size ==> block[i] == NilSlot
  {
    block := new Slot[size](_ => NilSlot);
  }

  /** Copying within a block, from its front to `from` and on, until the block ends. */
  method CopyAhead(block: array<Slot>, from: nat, n: nat) returns (inside: bool)
    requires from <= block.Length
    modifies block
    ensures inside <==> from + n <= block.Length
    ensures forall k :: 0 <= k < from ==> block[k] == old(block[k])
    ensures inside ==> forall k :: from <= k < from + n ==> block[k] == block[k - from]
  {
    var i, j: nat := from, 0;
    while j < n
      invariant 0 <= j <= n && i == from + j <= block.Length
      invariant forall k :: 0 <= k < from ==> block[k] == old(block[k])
      invariant forall k :: from <= k < i ==> block[k] == block[k - from]
    {
      if i == block.Length { return false; }
      block[i] := block[j];
      i, j := i + 1, j + 1;
    }
    inside := true;
  }

  lemma Repeated(s: seq<Slot>, mine: seq<Slot>)
    requires 3 * |mine| <= |s| && s[..|mine|] == mine
    requires forall k :: |mine| <= k < 3 * |mine| ==> s[k] == s[k - |mine|]
    ensures s[..2 * |mine|] == mine + mine && s[2 * |mine|..3 * |mine|] == mine
  {
    var n := |mine|;
    forall k | 0 <= k < n ensures s[k] == mine[k] && s[n + k] == mine[k] && s[2 * n + k] == mine[k] {
      assert s[k] == s[..n][k];
      assert s[n + k] == s[n + k - n] && s[2 * n + k] == s[2 * n + k - n];
    }
  }

  method CopySlots(dst: array<Slot>, at: nat, src: array<Slot>, n: nat)
    requires dst != src && n <= src.Length && at + n <= dst.Length
    modifies dst
    ensures forall i :: 0 <= i < dst.Length ==> dst[i] == if at <= i < at + n then src[i - at] else old(dst[i])
  {
    var j := 0;
    while j < n
      invariant j <= n
      invariant forall i :: 0 <= i < dst.Length ==> dst[i] == if at <= i < at + j then src[i - at] else old(dst[i])
    {
      dst[at + j] := src[j];
      j := j + 1;
    }
  }

  /** Growing by one element takes one turn of the loop. */
  lemma GrownByOne(cap: nat)
    requires cap >= 2
    ensures Grown(cap, cap + 1) == cap * 3 / 2
  {
  }

  /** Building an array element by element copies fewer than four times its elements. */
  method Build(vs: seq<Slot>) returns (a: KekArray)
    requires vs != []
    ensures a.Valid() && a.Contents() == vs && a.copied < 4 * |vs|
  {
    a := new KekArray();
    var n := 0;
    while n < |vs|
      invariant 0 <= n <= |vs| && a.Valid() && fresh(a) && fresh(a.elems) && a.Contents() == vs[..n]
      invariant a.allocSize >= ARR_INIT_SIZE
      invariant a.copied + 1024 <= 2 * a.allocSize + a.growths && 256 * a.growths + 512 <= a.allocSize
      invariant a.growths == 0 ==> a.copied == 0
      invariant a.growths > 0 ==> 2 * a.allocSize <= 3 * n
    {
      if n == a.allocSize { GrownByOne(n); }
      a.Set(n, vs[n]);
      assert vs[..n + 1] == vs[..n] + [vs[n]];
      assert a.Contents() == vs[..n + 1];
      n := n + 1;
    }
    assert vs[..n] == vs;
  }
}
