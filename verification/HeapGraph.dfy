/** Reachability in a heap, and the space a set of objects takes once copied. */
module HeapGraph {
  import opened KekObjects

  /** The part of memory the collector moves: the objects of one semispace. */
  datatype Region = Region(lo: int, hi: int) {
    predicate Has(a: int) { lo <= a < hi }
  }

  /** One traced field of object `a` holds the address of heap object `b`. */
  ghost predicate Edge(h: Mem, r: Region, a: int, b: int) {
    a in h && b in h && r.Has(b) && b in Refs(h[a])
  }

  ghost predicate IsPath(h: Mem, r: Region, roots: set<int>, p: seq<int>) {
    |p| > 0 && p[0] in roots
    && forall i :: 0 < i < |p| ==> Edge(h, r, p[i - 1], p[i])
  }

  ghost predicate Reach(h: Mem, r: Region, roots: set<int>, a: int) {
    exists p :: IsPath(h, r, roots, p) && p[|p| - 1] == a
  }

  lemma RootReach(h: Mem, r: Region, roots: set<int>, a: int)
    requires a in roots
    ensures Reach(h, r, roots, a)
  {
    var p := [a];
    assert IsPath(h, r, roots, p) && p[|p| - 1] == a;
  }

  lemma StepReach(h: Mem, r: Region, roots: set<int>, a: int, b: int)
    requires Reach(h, r, roots, a) && Edge(h, r, a, b)
    ensures Reach(h, r, roots, b)
  {
    var p :| IsPath(h, r, roots, p) && p[|p| - 1] == a;
    var q := p + [b];
    forall i | 0 < i < |q| ensures Edge(h, r, q[i - 1], q[i]) {
      if i < |p| { assert q[i - 1] == p[i - 1] && q[i] == p[i]; }
    }
    assert IsPath(h, r, roots, q) && q[|q| - 1] == b;
  }

  /** A set holding the roots and closed under edges holds every reachable object. */
  lemma ClosedHoldsReach(h: Mem, r: Region, roots: set<int>, s: set<int>, a: int)
    requires roots <= s
    requires forall x, y :: x in s && Edge(h, r, x, y) ==> y in s
    requires Reach(h, r, roots, a)
    ensures a in s
  {
    var p :| IsPath(h, r, roots, p) && p[|p| - 1] == a;
    PathInside(h, r, roots, s, p, |p| - 1);
  }

  lemma {:induction false} PathInside(h: Mem, r: Region, roots: set<int>, s: set<int>, p: seq<int>, n: nat)
    requires roots <= s
    requires forall x, y :: x in s && Edge(h, r, x, y) ==> y in s
    requires IsPath(h, r, roots, p) && n < |p|
    ensures p[n] in s
  {
    if n > 0 {
      PathInside(h, r, roots, s, p, n - 1);
      assert Edge(h, r, p[n - 1], p[n]);
    }
  }

  /** The reachable objects, as a set. */
  ghost function ReachSet(h: Mem, r: Region, roots: set<int>): set<int> {
    set a | a in h && Reach(h, r, roots, a)
  }

  // ----- sizes -----------------------------------------------------------

  lemma Inhabited(s: set<int>)
    requires s != {}
    ensures exists a :: a in s
  {
    assert (forall a :: a !in s) ==> s == {};
  }

  ghost function Bytes(h: Mem, s: set<int>): int
    requires s <= h.Keys
    decreases s
  {
    if s == {} then 0 else
      Inhabited(s);
      var a :| a in s;
      CopySize(h[a]) + Bytes(h, s - {a})
  }

  /** The sum does not depend on the order in which objects are taken out. */
  lemma {:induction false} BytesTake(h: Mem, s: set<int>, a: int)
    requires s <= h.Keys && a in s
    ensures Bytes(h, s) == CopySize(h[a]) + Bytes(h, s - {a})
    decreases s
  {
    var b :| b in s && Bytes(h, s) == CopySize(h[b]) + Bytes(h, s - {b});
    if b != a {
      BytesTake(h, s - {b}, a);
      BytesTake(h, s - {a}, b);
      assert s - {a} - {b} == s - {b} - {a};
    }
  }

  lemma {:induction false} BytesMonotone(h: Mem, s: set<int>, t: set<int>)
    requires s <= t <= h.Keys
    requires forall a :: a in t ==> CopySize(h[a]) > 0
    ensures Bytes(h, s) <= Bytes(h, t)
    decreases t
  {
    if s != t {
      assert (forall a :: a in t ==> a in s) ==> s == t;
      var a :| a in t && a !in s;
      BytesTake(h, t, a);
      BytesMonotone(h, s, t - {a});
    }
  }
}
