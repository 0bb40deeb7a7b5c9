/** What several modules need and none of them is about: optional values, the capacity
    of a growing array, and concatenations grouped in another way. */
module Basics {
  datatype Option<+T> = None | Some(value: T)

  /** The capacity a growing loop ends with that makes a capacity larger by half until
      the length fits (vm/memory.c, vm/k_array.c). */
  function Grown(cap: int, length: int): (r: int)
    requires cap >= 2
    ensures r >= cap && r >= length
    decreases length - cap
  {
    if cap < length then Grown(cap * 3 / 2, length) else cap
  }

  lemma Join2<T>(pre: seq<T>, a: seq<T>, b: seq<T>)
    ensures pre + a + b == pre + (a + b)
  {
    assert pre + a + b == pre + (a + b);
  }

  lemma Join3<T>(pre: seq<T>, a: seq<T>, b: seq<T>, c: seq<T>)
    ensures pre + a + b + c == pre + (a + b + c)
  {
    assert pre + a + b + c == pre + (a + b + c);
  }
}
