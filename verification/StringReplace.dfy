/** String.replace (vm/k_string.c): one pass counts the occurrences to size a buffer, a
    second pass copies into it. */
module StringReplace {

  predicate OccursAt(text: string, from: string, i: nat) {
    i + |from| <= |text| && text[i..i + |from|] == from
  }

  /** The first occurrence at `i` or later, or -1: what strstr answers. */
  function Find(text: string, from: string, i: nat): (r: int)
    ensures r == -1 || i <= r <= |text| - |from|
    decreases |text| - i
  {
    if OccursAt(text, from, i) then i
    else if i + |from| >= |text| then -1
    else Find(text, from, i + 1)
  }

  lemma {:induction false} FindIsFirst(text: string, from: string, i: nat)
    ensures var r := Find(text, from, i);
            && (r != -1 ==> OccursAt(text, from, r))
            && forall k: nat :: i <= k && (r == -1 || k < r) ==> !OccursAt(text, from, k)
    decreases |text| - i
  {
    if !OccursAt(text, from, i) && i + |from| < |text| {
      FindIsFirst(text, from, i + 1);
    }
  }

  /** Leftmost occurrences that do not overlap, from `i` on, each replaced. */
  function ReplaceAll(text: string, from: string, to: string, i: nat): string
    requires from != "" && i <= |text|
    decreases |text| - i
  {
    var f := Find(text, from, i);
    if f == -1 then text[i..]
    else text[i..f] + to + ReplaceAll(text, from, to, f + |from|)
  }

  function Count(text: string, from: string, i: nat): nat
    requires from != "" && i <= |text|
    decreases |text| - i
  {
    var f := Find(text, from, i);
    if f == -1 then 0 else 1 + Count(text, from, f + |from|)
  }

  /** The occurrences that are replaced. */
  function Places(text: string, from: string, i: nat): seq<nat>
    requires from != "" && i <= |text|
    decreases |text| - i
  {
    var f := Find(text, from, i);
    if f == -1 then [] else [f as nat] + Places(text, from, f + |from|)
  }

  /** `p` is inside one of the places. */
  predicate Hit(ps: seq<nat>, size: nat, p: nat) {
    exists k :: 0 <= k < |ps| && ps[k] <= p < ps[k] + size
  }

  /** The places are occurrences, at `i` or later, each behind the end of the one before. */
  predicate Apart(text: string, from: string, ps: seq<nat>, i: nat) {
    && (forall k :: 0 <= k < |ps| ==> i <= ps[k] && OccursAt(text, from, ps[k]))
    && (forall j, k :: 0 <= j < k < |ps| ==> ps[j] + |from| <= ps[k])
  }

  /** The replaced occurrences are counted right and do not overlap, and every occurrence
      starts inside one of them: no further one fits between. */
  lemma {:induction false} PlacesAreLeftmost(text: string, from: string, i: nat)
    requires from != "" && i <= |text|
    ensures |Places(text, from, i)| == Count(text, from, i) && Apart(text, from, Places(text, from, i), i)
    ensures forall p: nat :: i <= p && OccursAt(text, from, p) ==> Hit(Places(text, from, i), |from|, p)
    decreases |text| - i
  {
    hide OccursAt, Find, Apart, Hit;
    var f := Find(text, from, i);
    FindIsFirst(text, from, i);
    NoPlaces(text, from, i);
    if f != -1 {
      var rest := Places(text, from, f + |from|);
      PlacesAreLeftmost(text, from, f + |from|);
      ApartCons(text, from, f, rest, i);
      forall p: nat | i <= p && OccursAt(text, from, p) ensures Hit([f as nat] + rest, |from|, p) {
        HitCons(f, rest, |from|, p);
      }
    }
  }

  lemma NoPlaces(text: string, from: string, i: nat)
    ensures Apart(text, from, [], i)
  {
  }

  lemma ApartCons(text: string, from: string, f: nat, rest: seq<nat>, i: nat)
    requires i <= f && OccursAt(text, from, f) && Apart(text, from, rest, f + |from|)
    ensures Apart(text, from, [f] + rest, i)
  {
    hide OccursAt;
    var ps := [f] + rest;
    forall k | 0 <= k < |ps| ensures i <= ps[k] && OccursAt(text, from, ps[k]) {
      if k > 0 { assert ps[k] == rest[k - 1]; }
    }
    forall j, k | 0 <= j < k < |ps| ensures ps[j] + |from| <= ps[k] {
      assert ps[k] == rest[k - 1];
      if j > 0 { assert ps[j] == rest[j - 1]; }
    }
  }

  lemma HitCons(f: nat, rest: seq<nat>, size: nat, p: nat)
    ensures f <= p < f + size ==> Hit([f] + rest, size, p)
    ensures Hit(rest, size, p) ==> Hit([f] + rest, size, p)
  {
    var ps := [f] + rest;
    if f <= p < f + size { assert ps[0] <= p < ps[0] + size; }
    if Hit(rest, size, p) {
      var k :| 0 <= k < |rest| && rest[k] <= p < rest[k] + size;
      assert ps[k + 1] == rest[k];
    }
  }

  /** Replacing a pattern by itself changes nothing. */
  lemma {:induction false} ReplaceBySelf(text: string, from: string, i: nat)
    requires from != "" && i <= |text|
    ensures ReplaceAll(text, from, from, i) == text[i..]
    decreases |text| - i
  {
    hide Find;
    var f := Find(text, from, i);
    FindIsFirst(text, from, i);
    if f != -1 {
      ReplaceBySelf(text, from, f + |from|);
      assert text[i..] == text[i..f] + text[f..f + |from|] + text[f + |from|..];
    }
  }

  lemma {:induction false} ResultLength(text: string, from: string, to: string, i: nat)
    requires from != "" && i <= |text|
    ensures |ReplaceAll(text, from, to, i)| == |text| - i + Count(text, from, i) * (|to| - |from|)
    decreases |text| - i
  {
    hide Find;
    var f := Find(text, from, i);
    if f != -1 {
      ResultLength(text, from, to, f + |from|);
      OneMore(Count(text, from, f + |from|), |to| - |from|);
    }
  }

  lemma OneMore(c: nat, d: int)
    ensures (1 + c) * d == d + c * d
  {
  }

  /** What the occurrences add to the length. */
  function Growth(count: nat, diff: int): (n: nat)
  {
    if diff > 0 then count * diff else 0
  }

  /** The buffer of the first pass holds the result of the second. */
  lemma BufferSuffices(text: string, from: string, to: string, length: nat)
    requires from != "" && |text| <= length
    ensures |ReplaceAll(text, from, to, 0)| <= length + Growth(Count(text, from, 0), |to| - |from|)
  {
    ResultLength(text, from, to, 0);
    var c, d := Count(text, from, 0), |to| - |from|;
    if d <= 0 { NotPositive(c, d); }
  }

  lemma NotPositive(c: nat, d: int)
    requires d <= 0
    ensures c * d <= 0
  {
  }

  /** With an empty pattern the counting pass stays where it is for ever: strstr answers
      the place it was asked for, and the pattern adds nothing to it. */
  lemma EmptyPatternIsStuck(text: string, i: nat)
    requires i <= |text|
    ensures Find(text, "", i) == i && Find(text, "", i) + |""| == i
  {
    assert text[i..i] == "";
  }

  /** strstr. */
  method StrStr(text: string, from: string, start: nat) returns (at: int)
    requires start <= |text|
    ensures at == Find(text, from, start)
  {
    var i := start;
    while i + |from| <= |text|
      invariant start <= i <= |text| + 1
      invariant i + |from| <= |text| ==> Find(text, from, i) == Find(text, from, start)
      invariant i + |from| > |text| ==> Find(text, from, start) == -1
    {
      if text[i..i + |from|] == from { return i; }
      i := i + 1;
    }
    return -1;
  }

  /** The first pass. */
  method CountOccurrences(text: string, from: string) returns (n: nat)
    requires from != ""
    ensures n == Count(text, from, 0)
  {
    n := 0;
    var next := 0;
    while true
      invariant next <= |text| && n + Count(text, from, next) == Count(text, from, 0)
      decreases |text| - next
    {
      var at := StrStr(text, from, next);
      if at == -1 { break; }
      n := n + 1;
      next := at + |from|;
    }
  }

  method CopyInto(dst: array<char>, at: nat, s: string)
    requires at + |s| <= dst.Length
    modifies dst
    ensures dst[..at + |s|] == old(dst[..at]) + s
  {
    var i := 0;
    while i < |s|
      invariant i <= |s| && dst[..at + i] == old(dst[..at]) + s[..i]
    {
      dst[at + i] := s[i];
      assert dst[..at + i + 1] == dst[..at + i] + [s[i]];
      assert s[..i + 1] == s[..i] + [s[i]];
      i := i + 1;
    }
    assert s[..i] == s;
  }

  /** The text up to an occurrence and what replaces it. */
  method CopyBoth(dst: array<char>, at: nat, piece: string, to: string) returns (end: nat)
    requires at + |piece| + |to| <= dst.Length
    modifies dst
    ensures end == at + |piece| + |to| && dst[..end] == old(dst[..at]) + piece + to
  {
    CopyInto(dst, at, piece);
    end := at + |piece|;
    CopyInto(dst, end, to);
    end := end + |to|;
  }

  /** The length of the buffer, without its terminator: it holds the whole result. */
  method ComputedLength(text: string, length: nat, from: string, to: string) returns (dstLen: nat)
    requires from != "" && |text| <= length
    ensures dstLen == length + Growth(Count(text, from, 0), |to| - |from|)
    ensures |ReplaceAll(text, from, to, 0)| <= dstLen
  {
    hide Find, Count, OccursAt, ReplaceAll, Growth;
    var occCount := CountOccurrences(text, from);
    dstLen := length;
    var lenDiff := |to| - |from|;
    if lenDiff > 0 {
      NonNegative(occCount, lenDiff);
      dstLen := dstLen + occCount * lenDiff;
    }
    GrowthIs(occCount, lenDiff);
    BufferSuffices(text, from, to, length);
  }

  /** The whole replacement, for a string object of the given length (which may be larger
      than its text).  No write goes beyond the buffer, which has one byte more than
      computed for the terminator. */
  method Replace(text: string, length: nat, from: string, to: string) returns (result: string)
    requires from != "" && |text| <= length
    ensures result == ReplaceAll(text, from, to, 0)
  {
    hide Find, Count, OccursAt, ReplaceAll, Growth;
    var dstLen := ComputedLength(text, length, from, to);
    var dst := new char[dstLen + 1];
    var dstPtr: nat, ptr: nat := 0, 0;
    ghost var whole := ReplaceAll(text, from, to, 0);
    assert |whole| <= dstLen;
    assert dst[..0] + whole == whole;
    while ptr < |text|
      invariant ptr <= |text| && dstPtr <= |whole| < dst.Length
      invariant dst[..dstPtr] + ReplaceAll(text, from, to, ptr) == whole
      decreases |text| - ptr
    {
      var next := StrStr(text, from, ptr);
      Unfold(text, from, to, ptr);
      if next == -1 {
        CopyInto(dst, dstPtr, text[ptr..]);
        dstPtr := dstPtr + (|text| - ptr);
        ptr := |text|;
        EndOfText(text, from, to);
        assert dst[..dstPtr] + "" == dst[..dstPtr];
        break;
      }
      ghost var done, tail := dst[..dstPtr], ReplaceAll(text, from, to, next + |from|);
      Regroup(done, text[ptr..next], to, tail);
      dstPtr := CopyBoth(dst, dstPtr, text[ptr..next], to);
      ptr := next + |from|;
    }
    EndOfText(text, from, to);
    assert dst[..dstPtr] + "" == dst[..dstPtr];
    result := dst[..dstPtr];
    dst[dstPtr] := '\0';
  }

  lemma Regroup(a: string, b: string, c: string, d: string)
    ensures a + (b + c + d) == a + b + c + d
    ensures |a + b + c| <= |a + (b + c + d)| && |a + b| <= |a + (b + c + d)|
  {
    assert a + (b + c + d) == a + b + c + d;
  }

  lemma NonNegative(a: nat, b: nat)
    ensures a * b >= 0
  {
  }

  lemma GrowthIs(count: nat, diff: int)
    ensures Growth(count, diff) == if diff > 0 then count * diff else 0
  {
  }

  lemma Unfold(text: string, from: string, to: string, i: nat)
    requires from != "" && i <= |text|
    ensures var f := Find(text, from, i);
            ReplaceAll(text, from, to, i) == if f == -1 then text[i..] else text[i..f] + to + ReplaceAll(text, from, to, f + |from|)
  {
  }

  lemma EndOfText(text: string, from: string, to: string)
    requires from != ""
    ensures ReplaceAll(text, from, to, |text|) == ""
  {
  }
}
