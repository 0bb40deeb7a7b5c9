/** The lines a program gets to read: File.readln over a C stream (vm/k_file.c) and
    Term.readln (vm/k_term.c). */
module LineInput {
  import opened Basics

  /** A line as it is handed over: it ends with its only newline. */
  predicate IsLine(l: string) { l != "" && l[|l| - 1] == '\n' && '\n' !in l[..|l| - 1] }

  predicate AllLines(ls: seq<string>) { forall i :: 0 <= i < |ls| ==> IsLine(ls[i]) }

  /** The length of the first line with its newline, 0 when there is no newline. */
  function FirstLine(s: string): (n: nat)
    ensures n <= |s| && (n == 0 <==> '\n' !in s) && (n > 0 ==> IsLine(s[..n]))
  {
    if s == "" then 0
    else if s[0] == '\n' then 1
    else
      var n := FirstLine(s[1..]);
      assert s == [s[0]] + s[1..];
      if n == 0 then 0
      else
        assert s[..n + 1] == [s[0]] + s[1..][..n] && s[..n + 1][..n] == [s[0]] + s[1..][..n][..n - 1];
        n + 1
  }

  /** The lines of a text.  What stands behind the last newline belongs to none. */
  function Lines(text: string): (ls: seq<string>)
    ensures AllLines(ls)
    decreases |text|
  {
    var n := FirstLine(text);
    if n == 0 then [] else [text[..n]] + Lines(text[n..])
  }

  function Concat(ls: seq<string>): string {
    if ls == [] then "" else ls[0] + Concat(ls[1..])
  }

  // ----- the lines of a text --------------------------------------------------------

  lemma FirstLineIs(l: string, more: string)
    requires IsLine(l)
    ensures FirstLine(l + more) == |l|
  {
    var s := l + more;
    var n := FirstLine(s);
    assert '\n' in s && s[..|l| - 1] == l[..|l| - 1] by { assert s[|l| - 1] == '\n'; }
    NoneIn(s, 0, |l| - 1);
    NoneBefore(s, n);
    assert s[|l| - 1] == '\n' && s[n - 1] == '\n';
  }

  /** In front of the newline of its first line a text has none. */
  lemma NoneBefore(s: string, n: nat)
    requires n <= |s| && IsLine(s[..n])
    ensures n > 0 && s[n - 1] == '\n' && forall i :: 0 <= i < n - 1 ==> s[i] != '\n'
  {
    assert s[..n][..n - 1] == s[0..n - 1];
    NoneIn(s, 0, n - 1);
  }

  lemma NoneIn(s: string, lo: nat, hi: nat)
    requires lo <= hi <= |s| && '\n' !in s[lo..hi]
    ensures forall i :: lo <= i < hi ==> s[i] != '\n'
  {
    forall i | lo <= i < hi ensures s[i] != '\n' { assert s[lo..hi][i - lo] == s[i]; }
  }

  /** Lines that make up the beginning of a text are its first lines. */
  lemma {:induction false} LinesOf(ls: seq<string>, more: string)
    requires AllLines(ls)
    ensures Lines(Concat(ls) + more) == ls + Lines(more)
  {
    hide IsLine, Lines;
    if ls == [] {
      assert Concat(ls) + more == more;
    } else {
      var rest := Concat(ls[1..]) + more;
      assert Concat(ls) + more == ls[0] + rest;
      LinesStep(ls[0], rest);
      LinesOf(ls[1..], more);
      assert [ls[0]] + (ls[1..] + Lines(more)) == ls + Lines(more);
    }
  }

  lemma LinesStep(l: string, rest: string)
    requires IsLine(l)
    ensures Lines(l + rest) == [l] + Lines(rest)
  {
    hide FirstLine;
    FirstLineIs(l, rest);
    assert l != "" by { assert IsLine(l); }
    assert (l + rest)[..|l|] == l && (l + rest)[|l|..] == rest;
  }

  /** A text is its lines and what stands behind them, which has no newline. */
  lemma {:induction false} LinesCover(text: string)
    ensures Concat(Lines(text)) <= text && '\n' !in text[|Concat(Lines(text))|..]
    decreases |text|
  {
    hide IsLine, FirstLine;
    var n := FirstLine(text);
    if n == 0 {
      assert text[0..] == text;
    } else {
      var l, rest := text[..n], text[n..];
      LinesCover(rest);
      ConcatStep(l, Lines(rest));
      assert text == l + rest;
      assert text[|l + Concat(Lines(rest))|..] == rest[|Concat(Lines(rest))|..];
    }
  }

  lemma ConcatStep(l: string, ls: seq<string>)
    ensures Concat([l] + ls) == l + Concat(ls)
  {
    assert ([l] + ls)[1..] == ls;
  }

  /** The lines of a text that ends with a newline are all of it, and stay its lines
      whatever follows. */
  lemma LinesAppend(text: string, more: string)
    requires text == "" || text[|text| - 1] == '\n'
    ensures Concat(Lines(text)) == text && Lines(text + more) == Lines(text) + Lines(more)
  {
    LinesCover(text);
    var c := Concat(Lines(text));
    NoneIn(text, |c|, |text|);
    LinesOf(Lines(text), more);
  }

  // ----- files ----------------------------------------------------------------------

  /** A file open for reading, by the characters that are still to come. */
  class KekFile {
    var text: string

    constructor (contents: string)
      ensures text == contents
    {
      text := contents;
    }

    /** fgets, as section 7.21.7.2 of ISO C11 describes it: up to `n - 1` characters, through
        the first newline, with a zero behind them; false at the end of the file. */
    method Fgets(buf: array<char>, at: nat, n: nat) returns (st: bool, ghost len: nat)
      requires n >= 2 && at + n <= buf.Length
      modifies `text, buf
      ensures st <==> old(text) != ""
      ensures buf[..at] == old(buf[..at])
      ensures st ==> 0 < len < n && len <= |old(text)| && text == old(text)[len..]
      ensures st ==> buf[at..at + len] == old(text)[..len] && buf[at + len] == '\0' && '\n' !in old(text)[..len - 1]
      ensures st ==> old(text)[len - 1] == '\n' || text == "" || len == n - 1
      ensures !st ==> text == old(text)
    {
      ghost var s := text;
      if text == "" { return false, 0; }
      var i: nat := 0;
      var newline := false;
      assert s[0..] == s && buf[at..at] == s[..0];
      while i < n - 1 && text != "" && !newline
        invariant i < n && i <= |s| && text == s[i..] && buf[at..at + i] == s[..i]
        invariant buf[..at] == old(buf[..at])
        invariant i == 0 ==> !newline
        invariant i > 0 ==> '\n' !in s[..i - 1] && newline == (s[i - 1] == '\n')
        decreases |text|
      {
        buf[at + i] := text[0];
        newline := text[0] == '\n';
        assert s[..i + 1] == s[..i] + [s[i]] && buf[at..at + i + 1] == buf[at..at + i] + [s[i]];
        assert i > 0 ==> s[..i] == s[..i - 1] + [s[i - 1]];
        text := text[1..];
        i := i + 1;
      }
      buf[at + i] := '\0';
      st, len := true, i;
    }

    /** The next line.  The buffer is doubled until the line is in it, and is never written
        behind its end.  A last line without newline is not answered. */
    method Readln() returns (line: Option<string>)
      requires '\0' !in text
      modifies `text
      ensures '\0' !in text
      ensures line == (if Lines(old(text)) == [] then None else Some(Lines(old(text))[0]))
      ensures Lines(text) == if line.None? then [] else Lines(old(text))[1..]
    {
      hide Lines, FirstLine, IsLine, Collected;
      var bufSize, lineIdx: nat := 64, 0;
      var buf := new char[bufSize];
      var n: nat;
      ghost var s := text;
      NothingYet(s, buf[..]);
      while true
        invariant fresh(buf) && buf.Length == bufSize >= 64 && 2 * lineIdx < bufSize
        invariant lineIdx <= |s| && Collected(s, lineIdx, text, buf[..]) && '\n' !in s[..lineIdx]
        decreases |text|
      {
        NothingMore(s, lineIdx, text, buf[..]);
        ghost var was, before := text, buf[..];
        var st, len := Fgets(buf, lineIdx, bufSize - lineIdx);
        if !st { return None; }
        Chunk(s, lineIdx, len, was, before, text, buf[..]);
        n := Strlen(buf, lineIdx, len);
        if buf[lineIdx + n - 1] == '\n' { break; }
        bufSize := 2 * bufSize;
        before := buf[..];
        buf := Realloc(buf, bufSize);
        Larger(s, lineIdx + n, text, before, buf[..]);
        lineIdx := lineIdx + n;
      }
      CollectedIs(s, lineIdx + n, text, buf[..]);
      OneLine(s, lineIdx + n);
      line := Some(buf[..lineIdx + n]);
    }
  }

  /** The first `n` characters of the text are in the buffer, the others are to come. */
  ghost predicate Collected(s: string, n: nat, left: string, buf: seq<char>) {
    n <= |s| && n <= |buf| && buf[..n] == s[..n] && left == s[n..] && '\0' !in s
  }

  /** Another chunk. */
  lemma Chunk(s: string, at: nat, len: nat, was: string, before: seq<char>, left: string, buf: seq<char>)
    requires Collected(s, at, was, before) && '\n' !in s[..at]
    requires 0 < len <= |was| && at + len < |buf| == |before| && buf[..at] == before[..at] && left == was[len..]
    requires buf[at..at + len] == was[..len] && '\n' !in was[..len - 1]
    ensures at + len <= |s| && Collected(s, at + len, left, buf) && '\n' !in s[..at + len - 1] && s[at + len - 1] == buf[at + len - 1]
    ensures buf[at + len - 1] != '\n' ==> '\n' !in s[..at + len]
    ensures forall i :: at <= i < at + len ==> buf[i] != '\0'
  {
    assert buf[..at + len] == buf[..at] + buf[at..at + len];
    assert s[..at + len] == s[..at] + s[at..][..len];
    assert s[..at + len - 1] == s[..at] + s[at..][..len - 1];
    assert s[..at + len] == s[..at + len - 1] + [s[at + len - 1]];
    forall i | at <= i < at + len ensures buf[i] == s[i] { assert buf[..at + len][i] == s[i]; }
  }

  lemma Larger(s: string, n: nat, left: string, before: seq<char>, buf: seq<char>)
    requires Collected(s, n, left, before) && |before| <= |buf| && buf[..|before|] == before
    ensures Collected(s, n, left, buf)
  {
    assert buf[..n] == buf[..|before|][..n];
  }

  lemma NothingYet(s: string, buf: seq<char>)
    requires '\0' !in s
    ensures Collected(s, 0, s, buf)
  {
    assert s[0..] == s;
  }

  lemma NothingMore(s: string, n: nat, left: string, buf: seq<char>)
    requires Collected(s, n, left, buf) && '\n' !in s[..n]
    ensures '\0' !in left && Lines("") == [] && (left == "" ==> Lines(s) == [])
  {
    assert left == "" ==> s[..n] == s;
  }

  lemma CollectedIs(s: string, n: nat, left: string, buf: seq<char>)
    requires Collected(s, n, left, buf)
    ensures n <= |s| && n <= |buf| && buf[..n] == s[..n] && left == s[n..] && '\0' !in left
  {
  }

  lemma OneLine(s: string, n: nat)
    requires 0 < n <= |s| && s[n - 1] == '\n' && '\n' !in s[..n - 1]
    ensures Lines(s) == [s[..n]] + Lines(s[n..])
  {
    assert s[..n][..n - 1] == s[..n - 1];
    FirstLineIs(s[..n], s[n..]);
    assert s[..n] + s[n..] == s;
  }

  /** strlen behind a place of the buffer. */
  method Strlen(buf: array<char>, at: nat, ghost len: nat) returns (n: nat)
    requires at + len < buf.Length && buf[at + len] == '\0' && forall i :: at <= i < at + len ==> buf[i] != '\0'
    ensures n == len
  {
    n := 0;
    while buf[at + n] != '\0'
      invariant n <= len
      decreases len - n
    {
      n := n + 1;
    }
  }

  method Realloc(buf: array<char>, size: nat) returns (r: array<char>)
    requires buf.Length <= size
    ensures fresh(r) && r.Length == size && r[..buf.Length] == buf[..]
  {
    r := new char[size];
    var i := 0;
    while i < buf.Length
      invariant i <= buf.Length && r[..i] == buf[..i]
    {
      r[i] := buf[i];
      i := i + 1;
    }
  }

  // ----- the terminal ---------------------------------------------------------------

  /** What the line editor returned, with a newline; nothing at the end of the input. */
  method TermReadln(typed: Option<string>) returns (line: Option<string>)
    requires typed.Some? ==> '\n' !in typed.value
    ensures typed.None? ==> line.None?
    ensures typed.Some? ==> line.Some? && IsLine(line.value) && line.value[..|line.value| - 1] == typed.value
  {
    if typed.None? { return None; }
    line := Some(typed.value + "\n");
    assert line.value[..|line.value| - 1] == typed.value;
  }
}
