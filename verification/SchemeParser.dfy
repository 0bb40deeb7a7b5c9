/** The reader with its pushback over lines (kek_scheme/reader.kek), the symbol table
    (types.kek) and the parser's procedures (parser.kek). */
module SchemeParser {
  import opened Basics
  import opened Operators
  import opened LineInput
  import opened SchemeReader
  import opened SchemeExact
  import opened SchemeLines

  class Reader {
    /** The lines that f.readln will answer, one after the other; for a file, those of its
        text (LineInput.KekFile.Readln). */
    var lines: seq<string>
    var line: Option<string>
    var idx: int
    var len: nat
    var last: Option<char>

    /** Before the first line idx and len are 1 with no line; behind the last one len is 0. */
    ghost predicate Valid()
      reads this
    {
      && AllLines(lines)
      && (if line.Some? then IsLine(line.value) && len == |line.value| && 0 <= idx <= len
          else (idx == 1 && len == 1) || (idx == 0 && len == 0 && lines == []))
    }

    /** What is still to be read. */
    ghost function Remaining(): (s: string)
      requires Valid()
      reads this
      ensures Terminated(s)
    {
      KeptTerminated(lines);
      (if line.Some? then line.value[idx..] else "") + Kept(lines)
    }

    /** The last character read can be put back. */
    ghost predicate CanUnread()
      reads this
    {
      line.Some? && len == |line.value| && 1 <= idx <= len && last == Some(line.value[idx - 1])
    }

    /** Behind the end after a pushback. */
    ghost predicate Behind()
      reads this
    {
      idx == -1 && len == 0 && line.None? && lines == []
    }

    constructor (f: seq<string>)
      requires AllLines(f)
      ensures Valid() && Remaining() == Kept(f)
    {
      lines, line, idx, len, last := f, None, 1, 1, None;
    }

    /** Goes to the next line that counts. */
    method NextLine()
      requires Valid() && (line.Some? ==> idx == len) && len != 0
      modifies `lines, `line, `idx, `len
      ensures Valid() && idx == 0 && Remaining() == old(Remaining()) && (line.None? ==> len == 0)
    {
      ghost var left := Kept(lines);
      while lines != [] && lines[0][0] == '#'
        invariant AllLines(lines)
        invariant Kept(lines) == left
        decreases |lines|
      {
        lines := lines[1..];
      }
      idx := 0;
      if lines == [] {
        line, len := None, 0;
      } else {
        line, len, lines := Some(lines[0]), |lines[0]|, lines[1..];
        assert line.value[0..] == line.value;
      }
    }

    /** The next character, or nothing at the end.  A pushback behind the end answers the
        last character again. */
    method ReadChar() returns (c: Option<char>)
      requires Valid() || Behind()
      modifies this
      ensures Valid()
      ensures if !old(Valid()) then c == old(last) == last && Remaining() == ""
              else if old(Remaining()) == "" then c == None && Remaining() == ""
              else c == Some(old(Remaining())[0]) && Remaining() == old(Remaining())[1..] && CanUnread()
      ensures c == None ==> line.None? && len == 0 && idx == 0 && last == old(last)
      ensures c.Some? ==> last == c
    {
      hide Kept;
      if idx == -1 {
        idx := idx + 1;
        KeptNothing();
        return last;
      }
      KeptNothing();
      if len == 0 { return None; }
      if line.None? || idx == len {
        NextLine();
        if len == 0 { return None; }
      }
      c := Take();
    }

    /** The next character of the line. */
    method Take() returns (c: Option<char>)
      requires Valid() && line.Some? && idx < len
      modifies `idx, `last
      ensures Valid() && CanUnread() && last == c && old(Remaining()) != ""
      ensures c == Some(old(Remaining())[0]) && Remaining() == old(Remaining())[1..]
    {
      hide Kept;
      ghost var r := Remaining();
      last := Some(line.value[idx]);
      assert r == line.value[idx..] + Kept(lines) && r[0] == line.value[idx];
      assert r[1..] == line.value[idx + 1..] + Kept(lines);
      idx := idx + 1;
      c := last;
    }

    method UnreadChar()
      requires Valid()
      modifies `idx
      ensures idx == old(idx) - 1
      ensures old(line.None? && idx == 0) ==> Behind() && last == old(last)
      ensures old(CanUnread()) ==> Valid() && last.Some? && Remaining() == [last.value] + old(Remaining())
    {
      idx := idx - 1;
      if 0 <= idx && line.Some? && idx < |line.value| {
        assert line.value[idx..] == [line.value[idx]] + line.value[idx + 1..];
      }
    }
  }

  // ----- symbols --------------------------------------------------------------------

  /** The interned symbols: no name twice. */
  class SymTable {
    var names: seq<string>

    ghost predicate Valid()
      reads this
    {
      forall i, j :: 0 <= i < j < |names| ==> names[i] != names[j]
    }

    constructor ()
      ensures Valid() && names == []
    {
      names := [];
    }

    /** The symbol's place in the table, which it keeps: equal names get the same symbol,
        different names different ones. */
    method GetSym(name: string) returns (at: nat)
      requires Valid()
      modifies this
      ensures Valid() && old(names) <= names && at < |names| && names[at] == name
      ensures name in old(names) ==> names == old(names)
    {
      at := 0;
      while at < |names|
        invariant at <= |names| && forall k :: 0 <= k < at ==> names[k] != name
      {
        if names[at] == name { return; }
        at := at + 1;
      }
      names := names + [name];
    }
  }

  // ----- the parser -----------------------------------------------------------------

  /** A list with its first element, as its reading is defined. */
  lemma ReadListIs(s: string)
    requires Terminated(s)
    ensures var c := Start(s);
            ReadList(s) == if c.0.None? then Failed
                           else if c.0.value == ')' then Ok(Nil, c.1)
                           else Listed(Read([c.0.value] + c.1))
  {
  }

  lemma StartTerminated(s: string)
    requires Terminated(s)
    ensures var c := Start(s); c.0.Some? ==> Terminated([c.0.value] + c.1) && |[c.0.value] + c.1| <= |s|
  {
  }

  /** The rest of a list behind its first element. */
  function Listed(a: Got): Got
    requires a.Ok? ==> Terminated(a.rest)
  {
    if !a.Ok? then Failed
    else
      var d := ReadList(a.rest);
      if d.Ok? then Ok(Cons(a.v, d.v), d.rest) else Failed
  }

  /** One turn of the loop over white space. */
  lemma SkipWSTurn(s: string)
    ensures SkipWS(s) == if s == "" then (None, s) else if IsWS(s[0]) then SkipWS(s[1..]) else (Some(s[0]), s[1..])
  {
  }

  /** One turn of the loop to the end of a line. */
  lemma SkipLineTurn(s: string)
    ensures SkipLine(s) == if s == "" then s else if s[0] == '\n' then s[1..] else SkipLine(s[1..])
  {
  }

  /** One turn of the loop that collects a token. */
  lemma TokenTurn(token: string, left: string)
    ensures left == "" || Delimits(left[0]) ==> token + Token(left).0 == token && Token(left).1 == left
    ensures left != "" && !Delimits(left[0]) ==>
              token + Token(left).0 == token + [left[0]] + Token(left[1..]).0 && Token(left).1 == Token(left[1..]).1
  {
  }

  /** What has been collected in front of what is still to be read. */
  function Prefixed(token: string, q: Option<(string, string)>): Option<(string, string)> {
    if q.None? then None else Some((token + q.value.0, q.value.1))
  }

  lemma QuotedStart(s: string)
    ensures QuotedText(s) == Prefixed("", QuotedText(s))
  {
    if QuotedText(s).Some? { assert "" + QuotedText(s).value.0 == QuotedText(s).value.0; }
  }

  /** One turn of the loop that collects a string. */
  lemma QuotedTurn(token: string, s: string)
    ensures s == "" ==> Prefixed(token, QuotedText(s)).None? && QuotedText(s).None?
    ensures s != "" && s[0] == '\"' ==> Prefixed(token, QuotedText(s)) == Some((token, s[1..]))
    ensures s != "" && s[0] != '\"' ==> Prefixed(token, QuotedText(s)) == Prefixed(token + [s[0]], QuotedText(s[1..]))
  {
    assert token + "" == token;
    if s != "" && s[0] != '\"' && QuotedText(s[1..]).Some? {
      var q := QuotedText(s[1..]).value;
      assert token + ([s[0]] + q.0) == token + [s[0]] + q.0;
    }
  }

  class Parser {
    const rd: Reader

    constructor (r: Reader)
      ensures rd == r
    {
      rd := r;
    }

    method SkipWhite() returns (c: Option<char>)
      requires rd.Valid()
      modifies rd
      ensures rd.Valid() && (c, rd.Remaining()) == SkipWS(old(rd.Remaining())) && (c.Some? ==> rd.CanUnread() && rd.last == c)
    {
      hide SkipWS;
      ghost var s := rd.Remaining();
      SkipWSTurn(s);
      c := rd.ReadChar();
      while c.Some? && IsWS(c.value)
        invariant rd.Valid() && (c.Some? ==> rd.CanUnread() && rd.last == c)
        invariant SkipWS(s) == if c.Some? && IsWS(c.value) then SkipWS(rd.Remaining()) else (c, rd.Remaining())
        decreases |rd.Remaining()|, if c.Some? then 1 else 0
      {
        SkipWSTurn(rd.Remaining());
        c := rd.ReadChar();
      }
    }

    method SkipRestOfLine()
      requires rd.Valid()
      modifies rd
      ensures rd.Valid() && rd.Remaining() == SkipLine(old(rd.Remaining()))
    {
      hide SkipLine;
      ghost var s := rd.Remaining();
      SkipLineTurn(s);
      var c := rd.ReadChar();
      while c.Some? && c.value != '\n'
        invariant rd.Valid()
        invariant SkipLine(s) == if c.Some? && c.value != '\n' then SkipLine(rd.Remaining()) else rd.Remaining()
        decreases |rd.Remaining()|, if c.Some? then 1 else 0
      {
        SkipLineTurn(rd.Remaining());
        c := rd.ReadChar();
      }
    }

    method SkipComments(firstC: Option<char>) returns (c: Option<char>)
      requires rd.Valid() && (firstC.Some? ==> rd.CanUnread() && rd.last == firstC)
      modifies rd
      ensures rd.Valid() && (c, rd.Remaining()) == SkipComment(firstC, old(rd.Remaining())) && (c.Some? ==> rd.CanUnread() && rd.last == c)
    {
      c := firstC;
      while c == Some(';')
        invariant rd.Valid() && (c.Some? ==> rd.CanUnread() && rd.last == c)
        invariant SkipComment(c, rd.Remaining()) == SkipComment(firstC, old(rd.Remaining()))
        decreases |rd.Remaining()|, if c == Some(';') then 1 else 0
      {
        SkipRestOfLine();
        c := SkipWhite();
      }
    }

    method First() returns (c: Option<char>)
      requires rd.Valid()
      modifies rd
      ensures rd.Valid() && (c, rd.Remaining()) == Start(old(rd.Remaining())) && (c.Some? ==> rd.CanUnread() && rd.last == c)
    {
      c := SkipWhite();
      c := SkipComments(c);
    }

    /** The outcome of a procedure against what the text means; after a failure nothing more
        is read. */
    ghost predicate Did(g: Got, ok: bool, v: Option<Value>)
      requires rd.Valid()
      reads this, rd
    {
      match g
      case AtEnd => ok && v.None? && rd.Remaining() == ""
      case Failed => !ok
      case Ok(w, rest) => ok && v == Some(w) && rd.Remaining() == rest
    }

    /** The rest of an atom that is no string.  As its line ends with a newline, a delimiter
        always follows, and putting that back never leads behind the end. */
    method ReadToken() returns (token: string)
      requires rd.Valid() && rd.Remaining() != ""
      modifies rd
      ensures rd.Valid() && Token(old(rd.Remaining())) == (token, rd.Remaining()) && rd.Remaining() != ""
    {
      hide Token;
      ghost var s := rd.Remaining();
      token := "";
      assert token + Token(s).0 == Token(s).0;
      while true
        invariant rd.Valid() && rd.Remaining() != ""
        invariant Token(s) == (token + Token(rd.Remaining()).0, Token(rd.Remaining()).1)
        decreases |rd.Remaining()|
      {
        ghost var left := rd.Remaining();
        TokenTurn(token, left);
        assert left == [left[0]] + left[1..];
        var c := rd.ReadChar();
        if c.None? || IsWS(c.value) || c.value == '(' || c.value == ')' || c.value == ';' {
          rd.UnreadChar();
          break;
        }
        token := token + [c.value];
      }
    }

    method ReadQuoted() returns (ok: bool, token: string)
      requires rd.Valid()
      modifies rd
      ensures rd.Valid()
      ensures if ok then QuotedText(old(rd.Remaining())) == Some((token, rd.Remaining()))
              else QuotedText(old(rd.Remaining())).None?
    {
      hide QuotedText;
      ghost var s := rd.Remaining();
      token := "";
      QuotedStart(s);
      while true
        invariant rd.Valid() && QuotedText(s) == Prefixed(token, QuotedText(rd.Remaining()))
        decreases |rd.Remaining()|
      {
        QuotedTurn(token, rd.Remaining());
        var c := rd.ReadChar();
        if c == Some('\"') { return true, token; }
        if c.None? { return false, token; }
        token := token + [c.value];
      }
    }

    method ReadAtom(firstC: char) returns (ok: bool, v: Option<Value>)
      requires rd.Valid() && rd.Remaining() != ""
      modifies rd
      ensures rd.Valid() && Did(Atom(firstC, old(rd.Remaining())), ok, v)
    {
      if firstC == '\"' {
        var token;
        ok, token := ReadQuoted();
        return ok, Some(Str(token));
      }
      var token := ReadToken();
      var str := [firstC] + token;
      var n := ToInt(str);
      if n.Some? {
        if !IsInt32(n.value) { return false, None; }
        return true, Some(Int(n.value));
      }
      if str == "#t" { return true, Some(True); }
      if str == "#f" { return true, Some(False); }
      if str == "null" { return true, Some(Nil); }
      return true, Some(Sym(str));
    }

    /** Reads one value; with ok and no value at the end of the input. */
    method ReadValue() returns (ok: bool, v: Option<Value>)
      requires rd.Valid()
      modifies rd
      ensures rd.Valid() && Did(Read(old(rd.Remaining())), ok, v)
      decreases |rd.Remaining()|, 0
    {
      var c := First();
      if c.None? { return true, None; }
      if c.value == '\'' {
        ok, v := ReadValue();
        if !ok { return false, None; }
        return true, Some(Cons(Sym("quote"), Cons(if v.Some? then v.value else Missing, Nil)));
      }
      if c.value == '(' {
        ok, v := ReadRest();
        return;
      }
      ok, v := ReadAtom(c.value);
    }

    /** Reads the rest of a list. */
    method ReadRest() returns (ok: bool, v: Option<Value>)
      requires rd.Valid()
      modifies rd
      ensures rd.Valid() && Did(ReadList(old(rd.Remaining())), ok, v)
      decreases |rd.Remaining()|, 1
    {
      hide Read, ReadList, Start, Terminated, Kept;
      ReadListIs(rd.Remaining());
      StartTerminated(rd.Remaining());
      var c := First();
      if c.None? { return false, None; }
      if c.value == ')' { return true, Some(Nil); }
      rd.UnreadChar();
      ok, v := ReadValue();
      if !ok || v.None? { return false, None; }
      var car := v.value;
      ok, v := ReadRest();
      if !ok || v.None? { return false, None; }
      v := Some(Cons(car, v.value));
    }
  }

  // ----- the reader by itself -------------------------------------------------------

  /** Behind the end of an input one can put back the nothing that was found there, and then
      the last character comes again.  The parser never does so, see ReadToken. */
  method PushbackBehindTheEnd(rd: Reader) returns (end: Option<char>, again: Option<char>)
    requires rd.Valid() && rd.Remaining() == "" && rd.last.Some?
    modifies rd
    ensures end == None && again == old(rd.last) && rd.Valid() && rd.Remaining() == ""
  {
    end := rd.ReadChar();
    rd.UnreadChar();
    again := rd.ReadChar();
  }

  // ----- printed values -------------------------------------------------------------

  /** The parser over the pushback reader, on an input that begins with a printed value on
      lines of its own: it answers the value, and stands at the end of the last of them,
      exactly when the value comes back. */
  method ReadBack(v: Value, more: string) returns (rd: Reader, ok: bool, r: Option<Value>)
    requires Printable(v)
    ensures rd.Valid()
    ensures ok && r == Some(v) && rd.Remaining() == "\n" + Seen(more) <==> (Plain(v) || ParenName(v)) && !Hashed(v)
  {
    hide Read, Print, Lines, Plain, ParenName, Hashed;
    rd := new Reader(Lines(Print(v) + "\n" + more));
    var p := new Parser(rd);
    ComesBackExactly(v, more);
    ok, r := p.ReadValue();
  }
}
