/** Scheme values on lines: what of an input text reaches the parser (kek_scheme/reader.kek),
    and which printed values come back from it. */
module SchemeLines {
  import opened Basics
  import opened LineInput
  import opened SchemeReader
  import opened SchemeExact

  predicate IsComment(line: string) { line != "" && line[0] == '#' }

  /** The lines that count; those that start with # are passed over. */
  function Kept(lines: seq<string>): string {
    if lines == [] then "" else (if IsComment(lines[0]) then "" else lines[0]) + Kept(lines[1..])
  }

  /** What the parser gets to see of an input. */
  function Seen(text: string): (s: string)
    ensures Terminated(s)
  {
    KeptTerminated(Lines(text));
    Kept(Lines(text))
  }

  lemma KeptNothing()
    ensures Kept([]) == ""
  {
  }

  /** As every line ends with a newline, so does what the parser sees. */
  lemma {:induction false} KeptTerminated(lines: seq<string>)
    requires AllLines(lines)
    ensures Terminated(Kept(lines))
  {
    if lines != [] { KeptTerminated(lines[1..]); }
  }

  lemma {:induction false} KeptAppend(a: seq<string>, b: seq<string>)
    ensures Kept(a + b) == Kept(a) + Kept(b)
  {
    if a == [] {
      assert a + b == b;
    } else {
      assert (a + b)[1..] == a[1..] + b;
      KeptAppend(a[1..], b);
      var first := if IsComment(a[0]) then "" else a[0];
      Join2(first, Kept(a[1..]), Kept(b));
    }
  }

  // ----- counting newlines ----------------------------------------------------------

  function Newlines(s: string): nat {
    if s == "" then 0 else (if s[0] == '\n' then 1 else 0) + Newlines(s[1..])
  }

  lemma {:induction false} NewlinesAppend(a: string, b: string)
    ensures Newlines(a + b) == Newlines(a) + Newlines(b)
  {
    if a == "" {
      assert a + b == b;
    } else {
      assert (a + b)[1..] == a[1..] + b;
      NewlinesAppend(a[1..], b);
    }
  }

  lemma {:induction false} NoNewlines(s: string)
    requires forall i :: 0 <= i < |s| ==> s[i] != '\n'
    ensures Newlines(s) == 0
  {
    if s != "" { NoNewlines(s[1..]); }
  }

  lemma NewlinesOfLine(l: string)
    requires IsLine(l)
    ensures Newlines(l) == 1
  {
    var n := |l| - 1;
    forall i | 0 <= i < n ensures l[..n][i] != '\n' { assert l[..n][i] in l[..n]; }
    NoNewlines(l[..n]);
    assert l == l[..n] + "\n" && "\n"[1..] == "";
    NewlinesAppend(l[..n], "\n");
  }

  predicate AnyComment(lines: seq<string>) { exists i :: 0 <= i < |lines| && IsComment(lines[i]) }

  lemma FirstComment(lines: seq<string>)
    requires lines != []
    ensures AnyComment(lines) <==> IsComment(lines[0]) || AnyComment(lines[1..])
  {
    hide IsComment;
    var more := lines[1..];
    if AnyComment(more) {
      var i :| 0 <= i < |more| && IsComment(more[i]);
      assert IsComment(lines[i + 1]);
    }
    if AnyComment(lines) && !IsComment(lines[0]) {
      var i :| 0 <= i < |lines| && IsComment(lines[i]);
      assert IsComment(more[i - 1]);
    }
  }

  lemma NoLines()
    ensures !AnyComment([])
  {
  }

  lemma {:induction false} AllKept(lines: seq<string>)
    requires !AnyComment(lines)
    ensures Kept(lines) == Concat(lines)
  {
    hide AnyComment;
    if lines != [] {
      FirstComment(lines);
      AllKept(lines[1..]);
    }
  }

  /** A comment loses its newline. */
  lemma {:induction false} KeptNewlines(lines: seq<string>)
    requires AllLines(lines)
    ensures Newlines(Kept(lines)) <= Newlines(Concat(lines))
    ensures AnyComment(lines) ==> Newlines(Kept(lines)) < Newlines(Concat(lines))
  {
    hide AnyComment, IsComment, IsLine, Newlines;
    if lines == [] {
      NoLines();
    } else {
      var l, more := lines[0], lines[1..];
      KeptNewlines(more);
      NewlinesOfLine(l);
      NewlinesAppend(l, Concat(more));
      NewlinesAppend(l, Kept(more));
      FirstComment(lines);
      assert Kept(lines) == if IsComment(l) then Kept(more) else l + Kept(more);
    }
  }

  /** The newlines inside a value. */
  function Breaks(v: Value): nat {
    match v
    case Str(t) => Newlines(t)
    case Sym(s) => Newlines(s)
    case Cons(a, d) => Breaks(a) + Breaks(d)
    case _ => 0
  }

  lemma {:induction false} PrintBreaks(v: Value)
    ensures Newlines(Print(v)) == Breaks(v)
    decreases v, 1
  {
    match v
    case Int(n) => DecimalBreaks(n);
    case Str(t) => NewlinesAppend("\"", t); NewlinesAppend("\"" + t, "\""); NoNewlines("\"");
    case Cons(a, d) =>
      PrintBreaks(a);
      TailBreaks(d);
      NewlinesAppend("(", Print(a));
      NewlinesAppend("(" + Print(a), PrintTail(d));
      NoNewlines("(");
    case Sym(_) =>
    case True => NoNewlines("#t");
    case False => NoNewlines("#f");
    case Nil => NoNewlines("()");
    case Missing =>
  }

  lemma DecimalBreaks(n: int)
    ensures Newlines(Decimal(n)) == 0
  {
    var d := Digits(if n < 0 then -n else n);
    assert forall i :: 0 <= i < |d| ==> IsDigit(d[i]);
    NoNewlines(d);
    NoNewlines("-");
    NewlinesAppend("-", d);
  }

  lemma {:induction false} TailBreaks(d: Value)
    ensures Newlines(PrintTail(d)) == Breaks(d)
    decreases d, 2
  {
    NoNewlines(")");
    NoNewlines(" ");
    NoNewlines(" . ");
    match d
    case Nil =>
    case Cons(a, e) =>
      PrintBreaks(a);
      TailBreaks(e);
      NewlinesAppend(" ", Print(a));
      NewlinesAppend(" " + Print(a), PrintTail(e));
    case _ =>
      PrintBreaks(d);
      assert " " + ". " == " . ";
      NewlinesAppend(" . ", Print(d));
      NewlinesAppend(" . " + Print(d), ")");
  }

  // ----- reading makes no newlines --------------------------------------------------

  lemma {:induction false} SkipWSBreaks(s: string)
    ensures Newlines(SkipWS(s).1) <= Newlines(s)
  {
    if s != "" && IsWS(s[0]) { SkipWSBreaks(s[1..]); }
  }

  lemma {:induction false} SkipLineBreaks(s: string)
    ensures Newlines(SkipLine(s)) <= Newlines(s)
  {
    if s != "" && s[0] != '\n' { SkipLineBreaks(s[1..]); }
  }

  lemma {:induction false} SkipCommentBreaks(c: Option<char>, s: string)
    ensures Newlines(SkipComment(c, s).1) <= Newlines(s)
    decreases |s|, if c == Some(';') then 1 else 0
  {
    if c == Some(';') {
      var n := SkipWS(SkipLine(s));
      SkipLineBreaks(s);
      SkipWSBreaks(SkipLine(s));
      if n.0.Some? { SkipCommentBreaks(n.0, n.1); }
    }
  }

  lemma StartBreaks(s: string)
    ensures Newlines(Start(s).1) <= Newlines(s)
  {
    SkipWSBreaks(s);
    SkipCommentBreaks(SkipWS(s).0, SkipWS(s).1);
  }

  lemma {:induction false} TokenBreaks(s: string)
    ensures Newlines(Token(s).0) + Newlines(Token(s).1) == Newlines(s)
  {
    if s != "" && !Delimits(s[0]) {
      var t := Token(s[1..]);
      TokenBreaks(s[1..]);
      assert ([s[0]] + t.0)[1..] == t.0;
    }
  }

  lemma {:induction false} QuotedBreaks(s: string)
    requires QuotedText(s).Some?
    ensures Newlines(QuotedText(s).value.0) + Newlines(QuotedText(s).value.1) <= Newlines(s)
  {
    if s[0] != '\"' {
      var t := QuotedText(s[1..]).value;
      QuotedBreaks(s[1..]);
      assert ([s[0]] + t.0)[1..] == t.0;
    }
  }

  lemma AtomBreaks(c: char, s: string)
    requires Terminated(s) && s != "" && !IsWS(c) && Atom(c, s).Ok?
    ensures Breaks(Atom(c, s).v) + Newlines(Atom(c, s).rest) <= Newlines(s)
  {
    hide ToInt;
    if c == '\"' {
      QuotedBreaks(s);
    } else {
      TokenBreaks(s);
      assert ([c] + Token(s).0)[1..] == Token(s).0;
    }
  }

  /** Every newline in a value that was read stood in the text in front of what is left. */
  lemma {:induction false} ReadBreaks(s: string)
    requires Terminated(s) && Read(s).Ok?
    ensures Breaks(Read(s).v) + Newlines(Read(s).rest) <= Newlines(s)
    decreases |s|, 0
  {
    hide Start, Atom, Newlines;
    StartBreaks(s);
    var c := Start(s);
    if c.0.value == '\'' {
      QuotedValue(s);
      if Read(c.1).Ok? { ReadBreaks(c.1); }
    } else if c.0.value == '(' {
      ReadListBreaks(c.1);
    } else {
      AtomBreaks(c.0.value, c.1);
    }
  }

  lemma QuotedValue(s: string)
    requires Terminated(s) && Read(s).Ok? && Start(s).0 == Some('\'')
    ensures Read(Start(s).1).Ok? ==>
              Breaks(Read(s).v) == Breaks(Read(Start(s).1).v) && Read(s).rest == Read(Start(s).1).rest
    ensures !Read(Start(s).1).Ok? ==> Breaks(Read(s).v) == 0 && Read(s).rest == "" && Newlines("") == 0
  {
    hide Start, Atom, Newlines;
    NoNewlines("quote");
    var q := Read(Start(s).1);
    var w := if q.Ok? then q.v else Missing;
    assert Breaks(Cons(w, Nil)) == Breaks(w);
    assert Breaks(Cons(Sym("quote"), Cons(w, Nil))) == Breaks(Cons(w, Nil));
    NoNewlines("");
  }

  lemma {:induction false} ReadListBreaks(s: string)
    requires Terminated(s) && ReadList(s).Ok?
    ensures Breaks(ReadList(s).v) + Newlines(ReadList(s).rest) <= Newlines(s)
    decreases |s|, 1
  {
    hide Start, Newlines, Read;
    StartBreaks(s);
    var c := Start(s);
    if c.0.value != ')' {
      var t := [c.0.value] + c.1;
      BeforeNewlines(c.0.value, c.1);
      ReadBreaks(t);
      ReadListBreaks(Read(t).rest);
    }
  }

  lemma BeforeNewlines(c: char, s: string)
    requires !IsWS(c)
    ensures Newlines([c] + s) == Newlines(s)
  {
    assert ([c] + s)[1..] == s;
  }

  /** Behind a value without missing parts something is left: at least the end of its line. */
  lemma {:induction false} LineLeft(s: string)
    requires Terminated(s) && Read(s).Ok? && Printable(Read(s).v)
    ensures Read(s).rest != ""
    decreases |s|, 0
  {
    hide Start, ToInt;
    var c := Start(s);
    if c.0.value == '\'' {
      LineLeft(c.1);
    } else if c.0.value == '(' {
      ListLineLeft(c.1);
    } else {
      AtomLineLeft(c.0.value, c.1);
    }
  }

  lemma AtomLineLeft(c: char, s: string)
    requires Terminated(s) && s != "" && Atom(c, s).Ok?
    ensures Atom(c, s).rest != ""
  {
    hide ToInt;
    if c == '\"' { QuotedLineLeft(s); }
  }

  lemma {:induction false} QuotedLineLeft(s: string)
    requires Terminated(s) && QuotedText(s).Some?
    ensures QuotedText(s).value.1 != ""
  {
    if s[0] != '\"' { QuotedLineLeft(s[1..]); }
  }

  lemma {:induction false} ListLineLeft(s: string)
    requires Terminated(s) && ReadList(s).Ok? && Printable(ReadList(s).v)
    ensures ReadList(s).rest != ""
    decreases |s|, 1
  {
    hide Start, Read;
    var c := Start(s);
    if c.0.value != ')' {
      var a := Read([c.0.value] + c.1);
      ListLineLeft(a.rest);
    }
  }

  // ----- what comes back ------------------------------------------------------------

  /** Some line of the printed value starts with #, so that the reader takes it for a comment. */
  predicate Hashed(v: Value) {
    AnyComment(Lines(Print(v) + "\n"))
  }

  /** A value printed at the beginning of an input, with a newline behind it and any text
      behind that: of the values that can be printed exactly those are read back that come
      back from their text at all and that have no line that starts with #. */
  lemma ComesBackExactly(v: Value, more: string)
    requires Printable(v)
    ensures Read(Seen(Print(v) + "\n" + more)) == Ok(v, "\n" + Seen(more)) <==> (Plain(v) || ParenName(v)) && !Hashed(v)
  {
    hide *;
    var text := Print(v) + "\n";
    SeenLine(Print(v), more);
    if Hashed(v) {
      HashedLost(v, more);
    } else {
      AllSeen(v);
      Join2(Print(v), "\n", Seen(more));
      LineFollows(more);
      ReadsBackExactly(v, "\n" + Seen(more));
    }
  }

  lemma SeenLine(text: string, more: string)
    ensures Seen(text + "\n" + more) == Seen(text + "\n") + Seen(more)
    ensures Concat(Lines(text + "\n")) == text + "\n"
  {
    hide Lines;
    LinesAppend(text + "\n", more);
    KeptAppend(Lines(text + "\n"), Lines(more));
  }

  lemma LineFollows(more: string)
    ensures Follows("\n" + Seen(more))
  {
    hide Seen;
  }

  lemma AllSeen(v: Value)
    requires !Hashed(v)
    ensures Seen(Print(v) + "\n") == Print(v) + "\n"
  {
    hide Lines, Print, AnyComment;
    AllKept(Lines(Print(v) + "\n"));
    SeenLine(Print(v), "");
  }

  /** Counting newlines: a lost line cannot be made up for. */
  lemma HashedLost(v: Value, more: string)
    requires Hashed(v)
    ensures Seen(Print(v) + "\n" + more) == Seen(Print(v) + "\n") + Seen(more)
    ensures Read(Seen(Print(v) + "\n" + more)) != Ok(v, "\n" + Seen(more))
  {
    hide Read, Lines, Print, AnyComment, Newlines, Breaks;
    var text := Print(v) + "\n";
    SeenLine(Print(v), more);
    var s := Seen(text + more);
    if Read(s).Ok? { ReadBreaks(s); }
    KeptNewlines(Lines(text));
    NewlinesAppend(Seen(text), Seen(more));
    NewlinesAppend("\n", Seen(more));
    PrintBreaks(v);
    NewlinesAppend(Print(v), "\n");
    assert Newlines("\n") == 1 by { NewlinesOfLine("\n"); }
  }

  // ----- a last line without newline ------------------------------------------------

  /** What stands behind the last newline of an input never reaches the parser. */
  lemma UnterminatedIsLost(text: string, last: string)
    requires Terminated(text) && '\n' !in last
    ensures Seen(text + last) == Seen(text) && Seen(last) == ""
  {
    LinesAppend(text, last);
    assert Lines(text) + [] == Lines(text);
  }

  /** A value printed into an input without a newline behind it is not read back, whatever
      it is, not even when it has line breaks itself. */
  lemma NewlineNeeded(v: Value)
    requires Printable(v)
    ensures Read(Seen(Print(v))).Ok? ==> Read(Seen(Print(v))).v != v
  {
    hide Read, Lines, Print, AnyComment, Newlines, Breaks;
    var text := Print(v);
    var s := Seen(text);
    if Read(s).Ok? && Read(s).v == v {
      ReadBreaks(s);
      LineLeft(s);
      PrintBreaks(v);
      KeptNewlines(Lines(text));
      LinesCover(text);
      var c := Concat(Lines(text));
      assert text == c + text[|c|..];
      NewlinesAppend(c, text[|c|..]);
      LastNewline(Read(s).rest);
      assert false;
    }
  }

  lemma LastNewline(s: string)
    requires Terminated(s) && s != ""
    ensures Newlines(s) > 0
  {
    var n := |s| - 1;
    assert s == s[..n] + "\n" && "\n"[1..] == "";
    NewlinesAppend(s[..n], "\n");
  }
}
