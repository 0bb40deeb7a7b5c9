/** Texts that no printing gives: quotes, comments, free white space, and the word null
    (kek_scheme/parser.kek). */
module SchemeForms {
  import opened Basics
  import opened Operators
  import opened SchemeReader

  /** An expression as it is written.  A leaf is written as it is printed. */
  datatype Form = Leaf(v: Value) | Null | Quote(gap: string, f: Form) | Bracket(items: Forms)

  /** The elements of a list with what stands in front of each and of the closing parenthesis. */
  datatype Forms = Close(gap: string) | Item(gap: string, f: Form, more: Forms)

  function Text(f: Form): string {
    match f
    case Leaf(v) => Print(v)
    case Null => "null"
    case Quote(g, q) => "'" + g + Text(q)
    case Bracket(items) => "(" + ItemsText(items)
  }

  function ItemsText(fs: Forms): string {
    match fs
    case Close(g) => g + ")"
    case Item(g, f, more) => g + Text(f) + ItemsText(more)
  }

  function Meaning(f: Form): Value {
    match f
    case Leaf(v) => v
    case Null => Nil
    case Quote(_, q) => Cons(Sym("quote"), Cons(Meaning(q), Nil))
    case Bracket(items) => ItemsMeaning(items)
  }

  function ItemsMeaning(fs: Forms): Value {
    match fs
    case Close(_) => Nil
    case Item(_, f, more) => Cons(Meaning(f), ItemsMeaning(more))
  }

  /** Blanks, tabs, newlines and comments up to the end of their line. */
  predicate Gap(s: string, comment: bool) {
    if s == "" then !comment
    else if comment then Gap(s[1..], s[0] != '\n')
    else if s[0] == ';' then Gap(s[1..], true)
    else (s[0] == ' ' || s[0] == '\t' || s[0] == '\n') && Gap(s[1..], false)
  }

  /** What may stand behind an element. */
  predicate Ends(s: string) { s != "" && s[0] in [' ', '\t', '\n', '(', ')', ';'] }

  /** Only gaps between the parts, and each element is ended by a gap or a parenthesis. */
  predicate Spaced(f: Form) {
    match f
    case Leaf(v) => Plain(v)
    case Null => true
    case Quote(g, q) => Gap(g, false) && Spaced(q)
    case Bracket(items) => ItemsSpaced(items)
  }

  predicate ItemsSpaced(fs: Forms) {
    match fs
    case Close(g) => Gap(g, false)
    case Item(g, f, more) => Gap(g, false) && Spaced(f) && Ends(ItemsText(more)) && ItemsSpaced(more)
  }

  // ----- gaps -----------------------------------------------------------------------

  lemma CommentStarts(s: string)
    ensures Start(";" + s) == Start(SkipLine(s))
  {
    assert (";" + s)[1..] == s;
    assert SkipWS(";" + s) == (Some(';'), s);
  }

  lemma WhiteStarts(c: char, s: string)
    requires c == ' ' || c == '\t' || c == '\n'
    ensures Start([c] + s) == Start(s)
  {
    assert ([c] + s)[1..] == s;
  }

  lemma LineStep(c: char, s: string)
    ensures SkipLine([c] + s) == if c == '\n' then s else SkipLine(s)
  {
    assert ([c] + s)[1..] == s;
  }

  /** The next character that counts is the same with a gap in front. */
  lemma {:induction false} GapSkipped(g: string, comment: bool, s: string)
    requires Gap(g, comment)
    ensures if comment then Start(SkipLine(g + s)) == Start(s) else Start(g + s) == Start(s)
  {
    hide Start, SkipLine;
    if g == "" {
      assert g + s == s;
    } else {
      var tail := g[1..] + s;
      assert g + s == [g[0]] + tail;
      GapSkipped(g[1..], if comment then g[0] != '\n' else g[0] == ';', s);
      LineStep(g[0], tail);
      if !comment {
        if g[0] == ';' { CommentStarts(tail); } else { WhiteStarts(g[0], tail); }
      }
    }
  }

  lemma {:induction false} GapTerminated(g: string, s: string)
    requires Terminated(s) && s != ""
    ensures Terminated(g + s)
  {
  }

  lemma SameStart(s: string, t: string)
    requires Terminated(s) && Terminated(t) && Start(s) == Start(t)
    ensures Read(s) == Read(t) && ReadList(s) == ReadList(t)
  {
    hide Start;
  }

  /** A gap in front changes nothing. */
  lemma GapReads(g: string, s: string)
    requires Gap(g, false) && Terminated(s) && s != ""
    ensures Terminated(g + s) && Read(g + s) == Read(s) && ReadList(g + s) == ReadList(s)
  {
    hide *;
    GapTerminated(g, s);
    GapSkipped(g, false, s);
    SameStart(g + s, s);
  }

  // ----- expressions ----------------------------------------------------------------

  lemma EndsFollow(s: string)
    requires Ends(s) && Terminated(s)
    ensures Follows(s)
  {
  }

  lemma FormStarts(f: Form)
    requires Spaced(f)
    ensures Text(f) != "" && !IsWS(Text(f)[0]) && Text(f)[0] != ';' && Text(f)[0] != ')'
  {
    hide Print;
    if f.Leaf? { PrintStarts(f.v); }
  }

  lemma QuoteOpens(s: string, v: Value, rest: string)
    requires Terminated(s) && s != "" && Read(s) == Ok(v, rest)
    ensures Terminated("'" + s) && Read("'" + s) == Ok(Cons(Sym("quote"), Cons(v, Nil)), rest)
  {
    var t := "'" + s;
    assert t[1..] == s;
    assert Start(t) == (Some('\''), s);
  }

  lemma ReadNull(rest: string)
    requires Follows(rest)
    ensures Terminated("null" + rest) && Read("null" + rest) == Ok(Nil, rest)
  {
    hide Read, ToInt;
    assert ToInt("null").None? by { NullIsNoNumber(); }
    ReadToken("null", rest);
  }

  lemma NullIsNoNumber()
    ensures ToInt("null").None?
  {
    assert TrimFront("null") == "null" && TrimBack("null") == "null";
    assert !IsDigit("null"[0]);
  }

  /** Reading a written expression gives its meaning and stops just behind it. */
  lemma {:induction false} FormReads(f: Form, rest: string)
    requires Spaced(f) && Ends(rest) && Terminated(rest)
    ensures Terminated(Text(f) + rest) && Read(Text(f) + rest) == Ok(Meaning(f), rest)
    decreases f
  {
    hide Read, ReadList, Print, Terminated, Gap, Ends, Plain;
    EndsFollow(rest);
    match f
    case Leaf(v) => PrintReads(v, rest);
    case Null => ReadNull(rest);
    case Quote(g, q) =>
      FormReads(q, rest);
      FormStarts(q);
      GapReads(g, Text(q) + rest);
      QuoteOpens(g + (Text(q) + rest), Meaning(q), rest);
      assert Text(f) + rest == "'" + (g + (Text(q) + rest));
    case Bracket(items) =>
      ItemsRead(items, rest);
      ItemsOpen(items);
      ParenOpens(ItemsText(items) + rest);
      assert Text(f) + rest == "(" + (ItemsText(items) + rest);
  }

  lemma ItemsOpen(fs: Forms)
    requires ItemsSpaced(fs)
    ensures ItemsText(fs) != ""
  {
    if fs.Item? { FormStarts(fs.f); }
  }

  lemma {:induction false} ItemsRead(fs: Forms, rest: string)
    requires ItemsSpaced(fs) && Ends(rest) && Terminated(rest)
    ensures Terminated(ItemsText(fs) + rest) && ReadList(ItemsText(fs) + rest) == Ok(ItemsMeaning(fs), rest)
    decreases fs
  {
    hide Read, ReadList, Terminated, Gap, Ends, Spaced;
    match fs
    case Close(g) =>
      EndsFollow(rest);
      CloseList(rest);
      GapReads(g, ")" + rest);
      assert ItemsText(fs) + rest == g + (")" + rest);
    case Item(g, f, more) =>
      var tail := ItemsText(more) + rest;
      ItemsRead(more, rest);
      EndsBefore(ItemsText(more), rest);
      FormReads(f, tail);
      FormStarts(f);
      ListOpens(Meaning(f), ItemsMeaning(more), Text(f) + tail, tail, rest);
      GapReads(g, Text(f) + tail);
      assert ItemsText(fs) + rest == g + (Text(f) + tail);
  }

  lemma EndsBefore(s: string, rest: string)
    requires Ends(s)
    ensures Ends(s + rest)
  {
  }

  /** A gap in front of an expression changes nothing: white space or a comment of any text. */
  lemma GapBefore(g: string, f: Form, rest: string)
    requires Gap(g, false) && Spaced(f) && Ends(rest) && Terminated(rest)
    ensures Terminated(g + Text(f) + rest) && Read(g + Text(f) + rest) == Ok(Meaning(f), rest)
  {
    hide *;
    FormReads(f, rest);
    FormStarts(f);
    GapReads(g, Text(f) + rest);
    assert g + Text(f) + rest == g + (Text(f) + rest);
  }

  /** A quote in front of a printed value, once or twice, is read as the list of the symbol
      quote and what is quoted. */
  lemma QuotedReads(v: Value, rest: string)
    requires Plain(v) && Ends(rest) && Terminated(rest)
    ensures var q := Cons(Sym("quote"), Cons(v, Nil));
            && Terminated("'" + Print(v) + rest) && Read("'" + Print(v) + rest) == Ok(q, rest)
            && Terminated("''" + Print(v) + rest)
            && Read("''" + Print(v) + rest) == Ok(Cons(Sym("quote"), Cons(q, Nil)), rest)
  {
    hide Read, Print, Terminated, Plain;
    var once := Quote("", Leaf(v));
    assert Spaced(once) && Spaced(Quote("", once));
    FormReads(once, rest);
    FormReads(Quote("", once), rest);
    assert Text(once) == "'" + Print(v);
    assert Text(Quote("", once)) == "'" + "" + ("'" + Print(v)) == "''" + Print(v);
  }

  /** Behind the last expression there is nothing to read: a quote then holds nothing, and a
      list is never closed. */
  lemma NothingLeft(g: string)
    requires Gap(g, false) && Terminated(g) && g != ""
    ensures Read(g) == AtEnd && ReadList(g) == Failed
    ensures Terminated("'" + g) && Read("'" + g) == Ok(Cons(Sym("quote"), Cons(Missing, Nil)), "")
    ensures Terminated("(" + g) && Read("(" + g) == Failed
  {
    GapSkipped(g, false, "");
    assert g + "" == g;
    assert ("'" + g)[1..] == g;
    assert Start("'" + g) == (Some('\''), g);
    ParenOpens(g);
  }

  /** A number may have a plus sign; a number that is no int stops the program. */
  lemma PlusReads(n: nat, rest: string)
    requires Ends(rest) && Terminated(rest)
    ensures Terminated("+" + Digits(n) + rest)
    ensures Read("+" + Digits(n) + rest) == if n <= INT_MAX then Ok(Int(n), rest) else Failed
    ensures Terminated(Digits(n) + rest)
    ensures Read(Digits(n) + rest) == if n <= INT_MAX then Ok(Int(n), rest) else Failed
  {
    hide Read, ToInt, Digits, Terminated;
    EndsFollow(rest);
    DigitsDoNotDelimit(n);
    PlusBack(n);
    DecimalBack(n);
    ReadToken("+" + Digits(n), rest);
    ReadToken(Digits(n), rest);
  }

  lemma PlusBack(n: nat)
    ensures ToInt("+" + Digits(n)) == Some(n)
  {
    var s := "+" + Digits(n);
    DigitsBack(n);
    assert s[0] == '+' && s[1..] == Digits(n) && s[|s| - 1] == Digits(n)[|Digits(n)| - 1];
  }
}
