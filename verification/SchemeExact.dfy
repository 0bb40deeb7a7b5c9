/** Exactly which Scheme values come back when printed and read (kek_scheme/types.kek,
    kek_scheme/parser.kek). */
module SchemeExact {
  import opened Basics
  import opened SchemeReader

  /** Every part can be printed. */
  predicate Printable(v: Value) {
    match v
    case Cons(a, d) => Printable(a) && Printable(d)
    case Missing => false
    case _ => true
  }

  /** A name that begins with a closing parenthesis: outside a list the reader takes it. */
  predicate ParenName(v: Value) {
    v.Sym? && v.name != "" && v.name[0] == ')' && forall i :: 1 <= i < |v.name| ==> !Delimits(v.name[i])
  }

  predicate Gives(g: Got, v: Value) { g.Ok? && g.v == v }

  // ----- what the reader can answer -------------------------------------------------

  lemma {:induction false} TokenFree(s: string)
    ensures forall i :: 0 <= i < |Token(s).0| ==> !Delimits(Token(s).0[i])
  {
    if s != "" && !Delimits(s[0]) { TokenFree(s[1..]); }
  }

  lemma {:induction false} QuotedFree(s: string)
    requires QuotedText(s).Some?
    ensures '\"' !in QuotedText(s).value.0
  {
    if s[0] != '\"' { QuotedFree(s[1..]); }
  }

  /** The symbols and strings the reader answers. */
  lemma ReadAtoms(s: string)
    requires Terminated(s) && Read(s).Ok?
    ensures Read(s).v.Sym? ==> SymbolName(Read(s).v.name) || ParenName(Read(s).v)
    ensures Read(s).v.Str? ==> '\"' !in Read(s).v.text
  {
    hide ReadList, Start, Atom, SymbolName;
    var c := Start(s);
    if c.0 == Some('\'') {
    } else if c.0 == Some('(') {
      ListsOnly(c.1);
    } else {
      AtomAtoms(c.0.value, c.1);
    }
  }

  lemma AtomAtoms(c: char, s: string)
    requires Terminated(s) && s != "" && !IsWS(c) && c != ';' && c != '(' && c != '\'' && Atom(c, s).Ok?
    ensures Atom(c, s).v.Sym? ==> SymbolName(Atom(c, s).v.name) || ParenName(Atom(c, s).v)
    ensures Atom(c, s).v.Str? ==> '\"' !in Atom(c, s).v.text
  {
    hide ToInt, Token, QuotedText;
    if c == '\"' { QuotedFree(s); } else { TokenFree(s); }
  }

  /** Reading starts at the first character that counts. */
  lemma ReadSkips(s: string)
    requires Terminated(s) && Start(s).0.Some?
    ensures Terminated([Start(s).0.value] + Start(s).1) && Read([Start(s).0.value] + Start(s).1) == Read(s)
  {
    hide Atom, ReadList;
    var c := Start(s);
    var t := [c.0.value] + c.1;
    assert t[1..] == c.1;
    assert Start(t) == c;
  }

  /** A list that comes back has come back in its parts. */
  lemma ListParts(s: string, a: Value, d: Value)
    requires Terminated(s) && Gives(ReadList(s), Cons(a, d))
    ensures Start(s).0.Some? && Start(s).0 != Some(')')
    ensures Gives(Read(s), a) && Gives(ReadList(Read(s).rest), d)
  {
    hide Read, ReadList, Start;
    ListStep(s);
    ReadSkips(s);
  }

  lemma ListStep(s: string)
    requires Terminated(s) && ReadList(s).Ok?
    ensures Start(s).0.Some? && (ReadList(s).v.Cons? ==> Start(s).0 != Some(')'))
    ensures ReadList(s).v.Cons? ==>
              var t := [Start(s).0.value] + Start(s).1;
              Terminated(t) && Gives(Read(t), ReadList(s).v.car) && Gives(ReadList(Read(t).rest), ReadList(s).v.cdr)
  {
    hide Read, Start;
  }

  lemma ListsOnly(s: string)
    requires Terminated(s) && ReadList(s).Ok?
    ensures ReadList(s).v.Nil? || ReadList(s).v.Cons?
  {
    hide Read;
  }

  lemma AfterBlank(s: string)
    requires s != "" && Terminated(s)
    ensures Terminated(" " + s) && ReadList(" " + s) == ReadList(s) && Start(" " + s) == Start(s)
  {
    LeadingBlank(s);
    assert (" " + s)[1..] == s && SkipWS(" " + s) == SkipWS(s);
  }

  // ----- what does not come back ----------------------------------------------------

  /** Between the parts of a list stands a delimiter. */
  lemma TailDelimits(d: Value, rest: string)
    requires Follows(rest)
    ensures Follows(PrintTail(d) + rest)
  {
    hide Print;
    assert PrintTail(d)[0] == ' ' || PrintTail(d)[0] == ')';
  }

  lemma {:induction false} NotRead(v: Value, rest: string)
    requires Printable(v) && Follows(rest) && !Plain(v) && !ParenName(v)
    ensures Terminated(Print(v) + rest) && !Gives(Read(Print(v) + rest), v)
    decreases v, 1
  {
    hide Read, ReadList, SymbolName, PrintTail, Token, QuotedText;
    var s := Print(v) + rest;
    if Gives(Read(s), v) { ReadAtoms(s); }
    if v.Cons? {
      var inner := Print(v.car) + (PrintTail(v.cdr) + rest);
      TailDelimits(v.cdr, rest);
      assert s == "(" + inner;
      ParenOpens(inner);
      ElementsNotRead(v, rest);
    }
  }

  /** The elements of a list that is not plain. */
  lemma {:induction false} ElementsNotRead(v: Value, rest: string)
    requires v.Cons? && Printable(v) && Follows(rest) && !Plain(v)
    ensures var s := Print(v.car) + (PrintTail(v.cdr) + rest);
            s != "" && Terminated(s) && !Gives(ReadList(s), v)
    decreases v, 0
  {
    hide Read, ReadList, SymbolName, Print, PrintTail, PlainTail, Start, Terminated, Gives, ParenName;
    var a, d := v.car, v.cdr;
    var tail := PrintTail(d) + rest;
    var s := Print(a) + tail;
    TailDelimits(d, rest);
    Lengthened(Print(a), tail);
    if Gives(ReadList(s), v) {
      ListParts(s, a, d);
      if ParenName(a) {
        ParenFirst(a, tail);
      } else if !Plain(a) {
        NotRead(a, tail);
      } else {
        PrintReads(a, tail);
        TailNotRead(d, rest);
      }
    }
  }

  lemma Lengthened(a: string, b: string)
    requires Follows(b)
    ensures a + b != "" && Terminated(a + b)
  {
  }

  lemma ParenFirst(a: Value, tail: string)
    requires ParenName(a)
    ensures Start(Print(a) + tail).0 == Some(')')
  {
    assert (Print(a) + tail)[0] == ')';
  }

  lemma {:induction false} TailNotRead(d: Value, rest: string)
    requires Printable(d) && Follows(rest) && !PlainTail(d)
    ensures Terminated(PrintTail(d) + rest) && !Gives(ReadList(PrintTail(d) + rest), d)
    decreases d, 1
  {
    hide Read, ReadList, SymbolName, Print;
    TailDelimits(d, rest);
    if d.Cons? {
      var inner := Print(d.car) + (PrintTail(d.cdr) + rest);
      assert PrintTail(d) + rest == " " + inner;
      ElementsNotRead(d, rest);
      AfterBlank(inner);
    } else if ReadList(PrintTail(d) + rest).Ok? {
      ListsOnly(PrintTail(d) + rest);
    }
  }

  // ----- exactly --------------------------------------------------------------------

  lemma ParenNameReads(v: Value, rest: string)
    requires ParenName(v) && Follows(rest)
    ensures Terminated(Print(v) + rest) && Read(Print(v) + rest) == Ok(v, rest)
  {
    hide ToInt;
    var s, t := Print(v) + rest, v.name[1..];
    assert s[1..] == t + rest && [')'] + t == v.name;
    TokenIs(t, rest);
    assert Start(s) == (Some(')'), s[1..]);
    NoNumber(v.name);
  }

  lemma NoNumber(s: string)
    requires s != "" && s[0] == ')'
    ensures ToInt(s).None?
  {
    FirstStays(s);
  }

  lemma {:induction false} FirstStays(s: string)
    requires s != "" && !IsSpace(s[0])
    ensures TrimBack(s) != "" && TrimBack(s)[0] == s[0]
    decreases |s|
  {
    if IsSpace(s[|s| - 1]) { FirstStays(s[..|s| - 1]); }
  }

  /** Of the values that can be printed exactly these come back, in front of any delimiter:
      nested proper lists of integers, booleans, symbols that read as such and strings without
      quotes -- and, by itself, a symbol that begins with a closing parenthesis. */
  lemma ReadsBackExactly(v: Value, rest: string)
    requires Printable(v) && Follows(rest)
    ensures Terminated(Print(v) + rest)
    ensures Read(Print(v) + rest) == Ok(v, rest) <==> Plain(v) || ParenName(v)
  {
    hide Read, Plain, ParenName, Print;
    if Plain(v) {
      PrintReads(v, rest);
    } else if ParenName(v) {
      ParenNameReads(v, rest);
    } else {
      NotRead(v, rest);
    }
  }
}
