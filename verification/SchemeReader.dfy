/** Reading and printing of Scheme values (kek_scheme/parser.kek, types.kek, reader.kek). */
module SchemeReader {
  import opened Basics
  import opened Operators

  /** Missing is the nil of the language, no Scheme value: what a quote holds that nothing
      follows. */
  datatype Value =
    | Int(n: int32)
    | Str(text: string)
    | Sym(name: string)
    | True | False | Nil
    | Cons(car: Value, cdr: Value)
    | Missing

  // ----- numbers --------------------------------------------------------------------

  predicate IsDigit(c: char) { '0' <= c <= '9' }

  predicate AllDigits(s: string) { forall i :: 0 <= i < |s| ==> IsDigit(s[i]) }

  function DigitOf(n: nat): char
    requires n < 10
  {
    '0' + n as char
  }

  function DigitValue(c: char): nat
    requires IsDigit(c)
  {
    (c - '0') as nat
  }

  function Digits(n: nat): (s: string)
    ensures |s| > 0 && AllDigits(s)
  {
    if n < 10 then [DigitOf(n)] else Digits(n / 10) + [DigitOf(n % 10)]
  }

  function NatOf(s: string): nat
    requires AllDigits(s)
  {
    if s == "" then 0 else 10 * NatOf(s[..|s| - 1]) + DigitValue(s[|s| - 1])
  }

  lemma {:induction false} DigitsBack(n: nat)
    ensures NatOf(Digits(n)) == n
  {
    if n < 10 {
      assert [DigitOf(n)][..0] == "";
    } else {
      DigitsBack(n / 10);
      var s := Digits(n);
      assert s[..|s| - 1] == Digits(n / 10);
    }
  }

  /** sprintf with %d. */
  function Decimal(n: int): string { if n < 0 then "-" + Digits(-n) else Digits(n) }

  predicate IsSpace(c: char) { c == ' ' || c == '\t' || c == '\n' || c == '\r' || c == 11 as char || c == 12 as char }

  function TrimFront(s: string): string { if s != "" && IsSpace(s[0]) then TrimFront(s[1..]) else s }

  function TrimBack(s: string): string
    decreases |s|
  {
    if s != "" && IsSpace(s[|s| - 1]) then TrimBack(s[..|s| - 1]) else s
  }

  function Negated(n: int): int { -n }

  /** String.toInt: white space, a sign, digits, white space, and nothing else. */
  function ToInt(s: string): Option<int> {
    var t := TrimBack(TrimFront(s));
    if t != "" && t[0] == '-' && |t| > 1 && AllDigits(t[1..]) then Some(Negated(NatOf(t[1..])))
    else if t != "" && t[0] == '+' && |t| > 1 && AllDigits(t[1..]) then Some(NatOf(t[1..]))
    else if t != "" && AllDigits(t) then Some(NatOf(t))
    else None
  }

  lemma DecimalBack(n: int)
    ensures ToInt(Decimal(n)) == Some(n)
  {
    var s := Decimal(n);
    if n < 0 {
      DigitsBack(-n);
      assert s[0] == '-' && s[1..] == Digits(-n) && s[|s| - 1] == Digits(-n)[|Digits(-n)| - 1];
    } else {
      DigitsBack(n);
      assert IsDigit(s[0]) && IsDigit(s[|s| - 1]);
    }
  }

  // ----- printing -------------------------------------------------------------------

  /** Printing a missing value is an error; see Printable. */
  function Print(v: Value): string
    decreases v, 1
  {
    match v
    case Int(n) => Decimal(n)
    case Str(s) => "\"" + s + "\""
    case Sym(s) => s
    case True => "#t"
    case False => "#f"
    case Nil => "()"
    case Cons(a, d) => "(" + Print(a) + PrintTail(d)
    case Missing => ""
  }

  /** What follows an element: the closing parenthesis, or a blank and the rest. */
  function PrintTail(d: Value): string
    decreases d, 2
  {
    match d
    case Nil => ")"
    case Cons(a, e) => " " + Print(a) + PrintTail(e)
    case _ => " " + ". " + Print(d) + ")"
  }

  // ----- reading --------------------------------------------------------------------

  predicate IsWS(c: char) { c == ' ' || c == '\t' || c == '\n' }

  predicate Delimits(c: char) { IsWS(c) || c == '(' || c == ')' || c == ';' }

  /** Every line is ended by a newline. */
  predicate Terminated(s: string) { s == "" || s[|s| - 1] == '\n' }

  /** The first character that is not white space, and what follows it. */
  function SkipWS(s: string): (r: (Option<char>, string))
    ensures |r.1| <= |s| && (r.0.Some? ==> |r.1| < |s| && !IsWS(r.0.value))
    ensures Terminated(s) ==> Terminated(r.1)
    ensures r.0.Some? && Terminated(s) ==> r.1 != ""
    ensures r.0.None? ==> r.1 == ""
  {
    if s == "" then (None, "")
    else if IsWS(s[0]) then SkipWS(s[1..])
    else (Some(s[0]), s[1..])
  }

  function SkipLine(s: string): (r: string)
    ensures |r| <= |s| && (Terminated(s) ==> Terminated(r))
  {
    if s == "" then "" else if s[0] == '\n' then s[1..] else SkipLine(s[1..])
  }

  function SkipComment(c: Option<char>, s: string): (r: (Option<char>, string))
    ensures |r.1| <= |s| && (Terminated(s) ==> Terminated(r.1))
    ensures r.0 != Some(';') && ((c.None? ==> s == "") && r.0.None? ==> r.1 == "")
    ensures (c.Some? ==> !IsWS(c.value)) ==> (r.0.Some? ==> !IsWS(r.0.value))
    ensures Terminated(s) && (c.Some? ==> s != "") ==> (r.0.Some? ==> r.1 != "")
    decreases |s|, if c == Some(';') then 1 else 0
  {
    if c == Some(';') then
      var n := SkipWS(SkipLine(s));
      if n.0.None? then n else SkipComment(n.0, n.1)
    else (c, s)
  }

  /** The next character that counts. */
  function Start(s: string): (r: (Option<char>, string))
    ensures |r.1| <= |s| && (r.0.Some? ==> |r.1| < |s| && !IsWS(r.0.value)) && r.0 != Some(';')
    ensures r.0.None? ==> r.1 == ""
    ensures Terminated(s) ==> Terminated(r.1) && (r.0.Some? ==> r.1 != "")
  {
    var w := SkipWS(s);
    SkipComment(w.0, w.1)
  }

  /** The characters up to a delimiter, which stays, or up to the end. */
  function Token(s: string): (r: (string, string))
    ensures |r.1| <= |s| && (Terminated(s) && s != "" ==> Terminated(r.1) && r.1 != "")
  {
    if s == "" then ("", "")
    else if Delimits(s[0]) then ("", s)
    else
      var t := Token(s[1..]);
      ([s[0]] + t.0, t.1)
  }

  /** The characters up to a double quote, which is consumed; None without one. */
  function QuotedText(s: string): (r: Option<(string, string)>)
    ensures r.Some? ==> |r.value.1| < |s| && (Terminated(s) ==> Terminated(r.value.1))
  {
    if s == "" then None
    else if s[0] == '\"' then Some(("", s[1..]))
    else
      var t := QuotedText(s[1..]);
      if t.None? then None else Some(([s[0]] + t.value.0, t.value.1))
  }

  /** AtEnd: nothing to read.  Failed: an exception, or a number that is no int. */
  datatype Got = AtEnd | Failed | Ok(v: Value, rest: string)

  function AtomOf(t: string, rest: string): Got {
    var n := ToInt(t);
    if n.Some? then (if IsInt32(n.value) then Ok(Int(n.value), rest) else Failed)
    else if t == "#t" then Ok(True, rest)
    else if t == "#f" then Ok(False, rest)
    else if t == "null" then Ok(Nil, rest)
    else Ok(Sym(t), rest)
  }

  function Atom(c: char, s: string): (r: Got)
    requires Terminated(s) && s != ""
    ensures r.Ok? ==> |r.rest| <= |s| && Terminated(r.rest)
  {
    if c == '\"' then
      var t := QuotedText(s);
      if t.None? then Failed else Ok(Str(t.value.0), t.value.1)
    else
      var t := Token(s);
      AtomOf([c] + t.0, t.1)
  }

  function Read(s: string): (r: Got)
    requires Terminated(s)
    ensures r.Ok? ==> |r.rest| < |s| && Terminated(r.rest)
    decreases |s|, 0
  {
    var c := Start(s);
    if c.0.None? then AtEnd
    else if c.0.value == '\'' then
      var q := Read(c.1);
      if q.Ok? then Ok(Cons(Sym("quote"), Cons(q.v, Nil)), q.rest)
      else if q.AtEnd? then Ok(Cons(Sym("quote"), Cons(Missing, Nil)), "")
      else Failed
    else if c.0.value == '(' then ReadList(c.1)
    else Atom(c.0.value, c.1)
  }

  function ReadList(s: string): (r: Got)
    requires Terminated(s)
    ensures r.Ok? ==> |r.rest| < |s| && Terminated(r.rest)
    ensures !r.AtEnd?
    decreases |s|, 1
  {
    var c := Start(s);
    if c.0.None? then Failed
    else if c.0.value == ')' then Ok(Nil, c.1)
    else
      var a := Read([c.0.value] + c.1);
      if !a.Ok? then Failed
      else
        var d := ReadList(a.rest);
        if d.Ok? then Ok(Cons(a.v, d.v), d.rest) else Failed
  }

  // ----- the round trip -------------------------------------------------------------

  /** A name that is read back as a symbol. */
  predicate SymbolName(s: string) {
    && s != "" && (forall i :: 0 <= i < |s| ==> !Delimits(s[i])) && s[0] != '\"' && s[0] != '\''
    && ToInt(s).None? && s != "#t" && s != "#f" && s != "null"
  }

  /** Nested proper lists of integers, booleans, symbols and strings without quotes. */
  predicate Plain(v: Value)
    decreases v, 1
  {
    match v
    case Str(s) => '\"' !in s
    case Sym(s) => SymbolName(s)
    case Cons(a, d) => Plain(a) && PlainTail(d)
    case Missing => false
    case _ => true
  }

  predicate PlainTail(d: Value)
    decreases d, 0
  {
    d.Nil? || (d.Cons? && Plain(d.car) && PlainTail(d.cdr))
  }

  /** The text behind a printed value: it starts with a delimiter. */
  predicate Follows(rest: string) { Terminated(rest) && rest != "" && Delimits(rest[0]) }

  lemma {:induction false} TokenIs(t: string, rest: string)
    requires Follows(rest) && forall i :: 0 <= i < |t| ==> !Delimits(t[i])
    ensures Terminated(t + rest) && Token(t + rest) == (t, rest)
  {
    var s := t + rest;
    if t == "" {
      assert s == rest;
    } else {
      assert s[1..] == t[1..] + rest && [s[0]] + t[1..] == t;
      TokenIs(t[1..], rest);
    }
  }

  lemma {:induction false} QuotedIs(t: string, rest: string)
    requires '\"' !in t
    ensures QuotedText(t + "\"" + rest) == Some((t, rest))
  {
    var s := t + "\"" + rest;
    if t == "" {
      assert s[1..] == rest;
    } else {
      assert s[1..] == t[1..] + "\"" + rest && [s[0]] + t[1..] == t;
      QuotedIs(t[1..], rest);
    }
  }

  /** A token at the front is read as the atom it is. */
  lemma ReadToken(t: string, rest: string)
    requires Follows(rest) && t != "" && (forall i :: 0 <= i < |t| ==> !Delimits(t[i])) && t[0] != '\"' && t[0] != '\''
    ensures Terminated(t + rest) && Read(t + rest) == AtomOf(t, rest)
  {
    hide AtomOf;
    var s := t + rest;
    assert s[1..] == t[1..] + rest && [t[0]] + t[1..] == t;
    TokenIs(t[1..], rest);
    assert Start(s) == (Some(t[0]), s[1..]);
  }

  lemma {:induction false} DigitsDoNotDelimit(n: nat)
    ensures forall i :: 0 <= i < |Digits(n)| ==> !Delimits(Digits(n)[i]) && Digits(n)[i] != '\"' && Digits(n)[i] != '\''
  {
    assert AllDigits(Digits(n));
    forall i | 0 <= i < |Digits(n)| ensures !Delimits(Digits(n)[i]) && Digits(n)[i] != '\"' && Digits(n)[i] != '\'' {
      assert IsDigit(Digits(n)[i]);
    }
  }

  lemma ReadInt(n: int32, rest: string)
    requires Follows(rest)
    ensures Terminated(Decimal(n) + rest) && Read(Decimal(n) + rest) == Ok(Int(n), rest)
  {
    hide ToInt, Digits, Delimits;
    DigitsDoNotDelimit(Abs(n));
    DecimalBack(n);
    assert !Delimits('-') by { MinusIsFree(); }
    ReadToken(Decimal(n), rest);
  }

  lemma MinusIsFree()
    ensures !Delimits('-')
  {
  }

  lemma ReadStr(t: string, rest: string)
    requires Follows(rest) && '\"' !in t
    ensures Terminated("\"" + t + "\"" + rest) && Read("\"" + t + "\"" + rest) == Ok(Str(t), rest)
  {
    var s := "\"" + t + "\"" + rest;
    assert s[1..] == t + "\"" + rest;
    QuotedIs(t, rest);
    assert Start(s) == (Some('\"'), s[1..]);
  }

  /** What a printed value starts with. */
  lemma PrintStarts(v: Value)
    requires Plain(v)
    ensures Print(v) != "" && !IsWS(Print(v)[0]) && Print(v)[0] != ';' && Print(v)[0] != ')'
  {
    match v
    case Int(n) => DigitsDoNotDelimit(Abs(n));
    case Cons(a, d) => assert Print(v)[0] == '(';
    case _ =>
  }

  lemma TailFollows(d: Value, rest: string)
    requires PlainTail(d) && Follows(rest)
    ensures Follows(PrintTail(d) + rest)
  {
    hide Print;
    assert PrintTail(d)[0] == ' ' || PrintTail(d)[0] == ')';
  }

  /** Reading back a printed value stops just behind it. */
  lemma {:induction false} PrintReads(v: Value, rest: string)
    requires Plain(v) && Follows(rest)
    ensures Terminated(Print(v) + rest) && Read(Print(v) + rest) == Ok(v, rest)
    decreases v, 1
  {
    hide Read, ReadList, Delimits, ToInt, AtomOf, SymbolName, Decimal, Follows, Terminated, PrintTail;
    match v
    case Int(n) => ReadInt(n, rest);
    case Str(s) => ReadStr(s, rest);
    case Sym(s) => ReadSym(s, rest);
    case True => ReadWord(rest);
    case False => ReadWord(rest);
    case Nil => ReadNil(rest);
    case Cons(a, d) =>
      var tail := PrintTail(d) + rest;
      TailFollows(d, rest);
      PrintReads(a, tail);
      TailReads(d, rest);
      PrintStarts(a);
      Opened(a, d, Print(a), PrintTail(d), rest);
  }

  lemma ReadSym(t: string, rest: string)
    requires Follows(rest) && SymbolName(t)
    ensures Terminated(t + rest) && Read(t + rest) == Ok(Sym(t), rest)
  {
    hide Read, Delimits, ToInt;
    ReadToken(t, rest);
  }

  lemma ReadWord(rest: string)
    requires Follows(rest)
    ensures Terminated("#t" + rest) && Read("#t" + rest) == Ok(True, rest)
    ensures Terminated("#f" + rest) && Read("#f" + rest) == Ok(False, rest)
  {
    hide Read, Delimits, ToInt;
    WordsAreFree();
    WordsAreNoNumbers();
    ReadToken("#t", rest);
    ReadToken("#f", rest);
  }

  /** An opening parenthesis, an element and the rest of its list. */
  lemma Opened(a: Value, d: Value, p: string, q: string, rest: string)
    requires p != "" && !IsWS(p[0]) && p[0] != ';' && p[0] != ')'
    requires Terminated(p + (q + rest)) && Read(p + (q + rest)) == Ok(a, q + rest)
    requires Terminated(q + rest) && ReadList(q + rest) == Ok(d, rest)
    ensures Terminated("(" + p + q + rest) && Read("(" + p + q + rest) == Ok(Cons(a, d), rest)
    ensures Terminated(" " + p + q + rest) && ReadList(" " + p + q + rest) == Ok(Cons(a, d), rest)
  {
    hide Read, ReadList, Terminated;
    var s := p + (q + rest);
    assert s[0] == p[0];
    assert "(" + p + q + rest == "(" + s && " " + p + q + rest == " " + s;
    ListOpens(a, d, s, q + rest, rest);
    ParenOpens(s);
    LeadingBlank(s);
  }

  lemma WordsAreFree()
    ensures forall i :: 0 <= i < 2 ==> !Delimits("#t"[i]) && !Delimits("#f"[i])
  {
  }

  lemma WordsAreNoNumbers()
    ensures ToInt("#t").None? && ToInt("#f").None?
  {
    assert TrimFront("#t") == "#t" && TrimBack("#t") == "#t";
    assert TrimFront("#f") == "#f" && TrimBack("#f") == "#f";
    assert !IsDigit("#t"[0]) && !IsDigit("#f"[0]);
  }

  lemma ReadNil(rest: string)
    requires Follows(rest)
    ensures Terminated("()" + rest) && Read("()" + rest) == Ok(Nil, rest)
  {
    var s := "()" + rest;
    assert s[1..] == ")" + rest && (")" + rest)[1..] == rest;
    assert Start(s) == (Some('('), s[1..]);
    assert Start(")" + rest) == (Some(')'), rest);
  }

  /** A list whose first element has been read. */
  lemma ListOpens(a: Value, d: Value, s: string, tail: string, rest: string)
    requires Terminated(s) && s != "" && !IsWS(s[0]) && s[0] != ';' && s[0] != ')'
    requires Read(s) == Ok(a, tail) && ReadList(tail) == Ok(d, rest)
    ensures ReadList(s) == Ok(Cons(a, d), rest)
  {
    hide Read;
    assert Start(s) == (Some(s[0]), s[1..]) && [s[0]] + s[1..] == s;
  }

  lemma ParenOpens(s: string)
    requires Terminated(s) && s != ""
    ensures Terminated("(" + s) && Read("(" + s) == ReadList(s)
  {
    hide ReadList;
    var t := "(" + s;
    assert t[1..] == s;
    assert Start(t) == (Some('('), s);
  }

  lemma {:induction false} TailReads(d: Value, rest: string)
    requires PlainTail(d) && Follows(rest)
    ensures Terminated(PrintTail(d) + rest) && ReadList(PrintTail(d) + rest) == Ok(d, rest)
    decreases d, 0
  {
    hide Read, ReadList, Terminated, Follows, Print;
    match d
    case Nil => CloseList(rest);
    case Cons(a, e) =>
      TailFollows(e, rest);
      PrintReads(a, PrintTail(e) + rest);
      TailReads(e, rest);
      PrintStarts(a);
      Opened(a, e, Print(a), PrintTail(e), rest);
  }

  lemma CloseList(rest: string)
    requires Follows(rest)
    ensures Terminated(")" + rest) && ReadList(")" + rest) == Ok(Nil, rest)
  {
    assert (")" + rest)[1..] == rest;
    assert Start(")" + rest) == (Some(')'), rest);
  }

  lemma LeadingBlank(s: string)
    requires Terminated(s) && s != ""
    ensures Terminated(" " + s) && ReadList(" " + s) == ReadList(s)
  {
    assert (" " + s)[1..] == s;
    assert SkipWS(" " + s) == SkipWS(s);
    assert Start(" " + s) == Start(s);
  }

  /** Printing a value on a line and reading the line gives an equal value, and the reader
      stands at the end of the line. */
  lemma ReadPrintRoundTrip(v: Value, more: string)
    requires Plain(v) && Terminated(more)
    ensures Terminated(Print(v) + "\n" + more) && Read(Print(v) + "\n" + more) == Ok(v, "\n" + more)
  {
    assert Print(v) + "\n" + more == Print(v) + ("\n" + more);
    PrintReads(v, "\n" + more);
  }

  /** A pair that is no list prints as a list with the symbol of a dot in it, and is read
      back as that list. */
  lemma DottedPairIsReadAsList(rest: string)
    requires Follows(rest)
    ensures var pair := Cons(Int(1), Int(2));
            var list := Cons(Int(1), Cons(Sym("."), Cons(Int(2), Nil)));
            Terminated(Print(pair) + rest) && Read(Print(pair) + rest) == Ok(list, rest) && list != pair
  {
    var pair := Cons(Int(1), Int(2));
    var tail := Cons(Int(2), Nil);
    var list := Cons(Int(1), Cons(Sym("."), tail));
    assert TrimFront(".") == "." && TrimBack(".") == ".";
    assert !IsDigit("."[0]);
    assert ToInt(".").None?;
    assert PrintTail(tail) == " " + Decimal(2) + ")";
    assert PrintTail(list.cdr) == " " + "." + (" " + Decimal(2) + ")");
    assert PrintTail(pair.cdr) == " " + ". " + Decimal(2) + ")";
    assert PrintTail(list.cdr) == PrintTail(pair.cdr);
    PrintReads(list, rest);
  }
}
