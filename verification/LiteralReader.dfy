/** A reader of SQL literals, to show that a printed literal says exactly which value it was printed from. */
module LiteralReader {
  import opened Basics
  import opened SqlLiteral

  predicate NumberChar(c: char) {
    '0' <= c <= '9' || c == '-' || c == '+' || c == '.' || c == 'e'
  }

  /** The length of the number that `s` starts with. */
  function NumberLength(s: string): (n: nat)
    ensures n <= |s|
  {
    if s != "" && NumberChar(s[0]) then 1 + NumberLength(s[1..]) else 0
  }

  /** A value and what follows it. */
  datatype Reading = Reading(value: Value, rest: string)

  datatype Items = Items(values: seq<Value>, rest: string)

  /** The keyword, if `s` starts with it. */
  function Keyword(s: string, word: string, value: Value): Option<Reading> {
    if word <= s then Some(Reading(value, s[|word|..])) else None
  }

  /** The first value of `s`. */
  function Read(s: string): (r: Option<Reading>)
    ensures r.Some? ==> |r.value.rest| < |s|
    decreases |s|, 0
  {
    if s == "" then None
    else if s[0] == QUOTE then
      match Closing(s[1..]) case None => None case Some(c) => Some(Reading(Text(Unescape(s[1..][..c])), s[1..][c + 1..]))
    else if s[0] == '(' then
      match ReadItems(s[1..]) case None => None case Some(read) => Some(Reading(List(read.values), read.rest))
    else if NumberChar(s[0]) then Some(Reading(Number(s[..NumberLength(s)]), s[NumberLength(s)..]))
    else if s[0] == 'N' then Keyword(s, "NULL", Null)
    else if s[0] == 'T' then Keyword(s, "TRUE", Bool(true))
    else if s[0] == 'F' then Keyword(s, "FALSE", Bool(false))
    else None
  }

  /** The items of a list up to the parenthesis that closes it. */
  function ReadItems(s: string): (r: Option<Items>)
    ensures r.Some? ==> |r.value.rest| < |s|
    decreases |s|, 2
  {
    if s != "" && s[0] == ')' then Some(Items([], s[1..])) else ReadMore(s)
  }

  function ReadMore(s: string): (r: Option<Items>)
    ensures r.Some? ==> |r.value.rest| < |s|
    decreases |s|, 1
  {
    match Read(s)
    case None => None
    case Some(first) =>
      if first.rest != "" && first.rest[0] == ')' then Some(Items([first.value], first.rest[1..]))
      else if |first.rest| > 2 && first.rest[0] == ',' && first.rest[1] == ' ' then
        match ReadMore(first.rest[2..]) case None => None case Some(more) => Some(Items([first.value] + more.values, more.rest))
      else None
  }

  /** Numbers are written in digits, with sign, point and exponent. */
  predicate Readable(v: Value) {
    match v
    case Number(text) => text != "" && forall i | 0 <= i < |text| :: NumberChar(text[i])
    case List(items) => forall i | 0 <= i < |items| :: Readable(items[i])
    case _ => true
  }

  /** What may follow a value: nothing, the next item, or the end of a list. */
  predicate Delimits(rest: string) {
    rest == "" || rest[0] == ',' || rest[0] == ')'
  }

  lemma {:induction false} NumberLengthIs(text: string, rest: string)
    requires (forall i | 0 <= i < |text| :: NumberChar(text[i])) && Delimits(rest)
    ensures NumberLength(text + rest) == |text|
  {
    if text == "" {
      assert text + rest == rest;
    } else {
      assert (text + rest)[0] == text[0] && (text + rest)[1..] == text[1..] + rest;
      NumberLengthIs(text[1..], rest);
    }
  }

  lemma Halves(a: string, b: string)
    ensures (a + b)[..|a|] == a && (a + b)[|a|..] == b && a <= a + b
  {
  }

  lemma ReadText(text: string, rest: string)
    requires Delimits(rest)
    ensures Read(Quoted(text) + rest) == Some(Reading(Text(text), rest))
  {
    var e, s := Escape(text), Quoted(text) + rest;
    var behind := e + ([QUOTE] + rest);
    assert s[0] == QUOTE && s[1..] == behind;
    ClosingOfEscaped(text, rest);
    assert behind[..|e|] == e && behind[|e| + 1..] == rest;
    UnescapeEscape(text);
  }

  lemma ReadKeyword(word: string, rest: string, value: Value)
    requires (word == "NULL" && value == Null) || (word == "TRUE" && value == Bool(true)) || (word == "FALSE" && value == Bool(false))
    ensures Read(word + rest) == Some(Reading(value, rest))
  {
    Halves(word, rest);
    assert (word + rest)[0] == word[0];
  }

  lemma ReadNumber(text: string, rest: string)
    requires Readable(Number(text)) && Delimits(rest)
    ensures Read(text + rest) == Some(Reading(Number(text), rest))
  {
    NumberLengthIs(text, rest);
    Halves(text, rest);
    assert (text + rest)[0] == text[0];
  }

  /** Reading a printed value gives the value back, at every depth. */
  lemma {:induction false} ReadPrinted(v: Value, rest: string)
    requires Readable(v) && Delimits(rest)
    ensures Read(Print(v) + rest) == Some(Reading(v, rest))
    decreases v, 1
  {
    match v
    case Null => ReadKeyword("NULL", rest, v);
    case Bool(b) => ReadKeyword(if b then "TRUE" else "FALSE", rest, v);
    case Number(text) => ReadNumber(text, rest);
    case Text(text) => ReadText(text, rest);
    case List(items) =>
      var s := Print(v) + rest;
      assert s == "(" + (PrintItems(items) + (")" + rest));
      assert s[0] == '(' && s[1..] == PrintItems(items) + (")" + rest);
      if items == [] {
        assert PrintItems(items) + (")" + rest) == ")" + rest;
      } else {
        ReadPrintedItems(items, rest);
        StartsOtherwise(items, ")" + rest);
      }
  }

  /** Printed items do not start with a closing parenthesis. */
  lemma StartsOtherwise(items: seq<Value>, rest: string)
    requires items != [] && Readable(items[0])
    ensures PrintItems(items) + rest != "" && (PrintItems(items) + rest)[0] != ')'
  {
    assert Print(items[0]) != "" && Print(items[0])[0] != ')';
    assert PrintItems(items)[0] == Print(items[0])[0];
  }

  lemma {:induction false} ReadPrintedItems(items: seq<Value>, rest: string)
    requires items != [] && forall i | 0 <= i < |items| :: Readable(items[i])
    ensures ReadMore(PrintItems(items) + (")" + rest)) == Some(Items(items, rest))
    decreases items, 0
  {
    var behind := ")" + rest;
    if |items| == 1 {
      ReadPrinted(items[0], behind);
      assert behind[1..] == rest && [items[0]] == items;
    } else {
      var more := PrintItems(items[1..]) + behind;
      Regroup(Print(items[0]), ", " + PrintItems(items[1..]), behind);
      Regroup(", ", PrintItems(items[1..]), behind);
      ReadPrinted(items[0], ", " + more);
      StartsOtherwise(items[1..], behind);
      assert (", " + more)[0] == ',' && (", " + more)[1] == ' ' && (", " + more)[2..] == more;
      ReadPrintedItems(items[1..], rest);
      assert [items[0]] + items[1..] == items;
    }
  }

  /** So two values print alike if and only if they are the same value. */
  lemma PrintIsInjective(v: Value, w: Value)
    requires Readable(v) && Readable(w)
    ensures Print(v) == Print(w) <==> v == w
  {
    ReadPrinted(v, "");
    ReadPrinted(w, "");
    assert Print(v) + "" == Print(v) && Print(w) + "" == Print(w);
  }
}
