/**
 Printing SQL literals, and the validator's scan for string literals.  The scan
 reads back exactly the strings that were printed, quotes and all (character
 string literals, section 5.3 of ISO/IEC 9075-2).
 */
module SqlLiteral {
  import opened Basics

  const QUOTE: char := '\''

  /** A value of a query plan; `Number` carries the text that `str` gives. */
  datatype Value = Null | Bool(b: bool) | Number(text: string) | Text(text: string) | List(items: seq<Value>)

  predicate QuoteFree(s: string) {
    forall i | 0 <= i < |s| :: s[i] != QUOTE
  }

  /** `replace("'", "''")` */
  function Escape(s: string): string {
    if s == "" then ""
    else (if s[0] == QUOTE then [QUOTE, QUOTE] else [s[0]]) + Escape(s[1..])
  }

  /** `replace("''", "'")`, left to right. */
  function Unescape(s: string): string {
    if s == "" then ""
    else if |s| > 1 && s[0] == QUOTE && s[1] == QUOTE then [QUOTE] + Unescape(s[2..])
    else [s[0]] + Unescape(s[1..])
  }

  /** `literal` */
  function Print(v: Value): string {
    match v
    case Null => "NULL"
    case Bool(b) => if b then "TRUE" else "FALSE"
    case Number(text) => text
    case Text(text) => Quoted(text)
    case List(items) => "(" + (PrintItems(items) + ")")
  }

  function Quoted(text: string): string {
    [QUOTE] + (Escape(text) + [QUOTE])
  }

  function PrintItems(items: seq<Value>): string {
    if items == [] then ""
    else if |items| == 1 then Print(items[0])
    else Print(items[0]) + (", " + PrintItems(items[1..]))
  }

  /**
   Where the pattern '((?:''|[^'])*)' closes, if it opened just before `s`.  Pairs
   of quotes are taken whole; if no closing quote follows, the match backtracks to
   the first quote of the last pair.
   */
  function Closing(s: string): (c: Option<nat>)
    ensures c.Some? ==> c.value < |s| && s[c.value] == QUOTE
  {
    if s == "" then None
    else if s[0] != QUOTE then
      match Closing(s[1..]) case Some(c) => Some(c + 1) case None => None
    else if |s| > 1 && s[1] == QUOTE then
      match Closing(s[2..]) case Some(c) => Some(c + 2) case None => Some(0)
    else Some(0)
  }

  /** All string literals of the text, left to right, unescaped. */
  function Scan(s: string): seq<string>
    decreases |s|
  {
    if s == "" then []
    else if s[0] != QUOTE then Scan(s[1..])
    else match Closing(s[1..])
         case Some(c) => [Unescape(s[1..][..c])] + Scan(s[1..][c + 1..])
         case None => Scan(s[1..])
  }

  /** The strings inside a value, in order. */
  function Strings(v: Value): seq<string> {
    match v
    case Text(text) => [text]
    case List(items) => StringsOf(items)
    case _ => []
  }

  function StringsOf(items: seq<Value>): seq<string> {
    if items == [] then [] else Strings(items[0]) + StringsOf(items[1..])
  }

  /** Numbers print as something, without quotes. */
  predicate PlainNumbers(v: Value) {
    match v
    case Number(text) => text != "" && QuoteFree(text)
    case List(items) => AllPlain(items)
    case _ => true
  }

  predicate AllPlain(items: seq<Value>) {
    items == [] || (PlainNumbers(items[0]) && AllPlain(items[1..]))
  }

  // ---- one literal ------------------------------------------------------------------------

  lemma {:induction false} UnescapeEscape(s: string)
    ensures Unescape(Escape(s)) == s
  {
    if s != "" {
      UnescapeEscape(s[1..]);
      var e := Escape(s);
      if s[0] == QUOTE {
        assert e[2..] == Escape(s[1..]);
      } else {
        assert e[1..] == Escape(s[1..]);
      }
    }
  }

  /** Nothing follows, or something that is not a quote. */
  predicate NoQuote(rest: string) {
    rest == "" || rest[0] != QUOTE
  }

  /** Behind an escaped text the closing quote is the one that ends it, if no quote follows that. */
  lemma {:induction false} ClosingOfEscaped(text: string, rest: string)
    requires NoQuote(rest)
    ensures Closing(Escape(text) + ([QUOTE] + rest)) == Some(|Escape(text)|)
  {
    var end := [QUOTE] + rest;
    var s := Escape(text) + end;
    if text == "" {
      assert s == end;
    } else {
      var behind := Escape(text[1..]) + end;
      ClosingOfEscaped(text[1..], rest);
      if text[0] == QUOTE {
        assert s[0] == s[1] == QUOTE && s[2..] == behind;
      } else {
        assert s[0] == text[0] && s[1..] == behind;
      }
    }
  }

  /** A printed text in front of anything but a quote is scanned as that text. */
  lemma ScanText(text: string, rest: string)
    requires NoQuote(rest)
    ensures Scan(Quoted(text) + rest) == [text] + Scan(rest)
  {
    var e, s := Escape(text), Quoted(text) + rest;
    var behind := e + ([QUOTE] + rest);
    assert s[0] == QUOTE && s[1..] == behind;
    ClosingOfEscaped(text, rest);
    assert behind[..|e|] == e && behind[|e| + 1..] == rest;
    UnescapeEscape(text);
  }

  /** Quote-free text is skipped. */
  lemma {:induction false} ScanPlain(p: string, rest: string)
    requires QuoteFree(p)
    ensures Scan(p + rest) == Scan(rest)
  {
    if p == "" {
      assert p + rest == rest;
    } else {
      assert (p + rest)[0] == p[0] && (p + rest)[1..] == p[1..] + rest;
      ScanPlain(p[1..], rest);
    }
  }

  // ---- any value --------------------------------------------------------------------------

  lemma Regroup(a: string, b: string, c: string)
    ensures a + (b + c) == (a + b) + c
  {
  }

  lemma Rejoin(a: seq<string>, b: seq<string>, c: seq<string>)
    ensures a + (b + c) == (a + b) + c
  {
  }

  /** Any printed value is scanned as its strings, in order; only a text must not be followed by a quote. */
  lemma {:induction false} ScanValue(v: Value, rest: string)
    requires PlainNumbers(v) && (v.Text? ==> NoQuote(rest))
    ensures Scan(Print(v) + rest) == Strings(v) + Scan(rest)
    decreases v, 1
  {
    match v
    case Text(text) => ScanText(text, rest);
    case List(items) =>
      var inner := PrintItems(items);
      assert Print(v) + rest == "(" + (inner + (")" + rest));
      ScanPlain("(", inner + (")" + rest));
      ScanItems(items, ")" + rest);
      ScanPlain(")", rest);
    case _ => ScanPlain(Print(v), rest);
  }

  lemma {:induction false} ScanItems(items: seq<Value>, rest: string)
    requires AllPlain(items) && NoQuote(rest)
    ensures Scan(PrintItems(items) + rest) == StringsOf(items) + Scan(rest)
    decreases items, 0
  {
    if items == [] {
      assert PrintItems(items) + rest == rest;
    } else if |items| == 1 {
      ScanValue(items[0], rest);
      assert StringsOf(items) == Strings(items[0]) + [];
    } else {
      var behind := PrintItems(items[1..]) + rest;
      Regroup(Print(items[0]), ", " + PrintItems(items[1..]), rest);
      Regroup(", ", PrintItems(items[1..]), rest);
      ScanValue(items[0], ", " + behind);
      ScanPlain(", ", behind);
      ScanItems(items[1..], rest);
      Rejoin(Strings(items[0]), StringsOf(items[1..]), Scan(rest));
    }
  }

  /** The scan of a printed value on its own gives its strings back. */
  lemma PrintScanRoundTrip(v: Value)
    requires PlainNumbers(v)
    ensures Scan(Print(v)) == Strings(v)
  {
    ScanValue(v, "");
    assert Print(v) + "" == Print(v);
  }

  // ---- values inside SQL text ----------------------------------------------------------------

  /** SQL text with printed values between pieces of text. */
  function Interleave(texts: seq<string>, values: seq<Value>): string
    requires |texts| == |values| + 1
  {
    if values == [] then texts[0] else texts[0] + (Print(values[0]) + Interleave(texts[1..], values[1..]))
  }

  /** Quote-free texts around any values. */
  predicate Surround(texts: seq<string>, values: seq<Value>) {
    && |texts| == |values| + 1 && AllPlain(values)
    && forall k | 0 <= k < |texts| :: QuoteFree(texts[k])
  }

  /** Two texts with nothing between them. */
  predicate GluedAt(texts: seq<string>, values: seq<Value>, k: nat)
    requires |texts| == |values| + 1 && k + 1 < |values|
  {
    values[k].Text? && values[k + 1].Text? && texts[k + 1] == ""
  }

  function Glued(texts: seq<string>, values: seq<Value>): nat
    requires |texts| == |values| + 1
  {
    if |values| < 2 then 0
    else (if GluedAt(texts, values, 0) then 1 else 0) + Glued(texts[1..], values[1..])
  }

  lemma {:induction false} NoneGlued(texts: seq<string>, values: seq<Value>)
    requires |texts| == |values| + 1
    ensures Glued(texts, values) == 0 <==> forall k | 0 <= k && k + 1 < |values| :: !GluedAt(texts, values, k)
  {
    if |values| >= 2 {
      var ts, vs := texts[1..], values[1..];
      NoneGlued(ts, vs);
      forall k | 0 < k && k + 1 < |values| ensures GluedAt(texts, values, k) == GluedAt(ts, vs, k - 1) {
      }
      forall k | 0 <= k && k + 1 < |vs| ensures GluedAt(ts, vs, k) == GluedAt(texts, values, k + 1) {
      }
    }
  }

  /** What follows a text that is not glued to the next does not start with a quote. */
  lemma NotGluedMeansNoQuote(texts: seq<string>, values: seq<Value>)
    requires values != [] && Surround(texts, values) && values[0].Text? && (|values| > 1 ==> !GluedAt(texts, values, 0))
    ensures NoQuote(Interleave(texts[1..], values[1..]))
  {
    if |values| > 1 && texts[1] == "" {
      assert AllPlain(values[1..]) && values[1..][0] == values[1];
      assert PlainNumbers(values[1]) && !values[1].Text?;
      assert Print(values[1]) != "" && Print(values[1])[0] != QUOTE;
      assert Interleave(texts[1..], values[1..])[0] == Print(values[1])[0];
    }
  }

  /** Two glued texts are the same SQL as one text with a quote in the middle. */
  lemma GluedTextsMerge(a: string, b: string)
    ensures Quoted(a) + Quoted(b) == Quoted(a + [QUOTE] + b)
  {
    EscapeSplits(a + [QUOTE], b);
    EscapeSplits(a, [QUOTE]);
    assert Escape([QUOTE]) == [QUOTE, QUOTE] + Escape("");
  }

  lemma {:induction false} EscapeSplits(a: string, b: string)
    ensures Escape(a + b) == Escape(a) + Escape(b)
  {
    if a == "" {
      assert a + b == b;
    } else {
      assert (a + b)[0] == a[0] && (a + b)[1..] == a[1..] + b;
      EscapeSplits(a[1..], b);
    }
  }

  /** One text in the place of the first two. */
  function MergeTwo(values: seq<Value>): seq<Value>
    requires |values| > 1 && values[0].Text? && values[1].Text?
  {
    [Text(values[0].text + [QUOTE] + values[1].text)] + values[2..]
  }

  lemma MergedSql(texts: seq<string>, values: seq<Value>)
    requires Surround(texts, values) && |values| > 1 && GluedAt(texts, values, 0)
    ensures Interleave([texts[0]] + texts[2..], MergeTwo(values)) == Interleave(texts, values)
  {
    var a, b, rest := values[0].text, values[1].text, Interleave(texts[2..], values[2..]);
    var ts, vs := [texts[0]] + texts[2..], MergeTwo(values);
    assert vs[1..] == values[2..] && ts[1..] == texts[2..];
    assert values[1..][1..] == values[2..] && texts[1..][1..] == texts[2..];
    assert Interleave(texts[1..], values[1..]) == Quoted(b) + rest;
    GluedTextsMerge(a, b);
    Regroup(Quoted(a), Quoted(b), rest);
  }

  lemma MergedCount(texts: seq<string>, values: seq<Value>)
    requires |texts| == |values| + 1 && |values| > 1 && GluedAt(texts, values, 0)
    ensures Glued([texts[0]] + texts[2..], MergeTwo(values)) + 1 == Glued(texts, values)
  {
    var ts, vs := [texts[0]] + texts[2..], MergeTwo(values);
    assert vs[1..] == values[2..] && ts[1..] == texts[2..];
    if |values| > 2 {
      assert values[1..][1..] == values[2..] && texts[1..][1..] == texts[2..];
      assert GluedAt(texts[1..], values[1..], 0) == GluedAt(ts, vs, 0);
    }
  }

  lemma MergedStrings(values: seq<Value>)
    requires |values| > 1 && values[0].Text? && values[1].Text? && AllPlain(values)
    ensures |StringsOf(MergeTwo(values))| + 1 == |StringsOf(values)| && AllPlain(MergeTwo(values))
  {
    assert MergeTwo(values)[1..] == values[2..] == values[1..][1..];
    assert AllPlain(values[1..]) && values[1..][0] == values[1];
    assert StringsOf(values) == [values[0].text] + StringsOf(values[1..]);
    assert StringsOf(values[1..]) == [values[1].text] + StringsOf(values[2..]);
  }

  /** Each pair of glued texts costs the scan one string; without any it returns exactly what was printed. */
  lemma {:induction false} ScanInterleaved(texts: seq<string>, values: seq<Value>)
    requires Surround(texts, values)
    ensures |Scan(Interleave(texts, values))| + Glued(texts, values) == |StringsOf(values)|
    ensures Glued(texts, values) == 0 ==> Scan(Interleave(texts, values)) == StringsOf(values)
    decreases |values|
  {
    if values == [] {
      ScanPlain(texts[0], "");
      assert texts[0] + "" == texts[0];
    } else if |values| > 1 && GluedAt(texts, values, 0) {
      MergedSql(texts, values);
      MergedCount(texts, values);
      MergedStrings(values);
      ScanInterleaved([texts[0]] + texts[2..], MergeTwo(values));
    } else {
      var rest := Interleave(texts[1..], values[1..]);
      ScanPlain(texts[0], Print(values[0]) + rest);
      if values[0].Text? {
        NotGluedMeansNoQuote(texts, values);
      }
      ScanValue(values[0], rest);
      ScanInterleaved(texts[1..], values[1..]);
    }
  }

  /** The scan returns exactly the printed strings if and only if no two texts stand side by side. */
  lemma InterleavedRoundTrip(texts: seq<string>, values: seq<Value>)
    requires Surround(texts, values)
    ensures Scan(Interleave(texts, values)) == StringsOf(values)
            <==> forall k | 0 <= k && k + 1 < |values| :: !GluedAt(texts, values, k)
  {
    ScanInterleaved(texts, values);
    NoneGlued(texts, values);
  }

  /** Two texts printed side by side are scanned as one. */
  lemma AdjacentTextsMerge(a: string, b: string)
    ensures Scan(Print(Text(a)) + Print(Text(b))) == [a + [QUOTE] + b]
  {
    GluedTextsMerge(a, b);
    PrintScanRoundTrip(Text(a + [QUOTE] + b));
  }
}
