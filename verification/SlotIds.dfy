/** The identifiers of SQL input slots: `input_7`, `input_7_start`, `input_7_end`. */
module SlotIds {
  import opened Basics

  datatype Part = Start | End

  function Digit(d: nat): char
    requires d < 10
  {
    ('0' as int + d) as char
  }

  /** The decimal numeral of `n`. */
  function Numeral(n: nat): (s: string)
    ensures s != "" && forall i | 0 <= i < |s| :: '0' <= s[i] <= '9'
  {
    if n < 10 then [Digit(n)] else Numeral(n / 10) + [Digit(n % 10)]
  }

  function NumeralValue(s: string): int {
    if s == "" then 0 else 10 * NumeralValue(s[..|s| - 1]) + (s[|s| - 1] as int - '0' as int)
  }

  lemma {:induction false} NumeralRoundTrip(n: nat)
    ensures NumeralValue(Numeral(n)) == n
  {
    if n >= 10 {
      NumeralRoundTrip(n / 10);
      assert Numeral(n)[..|Numeral(n)| - 1] == Numeral(n / 10);
    }
  }

  function Suffix(part: Option<Part>): string {
    match part
    case None => ""
    case Some(Start) => "_start"
    case Some(End) => "_end"
  }

  function SlotId(index: nat, part: Option<Part>): string {
    "input_" + Numeral(index) + Suffix(part)
  }

  /** A slot id determines its index and its part. */
  lemma SlotIdInjective(i: nat, p: Option<Part>, j: nat, q: Option<Part>)
    requires SlotId(i, p) == SlotId(j, q)
    ensures i == j && p == q
  {
    WithoutPrefix(i, p);
    WithoutPrefix(j, q);
    SplitAtUnderscore(i, p, j, q);
    NumeralRoundTrip(i);
    NumeralRoundTrip(j);
    SuffixInjective(p, q);
  }

  lemma WithoutPrefix(i: nat, p: Option<Part>)
    ensures SlotId(i, p)[6..] == Numeral(i) + Suffix(p)
  {
  }

  lemma SuffixInjective(p: Option<Part>, q: Option<Part>)
    requires Suffix(p) == Suffix(q)
    ensures p == q
  {
    assert |Suffix(p)| == |Suffix(q)|;
  }

  lemma SplitAtUnderscore(i: nat, p: Option<Part>, j: nat, q: Option<Part>)
    requires Numeral(i) + Suffix(p) == Numeral(j) + Suffix(q)
    ensures Numeral(i) == Numeral(j) && Suffix(p) == Suffix(q)
  {
    var x, y := Numeral(i) + Suffix(p), Numeral(j) + Suffix(q);
    UnderscoreEndsNumeral(i, p);
    UnderscoreEndsNumeral(j, q);
    assert |Numeral(i)| == |Numeral(j)|;
    assert Numeral(i) == x[..|Numeral(i)|] && Numeral(j) == y[..|Numeral(j)|];
    assert Suffix(p) == x[|Numeral(i)|..] && Suffix(q) == y[|Numeral(j)|..];
  }

  /** The first underscore after the digits, if any, starts the suffix. */
  lemma UnderscoreEndsNumeral(i: nat, p: Option<Part>)
    ensures var x := Numeral(i) + Suffix(p);
            && (forall k | 0 <= k < |Numeral(i)| :: x[k] != '_')
            && (|Numeral(i)| < |x| ==> x[|Numeral(i)|] == '_')
  {
  }

  predicate IdentStart(c: char) {
    'A' <= c <= 'Z' || 'a' <= c <= 'z' || c == '_'
  }

  predicate IdentChar(c: char) {
    IdentStart(c) || '0' <= c <= '9'
  }

  predicate IsIdentifier(s: string) {
    s != "" && IdentStart(s[0]) && forall i | 0 <= i < |s| :: IdentChar(s[i])
  }

  lemma SlotIdIsIdentifier(i: nat, p: Option<Part>)
    ensures IsIdentifier(SlotId(i, p))
  {
    var s := SlotId(i, p);
    forall k | 0 <= k < |s| ensures IdentChar(s[k]) {
      if k < 6 {
        assert s[k] == "input_"[k];
      } else if k < 6 + |Numeral(i)| {
        assert s[k] == Numeral(i)[k - 6];
      } else {
        assert s[k] == Suffix(p)[k - 6 - |Numeral(i)|];
      }
    }
  }
}
