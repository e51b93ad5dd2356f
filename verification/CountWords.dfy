/** The counts in phrases such as "the last 25 days", in digits or in Chinese numerals. */
module CountWords {
  import opened Basics
  import opened SlotIds

  /** The table of single digits; both characters for two are in it. */
  function DigitOf(c: char): Option<nat> {
    if c == '零' then Some(0) else if c == '一' then Some(1)
    else if c == '两' || c == '二' then Some(2) else if c == '三' then Some(3)
    else if c == '四' then Some(4) else if c == '五' then Some(5)
    else if c == '六' then Some(6) else if c == '七' then Some(7)
    else if c == '八' then Some(8) else if c == '九' then Some(9) else None
  }

  /** `digits.get(word, 0)` */
  function DigitOrZero(word: string): nat {
    if |word| == 1 && DigitOf(word[0]).Some? then DigitOf(word[0]).value else 0
  }

  predicate AllDigits(s: string) {
    s != "" && forall i | 0 <= i < |s| :: '0' <= s[i] <= '9'
  }

  /** The position of the first '十', or the length. */
  function FirstTen(s: string): (p: nat)
    ensures p <= |s| && (p < |s| ==> s[p] == '十') && forall i | 0 <= i < p :: s[i] != '十'
  {
    if s == "" || s[0] == '十' then 0 else 1 + FirstTen(s[1..])
  }

  /** `parse_count`; None stands for the ValueError. */
  function ParseCount(value: string): Option<int> {
    var ten := FirstTen(value);
    if AllDigits(value) then Some(NumeralValue(value))
    else if value == "十" then Some(10)
    else if value != "" && value[0] == '十' then Some(10 + DigitOrZero(value[1..]))
    else if value != "" && value[|value| - 1] == '十' then Some(10 * DigitOrZero(value[..|value| - 1]))
    else if ten < |value| then Some(10 * DigitOrZero(value[..ten]) + DigitOrZero(value[ten + 1..]))
    else if |value| == 1 && DigitOf(value[0]).Some? then Some(DigitOf(value[0]).value)
    else None
  }

  // ---- decimal numerals ---------------------------------------------------------------------

  /** Numbers in digits are read as they are. */
  lemma ReadsNumerals(n: nat)
    ensures ParseCount(Numeral(n)) == Some(n)
  {
    NumeralRoundTrip(n);
  }

  // ---- Chinese numerals ------------------------------------------------------------------------

  predicate IsDigit(c: char) {
    DigitOf(c).Some?
  }

  /** A single digit; `None` stands for none being written. */
  type Digit = d: Option<char> | d.Some? ==> IsDigit(d.value) witness None

  /**
   The spellings of a number: a digit, tens with or without a digit on either side,
   or hundreds, with 零, a digit or tens behind them.  Both characters for two are
   allowed everywhere, and the one before the tens may be left out or not.
   */
  datatype Spelling =
    | Ones(digit: Digit)
    | Tens(tens: Digit, ones: Digit)
    | Hundreds(hundreds: Digit, zero: bool, rest: Spelling)
    | Nothing
  {
    /** A digit is written where one is needed, and only smaller numbers follow the hundreds. */
    predicate Valid() {
      match this
      case Ones(d) => d.Some?
      case Tens(_, _) => true
      case Hundreds(h, zero, rest) => h.Some? && ValueOf(h) > 0 && !rest.Hundreds? && rest.Valid() && (rest.Nothing? ==> !zero)
      case Nothing => true
    }

    function Text(): string {
      match this
      case Ones(d) => Written(d)
      case Tens(t, o) => Written(t) + (['十'] + Written(o))
      case Hundreds(h, zero, rest) => Written(h) + (['百'] + ((if zero then "零" else "") + rest.Text()))
      case Nothing => ""
    }

    /** The number that is meant; tens without a digit before them are ten. */
    function Meaning(): nat {
      match this
      case Ones(d) => ValueOf(d)
      case Tens(t, o) => 10 * (if t == None then 1 else ValueOf(t)) + ValueOf(o)
      case Hundreds(h, _, rest) => 100 * ValueOf(h) + rest.Meaning()
      case Nothing => 0
    }
  }

  function Written(d: Digit): string {
    match d case None => "" case Some(c) => [c]
  }

  function ValueOf(d: Digit): nat {
    match d case None => 0 case Some(c) => DigitOf(c).value
  }

  /** The numerals in order; the second writing of two follows the nine. */
  const NUMERALS: string := "零一二三四五六七八九两"

  /** Every single numeral is read as its number, both ways of writing two included, and no other character is a numeral. */
  lemma NumeralsAreRead(c: char, i: nat)
    requires i < |NUMERALS| && NUMERALS[i] == c
    ensures ParseCount([c]) == Some(if i == 10 then 2 else i)
    ensures forall d :: IsDigit(d) <==> d in NUMERALS
  {
    assert FirstTen([c]) == 1 by { FirstTenIs([c], 1); }
    assert NUMERALS[0] == '零' && NUMERALS[1] == '一' && NUMERALS[2] == '二' && NUMERALS[3] == '三' && NUMERALS[4] == '四';
    assert NUMERALS[5] == '五' && NUMERALS[6] == '六' && NUMERALS[7] == '七' && NUMERALS[8] == '八' && NUMERALS[9] == '九';
    assert NUMERALS[10] == '两';
  }

  lemma WrittenIsRead(d: Digit)
    ensures DigitOrZero(Written(d)) == ValueOf(d) && ValueOf(d) < 10
    ensures d.Some? ==> d.value !in {'十', '百'} && !('0' <= d.value <= '9')
  {
  }

  lemma FirstTenIs(s: string, p: nat)
    requires p <= |s| && (p < |s| ==> s[p] == '十') && forall i | 0 <= i < p :: s[i] != '十'
    ensures FirstTen(s) == p
  {
  }

  /** Every spelling of a number below one hundred is read as that number. */
  lemma ReadsBelowHundred(x: Spelling)
    requires x.Valid() && (x.Ones? || x.Tens?)
    ensures ParseCount(x.Text()) == Some(x.Meaning())
  {
    var w := x.Text();
    match x
    case Ones(d) =>
      WrittenIsRead(d);
      FirstTenIs(w, 1);
    case Tens(t, o) =>
      WrittenIsRead(t);
      WrittenIsRead(o);
      FirstTenIs(w, |Written(t)|);
      assert w[..|Written(t)|] == Written(t) && w[|Written(t)| + 1..] == Written(o);
      assert w != "十" || (t == None && o == None);
      if o == None {
        assert w[..|w| - 1] == Written(t);
      }
  }

  /** No text with a hundred in it is read as a hundred or more; what is read lies below. */
  lemma HundredsAreNeverRead(w: string, i: nat)
    requires i < |w| && w[i] == '百'
    ensures ParseCount(w) == None || ParseCount(w).value < 100
  {
    var ten := FirstTen(w);
    assert !AllDigits(w);
  }

  lemma HundredIsWritten(x: Spelling) returns (i: nat)
    requires x.Valid() && x.Hundreds?
    ensures i < |x.Text()| && x.Text()[i] == '百'
  {
    i := 1;
    assert |Written(x.hundreds)| == 1;
  }

  /** Of all spellings of numbers below one thousand, exactly those below one hundred are read correctly. */
  lemma ReadsExactlyBelowHundred(x: Spelling)
    requires x.Valid() && !x.Nothing?
    ensures ParseCount(x.Text()) == Some(x.Meaning()) <==> x.Meaning() < 100
  {
    if x.Hundreds? {
      var i := HundredIsWritten(x);
      HundredsAreNeverRead(x.Text(), i);
    } else {
      ReadsBelowHundred(x);
      if x.Tens? {
        WrittenIsRead(x.tens);
        WrittenIsRead(x.ones);
      } else {
        WrittenIsRead(x.digit);
      }
    }
  }

  /** One hundred is refused, and one hundred and twenty is read as nothing at all. */
  lemma MisreadsHundreds()
    ensures ParseCount("一百") == None && ParseCount("一百二十") == Some(0)
  {
    FirstTenIs("一百", 2);
    FirstTenIs("一百二十", 3);
    assert "一百二十"[..3] == "一百二";
  }
}
