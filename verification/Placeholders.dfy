/** The placeholders of a SQL text and the check that they are exactly the bound names. */
module Placeholders {
  import opened Basics
  import opened SlotIds

  /** The length of the identifier characters that `s` starts with. */
  function IdentLength(s: string): (n: nat)
    ensures n <= |s| && (n < |s| ==> !IdentChar(s[n])) && forall k | 0 <= k < n :: IdentChar(s[k])
  {
    if s != "" && IdentChar(s[0]) then 1 + IdentLength(s[1..]) else 0
  }

  /** All matches of the placeholder pattern, left to right: a colon that no colon precedes and an identifier follows. */
  function Scan(s: string, afterColon: bool): seq<string>
    decreases |s|
  {
    if s == "" then []
    else if s[0] == ':' && !afterColon && |s| > 1 && IdentStart(s[1]) then
      var n := IdentLength(s[1..]);
      [s[1..][..n]] + Scan(s[1..][n..], false)
    else Scan(s[1..], s[0] == ':')
  }

  function PlaceholdersOf(sql: string): set<string> {
    set p | p in Scan(sql, false)
  }

  datatype BindingReport = BindingReport(missing: set<string>, unused: set<string>)

  /** The two set checks of the validator: placeholders without a value, and values without a placeholder. */
  function CheckBindings(sql: string, bound: set<string>): BindingReport {
    BindingReport(PlaceholdersOf(sql) - bound, bound - PlaceholdersOf(sql))
  }

  /** Missing is what the text asks for and nobody binds, unused what is bound and the text does not ask for. */
  lemma ReportNamesBothSides(sql: string, bound: set<string>, p: string)
    ensures p in CheckBindings(sql, bound).missing <==> (p in Scan(sql, false) && p !in bound)
    ensures p in CheckBindings(sql, bound).unused <==> (p !in Scan(sql, false) && p in bound)
  {
  }

  predicate Accepted(report: BindingReport) {
    report.missing == {} && report.unused == {}
  }

  lemma AcceptedIffEqual(sql: string, bound: set<string>)
    ensures Accepted(CheckBindings(sql, bound)) <==> PlaceholdersOf(sql) == bound
  {
    if Accepted(CheckBindings(sql, bound)) {
      assert forall p | p in PlaceholdersOf(sql) :: p in bound;
      assert forall p | p in bound :: p in PlaceholdersOf(sql);
    }
  }

  // ---- SQL written from pieces is scanned back into its slots ------------------------------

  /** Plain text, a `::type` cast, or a placeholder. */
  datatype Piece = Raw(text: string) | Cast(text: string) | Slot(id: string)

  function Text(p: Piece): string {
    match p case Raw(text) => text case Cast(text) => "::" + text case Slot(id) => ":" + id
  }

  function Render(ps: seq<Piece>): string {
    if ps == [] then ""
    else Text(ps[0]) + Render(ps[1..])
  }

  function IdsOf(ps: seq<Piece>): seq<string> {
    if ps == [] then []
    else (if ps[0].Slot? then [ps[0].id] else []) + IdsOf(ps[1..])
  }

  /** A letter or an underscore, which is what a placeholder begins with. */
  predicate BeginsName(c: char) {
    'a' <= c <= 'z' || 'A' <= c <= 'Z' || c == '_'
  }

  /** Every colon is followed by something that begins no name and is no colon, as in a time of day. */
  predicate Harmless(s: string) {
    s != "" ==> (s[0] == ':' ==> |s| > 1 && s[1] != ':' && !BeginsName(s[1])) && Harmless(s[1..])
  }

  /** What goes into a placeholder as a whole: a name of letters, digits and underscores. */
  predicate IsName(id: string) {
    id != "" && BeginsName(id[0]) && forall i | 0 <= i < |id| :: BeginsName(id[i]) || '0' <= id[i] <= '9'
  }

  /** Texts are not empty and their colons harmless, slots are names and end where their placeholder ends. */
  predicate WellPunctuated(ps: seq<Piece>) {
    ps != [] ==>
    && (if ps[0].Slot? then IsName(ps[0].id) else ps[0].text != "" && Harmless(ps[0].text))
    && (ps[0].Cast? ==> ps[0].text[0] != ':')
    && (ps[0].Slot? && |ps| > 1 && ps[1].Raw? && ps[1].text != "" ==> !BeginsName(ps[1].text[0]) && !('0' <= ps[1].text[0] <= '9'))
    && WellPunctuated(ps[1..])
  }

  /** Text with harmless colons is skipped, whatever stands before it. */
  lemma {:induction false} ScanPlain(p: string, rest: string, afterColon: bool)
    requires p != "" && Harmless(p)
    ensures Scan(p + rest, afterColon) == Scan(rest, false)
  {
    assert (p + rest)[0] == p[0] && (p + rest)[1..] == p[1..] + rest;
    if |p| > 1 {
      assert (p + rest)[1] == p[1];
      ScanPlain(p[1..], rest, p[0] == ':');
    } else {
      assert p[1..] + rest == rest;
    }
  }

  /** The two colons of a cast are skipped with its text. */
  lemma ScanCast(p: string, rest: string)
    requires p != "" && Harmless(p)
    ensures Scan(Text(Cast(p)) + rest, false) == Scan(rest, false)
  {
    var s, behind := Text(Cast(p)) + rest, ":" + (p + rest);
    assert s[0] == s[1] == ':' && s[1..] == behind;
    assert behind[0] == ':' && behind[1..] == p + rest;
    ScanPlain(p, rest, true);
  }

  lemma {:induction false} IdentLengthIs(id: string, rest: string)
    requires (forall k | 0 <= k < |id| :: IdentChar(id[k])) && (rest != "" ==> !IdentChar(rest[0]))
    ensures IdentLength(id + rest) == |id|
  {
    if id == "" {
      assert id + rest == rest;
    } else {
      assert (id + rest)[0] == id[0] && (id + rest)[1..] == id[1..] + rest;
      IdentLengthIs(id[1..], rest);
    }
  }

  /** An identifier behind a colon is a match, and the scan goes on behind it. */
  lemma ScanMatch(s: string, id: string, rest: string)
    requires |s| > 1 && s[0] == ':' && IdentStart(s[1])
    requires s[1..] == id + rest && IdentLength(s[1..]) == |id|
    ensures Scan(s, false) == [id] + Scan(rest, false)
  {
    assert s[1..][..|id|] == id && s[1..][|id|..] == rest;
  }

  lemma BehindTheColon(id: string, rest: string)
    requires id != ""
    ensures (":" + id + rest)[0] == ':' && (":" + id + rest)[1] == id[0] && (":" + id + rest)[1..] == id + rest
  {
  }

  /** A slot that ends where its identifier ends is scanned as itself. */
  lemma ScanSlot(id: string, rest: string)
    requires IsIdentifier(id) && (rest != "" ==> !IdentChar(rest[0]))
    ensures Scan(Text(Slot(id)) + rest, false) == [id] + Scan(rest, false)
  {
    BehindTheColon(id, rest);
    IdentLengthIs(id, rest);
    ScanMatch(":" + id + rest, id, rest);
  }

  lemma NextIsNoIdentChar(ps: seq<Piece>)
    requires ps != [] && ps[0].Slot? && WellPunctuated(ps)
    ensures Render(ps[1..]) != "" ==> !IdentChar(Render(ps[1..])[0])
  {
    if |ps| > 1 {
      assert WellPunctuated(ps[1..]) && ps[1..][0] == ps[1];
      assert Text(ps[1]) != "" && Render(ps[1..])[0] == Text(ps[1])[0];
    }
  }

  lemma {:induction false} ScanRendered(ps: seq<Piece>)
    requires WellPunctuated(ps)
    ensures Scan(Render(ps), false) == IdsOf(ps)
  {
    if ps != [] {
      var rest := Render(ps[1..]);
      ScanRendered(ps[1..]);
      match ps[0]
      case Raw(text) => ScanPlain(text, rest, false);
      case Cast(text) => ScanCast(text, rest);
      case Slot(id) =>
        NextIsNoIdentChar(ps);
        ScanSlot(id, rest);
    }
  }

  /** Scanning is the inverse of writing, casts and all. */
  lemma RenderedPlaceholders(ps: seq<Piece>)
    requires WellPunctuated(ps)
    ensures Scan(Render(ps), false) == IdsOf(ps)
    ensures PlaceholdersOf(Render(ps)) == set p | p in IdsOf(ps)
  {
    ScanRendered(ps);
  }
}
