/** Splitting the body of a CREATE TABLE statement at its top-level commas. */
module ColumnSplitter {
  import opened Basics

  function Delta(c: char): int {
    if c == '(' then 1 else if c == ')' then -1 else 0
  }

  /** Opening minus closing parentheses; it may become negative. */
  function Balance(s: string): int {
    if s == "" then 0 else Balance(s[..|s| - 1]) + Delta(s[|s| - 1])
  }

  /** Is position `i` of `s` a comma outside all parentheses? */
  predicate TopComma(s: string, i: nat)
    requires i < |s|
  {
    s[i] == ',' && Balance(s[..i]) == 0
  }

  /** No comma of the text stands outside all parentheses. */
  predicate TopFree(s: string) {
    s == "" || (TopFree(s[..|s| - 1]) && !TopComma(s, |s| - 1))
  }

  /** The parts that are complete, and the one that is growing. */
  datatype Parts = Parts(complete: seq<string>, current: string)

  /** Reading one more character. */
  function Read(p: Parts, c: char): Parts {
    if c == ',' && Balance(p.current) == 0 then Parts(p.complete + [p.current], "")
    else Parts(p.complete, p.current + [c])
  }

  function PartsOf(s: string): Parts {
    if s == "" then Parts([], "") else Read(PartsOf(s[..|s| - 1]), s[|s| - 1])
  }

  /** The parts between top-level commas; nothing follows a final comma. */
  function Split(body: string): seq<string> {
    var p := PartsOf(body);
    if p.current == "" then p.complete else p.complete + [p.current]
  }

  lemma BalanceGrows(s: string, c: char)
    ensures Balance(s + [c]) == Balance(s) + Delta(c)
  {
    assert (s + [c])[..|s|] == s;
  }

  /** `_split_column_definitions` */
  method SplitColumnDefinitions(body: string) returns (parts: seq<string>)
    ensures parts == Split(body)
  {
    parts := [];
    var depth := 0;
    var current := "";
    for i := 0 to |body|
      invariant Parts(parts, current) == PartsOf(body[..i]) && depth == Balance(current)
    {
      assert body[..i + 1][..i] == body[..i];
      var c := body[i];
      BalanceGrows(current, c);
      if c == ',' && depth == 0 {
        parts := parts + [current];
        current := "";
        continue;
      }
      if c == '(' {
        depth := depth + 1;
      } else if c == ')' {
        depth := depth - 1;
      }
      current := current + [c];
    }
    assert body[..|body|] == body;
    if current != "" {
      parts := parts + [current];
    }
  }

  // ---- what top-level means ------------------------------------------------------------------

  function Count(s: string, c: char): nat {
    if s == "" then 0 else Count(s[..|s| - 1], c) + if s[|s| - 1] == c then 1 else 0
  }

  /** The depth is the number of opening parentheses less that of closing ones. */
  lemma {:induction false} DepthIsOpenLessClosed(s: string)
    ensures Balance(s) == Count(s, '(') - Count(s, ')')
  {
    if s != "" {
      DepthIsOpenLessClosed(s[..|s| - 1]);
    }
  }

  /** `TopFree` says what it should, at every position. */
  lemma {:induction false} TopFreeMeansNoTopComma(s: string)
    ensures TopFree(s) <==> forall i | 0 <= i < |s| :: !TopComma(s, i)
  {
    if s != "" {
      var init := s[..|s| - 1];
      TopFreeMeansNoTopComma(init);
      forall i | 0 <= i < |init| ensures TopComma(init, i) == TopComma(s, i) {
        assert init[..i] == s[..i];
      }
    }
  }

  // ---- the parts give the body back ------------------------------------------------------------

  /** Every part with a comma behind it. */
  function Closed(parts: seq<string>): string {
    if parts == [] then "" else Closed(parts[..|parts| - 1]) + (parts[|parts| - 1] + ",")
  }

  /** The parts with commas between them. */
  function Join(parts: seq<string>): string {
    if parts == [] then "" else Closed(parts[..|parts| - 1]) + parts[|parts| - 1]
  }

  /** The body ends in a top-level comma; that is the one comma splitting forgets. */
  predicate EndsInTopComma(body: string) {
    body != "" && TopComma(body, |body| - 1)
  }

  lemma ClosedGrows(parts: seq<string>, p: string)
    ensures Closed(parts + [p]) == Closed(parts) + (p + ",") && Join(parts + [p]) == Closed(parts) + p
  {
    assert (parts + [p])[..|parts|] == parts;
  }

  lemma Regroup(a: string, b: string, c: string)
    ensures a + (b + c) == (a + b) + c
  {
  }

  /** The text that parts in the course of reading stand for. */
  function TextOf(p: Parts): string {
    Closed(p.complete) + p.current
  }

  lemma ReadAddsToText(p: Parts, c: char)
    ensures TextOf(Read(p, c)) == TextOf(p) + [c]
  {
    if c == ',' && Balance(p.current) == 0 {
      ClosedGrows(p.complete, p.current);
      Regroup(Closed(p.complete), p.current, ",");
    } else {
      Regroup(Closed(p.complete), p.current, [c]);
    }
  }

  lemma ReadingOn(p: Parts, s: string, c: char)
    requires TextOf(p) == s
    ensures TextOf(Read(p, c)) == s + [c]
  {
    ReadAddsToText(p, c);
  }

  lemma InitAndLast(s: string)
    requires s != ""
    ensures s[..|s| - 1] + [s[|s| - 1]] == s
  {
  }

  /** At every point the parts read so far are the text read so far. */
  lemma {:induction false} PartsAreTheText(s: string)
    ensures TextOf(PartsOf(s)) == s
  {
    if s != "" {
      PartsAreTheText(s[..|s| - 1]);
      ReadingOn(PartsOf(s[..|s| - 1]), s[..|s| - 1], s[|s| - 1]);
      InitAndLast(s);
    }
  }

  /** The depth counted from the last top-level comma is the depth from the start. */
  lemma {:induction false} DepthIsOfCurrent(s: string)
    ensures Balance(PartsOf(s).current) == Balance(s)
  {
    if s != "" {
      DepthIsOfCurrent(s[..|s| - 1]);
      BalanceGrows(PartsOf(s[..|s| - 1]).current, s[|s| - 1]);
    }
  }

  /** Nothing follows the last complete part exactly if the text ends in a top-level comma. */
  lemma NothingFollowsATopComma(s: string)
    ensures EndsInTopComma(s) <==> PartsOf(s).current == "" && PartsOf(s).complete != []
  {
    if s != "" {
      DepthIsOfCurrent(s[..|s| - 1]);
    }
  }

  /** Joining the parts gives the body back, but for one final top-level comma. */
  lemma JoinOfSplit(body: string)
    ensures Join(Split(body)) + (if EndsInTopComma(body) then "," else "") == body
  {
    var p := PartsOf(body);
    PartsAreTheText(body);
    NothingFollowsATopComma(body);
    if p.current == "" {
      if p.complete != [] {
        var init, last := p.complete[..|p.complete| - 1], p.complete[|p.complete| - 1];
        assert p.complete == init + [last];
        ClosedGrows(init, last);
        Regroup(Closed(init), last, ",");
      }
    } else {
      ClosedGrows(p.complete, p.current);
    }
  }

  // ---- no part holds a top-level comma ------------------------------------------------------------

  predicate AllSettled(parts: seq<string>) {
    forall p | p in parts :: TopFree(p) && Balance(p) == 0
  }

  lemma {:induction false} PartsAreSettled(s: string)
    ensures AllSettled(PartsOf(s).complete) && TopFree(PartsOf(s).current)
  {
    if s != "" {
      var current, c := PartsOf(s[..|s| - 1]).current, s[|s| - 1];
      PartsAreSettled(s[..|s| - 1]);
      assert (current + [c])[..|current|] == current;
    }
  }

  /** No part holds a top-level comma, and all but the last are balanced. */
  lemma PartsAreTopFree(body: string)
    ensures forall p | p in Split(body) :: TopFree(p)
    ensures forall i | 0 <= i < |Split(body)| - 1 :: Balance(Split(body)[i]) == 0
  {
    PartsAreSettled(body);
    var p := PartsOf(body);
    forall i | 0 <= i < |p.complete| ensures Balance(p.complete[i]) == 0 {
      assert p.complete[i] in p.complete;
    }
  }

  // ---- splitting undoes joining ----------------------------------------------------------------------

  /** Balanced parts without top-level commas, the last one not empty. */
  predicate WellSeparated(parts: seq<string>) {
    AllSettled(parts) && (parts != [] ==> parts[|parts| - 1] != "")
  }

  lemma PartsOfLonger(s: string, c: char)
    ensures PartsOf(s + [c]) == Read(PartsOf(s), c)
  {
    assert (s + [c])[..|s|] == s;
  }

  /** Text without a top-level comma goes into one part. */
  lemma {:induction false} ReadPart(s: string, p: string)
    requires PartsOf(s).current == "" && TopFree(p)
    ensures PartsOf(s + p) == Parts(PartsOf(s).complete, p)
  {
    if p == "" {
      assert s + p == s;
    } else {
      ReadPart(s, p[..|p| - 1]);
      PartsOfLonger(s + p[..|p| - 1], p[|p| - 1]);
      InitAndLast(p);
      Regroup(s, p[..|p| - 1], [p[|p| - 1]]);
    }
  }

  lemma {:induction false} ReadClosed(parts: seq<string>)
    requires AllSettled(parts)
    ensures PartsOf(Closed(parts)) == Parts(parts, "")
  {
    if parts != [] {
      var init, last := parts[..|parts| - 1], parts[|parts| - 1];
      ReadClosed(init);
      assert last in parts && parts == init + [last];
      ReadPart(Closed(init), last);
      PartsOfLonger(Closed(init) + last, ',');
      Regroup(Closed(init), last, ",");
    }
  }

  /** Splitting undoes joining. */
  lemma SplitOfJoin(parts: seq<string>)
    requires WellSeparated(parts)
    ensures Split(Join(parts)) == parts
  {
    if parts != [] {
      var init, last := parts[..|parts| - 1], parts[|parts| - 1];
      assert last in parts && parts == init + [last];
      ReadClosed(init);
      ReadPart(Closed(init), last);
    }
  }
}
