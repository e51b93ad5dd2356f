/**
 Which earlier query a follow-up question means.  The scores are the token overlaps of
 the question with each candidate; the phrases are what the question's wording says.
 */
module CandidateSelector {
  import opened Basics
  import OrderedDict
  import H = QueryHistory

  datatype Candidate = Candidate(number: int, queryId: string, score: nat)

  /** `latest`: the question names the latest query or a counted result; `followup`: it transforms a result. */
  datatype Wording = Wording(latest: bool, followup: bool)

  datatype Cause = NoHistory | IdsMissing | OneAtATime | IdMissing | NumberMissing | Unclear

  datatype Choice = NoReference | Ambiguous(cause: Cause) | Selected(number: int, queryId: string)

  /** Higher score first, then lower number. */
  predicate Before(a: Candidate, b: Candidate) {
    a.score > b.score || (a.score == b.score && a.number < b.number)
  }

  /** One step of a stable sort. */
  function Rank(ranked: seq<Candidate>, c: Candidate): (r: seq<Candidate>)
    ensures |r| == |ranked| + 1
  {
    if ranked == [] || !Before(c, ranked[|ranked| - 1]) then ranked + [c]
    else Rank(ranked[..|ranked| - 1], c) + [ranked[|ranked| - 1]]
  }

  function Ranked(entries: seq<Candidate>): (r: seq<Candidate>)
    ensures |r| == |entries|
  {
    if entries == [] then [] else Rank(Ranked(entries[..|entries| - 1]), entries[|entries| - 1])
  }

  /** The first candidate with the number, or with one of the ids. */
  function WithNumber(cs: seq<Candidate>, number: int): Option<Candidate> {
    if cs == [] then None else if cs[0].number == number then Some(cs[0]) else WithNumber(cs[1..], number)
  }

  function WithId(cs: seq<Candidate>, ids: seq<string>): Option<Candidate> {
    if cs == [] then None else if cs[0].queryId in ids then Some(cs[0]) else WithId(cs[1..], ids)
  }

  function CountIds(cs: seq<Candidate>, ids: seq<string>): nat {
    if cs == [] then 0 else CountIds(cs[1..], ids) + if cs[0].queryId in ids then 1 else 0
  }

  function Take(c: Candidate): Choice {
    Selected(c.number, c.queryId)
  }

  /** The lead of the first over the second; a single candidate leads a score of -1. */
  function Margin(ranked: seq<Candidate>): int
    requires ranked != []
  {
    ranked[0].score - if |ranked| > 1 then ranked[1].score else -1
  }

  /** By candidate number or by wording alone: the last two cases of the selection. */
  function ByScore(ranked: seq<Candidate>, wording: Wording, candidate: Option<int>): Choice
    requires ranked != []
  {
    var top := ranked[0];
    var leads := top.score >= 2 && Margin(ranked) >= 2;
    match candidate
    case Some(number) =>
      var selected := WithNumber(ranked, number);
      if selected == None then Ambiguous(NumberMissing)
      else if |ranked| == 1 || (selected.value.number == top.number && selected.value.score >= 2 && Margin(ranked) >= 2)
      then Take(selected.value)
      else Ambiguous(Unclear)
    case None =>
      if wording.followup && (|ranked| == 1 || leads) then Take(top)
      else if !wording.followup then NoReference
      else Ambiguous(Unclear)
  }

  /** `select_query_candidate`; `ids` are the requested query ids that are not blank. */
  function Select(entries: seq<Candidate>, wording: Wording, candidate: Option<int>, ids: seq<string>, confirmed: Option<int>): Choice {
    if entries == [] then
      if candidate.Some? || wording.followup then Ambiguous(NoHistory) else NoReference
    else
      var ranked := Ranked(entries);
      var latest := WithNumber(ranked, entries[0].number);
      var named := WithId(ranked, ids);
      var again := if confirmed.Some? then WithNumber(ranked, confirmed.value) else None;
      if wording.latest && latest.Some? then Take(latest.value)
      else if |ids| > 1 then Ambiguous(if CountIds(ranked, ids) != |ids| then IdsMissing else OneAtATime)
      else if |ids| == 1 then if named.Some? then Take(named.value) else Ambiguous(IdMissing)
      else if again.Some? then Take(again.value)
      else ByScore(ranked, wording, candidate)
  }

  // ---- the ranking ---------------------------------------------------------------------------

  ghost predicate Distinct(cs: seq<Candidate>) {
    forall i, j | 0 <= i < j < |cs| :: cs[i].number != cs[j].number
  }

  ghost predicate InOrder(cs: seq<Candidate>) {
    forall i, j | 0 <= i < j < |cs| :: Before(cs[i], cs[j])
  }

  lemma {:induction false} RankKeeps(ranked: seq<Candidate>, c: Candidate)
    ensures multiset(Rank(ranked, c)) == multiset(ranked) + multiset{c}
  {
    if ranked != [] {
      assert ranked == ranked[..|ranked| - 1] + [ranked[|ranked| - 1]];
      RankKeeps(ranked[..|ranked| - 1], c);
    }
  }

  lemma {:induction false} RankInOrder(ranked: seq<Candidate>, c: Candidate)
    requires InOrder(ranked) && forall i | 0 <= i < |ranked| :: ranked[i].number != c.number
    ensures InOrder(Rank(ranked, c))
  {
    if ranked != [] && Before(c, ranked[|ranked| - 1]) {
      var init, last := ranked[..|ranked| - 1], ranked[|ranked| - 1];
      RankInOrder(init, c);
      RankKeeps(init, c);
      var placed := Rank(init, c);
      forall i | 0 <= i < |placed| ensures Before(placed[i], last) {
        assert placed[i] in multiset(placed);
        if placed[i] != c {
          assert placed[i] in multiset(init);
        }
      }
    }
  }

  lemma {:induction false} RankedKeeps(entries: seq<Candidate>)
    ensures multiset(Ranked(entries)) == multiset(entries) && |Ranked(entries)| == |entries|
    ensures forall c :: c in Ranked(entries) <==> c in entries
  {
    if entries != [] {
      var init, last := entries[..|entries| - 1], entries[|entries| - 1];
      RankedKeeps(init);
      RankKeeps(Ranked(init), last);
      assert entries == init + [last];
    }
    assert |multiset(Ranked(entries))| == |multiset(entries)|;
    assert forall c :: c in Ranked(entries) <==> c in multiset(Ranked(entries));
  }

  lemma {:induction false} RankedIsSorted(entries: seq<Candidate>)
    requires Distinct(entries)
    ensures InOrder(Ranked(entries))
  {
    if entries != [] {
      var init, last := entries[..|entries| - 1], entries[|entries| - 1];
      RankedIsSorted(init);
      RankedKeeps(init);
      forall i | 0 <= i < |Ranked(init)| ensures Ranked(init)[i].number != last.number {
        assert Ranked(init)[i] in init;
      }
      RankInOrder(Ranked(init), last);
    }
  }

  /** The ranking runs from the highest score down, and from the lowest number up among equal scores. */
  lemma RankingRunsDown(entries: seq<Candidate>, i: nat, j: nat)
    requires Distinct(entries) && i < j < |entries|
    ensures var a, b := Ranked(entries)[i], Ranked(entries)[j]; a.score > b.score || (a.score == b.score && a.number < b.number)
  {
    RankedIsSorted(entries);
  }

  lemma FirstIsSame(a: seq<Candidate>, b: seq<Candidate>)
    requires InOrder(a) && InOrder(b) && multiset(a) == multiset(b) && a != [] && b != []
    ensures a[0] == b[0]
  {
    assert a[0] in multiset(b) && b[0] in multiset(a);
  }

  lemma SameTails(a: seq<Candidate>, b: seq<Candidate>)
    requires a != [] && b != [] && a[0] == b[0] && multiset(a) == multiset(b)
    ensures multiset(a[1..]) == multiset(b[1..]) && a == [a[0]] + a[1..] && b == [b[0]] + b[1..]
  {
    assert a == [a[0]] + a[1..] && b == [b[0]] + b[1..];
    assert multiset(a[1..]) == multiset(a) - multiset{a[0]} == multiset(b[1..]);
  }

  lemma {:induction false} OrderIsUnique(a: seq<Candidate>, b: seq<Candidate>)
    requires InOrder(a) && InOrder(b) && multiset(a) == multiset(b)
    ensures a == b
  {
    assert |a| == |multiset(a)| == |multiset(b)| == |b|;
    if a != [] {
      FirstIsSame(a, b);
      SameTails(a, b);
      OrderIsUnique(a[1..], b[1..]);
    }
  }

  /** The ranking depends on which candidates there are, not on their order. */
  lemma SameRanking(a: seq<Candidate>, b: seq<Candidate>)
    requires Distinct(a) && Distinct(b) && multiset(a) == multiset(b)
    ensures Ranked(a) == Ranked(b)
  {
    RankedIsSorted(a);
    RankedIsSorted(b);
    RankedKeeps(a);
    RankedKeeps(b);
    OrderIsUnique(Ranked(a), Ranked(b));
  }

  // ---- when a candidate is chosen ----------------------------------------------------------------

  /** `c` scores at least 2 and at least 2 more than every other candidate. */
  ghost predicate Clear(entries: seq<Candidate>, c: Candidate) {
    && c in entries && c.score >= 2
    && forall d | d in entries && d != c :: c.score >= d.score + 2
  }

  lemma TopIsClear(entries: seq<Candidate>, c: Candidate)
    requires Distinct(entries) && |entries| >= 2
    ensures var ranked := Ranked(entries);
            && |ranked| == |entries|
            && (Clear(entries, c) <==> ranked[0] == c && c.score >= 2 && Margin(ranked) >= 2)
  {
    RankedIsSorted(entries);
    RankedKeeps(entries);
    var ranked := Ranked(entries);
    assert ranked[0] in ranked && ranked[1] in ranked && Before(ranked[0], ranked[1]);
    assert c in ranked <==> c in entries;
    if ranked[0] == c && c.score >= 2 && Margin(ranked) >= 2 {
      forall d | d in entries && d != c ensures c.score >= d.score + 2 {
        var j :| 0 <= j < |ranked| && ranked[j] == d;
        assert j == 1 || Before(ranked[1], ranked[j]);
      }
    }
  }

  lemma {:induction false} WithNumberFinds(cs: seq<Candidate>, c: Candidate)
    requires Distinct(cs)
    ensures WithNumber(cs, c.number) == Some(c) <==> c in cs
    ensures WithNumber(cs, c.number) == None <==> forall i | 0 <= i < |cs| :: cs[i].number != c.number
  {
    if cs != [] {
      WithNumberFinds(cs[1..], c);
      assert cs == [cs[0]] + cs[1..];
    }
  }

  lemma {:induction false} FoundIsMember(cs: seq<Candidate>, number: int, ids: seq<string>)
    ensures var n := WithNumber(cs, number); n.Some? ==> n.value in cs && n.value.number == number
    ensures var n := WithId(cs, ids); n.Some? ==> n.value in cs && n.value.queryId in ids
  {
    if cs != [] {
      FoundIsMember(cs[1..], number, ids);
    }
  }

  predicate Asks(wording: Wording, candidate: Option<int>, c: Candidate) {
    match candidate case Some(number) => c.number == number case None => wording.followup
  }

  /**
   Without a phrase, an id or a confirmation to go by, one of several candidates is chosen
   exactly when it is the one asked for and beats every other by at least 2.
   */
  lemma ScoreChoosesTheClearWinner(entries: seq<Candidate>, wording: Wording, candidate: Option<int>, c: Candidate)
    requires Distinct(entries) && |entries| >= 2 && !wording.latest
    ensures Select(entries, wording, candidate, [], None) == Take(c) && c in entries
       <==> Clear(entries, c) && Asks(wording, candidate, c)
  {
    var ranked := Ranked(entries);
    RankedKeeps(entries);
    TopIsClear(entries, c);
    InOrderIsDistinct(entries);
    WithNumberFinds(ranked, c);
    WithNumberFinds(ranked, ranked[0]);
    if candidate.Some? {
      FoundIsMember(ranked, candidate.value, []);
    }
  }

  lemma InOrderIsDistinct(entries: seq<Candidate>)
    requires Distinct(entries)
    ensures Distinct(Ranked(entries))
  {
    RankedIsSorted(entries);
    RankedKeeps(entries);
    var ranked := Ranked(entries);
    forall i, j | 0 <= i < j < |ranked| ensures ranked[i].number != ranked[j].number {
      assert ranked[i] in entries && ranked[j] in entries && Before(ranked[i], ranked[j]);
    }
  }

  /** What is chosen does not depend on the order of the candidates, unless the latest query is meant. */
  lemma OrderDoesNotMatter(a: seq<Candidate>, b: seq<Candidate>, wording: Wording, candidate: Option<int>, ids: seq<string>,
      confirmed: Option<int>)
    requires Distinct(a) && Distinct(b) && multiset(a) == multiset(b)
    requires wording.latest && a != [] && b != [] ==> a[0] == b[0]
    ensures Select(a, wording, candidate, ids, confirmed) == Select(b, wording, candidate, ids, confirmed)
  {
    SameRanking(a, b);
    assert |a| == |multiset(a)| == |multiset(b)| == |b|;
  }

  /** A chosen candidate is one of those shown; the latest query is the first of them, whatever else was asked. */
  lemma ChosenWasShown(entries: seq<Candidate>, wording: Wording, candidate: Option<int>, ids: seq<string>, confirmed: Option<int>)
    requires Distinct(entries)
    ensures var choice := Select(entries, wording, candidate, ids, confirmed);
            && (choice.Selected? ==> exists i :: 0 <= i < |entries| && choice == Take(entries[i]))
            && (wording.latest && entries != [] ==> choice == Take(entries[0]))
            && (!wording.latest && |ids| > 1 ==> !choice.Selected?)
            && (!wording.latest && |ids| == 1 && choice.Selected? ==> choice.queryId == ids[0])
  {
    if entries != [] {
      var ranked := Ranked(entries);
      RankedKeeps(entries);
      InOrderIsDistinct(entries);
      assert entries[0] in ranked;
      WithNumberFinds(ranked, entries[0]);
      var choice := Select(entries, wording, candidate, ids, confirmed);
      if choice.Selected? {
        FoundIsMember(ranked, entries[0].number, ids);
        FoundIsMember(ranked, OrDefaultInt(confirmed), ids);
        FoundIsMember(ranked, OrDefaultInt(candidate), ids);
        var c :| c in ranked && choice == Take(c);
        assert c in entries;
      }
    }
  }

  function OrDefaultInt(o: Option<int>): int {
    match o case Some(n) => n case None => 0
  }

  // ---- every other way to be chosen, or not ------------------------------------------------------

  predicate HasNumber(cs: seq<Candidate>, number: int) {
    exists i :: 0 <= i < |cs| && cs[i].number == number
  }

  predicate HasId(cs: seq<Candidate>, id: string) {
    exists i :: 0 <= i < |cs| && cs[i].queryId == id
  }

  /** How many of the candidates stand for one of the ids. */
  function Standing(cs: seq<Candidate>, ids: seq<string>): nat {
    if cs == [] then 0 else Standing(cs[..|cs| - 1], ids) + if cs[|cs| - 1].queryId in ids then 1 else 0
  }

  lemma {:induction false} CountIdsOfLonger(cs: seq<Candidate>, c: Candidate, ids: seq<string>)
    ensures CountIds(cs + [c], ids) == CountIds(cs, ids) + if c.queryId in ids then 1 else 0
  {
    if cs == [] {
      assert ([] + [c])[1..] == [];
    } else {
      assert (cs + [c])[1..] == cs[1..] + [c];
      CountIdsOfLonger(cs[1..], c, ids);
    }
  }

  lemma {:induction false} CountIdsOfRank(ranked: seq<Candidate>, c: Candidate, ids: seq<string>)
    ensures CountIds(Rank(ranked, c), ids) == CountIds(ranked, ids) + if c.queryId in ids then 1 else 0
  {
    CountIdsOfLonger(ranked, c, ids);
    if ranked != [] && Before(c, ranked[|ranked| - 1]) {
      var init, last := ranked[..|ranked| - 1], ranked[|ranked| - 1];
      assert ranked == init + [last];
      CountIdsOfRank(init, c, ids);
      CountIdsOfLonger(init, last, ids);
      CountIdsOfLonger(Rank(init, c), last, ids);
    }
  }

  /** Ranking does not change how many candidates stand for the ids. */
  lemma {:induction false} CountIdsIsStanding(entries: seq<Candidate>, ids: seq<string>)
    ensures CountIds(Ranked(entries), ids) == Standing(entries, ids)
  {
    if entries != [] {
      CountIdsIsStanding(entries[..|entries| - 1], ids);
      CountIdsOfRank(Ranked(entries[..|entries| - 1]), entries[|entries| - 1], ids);
    }
  }

  lemma {:induction false} NoneHasId(cs: seq<Candidate>, id: string)
    ensures WithId(cs, [id]) == None <==> !HasId(cs, id)
  {
    if cs != [] {
      NoneHasId(cs[1..], id);
      if HasId(cs[1..], id) {
        var i :| 0 <= i < |cs| - 1 && cs[1..][i].queryId == id;
        assert cs[i + 1].queryId == id;
      }
      if i :| 0 < i < |cs| && cs[i].queryId == id {
        assert cs[1..][i - 1].queryId == id;
      }
    }
  }

  lemma RankedHas(entries: seq<Candidate>, number: int, id: string)
    ensures HasNumber(Ranked(entries), number) == HasNumber(entries, number) && HasId(Ranked(entries), id) == HasId(entries, id)
  {
    RankedKeeps(entries);
    var ranked := Ranked(entries);
    if i :| 0 <= i < |entries| && entries[i].number == number {
      assert entries[i] in ranked;
    }
    if i :| 0 <= i < |ranked| && ranked[i].number == number {
      assert ranked[i] in entries;
    }
    if i :| 0 <= i < |entries| && entries[i].queryId == id {
      assert entries[i] in ranked;
    }
    if i :| 0 <= i < |ranked| && ranked[i].queryId == id {
      assert ranked[i] in entries;
    }
  }

  /** One requested id chooses a candidate exactly if one stands for it; several never do, and the reason says whether all stand. */
  lemma IdsDecide(entries: seq<Candidate>, wording: Wording, candidate: Option<int>, ids: seq<string>, confirmed: Option<int>)
    requires Distinct(entries) && entries != [] && !wording.latest && ids != []
    ensures var choice := Select(entries, wording, candidate, ids, confirmed);
            if |ids| == 1 then
              if HasId(entries, ids[0]) then choice.Selected? && choice.queryId == ids[0]
              else choice == Ambiguous(IdMissing)
            else choice == Ambiguous(if Standing(entries, ids) == |ids| then OneAtATime else IdsMissing)
  {
    if |ids| == 1 {
      assert ids == [ids[0]];
      RankedHas(entries, 0, ids[0]);
      NoneHasId(Ranked(entries), ids[0]);
      ChosenWasShown(entries, wording, candidate, ids, confirmed);
    } else {
      CountIdsIsStanding(entries, ids);
    }
  }

  /** A number that the user has confirmed is chosen if it is shown, and does not count otherwise. */
  lemma ConfirmedIsChosen(entries: seq<Candidate>, wording: Wording, candidate: Option<int>, number: int)
    requires Distinct(entries) && !wording.latest
    ensures var choice := Select(entries, wording, candidate, [], Some(number));
            if HasNumber(entries, number) then choice.Selected? && choice.number == number
            else choice == Select(entries, wording, candidate, [], None)
  {
    var ranked := Ranked(entries);
    RankedHas(entries, number, "");
    InOrderIsDistinct(entries);
    WithNumberFinds(ranked, Candidate(number, "", 0));
    FoundIsMember(ranked, number, []);
  }

  /** Without any candidate there is nothing to refer to, which only matters if something was referred to. */
  lemma NothingWasShown(wording: Wording, candidate: Option<int>, ids: seq<string>, confirmed: Option<int>)
    ensures Select([], wording, candidate, ids, confirmed)
         == if candidate.Some? || wording.followup then Ambiguous(NoHistory) else NoReference
  {
  }

  /** A single candidate is chosen without any score: by its number, or by a follow-up without a number. */
  lemma SingleCandidateNeedsNoScore(c: Candidate, wording: Wording, candidate: Option<int>)
    requires !wording.latest
    ensures Select([c], wording, candidate, [], None)
         == match candidate
            case Some(number) => if number == c.number then Take(c) else Ambiguous(NumberMissing)
            case None => if wording.followup then Take(c) else NoReference
  {
    assert [c][..0] == [] && [] + [c] == [c] && [c][1..] == [];
    assert Rank([], c) == [c] == Ranked([c]);
    var number := OrDefaultInt(candidate);
    assert WithNumber([c], number) == if number == c.number then Some(c) else None;
    assert Select([c], wording, candidate, [], None) == ByScore([c], wording, candidate);
  }

  /** Where the scores choose none of several, it is said why: an unknown number, no reference at all, or no clear winner. */
  lemma ScoresThatDoNotChoose(entries: seq<Candidate>, wording: Wording, candidate: Option<int>)
    requires Distinct(entries) && |entries| >= 2 && !wording.latest
    ensures var choice := Select(entries, wording, candidate, [], None);
            !choice.Selected? ==>
              choice == match candidate
                        case Some(number) => Ambiguous(if HasNumber(entries, number) then Unclear else NumberMissing)
                        case None => if wording.followup then Ambiguous(Unclear) else NoReference
  {
    var ranked := Ranked(entries);
    var number := OrDefaultInt(candidate);
    RankedHas(entries, number, "");
    InOrderIsDistinct(entries);
    WithNumberFinds(ranked, Candidate(number, "", 0));
    if candidate.Some? {
      FoundIsMember(ranked, number, []);
    }
  }

  // ---- from the shown context to the record used -------------------------------------------------------

  /** The candidates of a context, numbered from 1. */
  function Candidates(context: OrderedDict.Dict<seq<H.Record>>, scores: seq<nat>): seq<Candidate>
    requires |scores| == |context|
  {
    seq(|context|, k requires 0 <= k < |context| => Candidate(k + 1, context[k].key, scores[k]))
  }

  /**
   Whatever is selected from a context of at most five candidates, its query id later resolves
   to the record that headed the candidate's group.
   */
  lemma SelectedCandidateResolves(records: seq<H.Record>, namespace: string, limit: nat, scores: seq<nat>, wording: Wording,
      candidate: Option<int>, ids: seq<string>, confirmed: Option<int>)
    requires limit <= 5 && |scores| == |H.Context(records, namespace, limit)|
    ensures var context := H.Context(records, namespace, limit);
            var choice := Select(Candidates(context, scores), wording, candidate, ids, confirmed);
            choice.Selected? ==>
              && 1 <= choice.number <= |context|
              && context[choice.number - 1].value != []
              && H.ResolveIds(H.History(records, namespace, 50), [choice.queryId]) == Some(context[choice.number - 1].value[0])
  {
    var context := H.Context(records, namespace, limit);
    var entries := Candidates(context, scores);
    ChosenWasShown(entries, wording, candidate, ids, confirmed);
    var choice := Select(entries, wording, candidate, ids, confirmed);
    if choice.Selected? {
      var i :| 0 <= i < |entries| && choice == Take(entries[i]);
      H.ContextAgreesWithResolution(records, namespace, limit, i);
    }
  }
}
