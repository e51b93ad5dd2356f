/**
 The query history as the model sees it, grouped by logical query, and as the
 backend resolves a reference to it later.  The two have to agree.
 */
module QueryHistory {
  import opened Basics
  import opened OrderedDict

  datatype Kind = QueryRecord | SemanticRecord

  /** A memory record; `updated` is the time stamp, `queryId` is "" when the metadata has none. */
  datatype Record = Record(id: string, namespace: string, kind: Kind, queryId: string, content: string, created: int, updated: int)
  {
    /** `metadata.get("query_id") or id` */
    function Query(): string {
      OrDefault(queryId, id)
    }
  }

  class MemoryStore {
    var records: seq<Record>

    constructor ()
      ensures records == []
    {
      records := [];
    }

    /** A record with a known id takes that record's place and keeps its creation time. */
    method Upsert(record: Record, now: int)
      modifies this
      ensures records == Upserted(old(records), record.(updated := now))
    {
      for index := 0 to |records|
        invariant records == old(records) && forall i | 0 <= i < index :: records[i].id != record.id
      {
        if records[index].id == record.id {
          IndexOfId(records, record.id, index);
          records := records[index := record.(updated := now, created := records[index].created)];
          return;
        }
      }
      records := records + [record.(updated := now)];
    }

    method DeleteSession(namespace: string, kind: Option<Kind>) returns (count: nat)
      modifies this
      ensures records == Retained(old(records), namespace, kind)
      ensures count == |old(records)| - |records|
    {
      var retained := [];
      for i := 0 to |records|
        invariant records == old(records) && retained == Retained(records[..i], namespace, kind) && |retained| <= i
      {
        assert records[..i + 1][..i] == records[..i];
        if !(records[i].namespace == namespace && (kind == None || kind == Some(records[i].kind))) {
          retained := retained + [records[i]];
        }
      }
      assert records[..|records|] == records;
      count := |records| - |retained|;
      records := retained;
    }
  }

  function IdPosition(records: seq<Record>, id: string): (p: nat)
    ensures p <= |records| && (p < |records| ==> records[p].id == id) && forall i | 0 <= i < p :: records[i].id != id
  {
    if records == [] || records[0].id == id then 0 else 1 + IdPosition(records[1..], id)
  }

  lemma IndexOfId(records: seq<Record>, id: string, p: nat)
    requires p < |records| && records[p].id == id && forall i | 0 <= i < p :: records[i].id != id
    ensures IdPosition(records, id) == p
  {
  }

  function Upserted(records: seq<Record>, record: Record): seq<Record> {
    var p := IdPosition(records, record.id);
    if p < |records| then records[p := record.(created := records[p].created)] else records + [record]
  }

  /** Is the record among those that a deletion removes? */
  predicate Deleted(r: Record, namespace: string, kind: Option<Kind>) {
    r.namespace == namespace && (kind == None || kind == Some(r.kind))
  }

  function Retained(records: seq<Record>, namespace: string, kind: Option<Kind>): seq<Record> {
    if records == [] then []
    else
      var r := records[|records| - 1];
      var rest := Retained(records[..|records| - 1], namespace, kind);
      if Deleted(r, namespace, kind) then rest else rest + [r]
  }

  predicate DistinctIds(records: seq<Record>) {
    forall i, j | 0 <= i < j < |records| :: records[i].id != records[j].id
  }

  /** An upserted record is found under its id, created when that id first was; every other record stays where it is. */
  lemma UpsertedIsFound(records: seq<Record>, record: Record)
    requires DistinctIds(records)
    ensures var after, p := Upserted(records, record), IdPosition(records, record.id);
            && DistinctIds(after) && IdPosition(after, record.id) == p < |after|
            && after[p] == record.(created := if p < |records| then records[p].created else record.created)
            && forall i | 0 <= i < |records| && i != p :: after[i] == records[i]
  {
    IndexOfId(Upserted(records, record), record.id, IdPosition(records, record.id));
  }

  /** Everything that can happen to the memory file. */
  datatype Change = Put(record: Record, now: int) | Drop(namespace: string, kind: Option<Kind>)

  function Records(changes: seq<Change>): seq<Record> {
    if changes == [] then []
    else
      var records := Records(changes[..|changes| - 1]);
      match changes[|changes| - 1]
      case Put(record, now) => Upserted(records, record.(updated := now))
      case Drop(namespace, kind) => Retained(records, namespace, kind)
  }

  lemma {:induction false} RetainedIdsAreDistinct(records: seq<Record>, namespace: string, kind: Option<Kind>)
    requires DistinctIds(records)
    ensures DistinctIds(Retained(records, namespace, kind))
    ensures forall r | r in Retained(records, namespace, kind) :: r in records
  {
    if records != [] {
      var init, last := records[..|records| - 1], records[|records| - 1];
      RetainedIdsAreDistinct(init, namespace, kind);
      var rest := Retained(init, namespace, kind);
      forall i | 0 <= i < |rest| ensures rest[i].id != last.id {
        assert rest[i] in init;
      }
    }
  }

  /** In every memory file ever reached no two records have the same id. */
  lemma {:induction false} MemoryIdsAreDistinct(changes: seq<Change>)
    ensures DistinctIds(Records(changes))
  {
    if changes != [] {
      var init := changes[..|changes| - 1];
      MemoryIdsAreDistinct(init);
      match changes[|changes| - 1]
      case Put(record, now) => UpsertedIsFound(Records(init), record.(updated := now));
      case Drop(namespace, kind) => RetainedIdsAreDistinct(Records(init), namespace, kind);
    }
  }

  // ---- newest first ------------------------------------------------------------------------

  datatype Placed = Placed(index: nat, record: Record)

  /** Later time stamp first; among equal stamps the later position first. */
  predicate Newer(a: Placed, b: Placed) {
    a.record.updated > b.record.updated || (a.record.updated == b.record.updated && a.index > b.index)
  }

  function Insert(p: Placed, ps: seq<Placed>): seq<Placed> {
    if ps == [] || Newer(p, ps[0]) then [p] + ps else [ps[0]] + Insert(p, ps[1..])
  }

  /** The query records of a session among the first `n`, newest first. */
  function NewestFirst(records: seq<Record>, namespace: string, n: nat): seq<Placed>
    requires n <= |records|
  {
    if n == 0 then []
    else
      var r := records[n - 1];
      var rest := NewestFirst(records, namespace, n - 1);
      if r.kind == QueryRecord && r.namespace == namespace then Insert(Placed(n - 1, r), rest) else rest
  }

  function RecordsOf(ps: seq<Placed>): seq<Record> {
    seq(|ps|, i requires 0 <= i < |ps| => ps[i].record)
  }

  function Window(records: seq<Record>, namespace: string): seq<Record> {
    RecordsOf(NewestFirst(records, namespace, |records|))
  }

  function Take(rs: seq<Record>, limit: nat): seq<Record> {
    if limit < |rs| then rs[..limit] else rs
  }

  /** `query_history` */
  function History(records: seq<Record>, namespace: string, limit: nat): seq<Record> {
    Take(Window(records, namespace), limit)
  }

  /** The record that is written last under a new id heads the history, if the clock did not run back. */
  lemma LatestQueryIsFirst(records: seq<Record>, record: Record, namespace: string)
    requires record.kind == QueryRecord && record.namespace == namespace && IdPosition(records, record.id) == |records|
    requires forall r | r in records :: r.updated <= record.updated
    ensures History(Upserted(records, record), namespace, 1) == [record]
  {
    var all := records + [record];
    assert Upserted(records, record) == all;
    AppendedHeads(records, record, namespace);
    assert Window(all, namespace)[0] == record;
  }

  lemma AppendedHeads(records: seq<Record>, record: Record, namespace: string)
    requires record.kind == QueryRecord && record.namespace == namespace
    requires forall r | r in records :: r.updated <= record.updated
    ensures var all := records + [record];
            NewestFirst(all, namespace, |all|) == [Placed(|records|, record)] + NewestFirst(records, namespace, |records|)
  {
    var n := |records|;
    PrefixNewest(records, records + [record], namespace, n);
    PlacedAreRecords(records, namespace, n);
    var rest := NewestFirst(records, namespace, n);
    if rest != [] {
      assert rest[0] in rest;
      assert IsPlaced(records, namespace, n, rest[0]) && records[rest[0].index] in records;
    }
  }

  lemma {:induction false} PrefixNewest(records: seq<Record>, all: seq<Record>, namespace: string, n: nat)
    requires n <= |records| <= |all| && records <= all
    ensures NewestFirst(records, namespace, n) == NewestFirst(all, namespace, n)
  {
    if n > 0 {
      PrefixNewest(records, all, namespace, n - 1);
    }
  }

  predicate NewestDown(ps: seq<Placed>) {
    forall i, j | 0 <= i < j < |ps| :: Newer(ps[i], ps[j])
  }

  /** A placed record is a query record of the session, at its place among the first `n`. */
  predicate IsPlaced(records: seq<Record>, namespace: string, n: nat, p: Placed)
    requires n <= |records|
  {
    p.index < n && records[p.index] == p.record && p.record.kind == QueryRecord && p.record.namespace == namespace
  }

  /** The window holds exactly the query records of the session. */
  lemma {:induction false} PlacedAreRecords(records: seq<Record>, namespace: string, n: nat)
    requires n <= |records|
    ensures forall p :: p in NewestFirst(records, namespace, n) <==> IsPlaced(records, namespace, n, p)
  {
    if n > 0 {
      PlacedAreRecords(records, namespace, n - 1);
      InsertMembers(Placed(n - 1, records[n - 1]), NewestFirst(records, namespace, n - 1));
    }
  }

  /** The window is newest first, each record once. */
  lemma {:induction false} WindowIsOrdered(records: seq<Record>, namespace: string, n: nat)
    requires n <= |records|
    ensures NewestDown(NewestFirst(records, namespace, n))
  {
    if n > 0 {
      WindowIsOrdered(records, namespace, n - 1);
      PlacedAreRecords(records, namespace, n - 1);
      if records[n - 1].kind == QueryRecord && records[n - 1].namespace == namespace {
        InsertKeepsOrder(Placed(n - 1, records[n - 1]), NewestFirst(records, namespace, n - 1));
      }
    }
  }

  lemma {:induction false} InsertKeepsOrder(p: Placed, ps: seq<Placed>)
    requires NewestDown(ps) && forall q | q in ps :: q.index != p.index
    ensures NewestDown(Insert(p, ps))
  {
    if ps != [] {
      if Newer(p, ps[0]) {
        assert Insert(p, ps) == [p] + ps;
      } else {
        var rest := ps[1..];
        InsertKeepsOrder(p, rest);
        InsertMembers(p, rest);
        assert ps[0].index != p.index;
        assert forall q | q in rest :: Newer(ps[0], q);
        assert forall j | 0 <= j < |Insert(p, rest)| :: Insert(p, rest)[j] in Insert(p, rest);
      }
    }
  }

  lemma {:induction false} InsertMembers(p: Placed, ps: seq<Placed>)
    ensures forall q :: q in Insert(p, ps) <==> q == p || q in ps
  {
    if ps != [] && !Newer(p, ps[0]) {
      InsertMembers(p, ps[1..]);
      assert ps == [ps[0]] + ps[1..];
    }
  }

  // ---- deleting a session's records ----------------------------------------------------------------

  /** Placed records in the same order, though perhaps at other positions. */
  predicate SameOrder(ps: seq<Placed>, qs: seq<Placed>) {
    |ps| == |qs| && forall i | 0 <= i < |ps| :: ps[i].record == qs[i].record
  }

  predicate AllBelow(ps: seq<Placed>, n: nat) {
    forall i | 0 <= i < |ps| :: ps[i].index < n
  }

  /** Where a record from the end of the file is sorted in depends on the records only. */
  lemma {:induction false} InsertBySameOrder(p: Placed, ps: seq<Placed>, q: Placed, qs: seq<Placed>)
    requires SameOrder(ps, qs) && p.record == q.record && AllBelow(ps, p.index) && AllBelow(qs, q.index)
    ensures SameOrder(Insert(p, ps), Insert(q, qs))
  {
    if ps != [] && !Newer(p, ps[0]) {
      InsertBySameOrder(p, ps[1..], q, qs[1..]);
    }
  }

  lemma WindowIsBelow(records: seq<Record>, namespace: string, n: nat)
    requires n <= |records|
    ensures AllBelow(NewestFirst(records, namespace, n), n)
  {
    PlacedAreRecords(records, namespace, n);
    var ps := NewestFirst(records, namespace, n);
    assert forall i | 0 <= i < |ps| :: ps[i] in ps;
  }

  /** Is a query record of `other` untouched by the deletion? */
  predicate Untouched(other: string, namespace: string, kind: Option<Kind>) {
    other != namespace || kind == Some(SemanticRecord)
  }

  lemma {:induction false} WindowSurvives(records: seq<Record>, namespace: string, kind: Option<Kind>, other: string, n: nat)
    requires n <= |records| && Untouched(other, namespace, kind)
    ensures var left := Retained(records[..n], namespace, kind);
            SameOrder(NewestFirst(left, other, |left|), NewestFirst(records, other, n))
  {
    if n > 0 {
      var r := records[n - 1];
      var before, left := Retained(records[..n - 1], namespace, kind), Retained(records[..n], namespace, kind);
      assert records[..n][..n - 1] == records[..n - 1];
      WindowSurvives(records, namespace, kind, other, n - 1);
      if !Deleted(r, namespace, kind) {
        assert left == before + [r];
        PrefixNewest(before, left, other, |before|);
        WindowIsBelow(records, other, n - 1);
        WindowIsBelow(before, other, |before|);
        InsertBySameOrder(Placed(|before|, r), NewestFirst(before, other, |before|), Placed(n - 1, r), NewestFirst(records, other, n - 1));
      }
    }
  }

  /** Deleting the records of one session leaves the history of every other session as it was. */
  lemma OtherHistoriesStay(records: seq<Record>, namespace: string, kind: Option<Kind>, other: string, limit: nat)
    requires Untouched(other, namespace, kind)
    ensures History(Retained(records, namespace, kind), other, limit) == History(records, other, limit)
  {
    WindowSurvives(records, namespace, kind, other, |records|);
    assert records[..|records|] == records;
    assert Window(Retained(records, namespace, kind), other) == Window(records, other);
  }

  lemma {:induction false} RetainedMembers(records: seq<Record>, namespace: string, kind: Option<Kind>)
    ensures forall r :: r in Retained(records, namespace, kind) <==> r in records && !Deleted(r, namespace, kind)
  {
    if records != [] {
      assert records == records[..|records| - 1] + [records[|records| - 1]];
      RetainedMembers(records[..|records| - 1], namespace, kind);
    }
  }

  /** And its own history is empty afterwards, unless only its other memories were deleted. */
  lemma DeletedHistoryIsEmpty(records: seq<Record>, namespace: string, kind: Option<Kind>, limit: nat)
    requires !Untouched(namespace, namespace, kind)
    ensures History(Retained(records, namespace, kind), namespace, limit) == []
  {
    var left := Retained(records, namespace, kind);
    RetainedMembers(records, namespace, kind);
    PlacedAreRecords(left, namespace, |left|);
    var ps := NewestFirst(left, namespace, |left|);
    if ps != [] {
      assert ps[0] in ps;
      assert kind.Some? ==> kind.value.QueryRecord?;
      assert Deleted(ps[0].record, namespace, kind);
    }
  }

  // ---- grouping ----------------------------------------------------------------------------------

  /** Collect records under their query, queries in the order in which they first occur. */
  function Group(rs: seq<Record>): Dict<seq<Record>> {
    if rs == [] then [] else Collect(Group(rs[..|rs| - 1]), rs[|rs| - 1])
  }

  function Collect(g: Dict<seq<Record>>, r: Record): Dict<seq<Record>> {
    var p := Position(g, r.Query());
    if p < |g| then g[p := Entry(r.Query(), g[p].value + [r])] else g + [Entry(r.Query(), [r])]
  }

  /** The grouping loop of `context_for_llm`. */
  method GroupRecords(rs: seq<Record>) returns (grouped: Dict<seq<Record>>)
    ensures grouped == Group(rs)
  {
    grouped := [];
    for i := 0 to |rs|
      invariant grouped == Group(rs[..i])
    {
      assert rs[..i + 1][..i] == rs[..i];
      assert [] + [rs[i]] == [rs[i]];
      var p := Position(grouped, rs[i].Query());
      if p == |grouped| {
        grouped := grouped + [Entry(rs[i].Query(), [])];
      }
      grouped := grouped[p := Entry(rs[i].Query(), grouped[p].value + [rs[i]])];
      assert grouped == Group(rs[..i + 1]);
    }
    assert rs[..|rs|] == rs;
  }

  /** The records of one query, in order. */
  function OfQuery(rs: seq<Record>, q: string): seq<Record> {
    if rs == [] then []
    else OfQuery(rs[..|rs| - 1], q) + if rs[|rs| - 1].Query() == q then [rs[|rs| - 1]] else []
  }

  /** Where query `q` first occurs, or the length. */
  function FirstOf(rs: seq<Record>, q: string): (p: nat)
    ensures p <= |rs| && (p < |rs| ==> rs[p].Query() == q) && forall i | 0 <= i < p :: rs[i].Query() != q
  {
    if rs == [] || rs[0].Query() == q then 0 else 1 + FirstOf(rs[1..], q)
  }

  lemma FirstOfAppend(rs: seq<Record>, r: Record, q: string)
    ensures FirstOf(rs + [r], q) == if FirstOf(rs, q) < |rs| then FirstOf(rs, q) else if r.Query() == q then |rs| else |rs| + 1
  {
    var all := rs + [r];
    FirstIs(all, q, if FirstOf(rs, q) < |rs| then FirstOf(rs, q) else if r.Query() == q then |rs| else |rs| + 1);
  }

  lemma FirstIs(rs: seq<Record>, q: string, p: nat)
    requires p <= |rs| && (p < |rs| ==> rs[p].Query() == q) && forall i | 0 <= i < p :: rs[i].Query() != q
    ensures FirstOf(rs, q) == p
  {
  }

  /** A group is exactly the records of its query, headed by the first of them. */
  predicate GroupIsRight(rs: seq<Record>, e: Entry<seq<Record>>) {
    && e.value == OfQuery(rs, e.key) && e.value != []
    && FirstOf(rs, e.key) < |rs| && e.value[0] == rs[FirstOf(rs, e.key)]
  }

  ghost predicate GroupingIsRight(rs: seq<Record>, g: Dict<seq<Record>>) {
    && (forall k | 0 <= k < |g| :: GroupIsRight(rs, g[k]))
    && (forall i, k | 0 <= i < k < |g| :: FirstOf(rs, g[i].key) < FirstOf(rs, g[k].key))
    && (forall i | 0 <= i < |rs| :: rs[i].Query() in Keys(g))
  }

  /** One more record keeps the group of a query right, or makes it. */
  lemma EntryStep(init: seq<Record>, r: Record, e: Entry<seq<Record>>)
    requires GroupIsRight(init, e)
    ensures GroupIsRight(init + [r], if e.key == r.Query() then Entry(e.key, e.value + [r]) else e)
  {
    assert (init + [r])[..|init|] == init;
    FirstOfAppend(init, r, e.key);
  }

  lemma NewEntry(init: seq<Record>, r: Record)
    requires FirstOf(init, r.Query()) == |init|
    ensures GroupIsRight(init + [r], Entry(r.Query(), [r]))
  {
    assert (init + [r])[..|init|] == init;
    FirstOfAppend(init, r, r.Query());
    NotOfQuery(init, r.Query());
  }

  /** A query without a group does not occur. */
  lemma NoGroupNoRecord(init: seq<Record>, g: Dict<seq<Record>>, q: string)
    requires GroupingIsRight(init, g) && Position(g, q) == |g|
    ensures FirstOf(init, q) == |init|
  {
  }

  /** One more record keeps every group right and changes no group's query. */
  lemma GroupStep(init: seq<Record>, r: Record, g: Dict<seq<Record>>, k: nat)
    requires GroupingIsRight(init, g) && Distinct(g) && k < |Collect(g, r)|
    ensures var g' := Collect(g, r);
            && GroupIsRight(init + [r], g'[k])
            && |g| <= |g'| <= |g| + 1
            && g'[k].key == (if k < |g| then g[k].key else r.Query())
            && (k == |g| ==> FirstOf(init, r.Query()) == |init|)
  {
    CollectedAt(g, r, k);
    if k < |g| {
      assert GroupIsRight(init, g[k]);
      EntryStep(init, r, g[k]);
    } else {
      NoGroupNoRecord(init, g, r.Query());
      NewEntry(init, r);
    }
  }

  /** Collecting adds the record to the group of its query, or a new group at the end. */
  lemma CollectedAt(g: Dict<seq<Record>>, r: Record, k: nat)
    requires Distinct(g) && k < |Collect(g, r)|
    ensures |Collect(g, r)| == if Position(g, r.Query()) == |g| then |g| + 1 else |g|
    ensures Collect(g, r)[k] ==
            if k == |g| then Entry(r.Query(), [r])
            else if g[k].key == r.Query() then Entry(g[k].key, g[k].value + [r])
            else g[k]
  {
  }

  /** Grouping partitions the records by query, in the order of first occurrence. */
  lemma {:induction false} GroupsPartition(rs: seq<Record>)
    ensures GroupingIsRight(rs, Group(rs)) && Distinct(Group(rs))
  {
    if rs != [] {
      var n := |rs| - 1;
      var init, r := rs[..n], rs[n];
      GroupsPartition(init);
      var g, g' := Group(init), Group(rs);
      assert rs == init + [r];
      forall k | 0 <= k < |g'| ensures GroupIsRight(rs, g'[k]) {
        GroupStep(init, r, g, k);
      }
      forall i, k | 0 <= i < k < |g'| ensures FirstOf(rs, g'[i].key) < FirstOf(rs, g'[k].key) {
        GroupStep(init, r, g, i);
        GroupStep(init, r, g, k);
        FirstOfAppend(init, r, g'[i].key);
        FirstOfAppend(init, r, g'[k].key);
        assert GroupIsRight(init, g[i]);
        if k < |g| {
          assert GroupIsRight(init, g[k]);
        }
      }
      EveryQueryHasAGroup(init, r);
    }
  }

  lemma EveryQueryHasAGroup(init: seq<Record>, r: Record)
    requires forall i | 0 <= i < |init| :: init[i].Query() in Keys(Group(init))
    ensures forall i | 0 <= i < |init + [r]| :: (init + [r])[i].Query() in Keys(Group(init + [r]))
  {
    var rs := init + [r];
    assert rs[..|init|] == init;
    var g, g' := Group(init), Group(rs);
    forall i | 0 <= i < |rs| ensures rs[i].Query() in Keys(g') {
      var k := Position(g, rs[i].Query());
      assert i < |init| ==> rs[i] == init[i];
      assert g'[k].key == rs[i].Query();
    }
  }

  /** A record without a query id stands for itself: its group is that record alone, if no other record names it as its query. */
  lemma {:induction false} UnnamedStandsAlone(rs: seq<Record>, i: nat)
    requires DistinctIds(rs) && i < |rs| && rs[i].queryId == "" != rs[i].id
    requires forall j | 0 <= j < |rs| && j != i :: rs[j].queryId != rs[i].id
    ensures OfQuery(rs, rs[i].id) == [rs[i]]
  {
    var n := |rs| - 1;
    if i < n {
      UnnamedStandsAlone(rs[..n], i);
    } else {
      NothingNamed(rs[..n], rs[i].id);
    }
  }

  /** A record with a query id belongs to that query, and to no other. */
  lemma {:induction false} NamedBelongsToItsQuery(rs: seq<Record>, i: nat, q: string)
    requires i < |rs| && rs[i].queryId != "" && DistinctIds(rs)
    ensures rs[i] in OfQuery(rs, q) <==> q == rs[i].queryId
  {
    var n := |rs| - 1;
    OnlyRecordsOfQuery(rs[..n], q);
    if i < n {
      NamedBelongsToItsQuery(rs[..n], i, q);
      assert rs[n].id != rs[i].id;
    }
  }

  lemma {:induction false} OnlyRecordsOfQuery(rs: seq<Record>, q: string)
    ensures forall r | r in OfQuery(rs, q) :: r in rs
  {
    if rs != [] {
      OnlyRecordsOfQuery(rs[..|rs| - 1], q);
    }
  }

  lemma {:induction false} NothingNamed(rs: seq<Record>, id: string)
    requires forall j | 0 <= j < |rs| :: rs[j].queryId != id && rs[j].id != id
    ensures OfQuery(rs, id) == []
  {
    if rs != [] {
      NothingNamed(rs[..|rs| - 1], id);
    }
  }

  lemma {:induction false} NotOfQuery(rs: seq<Record>, q: string)
    ensures FirstOf(rs, q) == |rs| ==> OfQuery(rs, q) == []
  {
    if rs != [] && FirstOf(rs, q) == |rs| {
      FirstIs(rs[..|rs| - 1], q, |rs| - 1);
      NotOfQuery(rs[..|rs| - 1], q);
    }
  }

  // ---- the context and the resolution agree ----------------------------------------------------------

  /** The candidates shown to the model: the first `limit` groups of the context window. */
  function Context(records: seq<Record>, namespace: string, limit: nat): Dict<seq<Record>> {
    var groups := Group(History(records, namespace, Max(10 * limit, 50)));
    if limit < |groups| then groups[..limit] else groups
  }

  /** `_resolve_base_query_reference` by query ids: the first record of the window with one of them. */
  function ResolveIds(entries: seq<Record>, ids: seq<string>): Option<Record> {
    if entries == [] then None
    else if entries[0].Query() in ids then Some(entries[0])
    else ResolveIds(entries[1..], ids)
  }

  /** The same by a bare candidate number, counted from 1. */
  function ResolveNumber(entries: seq<Record>, candidate: int): Option<Record> {
    if 1 <= candidate <= |entries| then Some(entries[candidate - 1]) else None
  }

  /** At most `limit` queries are shown, each with all its records among the newest ten times as many, 50 at least; fewer only if there are no more. */
  lemma ContextShowsTheNewestQueries(records: seq<Record>, namespace: string, limit: nat)
    ensures var shown, window := Context(records, namespace, limit), History(records, namespace, if limit < 5 then 50 else 10 * limit);
            && |shown| <= limit
            && (forall k | 0 <= k < |shown| :: GroupIsRight(window, shown[k]))
            && (|shown| < limit ==> forall i | 0 <= i < |window| :: window[i].Query() in Keys(shown))
  {
    GroupsPartition(History(records, namespace, if limit < 5 then 50 else 10 * limit));
  }

  lemma {:induction false} ResolveFirst(entries: seq<Record>, q: string)
    ensures ResolveIds(entries, [q]) == if FirstOf(entries, q) < |entries| then Some(entries[FirstOf(entries, q)]) else None
  {
    if entries != [] {
      ResolveFirst(entries[1..], q);
    }
  }

  /** The shown group of candidate `k` is headed by the newest record of its query in the whole session. */
  lemma ShownHeadIsNewest(newest: seq<Record>, size: nat, k: nat)
    requires k < |Group(Take(newest, size))|
    ensures var shown := Group(Take(newest, size))[k];
            && shown.value != [] && FirstOf(newest, shown.key) < |newest| && newest[FirstOf(newest, shown.key)] == shown.value[0]
            && FirstOf(newest, shown.key) < size
  {
    var window := Take(newest, size);
    GroupsPartition(window);
    assert GroupIsRight(window, Group(window)[k]);
    FirstOfTake(newest, size, Group(window)[k].key);
  }

  lemma FirstOfTake(newest: seq<Record>, size: nat, q: string)
    requires FirstOf(Take(newest, size), q) < |Take(newest, size)|
    ensures FirstOf(newest, q) == FirstOf(Take(newest, size), q)
  {
    var window := Take(newest, size);
    var p := FirstOf(window, q);
    forall i | 0 <= i < p ensures newest[i].Query() != q {
      assert window[i].Query() != q;
    }
    FirstIs(newest, q, p);
  }

  /** Within the newest `size` records a query id resolves to its newest record, if that is among them. */
  lemma ResolvesToNewest(newest: seq<Record>, size: nat, q: string)
    ensures var p := FirstOf(newest, q);
            ResolveIds(Take(newest, size), [q]) == if p < |newest| && p < size then Some(newest[p]) else None
  {
    var entries := Take(newest, size);
    var p := FirstOf(newest, q);
    FirstIs(entries, q, if p < |entries| then p else |entries|);
    ResolveFirst(entries, q);
  }

  /**
   The query id of candidate `k` resolves to the head of the group that was shown,
   exactly when that head is among the 50 newest records; that is always so for a
   context of at most five candidates.
   */
  lemma ContextAgreesWithResolution(records: seq<Record>, namespace: string, limit: nat, k: nat)
    requires k < |Context(records, namespace, limit)|
    ensures var shown := Context(records, namespace, limit)[k];
            var newest := Window(records, namespace);
            var resolved := ResolveIds(History(records, namespace, 50), [shown.key]);
            && shown.value != []
            && (resolved == Some(shown.value[0]) <==> FirstOf(newest, shown.key) < 50)
            && (limit <= 5 ==> resolved == Some(shown.value[0]))
  {
    var newest := Window(records, namespace);
    ShownHeadIsNewest(newest, Max(10 * limit, 50), k);
    ResolvesToNewest(newest, 50, Context(records, namespace, limit)[k].key);
  }

  /** No query occurs twice among the records up to position `k`. */
  predicate NoRepeats(rs: seq<Record>, k: nat) {
    forall i, j | 0 <= i < j <= k && j < |rs| :: rs[i].Query() != rs[j].Query()
  }

  /** The head of group `k` stands at position `k` exactly when no query repeats up to there. */
  lemma HeadIsAtItsNumber(rs: seq<Record>, k: nat)
    requires k < |Group(rs)|
    ensures FirstOf(rs, Group(rs)[k].key) == k <==> NoRepeats(rs, k)
  {
    var g := Group(rs);
    GroupsPartition(rs);
    assert GroupIsRight(rs, g[k]);
    AtLeastIndex(rs, g, k);
    if FirstOf(rs, g[k].key) == k {
      forall i, j | 0 <= i < j <= k && j < |rs| ensures rs[i].Query() != rs[j].Query() {
        ExactlyIndex(rs, g, k, i);
        ExactlyIndex(rs, g, k, j);
      }
    }
    if NoRepeats(rs, k) {
      PrefixIsKeys(rs, g, k);
    }
  }

  /** Where ids are distinct, a number resolves to the head of its group exactly when no query repeats up to there. */
  lemma NumberFindsHead(rs: seq<Record>, k: nat)
    requires DistinctIds(rs) && k < |Group(rs)|
    ensures k < |rs| && Group(rs)[k].value != []
    ensures rs[k] == Group(rs)[k].value[0] <==> NoRepeats(rs, k)
  {
    HeadIsAtItsNumber(rs, k);
    GroupsPartition(rs);
    assert GroupIsRight(rs, Group(rs)[k]);
    AtLeastIndex(rs, Group(rs), k);
  }

  lemma WindowIdsAreDistinct(records: seq<Record>, namespace: string)
    requires DistinctIds(records)
    ensures DistinctIds(Window(records, namespace))
  {
    var ps := NewestFirst(records, namespace, |records|);
    PlacedAreRecords(records, namespace, |records|);
    WindowIsOrdered(records, namespace, |records|);
    forall i, j | 0 <= i < j < |ps| ensures ps[i].record.id != ps[j].record.id {
      assert ps[i] in ps && ps[j] in ps && Newer(ps[i], ps[j]);
      assert IsPlaced(records, namespace, |records|, ps[i]) && IsPlaced(records, namespace, |records|, ps[j]);
    }
  }

  /**
   The bare number of candidate `k` resolves to the head of the group that was shown,
   exactly when it is among the 50 numbers looked up and no query repeats up to there.
   */
  lemma NumberAgreesIffNoRepeats(records: seq<Record>, namespace: string, limit: nat, k: nat)
    requires DistinctIds(records) && k < |Context(records, namespace, limit)|
    ensures var shown := Context(records, namespace, limit)[k];
            && shown.value != []
            && (ResolveNumber(History(records, namespace, 50), k + 1) == Some(shown.value[0])
                <==> k < 50 && NoRepeats(Window(records, namespace), k))
  {
    var newest := Window(records, namespace);
    var window := Take(newest, Max(10 * limit, 50));
    WindowIdsAreDistinct(records, namespace);
    NumberFindsHead(window, k);
    assert forall i | 0 <= i < |window| :: window[i] == newest[i];
  }

  lemma {:induction false} AtLeastIndex(rs: seq<Record>, g: Dict<seq<Record>>, k: nat)
    requires GroupingIsRight(rs, g) && k < |g|
    ensures FirstOf(rs, g[k].key) >= k
  {
    if k > 0 {
      AtLeastIndex(rs, g, k - 1);
    }
  }

  lemma {:induction false} ExactlyIndex(rs: seq<Record>, g: Dict<seq<Record>>, k: nat, i: nat)
    requires GroupingIsRight(rs, g) && i <= k < |g| && FirstOf(rs, g[k].key) == k
    ensures FirstOf(rs, g[i].key) == i
    decreases k - i
  {
    if i < k {
      ExactlyIndex(rs, g, k, i + 1);
      AtLeastIndex(rs, g, i);
    }
  }

  /** If no query repeats up to position `k`, record `k` starts group `k`. */
  lemma {:induction false} PrefixIsKeys(rs: seq<Record>, g: Dict<seq<Record>>, k: nat)
    requires GroupingIsRight(rs, g) && k < |g|
    requires NoRepeats(rs, k)
    ensures FirstOf(rs, g[k].key) == k
  {
    AtLeastIndex(rs, g, k);
    assert GroupIsRight(rs, g[k]);
    if FirstOf(rs, g[k].key) > k {
      var m := Position(g, rs[k].Query());
      assert rs[k].Query() in Keys(g);
      FirstIs(rs, rs[k].Query(), k);
      if m < k {
        PrefixIsKeys(rs, g, m);
      }
    }
  }
}
