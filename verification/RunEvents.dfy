/** The status events of a run form one unbroken chain that ends in its row. */
module RunEvents {
  import opened Basics
  import opened RunDb
  import opened RunHistory

  ghost predicate Chained(es: seq<Event>, run: Run) {
    && es != [] && es[0].from == None && es[0].version == 1
    && (forall i, j | 0 <= i && j == i + 1 < |es| :: es[j].from == Some(es[i].to) && es[i].version < es[j].version)
    && es[|es| - 1].to == run.status && es[|es| - 1].version <= run.version
  }

  ghost predicate Traced(db: Db, r: string) {
    if r in db.runs then Chained(EventsOf(db.events, r), db.runs[r]) else EventsOf(db.events, r) == []
  }

  /** Every run has a chain of events, and no event or receipt is left of a run that is gone. */
  ghost predicate Consistent(db: Db) {
    && (forall r :: Traced(db, r))
    && (forall k | k in db.receipts :: k.request in db.runs)
  }

  lemma EventsOfAppended(events: seq<Event>, e: Event, r: string)
    ensures EventsOf(events + [e], r) == EventsOf(events, r) + if e.request == r then [e] else []
  {
    assert (events + [e])[..|events|] == events;
  }

  lemma {:induction false} EventsOfRemaining(events: seq<Event>, gone: set<string>, r: string)
    ensures EventsOf(WithoutRuns(events, gone), r) == if r in gone then [] else EventsOf(events, r)
  {
    if events != [] {
      var n := |events| - 1;
      EventsOfRemaining(events[..n], gone, r);
      EventsOfAppended(WithoutRuns(events[..n], gone), events[n], r);
    }
  }

  lemma ChainGrows(es: seq<Event>, run: Run, e: Event, next: Run)
    requires Chained(es, run)
    requires e.from == Some(run.status) && e.to == next.status && e.version == next.version == run.version + 1
    ensures Chained(es + [e], next)
  {
  }

  lemma SaveKeepsTraced(db: Db, st: RunState, payload: Snapshot, r: string)
    requires Traced(db, r)
    ensures Traced(Save(db, st, payload), r)
  {
    var next := Save(db, st, payload);
    if |next.events| > |db.events| {
      var e := next.events[|db.events|];
      assert next.events == db.events + [e];
      EventsOfAppended(db.events, e, r);
      if r == st.requestId && r in db.runs {
        ChainGrows(EventsOf(db.events, r), db.runs[r], e, next.runs[r]);
      }
    } else {
      assert next.events == db.events;
    }
  }

  lemma CompleteKeepsTraced(db: Db, k: Key, state: Snapshot, response: Json, r: string)
    requires Traced(db, r)
    ensures Traced(Complete(db, k, state, response), r)
  {
    if CanComplete(db, k, state.st.Owner()) {
      var next := Complete(db, k, state, response);
      var e := next.events[|db.events|];
      EventsOfAppended(db.events, e, r);
      if r == k.request {
        ChainGrows(EventsOf(db.events, r), db.runs[r], e, next.runs[r]);
      }
    }
  }

  lemma StepKeepsTraced(m: Moment, r: string)
    requires Legal(m) && Traced(m.before, r)
    ensures Traced(m.after, r)
  {
    match m.op
    case SaveRun(st, payload) => SaveKeepsTraced(m.before, st, payload, r);
    case CompleteKey(k, state, response) => CompleteKeepsTraced(m.before, k, state, response, r);
    case DropSession(session) => EventsOfRemaining(m.before.events, RunsOfSession(m.before, session), r);
    case _ => assert m.after.runs == m.before.runs && m.after.events == m.before.events;
  }

  /** Every store call keeps every run's chain. */
  lemma StepKeepsConsistent(m: Moment)
    requires Legal(m) && Consistent(m.before)
    ensures Consistent(m.after)
  {
    forall r ensures Traced(m.after, r) {
      StepKeepsTraced(m, r);
    }
  }

  /** In every history from the empty store the tables are consistent at every point. */
  lemma {:induction false} AlwaysConsistent(h: seq<Moment>, i: nat)
    requires IsHistory(h) && i < |h| && h[0].before == EMPTY
    ensures Consistent(h[i].before) && Consistent(h[i].after)
  {
    if i > 0 {
      AlwaysConsistent(h, i - 1);
      assert Follows(h[i - 1], h[i]);
    }
    assert Legal(h[i]);
    StepKeepsConsistent(h[i]);
  }

  /** What a reader of `list_events` may rely on, for any two of a run's events. */
  lemma {:induction false} EventVersionsAscend(es: seq<Event>, run: Run, i: nat, j: nat)
    requires Chained(es, run) && i < j < |es|
    ensures es[i].version < es[j].version <= run.version
    decreases j
  {
    if i < j - 1 {
      EventVersionsAscend(es, run, i, j - 1);
    }
    VersionsBounded(es, run, j);
  }

  lemma {:induction false} VersionsBounded(es: seq<Event>, run: Run, j: nat)
    requires Chained(es, run) && j < |es|
    ensures es[j].version <= run.version
    decreases |es| - j
  {
    if j < |es| - 1 {
      VersionsBounded(es, run, j + 1);
    }
  }
}
