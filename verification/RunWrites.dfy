/**
 What a run's row and its events are, said without the tables: a history is read as
 the writes to each run that had effect, and the row is the last of them.
 */
module RunWrites {
  import opened Basics
  import opened RunDb
  import opened RunHistory
  import opened RunEvents

  /** A save or a completion that had effect; a completion always leaves an event. */
  datatype Write = Write(session: string, owner: Principal, status: RunStatus, payload: Snapshot, completes: bool)

  function StatusGiven(st: RunState): RunStatus {
    match st.status case Some(status) => status case None => Other("unknown")
  }

  function OwnerGiven(st: RunState): Principal {
    Principal(if st.userId == "" then "local" else st.userId, if st.workspaceId == "" then "local" else st.workspaceId)
  }

  /** May a save of `st` follow the writes `ws`? Only by the owner, and never to another status after a terminal one. */
  predicate Takes(ws: seq<Write>, st: RunState) {
    && st.requestId != "" && st.sessionId != ""
    && (ws != [] ==>
          var last := ws[|ws| - 1];
          last.owner == OwnerGiven(st) && (last.status.Terminal() ==> last.status == StatusGiven(st)))
  }

  /** The writes to run `r` after one more call. */
  function WrittenBy(m: Moment, r: string, ws: seq<Write>): seq<Write> {
    match m.op
    case SaveRun(st, payload) =>
      if st.requestId == r && Takes(ws, st) then ws + [Write(st.sessionId, OwnerGiven(st), StatusGiven(st), payload, false)] else ws
    case CompleteKey(k, state, _) =>
      if k.request == r && ws != [] && Completes(m, k) then
        ws + [ws[|ws| - 1].(status := StatusGiven(state.st), payload := state, completes := true)]
      else ws
    case DropSession(session) => if ws != [] && ws[|ws| - 1].session == session then [] else ws
    case _ => ws
  }

  /** The writes to run `r` since it last came into being. */
  function Written(h: seq<Moment>, r: string): seq<Write> {
    if h == [] then [] else WrittenBy(h[|h| - 1], r, Written(h[..|h| - 1], r))
  }

  /** The events of those writes: the first, every completion, and every save that changes the status. */
  function Changes(r: string, ws: seq<Write>): seq<Event> {
    if ws == [] then []
    else
      var n := |ws|;
      var earlier := if n == 1 then None else Some(ws[n - 2].status);
      Changes(r, ws[..n - 1])
      + if ws[n - 1].completes || earlier != Some(ws[n - 1].status) then [Event(r, earlier, ws[n - 1].status, n)] else []
  }

  /** The row of `r` is the last of the writes, its version their number, its events their changes. */
  predicate Records(db: Db, r: string, ws: seq<Write>) {
    && (r in db.runs <==> ws != [])
    && (ws != [] ==>
          var last := ws[|ws| - 1];
          db.runs[r] == Run(last.session, last.owner, last.status, |ws|, last.payload))
    && EventsOf(db.events, r) == Changes(r, ws)
  }

  lemma ChangesAfter(r: string, ws: seq<Write>, w: Write)
    ensures Changes(r, ws + [w]) == Changes(r, ws) +
              var earlier := if ws == [] then None else Some(ws[|ws| - 1].status);
              if w.completes || earlier != Some(w.status) then [Event(r, earlier, w.status, |ws| + 1)] else []
  {
    assert (ws + [w])[..|ws|] == ws;
  }

  /** One more write, with its event if it has one. */
  lemma RecordsGrow(db: Db, next: Db, r: string, ws: seq<Write>, w: Write)
    requires Records(db, r, ws)
    requires r in next.runs && next.runs[r] == Run(w.session, w.owner, w.status, |ws| + 1, w.payload)
    requires var earlier := if r in db.runs then Some(db.runs[r].status) else None;
             EventsOf(next.events, r) == EventsOf(db.events, r) +
               if w.completes || earlier != Some(w.status) then [Event(r, earlier, w.status, |ws| + 1)] else []
    ensures Records(next, r, ws + [w])
  {
    ChangesAfter(r, ws, w);
  }

  /**
   A save that is not ignored stores what it is given, one version up, and writes an event
   from the earlier status if and only if that was another; otherwise nothing of the run changes.
   */
  lemma SaveIsRecorded(db: Db, st: RunState, payload: Snapshot, r: string)
    ensures var next, earlier := Save(db, st, payload), if r in db.runs then Some(db.runs[r].status) else None;
            var version := (if r in db.runs then db.runs[r].version else 0) + 1;
            if r == st.requestId && !SaveIgnored(db, st) then
              && r in next.runs && next.runs[r] == Run(st.sessionId, OwnerGiven(st), StatusGiven(st), version, payload)
              && EventsOf(next.events, r) == EventsOf(db.events, r) +
                   if earlier == Some(StatusGiven(st)) then [] else [Event(r, earlier, StatusGiven(st), version)]
            else
              && EventsOf(next.events, r) == EventsOf(db.events, r)
              && (r in next.runs <==> r in db.runs) && (r in db.runs ==> next.runs[r] == db.runs[r])
  {
    var next := Save(db, st, payload);
    if |next.events| > |db.events| {
      var e := next.events[|db.events|];
      assert next.events == db.events + [e];
      EventsOfAppended(db.events, e, r);
    } else {
      assert next.events == db.events;
    }
  }

  lemma SaveStep(m: Moment, r: string, ws: seq<Write>)
    requires Legal(m) && m.op.SaveRun? && Records(m.before, r, ws)
    ensures Records(m.after, r, WrittenBy(m, r, ws))
  {
    var st := m.op.st;
    SaveIsRecorded(m.before, st, m.op.payload, r);
    assert st.requestId == r ==> (Takes(ws, st) <==> !SaveIgnored(m.before, st));
    if st.requestId == r && Takes(ws, st) {
      RecordsGrow(m.before, m.after, r, ws, Write(st.sessionId, OwnerGiven(st), StatusGiven(st), m.op.payload, false));
    }
  }

  lemma CompletionStep(m: Moment, r: string, ws: seq<Write>)
    requires Legal(m) && m.op.CompleteKey? && Records(m.before, r, ws)
    ensures Records(m.after, r, WrittenBy(m, r, ws))
  {
    if Completes(m, m.op.key) {
      EventsOfAppended(m.before.events, m.after.events[|m.before.events|], r);
      if m.op.key.request == r {
        RecordsGrow(m.before, m.after, r, ws, ws[|ws| - 1].(status := StatusGiven(m.op.state.st), payload := m.op.state, completes := true));
      }
    }
  }

  lemma DropStep(m: Moment, r: string, ws: seq<Write>)
    requires Legal(m) && m.op.DropSession? && Records(m.before, r, ws)
    ensures Records(m.after, r, WrittenBy(m, r, ws))
  {
    EventsOfRemaining(m.before.events, RunsOfSession(m.before, m.op.session), r);
  }

  lemma WriteStep(m: Moment, r: string, ws: seq<Write>)
    requires Legal(m) && Records(m.before, r, ws)
    ensures Records(m.after, r, WrittenBy(m, r, ws))
  {
    match m.op
    case SaveRun(_, _) => SaveStep(m, r, ws);
    case CompleteKey(_, _, _) => CompletionStep(m, r, ws);
    case DropSession(_) => DropStep(m, r, ws);
    case _ => assert m.after.runs == m.before.runs && m.after.events == m.before.events;
  }

  /**
   In every reachable store a run is there exactly if it was written since its session was last
   deleted; its session, owner, status and payload are those of the last write, its version is the
   number of writes, and its events are their changes of status, one by one.
   */
  lemma {:induction false} RowIsItsLastWrite(h: seq<Moment>, r: string)
    requires IsHistory(h) && h != [] && h[0].before == EMPTY
    ensures Records(h[|h| - 1].after, r, Written(h, r))
  {
    var n := |h| - 1;
    if n > 0 {
      RowIsItsLastWrite(h[..n], r);
      assert Follows(h[n - 1], h[n]);
    }
    assert Legal(h[n]);
    WriteStep(h[n], r, Written(h[..n], r));
  }

  /** The last event of a run carries the status of the last write that had effect. */
  lemma {:induction false} LastEventIsTheStatus(r: string, ws: seq<Write>)
    requires ws != []
    ensures var es := Changes(r, ws); es != [] && es[|es| - 1].to == ws[|ws| - 1].status
  {
    if |ws| > 1 {
      LastEventIsTheStatus(r, ws[..|ws| - 1]);
    }
  }

  // ---- receipts ------------------------------------------------------------------------------

  /** A receipt has a lease exactly while it is in progress, an answer once it is completed, and was claimed at least once. */
  predicate Shaped(receipt: Receipt) {
    && (receipt.status.InProgress? <==> receipt.lease.Some?)
    && (receipt.status.Completed? ==> receipt.response.Some?)
    && receipt.attempts > 0
  }

  ghost predicate AllShaped(db: Db) {
    forall k | k in db.receipts :: Shaped(db.receipts[k])
  }

  lemma StepKeepsShaped(m: Moment)
    requires Legal(m) && AllShaped(m.before)
    ensures AllShaped(m.after)
  {
  }

  /** So in every reachable store a completed receipt is never claimed again, and no lease is left over. */
  lemma {:induction false} ReceiptsAreShaped(h: seq<Moment>, i: nat)
    requires IsHistory(h) && i < |h| && h[0].before == EMPTY
    ensures AllShaped(h[i].before) && AllShaped(h[i].after)
  {
    if i > 0 {
      ReceiptsAreShaped(h, i - 1);
      assert Follows(h[i - 1], h[i]);
    }
    assert Legal(h[i]);
    StepKeepsShaped(h[i]);
  }
}
