/**
 Histories of the run store: every interleaving of store calls by any number of
 callers, on a clock that does not run backwards.  Each call is one atomic step.
 */
module RunHistory {
  import opened Basics
  import opened RunDb

  datatype Op =
    | SaveRun(st: RunState, payload: Snapshot)
    | ClaimKey(key: Key, owner: Principal, leaseSeconds: int)
    | CompleteKey(key: Key, state: Snapshot, response: Json)
    | FailKey(key: Key)
    | RenewKey(key: Key, leaseSeconds: int)
    | DropSession(session: string)

  datatype Answer = Nothing | OfClaim(claim: ClaimAnswer) | OfRenewal(renewed: bool)

  /** One call: the tables around it, and the clock when it starts and when it writes. */
  datatype Moment = Moment(before: Db, op: Op, checked: real, stamped: real, after: Db, answer: Answer)

  function Apply(db: Db, op: Op, checked: real, stamped: real): (Db, Answer) {
    match op
    case SaveRun(st, payload) => (Save(db, st, payload), Nothing)
    case ClaimKey(k, owner, lease) => var (next, answer) := Claim(db, k, owner, lease, checked, stamped); (next, OfClaim(answer))
    case CompleteKey(k, state, response) => (Complete(db, k, state, response), Nothing)
    case FailKey(k) => (Fail(db, k), Nothing)
    case RenewKey(k, lease) => var (next, renewed) := Renew(db, k, lease, stamped); (next, OfRenewal(renewed))
    case DropSession(session) => (DeleteSession(db, session), Nothing)
  }

  predicate Legal(m: Moment) {
    m.checked <= m.stamped && (m.after, m.answer) == Apply(m.before, m.op, m.checked, m.stamped)
  }

  predicate Follows(m: Moment, n: Moment) {
    m.after == n.before && m.stamped <= n.checked
  }

  ghost predicate IsHistory(h: seq<Moment>) {
    && (forall i | 0 <= i < |h| :: Legal(h[i]))
    && (forall i, j | 0 <= i && j == i + 1 < |h| :: Follows(h[i], h[j]))
  }

  // ---- what one call does to one key -------------------------------------------------

  predicate Claims(m: Moment, k: Key) {
    m.op.ClaimKey? && m.op.key == k && m.answer == OfClaim(Claimed)
  }

  predicate Renews(m: Moment, k: Key) {
    m.op.RenewKey? && m.op.key == k && m.answer == OfRenewal(true)
  }

  predicate Fails(m: Moment, k: Key) {
    m.op == FailKey(k)
  }

  /** The call deletes the run that `k` belongs to. */
  predicate Drops(m: Moment, k: Key) {
    k.request in m.before.runs && k.request !in m.after.runs
  }

  /** The call turns the receipt of `k` from in progress to completed. */
  predicate Completes(m: Moment, k: Key) {
    m.op.CompleteKey? && m.op.key == k && CanComplete(m.before, k, m.op.state.st.Owner())
  }

  // ---- lease exclusion ---------------------------------------------------------------

  predicate WritesLease(m: Moment, k: Key) {
    Claims(m, k) || Renews(m, k)
  }

  /** A lease ends the given number of seconds after it is written, but at least one. */
  function LeaseWritten(m: Moment, k: Key): real
    requires WritesLease(m, k)
  {
    m.stamped + Lasting(m.op.leaseSeconds)
  }

  function Lasting(seconds: int): real {
    if seconds < 1 then 1.0 else seconds as real
  }

  /** The last lease end written for `k` by the calls `i..j`, the first of which writes one. */
  function LastLease(h: seq<Moment>, i: nat, j: nat, k: Key): real
    requires i < j <= |h| && WritesLease(h[i], k)
    decreases j
  {
    if WritesLease(h[j - 1], k) then LeaseWritten(h[j - 1], k) else LastLease(h, i, j - 1, k)
  }

  ghost predicate Undisturbed(h: seq<Moment>, i: nat, j: nat, k: Key)
    requires j <= |h|
  {
    forall m | i < m < j :: !Fails(h[m], k) && !Drops(h[m], k)
  }

  /** The key is either settled for good or in progress under a lease that ends at `lease`. */
  predicate Leased(db: Db, k: Key, lease: real) {
    && k.request in db.runs && k in db.receipts
    && (Answered(db.receipts[k]) || (db.receipts[k].status.InProgress? && db.receipts[k].lease == Some(lease)))
  }

  lemma LeaseStep(m: Moment, k: Key, lease: real)
    requires Legal(m) && Leased(m.before, k, lease) && !Fails(m, k) && !Drops(m, k)
    ensures Leased(m.after, k, if WritesLease(m, k) then LeaseWritten(m, k) else lease)
  {
  }

  lemma {:induction false} LeaseIsHeld(h: seq<Moment>, i: nat, j: nat, k: Key)
    requires IsHistory(h) && i < j <= |h| && Claims(h[i], k) && Undisturbed(h, i, j, k)
    ensures Leased(h[j - 1].after, k, LastLease(h, i, j, k))
    decreases j
  {
    if i < j - 1 {
      LeaseIsHeld(h, i, j - 1, k);
      assert Legal(h[j - 1]) && Follows(h[j - 2], h[j - 1]);
      LeaseStep(h[j - 1], k, LastLease(h, i, j - 1, k));
    } else {
      assert Legal(h[i]);
    }
  }

  /**
   Two claims of one key that are both granted are separated by a failure report
   for that key, by the deletion of its run, or by the last lease running out.
   */
  lemma LeaseExclusion(h: seq<Moment>, i: nat, j: nat, k: Key)
    requires IsHistory(h) && i < j < |h| && Claims(h[i], k) && Claims(h[j], k)
    ensures || (exists m :: i < m < j && Fails(h[m], k))
            || (exists m :: i < m < j && Drops(h[m], k))
            || LastLease(h, i, j, k) <= h[j].checked
  {
    if Undisturbed(h, i, j, k) {
      LeaseIsHeld(h, i, j, k);
      assert Legal(h[j]) && Follows(h[j - 1], h[j]);
    }
  }

  /** While nobody fails, drops or renews the key, the granted lease keeps every other claimant out for its full length. */
  lemma LeaseLastsItsFullLength(h: seq<Moment>, i: nat, j: nat, k: Key)
    requires IsHistory(h) && i < j < |h| && Claims(h[i], k) && Undisturbed(h, i, j, k)
    requires forall m | i < m < j :: !WritesLease(h[m], k)
    requires h[j].op.ClaimKey? && h[j].op.key == k && h[j].checked < h[i].stamped + Lasting(h[i].op.leaseSeconds)
    ensures h[j].answer != OfClaim(Claimed) && h[j].after == h[j].before
  {
    LeaseIsHeld(h, i, j, k);
    LastLeaseIsFirst(h, i, j, k);
    assert Legal(h[j]) && Follows(h[j - 1], h[j]);
  }

  lemma {:induction false} LastLeaseIsFirst(h: seq<Moment>, i: nat, j: nat, k: Key)
    requires i < j <= |h| && WritesLease(h[i], k) && forall m | i < m < j :: !WritesLease(h[m], k)
    ensures LastLease(h, i, j, k) == LeaseWritten(h[i], k)
    decreases j
  {
    if i < j - 1 {
      LastLeaseIsFirst(h, i, j - 1, k);
    }
  }

  // ---- attempts ----------------------------------------------------------------------

  /** How many claims of `k` were granted since its receipt came into being. */
  function ClaimsGranted(h: seq<Moment>, k: Key): nat {
    if h == [] then 0
    else
      var m := h[|h| - 1];
      if k !in m.after.receipts then 0
      else ClaimsGranted(h[..|h| - 1], k) + if Claims(m, k) then 1 else 0
  }

  /** How often `k` was completed since its receipt came into being. */
  function Completions(h: seq<Moment>, k: Key): nat {
    if h == [] then 0
    else
      var m := h[|h| - 1];
      if k !in m.after.receipts then 0
      else Completions(h[..|h| - 1], k) + if Completes(m, k) then 1 else 0
  }

  lemma {:induction false} AttemptsCountClaims(h: seq<Moment>, k: Key)
    requires IsHistory(h) && h != [] && h[0].before == EMPTY
    ensures k !in h[|h| - 1].after.receipts ==> ClaimsGranted(h, k) == 0
    ensures k in h[|h| - 1].after.receipts ==> h[|h| - 1].after.receipts[k].attempts == ClaimsGranted(h, k)
  {
    var n := |h| - 1;
    assert Legal(h[n]);
    if n > 0 {
      assert Follows(h[n - 1], h[n]);
      AttemptsCountClaims(h[..n], k);
    }
  }

  /** Completions never outnumber granted claims, and a receipt still in progress has one claim in hand. */
  lemma {:induction false} CompletionsNeverExceedAttempts(h: seq<Moment>, k: Key)
    requires IsHistory(h) && h != [] && h[0].before == EMPTY && k in h[|h| - 1].after.receipts
    ensures var r := h[|h| - 1].after.receipts[k];
            Completions(h, k) + (if r.status.InProgress? then 1 else 0) <= r.attempts
  {
    var n := |h| - 1;
    assert Legal(h[n]);
    if n > 0 {
      assert Follows(h[n - 1], h[n]);
      if k in h[n - 1].after.receipts {
        CompletionsNeverExceedAttempts(h[..n], k);
      } else {
        assert Completions(h[..n], k) == 0;
      }
    }
  }

  // ---- at-most-once completion ---------------------------------------------------------

  /** The receipt and the run row change together, with one event, or nothing changes at all. */
  lemma CompletionIsAllOrNothing(db: Db, k: Key, state: Snapshot, response: Json)
    ensures var next := Complete(db, k, state, response);
            || next == db
            || (&& k in db.receipts && db.receipts[k].status.InProgress? && Answered(next.receipts[k])
                && next.receipts[k].response == Some(response)
                && k.request in db.runs && next.runs[k.request].version == db.runs[k.request].version + 1
                && next.runs[k.request].status == state.st.Status() && next.runs[k.request].state == state
                && |next.events| == |db.events| + 1 && EventsOf(next.events, k.request) != EventsOf(db.events, k.request))
    ensures var next := Complete(db, k, state, response);
            && next.runs.Keys == db.runs.Keys && next.receipts.Keys == db.receipts.Keys
            && (forall r | r in db.runs && r != k.request :: next.runs[r] == db.runs[r])
            && (forall other | other in db.receipts && other != k :: next.receipts[other] == db.receipts[other])
  {
    var next := Complete(db, k, state, response);
    if next != db {
      assert next.events[..|next.events| - 1] == db.events;
    }
  }

  /** From a completion on, while `k` is neither failed nor dropped, the stored response stays. */
  lemma {:induction false} ResponseIsKept(h: seq<Moment>, i: nat, j: nat, k: Key)
    requires IsHistory(h) && i < j <= |h| && Completes(h[i], k) && Undisturbed(h, i, j, k)
    ensures k.request in h[j - 1].after.runs
    ensures h[j - 1].after.runs[k.request].owner == h[i].op.state.st.Owner()
    ensures k in h[j - 1].after.receipts && Answered(h[j - 1].after.receipts[k])
    ensures h[j - 1].after.receipts[k].response == Some(h[i].op.response)
    decreases j
  {
    assert Legal(h[j - 1]);
    if i < j - 1 {
      assert Follows(h[j - 2], h[j - 1]);
      ResponseIsKept(h, i, j - 1, k);
      assert !Fails(h[j - 1], k) && !Drops(h[j - 1], k);
    }
  }

  /** Every later claim by the owner is answered with exactly that response; anyone else learns nothing. */
  lemma LaterClaimsGetTheStoredResponse(h: seq<Moment>, i: nat, j: nat, k: Key)
    requires IsHistory(h) && i < j < |h| && Completes(h[i], k) && Undisturbed(h, i, j, k)
    requires h[j].op.ClaimKey? && h[j].op.key == k
    ensures h[j].after == h[j].before
    ensures h[j].answer == OfClaim(if h[j].op.owner == h[i].op.state.st.Owner() then AlreadyCompleted(h[i].op.response) else NotFound)
  {
    ResponseIsKept(h, i, j, k);
    assert Legal(h[j]) && Follows(h[j - 1], h[j]);
  }

  predicate HoldsAnswer(db: Db, k: Key, response: Json) {
    k in db.receipts && Answered(db.receipts[k]) && db.receipts[k].response == Some(response)
  }

  /** After a completion the answer is lost at some point exactly if a failure is reported for the key or its run is deleted. */
  lemma AnswerIsLostOnlyByFailureOrDeletion(h: seq<Moment>, i: nat, j: nat, k: Key)
    requires IsHistory(h) && i < j <= |h| && Completes(h[i], k)
    ensures (exists m :: i < m < j && !HoldsAnswer(h[m].after, k, h[i].op.response))
            <==> exists m :: i < m < j && (Fails(h[m], k) || Drops(h[m], k))
  {
    if m :| i < m < j && !HoldsAnswer(h[m].after, k, h[i].op.response) {
      if Undisturbed(h, i, m + 1, k) {
        ResponseIsKept(h, i, m + 1, k);
      }
    }
    if m :| i < m < j && (Fails(h[m], k) || Drops(h[m], k)) {
      UndoingLosesTheAnswer(h[m], k, h[i].op.response);
    }
  }

  lemma UndoingLosesTheAnswer(m: Moment, k: Key, response: Json)
    requires Legal(m) && (Fails(m, k) || Drops(m, k))
    ensures !HoldsAnswer(m.after, k, response)
  {
  }

  /** Without a failure report or a deletion in between, a key is completed at most once, whoever tries. */
  lemma AtMostOneCompletion(h: seq<Moment>, i: nat, j: nat, k: Key)
    requires IsHistory(h) && i < j < |h| && Completes(h[i], k) && Undisturbed(h, i, j, k)
    ensures !Completes(h[j], k)
  {
    ResponseIsKept(h, i, j, k);
    assert Follows(h[j - 1], h[j]);
  }

  // ---- failing and renewing ---------------------------------------------------------------

  /** A failure report frees the key: from then on any claim by the owner is granted, whatever the clock says, as one attempt more. */
  lemma FailureFreesTheKey(db: Db, k: Key, owner: Principal, seconds: int, checked: real, stamped: real)
    requires k in db.receipts && k.request in db.runs && db.runs[k.request].owner == owner
    ensures var (next, answer) := Claim(Fail(db, k), k, owner, seconds, checked, stamped);
            && answer == Claimed && next.receipts[k].attempts == db.receipts[k].attempts + 1
            && next.receipts[k].response == db.receipts[k].response
    ensures Fail(db, k).runs == db.runs && Fail(db, k).events == db.events
    ensures forall other | other in db.receipts && other != k :: Fail(db, k).receipts[other] == db.receipts[other]
  {
  }

  /** Renewing succeeds exactly in progress; then nobody is granted the key before the new end, and its holder can still complete. */
  lemma RenewalKeepsOthersOut(db: Db, k: Key, seconds: int, stamped: real, owner: Principal, again: int, checked: real, written: real)
    ensures var (next, renewed) := Renew(db, k, seconds, stamped);
            && (renewed <==> k in db.receipts && db.receipts[k].status.InProgress?)
            && (!renewed ==> next == db)
            && (renewed ==>
                  (Claim(next, k, owner, again, checked, written).1 == Claimed
                   <==> k.request in db.runs && db.runs[k.request].owner == owner && stamped + Lasting(seconds) <= checked))
            && (CanComplete(next, k, owner) <==> CanComplete(db, k, owner))
  {
  }

  // ---- saving -----------------------------------------------------------------------------

  /** The calls of `save` that are ignored. */
  predicate SaveIgnored(db: Db, st: RunState) {
    || st.requestId == "" || st.sessionId == ""
    || (st.requestId in db.runs
        && var run := db.runs[st.requestId]; run.owner != st.Owner() || (run.status.Terminal() && run.status != st.Status()))
  }

  /** A save changes nothing exactly when it is ignored; otherwise its owner, and no one else, reads the saved payload back. */
  lemma SaveIsReadBack(db: Db, st: RunState, payload: Snapshot, reader: Principal)
    ensures Save(db, st, payload) == db <==> SaveIgnored(db, st)
    ensures !SaveIgnored(db, st) ==>
              && ReadState(Save(db, st, payload), st.requestId, reader) == (if reader == st.Owner() then Some(payload) else None)
              && Save(db, st, payload).runs[st.requestId].session == st.sessionId
    ensures forall r | r != st.requestId :: ReadState(Save(db, st, payload), r, reader) == ReadState(db, r, reader)
    ensures Save(db, st, payload).receipts == db.receipts
  {
    if !SaveIgnored(db, st) && st.requestId in db.runs {
      assert Save(db, st, payload).runs[st.requestId].version == db.runs[st.requestId].version + 1;
    }
  }

  // ---- ownership, terminal statuses, versions -------------------------------------------

  /** The owner of a run never changes, its version never drops, and only a completion leaves a terminal status. */
  lemma RowDiscipline(m: Moment, r: string)
    requires Legal(m) && r in m.before.runs && r in m.after.runs
    ensures m.after.runs[r].owner == m.before.runs[r].owner
    ensures m.before.runs[r].version <= m.after.runs[r].version <= m.before.runs[r].version + 1
    ensures m.after.runs[r] != m.before.runs[r] ==> m.after.runs[r].version == m.before.runs[r].version + 1
    ensures m.before.runs[r].status.Terminal() && m.after.runs[r].status != m.before.runs[r].status
            ==> m.op.CompleteKey? && m.op.key.request == r && Completes(m, m.op.key)
  {
  }

  lemma {:induction false} OwnerNeverChanges(h: seq<Moment>, i: nat, j: nat, r: string)
    requires IsHistory(h) && i < j <= |h| && r in h[i].before.runs
    requires forall m | i <= m < j :: r in h[m].after.runs
    ensures h[j - 1].after.runs[r].owner == h[i].before.runs[r].owner
    ensures h[i].before.runs[r].version <= h[j - 1].after.runs[r].version
    ensures h[j - 1].after.runs[r].version == h[i].before.runs[r].version ==> h[j - 1].after.runs[r] == h[i].before.runs[r]
    decreases j
  {
    if i < j - 1 {
      OwnerNeverChanges(h, i, j - 1, r);
      assert Follows(h[j - 2], h[j - 1]);
    }
    RowDiscipline(h[j - 1], r);
  }

  /** Once terminal, a status can only be replaced by a completion. */
  lemma {:induction false} TerminalStatusSticks(h: seq<Moment>, i: nat, j: nat, r: string)
    requires IsHistory(h) && i < j <= |h| && r in h[i].before.runs && h[i].before.runs[r].status.Terminal()
    requires forall m | i <= m < j :: r in h[m].after.runs
    ensures || h[j - 1].after.runs[r].status == h[i].before.runs[r].status
            || exists m :: i <= m < j && h[m].op.CompleteKey? && h[m].op.key.request == r && Completes(h[m], h[m].op.key)
    decreases j
  {
    if i < j - 1 {
      TerminalStatusSticks(h, i, j - 1, r);
      assert Follows(h[j - 2], h[j - 1]);
    }
    RowDiscipline(h[j - 1], r);
  }
}
