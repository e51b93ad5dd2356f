/**
 The API workers behind the confirmation endpoints: each claims a key, works,
 perhaps renews its lease, and then completes or fails the receipt.  Any number of
 workers interleave with saves of run snapshots and with the deletion of sessions,
 from whatever tables an earlier process has left.
 */
module WorkerProtocol {
  import opened Basics
  import opened RunDb

  datatype Worker = Idle | Holding(key: Key, owner: Principal, lease: real)

  datatype System = System(db: Db, clock: real, workers: map<nat, Worker>)

  datatype Act =
    | Take(worker: nat, key: Key, owner: Principal, leaseSeconds: int, stamped: real)
    | Finish(worker: nat, state: Snapshot, response: Json)
    | GiveUp(worker: nat)
    | Extend(worker: nat, leaseSeconds: int, stamped: real)
    | SaveState(st: RunState, payload: Snapshot)
    | DropSession(session: string)
  {
    /** The act of a worker that holds something. */
    predicate ByHolder() {
      Finish? || GiveUp? || Extend?
    }
  }

  predicate Holds(s: System, w: nat) {
    w in s.workers && s.workers[w].Holding?
  }

  predicate HoldsKey(s: System, w: nat, k: Key) {
    Holds(s, w) && s.workers[w].key == k
  }

  /** One act at clock `at`. */
  ghost predicate Next(s: System, a: Act, at: real, t: System) {
    && s.clock <= at <= t.clock
    && (a.ByHolder() ==> Holds(s, a.worker))
    && match a
       case Take(w, k, owner, seconds, stamped) =>
         && !Holds(s, w) && at <= stamped <= t.clock
         && var (db, answer) := Claim(s.db, k, owner, seconds, at, stamped);
            && t.db == db
            && t.workers == if answer == Claimed then s.workers[w := Holding(k, owner, LeaseEnd(stamped, seconds))] else s.workers
       case Finish(w, state, response) =>
         && state.st.Owner() == s.workers[w].owner
         && t.db == Complete(s.db, s.workers[w].key, state, response)
         && t.workers == s.workers[w := Idle]
       case GiveUp(w) =>
         && t.db == Fail(s.db, s.workers[w].key)
         && t.workers == s.workers[w := Idle]
       case Extend(w, seconds, stamped) =>
         && at <= stamped <= t.clock
         && var (db, renewed) := Renew(s.db, s.workers[w].key, seconds, stamped);
            && t.db == db
            && t.workers == if renewed then s.workers[w := s.workers[w].(lease := LeaseEnd(stamped, seconds))] else s.workers
       case SaveState(st, payload) =>
         && t.db == Save(s.db, st, payload) && t.workers == s.workers
       case DropSession(session) =>
         && t.db == DeleteSession(s.db, session) && t.workers == s.workers
  }

  datatype Turn = Turn(before: System, act: Act, at: real, after: System)

  /** Any run of the workers; at its start nobody works, but the tables may hold anything. */
  ghost predicate IsRun(run: seq<Turn>) {
    && (forall i | 0 <= i < |run| :: Next(run[i].before, run[i].act, run[i].at, run[i].after))
    && (forall i, j | 0 <= i && j == i + 1 < |run| :: run[i].after == run[j].before)
    && (run != [] ==> run[0].before.workers == map[])
  }

  /** The act does not delete the run that `k` belongs to. */
  predicate Spares(s: System, t: System, k: Key) {
    k.request in s.db.runs ==> k.request in t.db.runs
  }

  ghost predicate SparesKey(run: seq<Turn>, k: Key) {
    forall i | 0 <= i < |run| :: Spares(run[i].before, run[i].after, k)
  }

  /** A holder of `k` that finishes, gives up or renews does so before its lease runs out. */
  predicate InTime(s: System, a: Act, at: real, k: Key) {
    a.ByHolder() && HoldsKey(s, a.worker, k) ==> at < s.workers[a.worker].lease
  }

  ghost predicate TimelyFor(run: seq<Turn>, k: Key) {
    forall i | 0 <= i < |run| :: InTime(run[i].before, run[i].act, run[i].at, k)
  }

  // ---- whoever holds a key -----------------------------------------------------------------

  /** Every holder of `k` works for the owner of its run. */
  ghost predicate HoldersOwn(s: System, k: Key) {
    forall w | HoldsKey(s, w, k) :: k.request in s.db.runs && s.db.runs[k.request].owner == s.workers[w].owner
  }

  lemma HoldersKeepTheirRun(s: System, a: Act, at: real, t: System, k: Key)
    requires HoldersOwn(s, k) && Next(s, a, at, t) && Spares(s, t, k)
    ensures HoldersOwn(t, k)
  {
    forall w | HoldsKey(t, w, k)
      ensures k.request in t.db.runs && t.db.runs[k.request].owner == t.workers[w].owner
    {
      assert HoldsKey(s, w, k) || (a.Take? && a.worker == w);
    }
  }

  lemma {:induction false} HoldersAlwaysOwn(run: seq<Turn>, k: Key, i: nat)
    requires IsRun(run) && SparesKey(run, k) && i < |run|
    ensures HoldersOwn(run[i].before, k)
  {
    if i > 0 {
      HoldersAlwaysOwn(run, k, i - 1);
      HoldersKeepTheirRun(run[i - 1].before, run[i - 1].act, run[i - 1].at, run[i - 1].after, k);
    }
  }

  predicate Working(db: Db, k: Key) {
    k in db.receipts && db.receipts[k].status.InProgress?
  }

  /** A claim of `k` is granted. */
  predicate Grants(turn: Turn, k: Key) {
    turn.act.Take? && turn.act.key == k && HoldsKey(turn.after, turn.act.worker, k)
  }

  /** A holder of `k` finishes or gives up. */
  predicate Ends(turn: Turn, k: Key) {
    (turn.act.Finish? || turn.act.GiveUp?) && HoldsKey(turn.before, turn.act.worker, k)
  }

  /** One act moves a receipt out of progress exactly when it ends the key, and into progress only by a grant. */
  lemma WorkingStep(turn: Turn, k: Key)
    requires Next(turn.before, turn.act, turn.at, turn.after) && HoldersOwn(turn.before, k) && Spares(turn.before, turn.after, k)
    ensures Grants(turn, k) ==> Working(turn.after.db, k)
    ensures Ends(turn, k) ==> !Working(turn.after.db, k)
    ensures !Grants(turn, k) && !Ends(turn, k) && k.request in turn.before.db.runs
            ==> (Working(turn.after.db, k) <==> Working(turn.before.db, k))
  {
  }

  /** From a grant on, while no other claim is granted, the receipt is in progress until the first holder ends it. */
  lemma {:induction false} WorkingUntilEnded(run: seq<Turn>, k: Key, i: nat, j: nat)
    requires IsRun(run) && SparesKey(run, k) && i < j <= |run| && Grants(run[i], k)
    requires forall m | i < m < j :: !Grants(run[m], k)
    ensures k.request in run[j - 1].after.db.runs
    ensures Working(run[j - 1].after.db, k) <==> !exists m :: i < m < j && Ends(run[m], k)
    decreases j
  {
    HoldersAlwaysOwn(run, k, j - 1);
    WorkingStep(run[j - 1], k);
    if i < j - 1 {
      WorkingUntilEnded(run, k, i, j - 1);
      assert run[j - 2].after == run[j - 1].before;
      assert Spares(run[j - 1].before, run[j - 1].after, k);
    }
  }

  /**
   Which completion counts: the one of the worker that was granted the key last takes
   effect exactly when no earlier holder finished or gave up the key since then.
   */
  lemma LastHolderCounts(run: seq<Turn>, k: Key, i: nat, j: nat)
    requires IsRun(run) && SparesKey(run, k) && i < j < |run| && Grants(run[i], k)
    requires forall m | i < m < j :: !Grants(run[m], k)
    requires run[j].act.Finish? && run[j].act.worker == run[i].act.worker && HoldsKey(run[j].before, run[j].act.worker, k)
    ensures CanComplete(run[j].before.db, k, run[j].act.state.st.Owner()) <==> !exists m :: i < m < j && Ends(run[m], k)
  {
    WorkingUntilEnded(run, k, i, j);
    HoldersAlwaysOwn(run, k, j);
    assert run[j - 1].after == run[j].before;
  }

  // ---- workers that keep their leases ----------------------------------------------------------

  predicate Live(s: System, w: nat, k: Key) {
    HoldsKey(s, w, k) && s.clock < s.workers[w].lease
  }

  /** The live holder of `k` has the receipt in progress under its own lease, so there is at most one. */
  ghost predicate KeyInv(s: System, k: Key) {
    && HoldersOwn(s, k)
    && (forall w | Live(s, w, k) :: Working(s.db, k) && s.db.receipts[k].lease == Some(s.workers[w].lease))
    && (forall v, w | Live(s, v, k) && Live(s, w, k) :: v == w)
  }

  /** A stored answer of `k` survives from `s` to `t`. */
  predicate KeepsAnswer(s: System, t: System, k: Key) {
    k in s.db.receipts && Answered(s.db.receipts[k]) ==> k in t.db.receipts && t.db.receipts[k] == s.db.receipts[k]
  }

  lemma LiveHoldersKeepTheirLease(s: System, a: Act, at: real, t: System, k: Key, w: nat)
    requires KeyInv(s, k) && Next(s, a, at, t) && InTime(s, a, at, k) && Spares(s, t, k) && Live(t, w, k)
    ensures Working(t.db, k) && t.db.receipts[k].lease == Some(t.workers[w].lease)
    ensures forall v | Live(t, v, k) :: v == w
  {
    if a.ByHolder() && HoldsKey(s, a.worker, k) {
      assert Live(s, a.worker, k);
    }
    if HoldsKey(s, w, k) && !(a.Extend? && a.worker == w) {
      assert Live(s, w, k);
    }
    forall v | Live(t, v, k) ensures v == w {
      if HoldsKey(s, v, k) && !(a.Extend? && a.worker == v) {
        assert Live(s, v, k);
      }
    }
  }

  /** A timely act that spares the run of `k` keeps its live holder alone and its stored answer; finishing takes effect. */
  lemma TimelyStep(s: System, a: Act, at: real, t: System, k: Key)
    requires KeyInv(s, k) && Next(s, a, at, t) && InTime(s, a, at, k) && Spares(s, t, k)
    ensures KeyInv(t, k) && KeepsAnswer(s, t, k)
    ensures a.Finish? && HoldsKey(s, a.worker, k) ==> CanComplete(s.db, k, a.state.st.Owner())
  {
    HoldersKeepTheirRun(s, a, at, t, k);
    forall w | Live(t, w, k) {
      LiveHoldersKeepTheirLease(s, a, at, t, k, w);
    }
    forall v, w | Live(t, v, k) && Live(t, w, k) ensures v == w {
      LiveHoldersKeepTheirLease(s, a, at, t, k, w);
    }
    if a.ByHolder() && HoldsKey(s, a.worker, k) {
      assert Live(s, a.worker, k);
    }
  }

  lemma {:induction false} TimelyRunsKeepInv(run: seq<Turn>, k: Key, i: nat)
    requires IsRun(run) && SparesKey(run, k) && TimelyFor(run, k) && i < |run|
    ensures KeyInv(run[i].before, k) && KeyInv(run[i].after, k)
  {
    if i > 0 {
      TimelyRunsKeepInv(run, k, i - 1);
    }
    TimelyStep(run[i].before, run[i].act, run[i].at, run[i].after, k);
  }

  lemma {:induction false} AnswersStay(run: seq<Turn>, k: Key, i: nat, j: nat)
    requires IsRun(run) && SparesKey(run, k) && TimelyFor(run, k) && i <= j < |run|
    ensures KeepsAnswer(run[i].before, run[j].after, k)
    decreases j
  {
    TimelyRunsKeepInv(run, k, j);
    TimelyStep(run[j].before, run[j].act, run[j].at, run[j].after, k);
    if i < j {
      AnswersStay(run, k, i, j - 1);
    }
  }

  predicate Finishes(turn: Turn, k: Key) {
    turn.act.Finish? && HoldsKey(turn.before, turn.act.worker, k)
  }

  /**
   Whatever happens to other keys and other sessions: if the holders of `k` keep their
   leases and its run is not deleted, `k` is finished at most once, with effect, and
   the response is what its receipt holds ever after.
   */
  lemma TimelyWorkersCompleteOnce(run: seq<Turn>, k: Key, i: nat, j: nat)
    requires IsRun(run) && SparesKey(run, k) && TimelyFor(run, k) && i < |run| && j < |run| && Finishes(run[i], k)
    ensures CanComplete(run[i].before.db, k, run[i].act.state.st.Owner())
    ensures i < j ==> !Finishes(run[j], k)
    ensures i <= j ==> k in run[j].after.db.receipts && run[j].after.db.receipts[k].status.Completed?
                       && run[j].after.db.receipts[k].response == Some(run[i].act.response)
  {
    TimelyRunsKeepInv(run, k, i);
    TimelyStep(run[i].before, run[i].act, run[i].at, run[i].after, k);
    if i < j {
      AnswersStay(run, k, i + 1, j);
      TimelyRunsKeepInv(run, k, j);
      TimelyStep(run[j].before, run[j].act, run[j].at, run[j].after, k);
      if i + 1 < j {
        AnswersStay(run, k, i + 1, j - 1);
      }
    }
  }

  // ---- what happens when a worker is late: the lease carries no fencing token ----------

  /** After a takeover the late first worker still completes, and the new holder's result is dropped. */
  lemma LateWorkerWins(db: Db, k: Key, seconds: int, clock: real, late: Snapshot, lateAnswer: Json, current: Snapshot, answer: Json)
    requires CanComplete(db, k, late.st.Owner()) && late.st.Owner() == current.st.Owner() && Retakable(db.receipts[k], clock)
    ensures var (taken, claim) := Claim(db, k, late.st.Owner(), seconds, clock, clock);
            && claim == Claimed && CanComplete(taken, k, late.st.Owner())
            && var done := Complete(taken, k, late, lateAnswer);
               done.receipts[k].response == Some(lateAnswer) && Complete(done, k, current, answer) == done
  {
  }

  /** A late failure report reopens a completed key, so a second completion becomes possible. */
  lemma LateFailureReopens(db: Db, k: Key, seconds: int, clock: real, again: Snapshot, answer: Json)
    requires k in db.receipts && Answered(db.receipts[k])
    requires k.request in db.runs && db.runs[k.request].owner == again.st.Owner()
    ensures var (taken, claim) := Claim(Fail(db, k), k, again.st.Owner(), seconds, clock, clock);
            && claim == Claimed && taken.receipts[k].attempts == db.receipts[k].attempts + 1
            && Complete(taken, k, again, answer).receipts[k].response == Some(answer)
  {
  }

  // ---- claiming with the import of an older pending run --------------------------------

  function ClaimOrImport(db: Db, k: Key, st: RunState, payload: Snapshot, owner: Principal, seconds: int, clock: real): (Db, ClaimAnswer) {
    var (next, answer) := Claim(db, k, owner, seconds, clock, clock);
    if answer == NotFound then Claim(Save(next, st, payload), k, owner, seconds, clock, clock) else (next, answer)
  }

  /** The endpoint reports a missing run exactly when someone else owns it or the state to import is not the caller's. */
  lemma ImportDecides(db: Db, k: Key, st: RunState, payload: Snapshot, owner: Principal, seconds: int, clock: real)
    requires st.requestId == k.request
    ensures ClaimOrImport(db, k, st, payload, owner, seconds, clock).1 == NotFound
            <==> if k.request in db.runs then db.runs[k.request].owner != owner
                 else k.request == "" || st.sessionId == "" || st.Owner() != owner
  {
  }
}
