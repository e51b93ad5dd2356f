/**
 The run store as the object that the API drives.  Every method runs the SQL
 statements of one call in order and leaves the tables exactly as the matching
 function of `RunDb` says.
 */
module RunStores {
  import opened Basics
  import opened RunDb

  class RunStore {
    var runs: map<string, Run>
    var receipts: map<Key, Receipt>
    var events: seq<Event>

    ghost function Tables(): Db
      reads this
    {
      Db(runs, receipts, events)
    }

    constructor ()
      ensures Tables() == EMPTY
    {
      runs, receipts, events := map[], map[], [];
    }

    method Save(st: RunState, payload: Snapshot)
      modifies this
      ensures Tables() == RunDb.Save(old(Tables()), st, payload)
    {
      var request := st.requestId;
      if request == "" || st.sessionId == "" {
        return;
      }
      var owner := st.Owner();
      var current := if request in runs then Some(runs[request]) else None;
      if current.Some? && current.value.owner != owner {
        return;
      }
      var currentStatus := if current.Some? then Some(current.value.status) else None;
      var nextStatus := st.Status();
      if currentStatus.Some? && currentStatus.value.Terminal() && nextStatus != currentStatus.value {
        return;
      }
      if request in runs {
        runs := runs[request := Run(st.sessionId, owner, nextStatus, runs[request].version + 1, payload)];
      } else {
        runs := runs[request := Run(st.sessionId, owner, nextStatus, 1, payload)];
      }
      if currentStatus != Some(nextStatus) {
        events := events + [Event(request, currentStatus, nextStatus, runs[request].version)];
      }
    }

    method Get(request: string, owner: Principal) returns (state: Option<Snapshot>)
      ensures state == ReadState(Tables(), request, owner)
    {
      if request in runs && runs[request].owner == owner {
        state := Some(runs[request].state);
      } else {
        state := None;
      }
    }

    method ClaimAction(k: Key, owner: Principal, leaseSeconds: int, checked: real, stamped: real) returns (answer: ClaimAnswer)
      modifies this`receipts
      ensures (Tables(), answer) == Claim(old(Tables()), k, owner, leaseSeconds, checked, stamped)
    {
      if k.request !in runs || runs[k.request].owner != owner {
        return NotFound;
      }
      if k in receipts {
        var existing := receipts[k];
        if existing.status.Completed? && existing.response.Some? {
          return AlreadyCompleted(existing.response.value);
        }
        var expired := existing.status.InProgress? && (existing.lease.None? || existing.lease.value <= checked);
        if existing.status.Failed? || expired {
          receipts := receipts[k := existing.(status := InProgress,
                                              lease := Some(LeaseEnd(stamped, leaseSeconds)),
                                              attempts := existing.attempts + 1)];
          return Claimed;
        }
        return Busy;
      }
      receipts := receipts[k := Receipt(InProgress, None, Some(LeaseEnd(stamped, leaseSeconds)), 1)];
      return Claimed;
    }

    /** The receipt is updated first; the transaction rolls back when that or the owner check misses. */
    method CompleteAction(k: Key, state: Snapshot, response: Json)
      modifies this
      ensures Tables() == Complete(old(Tables()), k, state, response)
    {
      var snapshot := receipts;
      var current := if k.request in runs && runs[k.request].owner == state.st.Owner() then Some(runs[k.request]) else None;
      var updated := 0;
      if k in receipts && receipts[k].status.InProgress? {
        receipts := receipts[k := receipts[k].(status := Completed, response := Some(response), lease := None)];
        updated := 1;
      }
      if updated != 1 || current.None? {
        receipts := snapshot;
        return;
      }
      var run := runs[k.request];
      runs := runs[k.request := run.(status := state.st.Status(), version := run.version + 1, state := state)];
      events := events + [Event(k.request, Some(current.value.status), state.st.Status(), current.value.version + 1)];
    }

    method FailAction(k: Key)
      modifies this`receipts
      ensures Tables() == Fail(old(Tables()), k)
    {
      if k in receipts {
        receipts := receipts[k := receipts[k].(status := Failed, lease := None)];
      }
    }

    method RenewAction(k: Key, leaseSeconds: int, stamped: real) returns (renewed: bool)
      modifies this`receipts
      ensures (Tables(), renewed) == Renew(old(Tables()), k, leaseSeconds, stamped)
    {
      renewed := k in receipts && receipts[k].status.InProgress?;
      if renewed {
        receipts := receipts[k := receipts[k].(lease := Some(LeaseEnd(stamped, leaseSeconds)))];
      }
    }

    method DeleteSession(session: string) returns (count: nat)
      modifies this
      ensures Tables() == RunDb.DeleteSession(old(Tables()), session)
      ensures count == |old(runs)| - |runs|
    {
      var gone := set r | r in runs && runs[r].session == session;
      count := |gone|;
      assert |runs.Keys| == |(runs - gone).Keys| + |gone| by {
        assert (runs - gone).Keys + gone == runs.Keys && (runs - gone).Keys !! gone;
      }
      runs := runs - gone;
      receipts := map k | k in receipts && k.request !in gone :: receipts[k];
      events := RunDb.WithoutRuns(events, gone);
    }
  }
}
