/**
 The three tables behind the run store and its atomic operations, as functions
 from one database value to the next.  A deleted run takes its receipts and its
 events with it (the foreign keys cascade).
 */
module RunDb {
  import opened Basics

  /** JSON text as the encoder writes it: never empty, so always truthy. */
  type Json = s: string | s != "" witness "{}"

  /** The fourteen terminal statuses by name; `Other` is any text that is not one of them. */
  datatype RunStatus =
    | ExecutedSimulatedReal | ExecutedDirectDb | ExecutedSafeDb | Executed
    | MethodExecutionFailed | MethodGenerationFailed | MethodReviewFailed
    | MethodRepairFailed | MethodRefused | Refused | Clarification
    | SkillCardReady | PriorResultNotFound | DependentMethodFailed
    | Other(text: string)
  {
    predicate Terminal() {
      !Other?
    }
  }

  /** The fields of a run state dictionary that are read; "" and None stand for a missing one. */
  datatype RunState = RunState(requestId: string, sessionId: string, userId: string, workspaceId: string,
                               status: Option<RunStatus>, reviewId: string)
  {
    function Owner(): Principal {
      Principal(OrDefault(userId, "local"), OrDefault(workspaceId, "local"))
    }
    function Status(): RunStatus {
      if status.Some? then status.value else Other("unknown")
    }
  }

  /** A run state as it is stored and read back: the fields above, and the rest of the dictionary. */
  datatype Snapshot = Snapshot(st: RunState, rest: Json)

  datatype Principal = Principal(user: string, workspace: string)

  datatype Run = Run(session: string, owner: Principal, status: RunStatus, version: nat, state: Snapshot)

  datatype Key = Key(request: string, action: string, token: string)

  datatype ReceiptStatus = InProgress | Completed | Failed

  datatype Receipt = Receipt(status: ReceiptStatus, response: Option<Json>, lease: Option<real>, attempts: nat)

  datatype Event = Event(request: string, from: Option<RunStatus>, to: RunStatus, version: nat)

  datatype Db = Db(runs: map<string, Run>, receipts: map<Key, Receipt>, events: seq<Event>)

  datatype ClaimAnswer = NotFound | AlreadyCompleted(response: Json) | Busy | Claimed

  const EMPTY := Db(map[], map[], [])

  /** `max(1, lease_seconds)` seconds after the moment the statement reads the clock. */
  function LeaseEnd(clock: real, leaseSeconds: int): real {
    clock + Max(1, leaseSeconds) as real
  }

  function Save(db: Db, st: RunState, payload: Snapshot): Db {
    var r := st.requestId;
    if r == "" || st.sessionId == "" then db
    else if r in db.runs && db.runs[r].owner != st.Owner() then db
    else if r in db.runs && db.runs[r].status.Terminal() && st.Status() != db.runs[r].status then db
    else
      var version := if r in db.runs then db.runs[r].version + 1 else 1;
      var from := if r in db.runs then Some(db.runs[r].status) else None;
      var saved := db.runs[r := Run(st.sessionId, st.Owner(), st.Status(), version, payload)];
      var noted := if from == Some(st.Status()) then [] else [Event(r, from, st.Status(), version)];
      db.(runs := saved, events := db.events + noted)
  }

  /** `get` */
  function ReadState(db: Db, request: string, reader: Principal): Option<Snapshot> {
    if request in db.runs && db.runs[request].owner == reader then Some(db.runs[request].state) else None
  }

  /** May the receipt be taken over at time `clock`? */
  predicate Retakable(receipt: Receipt, clock: real) {
    || receipt.status.Failed?
    || (receipt.status.InProgress? && (receipt.lease.None? || receipt.lease.value <= clock))
  }

  predicate Answered(receipt: Receipt) {
    receipt.status.Completed? && receipt.response.Some?
  }

  /** `checked` is the clock when expiry is tested, `stamped` the clock when the lease is written. */
  function Claim(db: Db, k: Key, owner: Principal, leaseSeconds: int, checked: real, stamped: real): (Db, ClaimAnswer) {
    if k.request !in db.runs || db.runs[k.request].owner != owner then
      (db, NotFound)
    else if k !in db.receipts then
      (db.(receipts := db.receipts[k := Receipt(InProgress, None, Some(LeaseEnd(stamped, leaseSeconds)), 1)]), Claimed)
    else
      var prior := db.receipts[k];
      if Answered(prior) then (db, AlreadyCompleted(prior.response.value))
      else if Retakable(prior, checked) then
        var retaken := Receipt(InProgress, prior.response, Some(LeaseEnd(stamped, leaseSeconds)), prior.attempts + 1);
        (db.(receipts := db.receipts[k := retaken]), Claimed)
      else (db, Busy)
  }

  /** Would completing `k` on behalf of `owner` change anything? */
  predicate CanComplete(db: Db, k: Key, owner: Principal) {
    && k in db.receipts && db.receipts[k].status.InProgress?
    && k.request in db.runs && db.runs[k.request].owner == owner
  }

  function Complete(db: Db, k: Key, state: Snapshot, response: Json): Db {
    if !CanComplete(db, k, state.st.Owner()) then db
    else
      var run := db.runs[k.request];
      var done := db.receipts[k].(status := Completed, response := Some(response), lease := None);
      Db(db.runs[k.request := run.(status := state.st.Status(), version := run.version + 1, state := state)],
         db.receipts[k := done],
         db.events + [Event(k.request, Some(run.status), state.st.Status(), run.version + 1)])
  }

  function Fail(db: Db, k: Key): Db {
    if k !in db.receipts then db
    else db.(receipts := db.receipts[k := db.receipts[k].(status := Failed, lease := None)])
  }

  function Renew(db: Db, k: Key, leaseSeconds: int, stamped: real): (Db, bool) {
    if k in db.receipts && db.receipts[k].status.InProgress? then
      (db.(receipts := db.receipts[k := db.receipts[k].(lease := Some(LeaseEnd(stamped, leaseSeconds)))]), true)
    else (db, false)
  }

  function WithoutRuns(events: seq<Event>, gone: set<string>): seq<Event> {
    if events == [] then []
    else
      var rest := WithoutRuns(events[..|events| - 1], gone);
      if events[|events| - 1].request in gone then rest else rest + [events[|events| - 1]]
  }

  function RunsOfSession(db: Db, session: string): set<string> {
    set r | r in db.runs && db.runs[r].session == session
  }

  function DeleteSession(db: Db, session: string): Db {
    var gone := RunsOfSession(db, session);
    Db(db.runs - gone,
       map k | k in db.receipts && k.request !in gone :: db.receipts[k],
       WithoutRuns(db.events, gone))
  }

  /** `list_events`: the events of one run in the order they were written. */
  function EventsOf(events: seq<Event>, request: string): seq<Event> {
    if events == [] then []
    else
      var rest := EventsOf(events[..|events| - 1], request);
      if events[|events| - 1].request == request then rest + [events[|events| - 1]] else rest
  }
}
