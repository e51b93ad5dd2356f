/**
 The side-thread tables: thread rows, their append-only event log, and the
 workflow artifacts that several threads share.  Every operation is one
 transaction; one that raises leaves the tables as they were.
 */
module ThreadDb {
  import opened Basics

  datatype Status = Active | WaitingUser | WaitingConfirmation | Completed | Failed | Cancelled | Unsupported(text: string)

  const RESUMABLE: set<Status> := {Active, WaitingUser, WaitingConfirmation}
  const STATUSES: set<Status> := RESUMABLE + {Completed, Failed, Cancelled}
  const COMPLETIONS: set<Status> := {WaitingUser, WaitingConfirmation, Completed, Failed}

  function AllowedFrom(source: Status): set<Status> {
    match source
    case Active => {WaitingUser, WaitingConfirmation, Completed, Failed, Cancelled}
    case WaitingUser => {Active, Cancelled, Failed}
    case WaitingConfirmation => {Active, Completed, Cancelled, Failed}
    case Completed => {}
    case Failed => {Active, Cancelled}
    case Cancelled => {}
    case Unsupported(_) => {}
  }

  datatype Role = User | Assistant | OtherRole(name: string)

  datatype Event =
    | ThreadCreated(status: Status)
    | StatusChanged(from: Status, to: Status)
    | TurnStarted
    | Message(role: Role, content: string, attachments: seq<string>)
    | WorkflowHandoff(artifact: string, revision: nat)
    | Checkpoint(status: Status)
    | TurnFailed(reason: string)

  datatype Logged = Logged(sequence: nat, event: Event)

  datatype Thread = Thread(parent: string, skill: string, stateKey: string, handler: string,
                           status: Status, checkpoint: Option<nat>, version: nat)

  /** The decoded JSON object of an artifact. */
  type State = map<string, string>

  datatype ArtifactId = ArtifactId(parent: string, name: string)

  datatype Artifact = Artifact(state: State, revision: nat)

  datatype Db = Db(threads: map<string, Thread>, log: map<string, seq<Logged>>, artifacts: map<ArtifactId, Artifact>)

  datatype Error =
    | UnsupportedStatus | UnsupportedRole | DuplicateThread | ThreadNotFound | NotResumable
    | NoActiveTurn | InvalidCompletion | WorkflowConflict | InvalidTransition

  /** `Absent` is a call that returns None without raising. */
  datatype Reply = Done | Absent | Raised(error: Error)

  const EMPTY := Db(map[], map[], map[])

  // ---- the event log -------------------------------------------------------------------

  function LogOf(db: Db, t: string): seq<Logged> {
    if t in db.log then db.log[t] else []
  }

  /** The highest sequence number in use: `COALESCE(MAX(sequence), 0)`. */
  function MaxSequence(log: seq<Logged>): nat {
    if log == [] then 0 else Max(MaxSequence(log[..|log| - 1]), log[|log| - 1].sequence)
  }

  /** The sequence numbers of a log are 1, 2, ..., n. */
  ghost predicate Numbered(log: seq<Logged>) {
    forall i | 0 <= i < |log| :: log[i].sequence == i + 1
  }

  lemma {:induction false} NumberedMax(log: seq<Logged>)
    requires Numbered(log)
    ensures MaxSequence(log) == |log|
  {
    if log != [] {
      NumberedMax(log[..|log| - 1]);
    }
  }

  /** Appending to a numbered log; the store itself asks for the maximum, see `SideThreadStore.AppendEvent`. */
  function AppendTo(log: seq<Logged>, e: Event): seq<Logged> {
    log + [Logged(|log| + 1, e)]
  }

  /** The sequence number the last append handed out. */
  function LastSequence(log: seq<Logged>): nat
    requires log != []
  {
    log[|log| - 1].sequence
  }

  /** The conversation of a thread: its message events, in log order. */
  function MessagesOf(log: seq<Logged>): seq<Event> {
    if log == [] then []
    else
      var rest := MessagesOf(log[..|log| - 1]);
      if log[|log| - 1].event.Message? then rest + [log[|log| - 1].event] else rest
  }

  // ---- threads -------------------------------------------------------------------------

  function CreateThread(db: Db, t: string, parent: string, skill: string, stateKey: string, handler: string, status: Status): (Db, Reply) {
    if status !in STATUSES then (db, Raised(UnsupportedStatus))
    else if t in db.threads then (db, Raised(DuplicateThread))
    else (db.(threads := db.threads[t := Thread(parent, skill, stateKey, handler, status, None, 1)],
              log := db.log[t := AppendTo(LogOf(db, t), ThreadCreated(status))]),
          Done)
  }

  function Import(log: seq<Logged>, messages: seq<Event>): seq<Logged>
    decreases |messages|
  {
    if messages == [] then log
    else
      var e := messages[0];
      Import(if e.Message? && !e.role.OtherRole? then AppendTo(log, e) else log, messages[1..])
  }

  function Importable(messages: seq<Event>): nat {
    if messages == [] then 0
    else (if messages[0].Message? && !messages[0].role.OtherRole? then 1 else 0) + Importable(messages[1..])
  }

  /** The second transaction of a legacy import: old messages, logged without touching the row. */
  function ImportMessages(db: Db, t: string, messages: seq<Event>): (Db, Reply) {
    if Importable(messages) == 0 then (db, Done)
    else if t !in db.threads then (db, Raised(ThreadNotFound))
    else (db.(log := db.log[t := Import(LogOf(db, t), messages)]), Done)
  }

  function BeginTurn(db: Db, t: string): (Db, Reply) {
    if t !in db.threads then (db, Raised(ThreadNotFound))
    else
      var row := db.threads[t];
      if row.status !in RESUMABLE then (db, Raised(NotResumable))
      else if row.status == Active then
        (db.(log := db.log[t := AppendTo(LogOf(db, t), TurnStarted)]), Done)
      else
        (db.(threads := db.threads[t := row.(status := Active, version := row.version + 1)],
             log := db.log[t := AppendTo(AppendTo(LogOf(db, t), StatusChanged(row.status, Active)), TurnStarted)]),
         Done)
  }

  function AppendMessage(db: Db, t: string, role: Role, content: string, attachments: seq<string>): (Db, Reply) {
    if role.OtherRole? then (db, Raised(UnsupportedRole))
    else if t !in db.threads then (db, Absent)
    else
      var row := db.threads[t];
      (db.(threads := db.threads[t := row.(version := row.version + 1)],
           log := db.log[t := AppendTo(LogOf(db, t), Message(role, content, attachments))]),
       Done)
  }

  /** An artifact that does not exist reads as the empty object at revision 0. */
  function Current(db: Db, a: ArtifactId): Artifact {
    if a in db.artifacts then db.artifacts[a] else Artifact(map[], 0)
  }

  datatype Outcome = Outcome(userContent: string, attachments: seq<string>, answer: string, state: State, next: Status)

  /** The user's message, and the handoff of a changed artifact. */
  function Asked(log: seq<Logged>, name: string, current: Artifact, o: Outcome): seq<Logged> {
    var asked := AppendTo(log, Message(User, o.userContent, o.attachments));
    if o.state != current.state then AppendTo(asked, WorkflowHandoff(name, current.revision + 1)) else asked
  }

  /** The answer and the checkpoint. */
  function Checked(log: seq<Logged>, o: Outcome): seq<Logged> {
    AppendTo(AppendTo(log, Message(Assistant, o.answer, [])), Checkpoint(o.next))
  }

  function CompleteTurn(db: Db, t: string, name: string, expected: nat, o: Outcome): (Db, Reply) {
    if o.next !in COMPLETIONS then (db, Raised(InvalidCompletion))
    else if t !in db.threads then (db, Raised(ThreadNotFound))
    else
      var row := db.threads[t];
      var a := ArtifactId(row.parent, name);
      var current := Current(db, a);
      if row.status != Active then (db, Raised(NoActiveTurn))
      else if current.revision != expected then (db, Raised(WorkflowConflict))
      else
        var checked := Checked(Asked(LogOf(db, t), name, current, o), o);
        (Db(db.threads[t := row.(status := o.next, checkpoint := Some(LastSequence(checked)), version := row.version + 1)],
            db.log[t := AppendTo(checked, StatusChanged(Active, o.next))],
            if o.state != current.state then db.artifacts[a := Artifact(o.state, current.revision + 1)] else db.artifacts),
         Done)
  }

  function Transition(db: Db, t: string, target: Status): (Db, Reply) {
    if target !in STATUSES then (db, Raised(UnsupportedStatus))
    else if t !in db.threads then (db, Absent)
    else
      var row := db.threads[t];
      if target !in AllowedFrom(row.status) then (db, Raised(InvalidTransition))
      else (db.(threads := db.threads[t := row.(status := target, version := row.version + 1)],
                log := db.log[t := AppendTo(LogOf(db, t), StatusChanged(row.status, target))]),
            Done)
  }

  function FailTurn(db: Db, t: string, reason: string): (Db, Reply) {
    if t !in db.threads then (db, Absent)
    else
      var row := db.threads[t];
      if row.status != Active then (db, Raised(NoActiveTurn))
      else (db.(threads := db.threads[t := row.(status := Failed, version := row.version + 1)],
                log := db.log[t := AppendTo(AppendTo(LogOf(db, t), TurnFailed(reason)), StatusChanged(Active, Failed))]),
            Done)
  }

  // ---- artifacts -----------------------------------------------------------------------

  function SetWorkflowState(db: Db, a: ArtifactId, state: Option<State>): (Db, nat) {
    var next := Current(db, a).revision + 1;
    match state
    case None => (db.(artifacts := db.artifacts - {a}), next)
    case Some(value) => (db.(artifacts := db.artifacts[a := Artifact(value, next)]), next)
  }

  function DeleteParent(db: Db, parent: string): Db {
    var gone := set t | t in db.threads && db.threads[t].parent == parent;
    Db(db.threads - gone, db.log - gone, map a | a in db.artifacts && a.parent != parent :: db.artifacts[a])
  }
}
