/** Histories of the side-thread store: any interleaving of its atomic operations. */
module ThreadHistory {
  import opened Basics
  import opened ThreadDb
  import opened ThreadLog

  datatype Op =
    | Create(t: string, parent: string, skill: string, stateKey: string, handler: string, status: Status)
    | ImportOld(t: string, messages: seq<Event>)
    | Begin(t: string)
    | Say(t: string, role: Role, content: string, attachments: seq<string>)
    | Commit(t: string, name: string, expected: nat, outcome: Outcome)
    | Move(t: string, target: Status)
    | GiveUp(t: string, reason: string)
    | SetState(artifact: ArtifactId, state: Option<State>)
    | DropParent(parent: string)

  function Apply(db: Db, op: Op): (Db, Reply) {
    match op
    case Create(t, parent, skill, stateKey, handler, status) => CreateThread(db, t, parent, skill, stateKey, handler, status)
    case ImportOld(t, messages) => ImportMessages(db, t, messages)
    case Begin(t) => BeginTurn(db, t)
    case Say(t, role, content, attachments) => AppendMessage(db, t, role, content, attachments)
    case Commit(t, name, expected, outcome) => CompleteTurn(db, t, name, expected, outcome)
    case Move(t, target) => Transition(db, t, target)
    case GiveUp(t, reason) => FailTurn(db, t, reason)
    case SetState(a, state) => (SetWorkflowState(db, a, state).0, Done)
    case DropParent(parent) => (DeleteParent(db, parent), Done)
  }

  datatype Moment = Moment(before: Db, op: Op, after: Db, reply: Reply)

  predicate Legal(m: Moment) {
    (m.after, m.reply) == Apply(m.before, m.op)
  }

  ghost predicate IsHistory(h: seq<Moment>) {
    && (forall i | 0 <= i < |h| :: Legal(h[i]))
    && (forall i, j | 0 <= i && j == i + 1 < |h| :: h[i].after == h[j].before)
  }

  // ---- event sourcing and conservation ----------------------------------------------------

  function ImportedBy(m: Moment, t: string): nat {
    if m.op.ImportOld? && m.op.t == t then Importable(m.op.messages) else 0
  }

  /** How many legacy messages thread `t` has taken in since it was created. */
  function Imported(h: seq<Moment>, t: string): nat {
    if h == [] || t !in h[|h| - 1].after.threads then 0
    else Imported(h[..|h| - 1], t) + ImportedBy(h[|h| - 1], t)
  }

  predicate ThreadAgrees(db: Db, t: string, imported: nat) {
    if t in db.threads then RowMatches(db.threads[t], LogOf(db, t), imported)
    else LogOf(db, t) == [] && imported == 0
  }

  lemma BeginKeeps(db: Db, t: string, imported: nat)
    requires t in db.threads && ThreadAgrees(db, t, imported)
    ensures ThreadAgrees(BeginTurn(db, t).0, t, imported)
  {
    var row, log := db.threads[t], LogOf(db, t);
    if row.status == Active {
      Grow(log, TurnStarted);
    } else if row.status in RESUMABLE {
      Grow(log, StatusChanged(row.status, Active));
      Grow(AppendTo(log, StatusChanged(row.status, Active)), TurnStarted);
    }
  }

  lemma CommitKeeps(db: Db, t: string, imported: nat, name: string, expected: nat, o: Outcome)
    requires t in db.threads && ThreadAgrees(db, t, imported)
    ensures ThreadAgrees(CompleteTurn(db, t, name, expected, o).0, t, imported)
  {
    if CompleteTurn(db, t, name, expected, o).1 == Done {
      var row := db.threads[t];
      GrowByTurn(row, LogOf(db, t), imported, name, Current(db, ArtifactId(row.parent, name)), o);
    }
  }

  lemma MoveKeeps(db: Db, t: string, imported: nat, target: Status)
    requires t in db.threads && ThreadAgrees(db, t, imported)
    ensures ThreadAgrees(Transition(db, t, target).0, t, imported)
  {
    if target in AllowedFrom(db.threads[t].status) {
      Grow(LogOf(db, t), StatusChanged(db.threads[t].status, target));
    }
  }

  lemma GiveUpKeeps(db: Db, t: string, imported: nat, reason: string)
    requires t in db.threads && ThreadAgrees(db, t, imported)
    ensures ThreadAgrees(FailTurn(db, t, reason).0, t, imported)
  {
    if db.threads[t].status == Active {
      Grow(LogOf(db, t), TurnFailed(reason));
      Grow(AppendTo(LogOf(db, t), TurnFailed(reason)), StatusChanged(Active, Failed));
    }
  }

  /** Operations on other threads, and on artifacts, leave a thread's row and log alone. */
  lemma OthersLeaveThreadAlone(m: Moment, t: string)
    requires Legal(m) && (m.op.SetState? || (!m.op.DropParent? && m.op.t != t))
    ensures t in m.after.threads <==> t in m.before.threads
    ensures t in m.before.threads ==> m.after.threads[t] == m.before.threads[t]
    ensures LogOf(m.after, t) == LogOf(m.before, t) && ImportedBy(m, t) == 0
  {
  }

  lemma StepKeepsThread(m: Moment, t: string, imported: nat)
    requires Legal(m) && ThreadAgrees(m.before, t, imported)
    ensures ThreadAgrees(m.after, t, if t in m.after.threads then imported + ImportedBy(m, t) else 0)
  {
    if m.op.DropParent? {
    } else if m.op.SetState? || m.op.t != t {
      OthersLeaveThreadAlone(m, t);
    } else if t !in m.before.threads {
      NewThreadAgrees(m, t);
    } else {
      var row, log := m.before.threads[t], LogOf(m.before, t);
      match m.op
      case Begin(_) => BeginKeeps(m.before, t, imported);
      case Say(_, role, content, attachments) => Grow(log, Message(role, content, attachments));
      case Commit(_, name, expected, o) => CommitKeeps(m.before, t, imported, name, expected, o);
      case Move(_, target) => MoveKeeps(m.before, t, imported, target);
      case GiveUp(_, reason) => GiveUpKeeps(m.before, t, imported, reason);
      case ImportOld(_, messages) =>
        GrowByImport(row, log, imported, messages);
        ImportingNothing(log, messages);
      case _ =>
    }
  }

  lemma NewThreadAgrees(m: Moment, t: string)
    requires Legal(m) && !m.op.DropParent? && !m.op.SetState? && m.op.t == t
    requires t !in m.before.threads && LogOf(m.before, t) == []
    ensures ThreadAgrees(m.after, t, 0) && (t in m.after.threads ==> ImportedBy(m, t) == 0)
  {
    if m.op.Create? && m.op.status in STATUSES {
      Grow([], ThreadCreated(m.op.status));
    }
  }

  lemma {:induction false} ImportingNothing(log: seq<Logged>, messages: seq<Event>)
    ensures Importable(messages) == 0 ==> Import(log, messages) == log
    decreases |messages|
  {
    if messages != [] {
      ImportingNothing(log, messages[1..]);
    }
  }

  /**
   In every reachable store every row agrees with its log: the log is well formed,
   its replay is the status, its last checkpoint is the one the row names, and
   version = 1 + status changes + messages - 2 * checkpoints - imported messages.
   */
  lemma {:induction false} RowsAgreeWithLogs(h: seq<Moment>, t: string)
    requires IsHistory(h) && h != [] && h[0].before == EMPTY
    ensures ThreadAgrees(h[|h| - 1].after, t, Imported(h, t))
  {
    var n := |h| - 1;
    if n > 0 {
      RowsAgreeWithLogs(h[..n], t);
      assert h[n - 1].after == h[n].before;
      StepKeepsThread(h[n], t, Imported(h[..n], t));
    } else {
      assert Imported(h[..n], t) == 0;
      StepKeepsThread(h[n], t, 0);
    }
  }

  /** The log only grows at its end, as long as the thread exists. */
  lemma LogIsAppendOnly(m: Moment, t: string)
    requires Legal(m) && t in m.before.threads && t in m.after.threads
    ensures LogOf(m.before, t) <= LogOf(m.after, t)
  {
    if m.op.ImportOld? && m.op.t == t {
      ImportExtends(LogOf(m.before, t), m.op.messages);
    }
  }

  lemma {:induction false} ImportExtends(log: seq<Logged>, messages: seq<Event>)
    ensures log <= Import(log, messages)
    decreases |messages|
  {
    if messages != [] {
      var e := messages[0];
      ImportExtends(if e.Message? && !e.role.OtherRole? then AppendTo(log, e) else log, messages[1..]);
    }
  }

  /** No operation takes a thread out of completed or cancelled, and every change is an allowed transition. */
  lemma StatusMovesAreAllowed(m: Moment, t: string)
    requires Legal(m) && t in m.before.threads && t in m.after.threads
    ensures var s, s' := m.before.threads[t].status, m.after.threads[t].status; s' == s || s' in AllowedFrom(s)
    ensures m.after.threads[t].parent == m.before.threads[t].parent
  {
  }

  lemma {:induction false} FinalThreadsStayFinal(h: seq<Moment>, i: nat, j: nat, t: string)
    requires IsHistory(h) && i < j <= |h| && t in h[i].before.threads
    requires h[i].before.threads[t].status in {Completed, Cancelled}
    requires forall m | i <= m < j :: t in h[m].after.threads
    ensures h[j - 1].after.threads[t].status == h[i].before.threads[t].status
    decreases j
  {
    if i < j - 1 {
      FinalThreadsStayFinal(h, i, j - 1, t);
      assert h[j - 2].after == h[j - 1].before;
    }
    StatusMovesAreAllowed(h[j - 1], t);
  }

  /** An operation that raises, or finds no thread, leaves the whole store as it was. */
  lemma RaisingChangesNothing(m: Moment)
    requires Legal(m) && m.reply != Done
    ensures m.after == m.before
  {
  }

  // ---- the conversation --------------------------------------------------------------------

  /** The user and assistant messages among old ones. */
  function Usable(messages: seq<Event>): seq<Event> {
    if messages == [] then []
    else if messages[0].Message? && !messages[0].role.OtherRole? then [messages[0]] + Usable(messages[1..])
    else Usable(messages[1..])
  }

  /** What the operation adds to the conversation of thread `t`; a turn adds the question and its answer. */
  function Spoken(m: Moment, t: string): seq<Event> {
    if m.reply != Done then []
    else match m.op
      case Say(u, role, content, attachments) => if u == t then [Message(role, content, attachments)] else []
      case Commit(u, _, _, o) => if u == t then [Message(User, o.userContent, o.attachments), Message(Assistant, o.answer, [])] else []
      case ImportOld(u, messages) => if u == t then Usable(messages) else []
      case _ => []
  }

  /** Everything said in thread `t` since it was created. */
  function Conversation(h: seq<Moment>, t: string): seq<Event> {
    if h == [] || t !in h[|h| - 1].after.threads then []
    else Conversation(h[..|h| - 1], t) + Spoken(h[|h| - 1], t)
  }

  lemma MessagesAppend(log: seq<Logged>, e: Event)
    ensures MessagesOf(AppendTo(log, e)) == if e.Message? then MessagesOf(log) + [e] else MessagesOf(log)
  {
    assert AppendTo(log, e)[..|log|] == log;
  }

  lemma {:induction false} MessagesImported(log: seq<Logged>, messages: seq<Event>)
    ensures MessagesOf(Import(log, messages)) == MessagesOf(log) + Usable(messages)
    decreases |messages|
  {
    if messages != [] {
      var e := messages[0];
      if e.Message? && !e.role.OtherRole? {
        MessagesAppend(log, e);
        MessagesImported(AppendTo(log, e), messages[1..]);
        assert MessagesOf(log) + ([e] + Usable(messages[1..])) == (MessagesOf(log) + [e]) + Usable(messages[1..]);
      } else {
        MessagesImported(log, messages[1..]);
      }
    }
  }

  lemma MessagesOfTurn(log: seq<Logged>, name: string, current: Artifact, o: Outcome)
    ensures MessagesOf(AppendTo(Checked(Asked(log, name, current, o), o), StatusChanged(Active, o.next)))
         == MessagesOf(log) + [Message(User, o.userContent, o.attachments), Message(Assistant, o.answer, [])]
  {
    var asked := AppendTo(log, Message(User, o.userContent, o.attachments));
    MessagesAppend(log, Message(User, o.userContent, o.attachments));
    MessagesAppend(asked, WorkflowHandoff(name, current.revision + 1));
    var answered := AppendTo(Asked(log, name, current, o), Message(Assistant, o.answer, []));
    MessagesAppend(Asked(log, name, current, o), Message(Assistant, o.answer, []));
    MessagesAppend(answered, Checkpoint(o.next));
    MessagesAppend(AppendTo(answered, Checkpoint(o.next)), StatusChanged(Active, o.next));
  }

  predicate Silent(e: Event) {
    !e.Message?
  }

  lemma SilentEvents(log: seq<Logged>, a: Event, b: Event)
    requires Silent(a) && Silent(b)
    ensures MessagesOf(AppendTo(log, a)) == MessagesOf(log) == MessagesOf(AppendTo(AppendTo(log, a), b))
  {
    MessagesAppend(log, a);
    MessagesAppend(AppendTo(log, a), b);
  }

  lemma LogAfterBegin(m: Moment, t: string)
    requires Legal(m) && t in m.before.threads && m.op == Begin(t)
    ensures var log, moved := LogOf(m.before, t), StatusChanged(m.before.threads[t].status, Active);
            || LogOf(m.after, t) == log
            || LogOf(m.after, t) == AppendTo(log, TurnStarted)
            || LogOf(m.after, t) == AppendTo(AppendTo(log, moved), TurnStarted)
  {
  }

  lemma BeginIsSilent(m: Moment, t: string)
    requires Legal(m) && t in m.before.threads && m.op == Begin(t)
    ensures MessagesOf(LogOf(m.after, t)) == MessagesOf(LogOf(m.before, t))
  {
    var row, log := m.before.threads[t], LogOf(m.before, t);
    LogAfterBegin(m, t);
    SilentEvents(log, TurnStarted, TurnStarted);
    SilentEvents(log, StatusChanged(row.status, Active), TurnStarted);
  }

  lemma MoveIsSilent(m: Moment, t: string)
    requires Legal(m) && t in m.before.threads && m.op.Move? && m.op.t == t
    ensures MessagesOf(LogOf(m.after, t)) == MessagesOf(LogOf(m.before, t))
  {
    SilentEvents(LogOf(m.before, t), StatusChanged(m.before.threads[t].status, m.op.target), TurnStarted);
  }

  lemma FailureIsSilent(m: Moment, t: string)
    requires Legal(m) && t in m.before.threads && m.op.GiveUp? && m.op.t == t
    ensures MessagesOf(LogOf(m.after, t)) == MessagesOf(LogOf(m.before, t))
  {
    SilentEvents(LogOf(m.before, t), TurnFailed(m.op.reason), StatusChanged(Active, Failed));
  }

  lemma RefusedCreation(m: Moment, t: string)
    requires Legal(m) && t in m.before.threads && m.op.Create? && m.op.t == t
    ensures m.after == m.before && Spoken(m, t) == []
  {
  }

  lemma SayStep(m: Moment, t: string)
    requires Legal(m) && t in m.before.threads && m.op.Say? && m.op.t == t
    ensures MessagesOf(LogOf(m.after, t)) == MessagesOf(LogOf(m.before, t)) + Spoken(m, t)
  {
    MessagesAppend(LogOf(m.before, t), Message(m.op.role, m.op.content, m.op.attachments));
  }

  lemma ImportStep(m: Moment, t: string)
    requires Legal(m) && t in m.before.threads && m.op.ImportOld? && m.op.t == t
    ensures MessagesOf(LogOf(m.after, t)) == MessagesOf(LogOf(m.before, t)) + Usable(m.op.messages) && m.reply == Done
  {
    MessagesImported(LogOf(m.before, t), m.op.messages);
    NothingUsable(m.op.messages);
  }

  lemma CommitStep(m: Moment, t: string)
    requires Legal(m) && t in m.before.threads && m.op.Commit? && m.op.t == t
    ensures MessagesOf(LogOf(m.after, t)) == MessagesOf(LogOf(m.before, t)) + Spoken(m, t)
  {
    if m.reply == Done {
      var row := m.before.threads[t];
      MessagesOfTurn(LogOf(m.before, t), m.op.name, Current(m.before, ArtifactId(row.parent, m.op.name)), m.op.outcome);
    }
  }

  /** One operation adds exactly what it says to a thread's conversation. */
  lemma ConversationStep(m: Moment, t: string)
    requires Legal(m) && t in m.before.threads && t in m.after.threads
    ensures MessagesOf(LogOf(m.after, t)) == MessagesOf(LogOf(m.before, t)) + Spoken(m, t)
  {
    if m.op.SetState? || (!m.op.DropParent? && m.op.t != t) {
      OthersLeaveThreadAlone(m, t);
    } else {
      match m.op
      case Begin(_) => BeginIsSilent(m, t);
      case Move(_, _) => MoveIsSilent(m, t);
      case GiveUp(_, _) => FailureIsSilent(m, t);
      case Say(_, _, _, _) => SayStep(m, t);
      case Commit(_, _, _, _) => CommitStep(m, t);
      case ImportOld(_, _) => ImportStep(m, t);
      case Create(_, _, _, _, _, _) => RefusedCreation(m, t);
      case _ =>
    }
  }

  lemma {:induction false} NothingUsable(messages: seq<Event>)
    ensures |Usable(messages)| == Importable(messages)
  {
    if messages != [] {
      NothingUsable(messages[1..]);
    }
  }

  /** In every reachable store the messages of a thread are exactly what was said in it, in order. */
  lemma {:induction false} ConversationIsWhatWasSaid(h: seq<Moment>, t: string)
    requires IsHistory(h) && h != [] && h[0].before == EMPTY
    ensures MessagesOf(LogOf(h[|h| - 1].after, t)) == Conversation(h, t)
  {
    var n := |h| - 1;
    RowsAgreeWithLogs(h, t);
    if n > 0 {
      assert h[n - 1].after == h[n].before;
      RowsAgreeWithLogs(h[..n], t);
      ConversationIsWhatWasSaid(h[..n], t);
    }
    if t in h[n].after.threads {
      if t in h[n].before.threads {
        ConversationStep(h[n], t);
      } else {
        CreatedInSilence(h[n], t);
      }
    }
  }

  lemma CreatedInSilence(m: Moment, t: string)
    requires Legal(m) && t !in m.before.threads && t in m.after.threads && LogOf(m.before, t) == []
    ensures MessagesOf(LogOf(m.after, t)) == [] == Spoken(m, t)
  {
    MessagesAppend([], ThreadCreated(m.op.status));
  }

  /** A commit announces a new artifact revision in its thread's log exactly when it changes the artifact. */
  lemma CommitAnnouncesItsRevision(db: Db, t: string, name: string, expected: nat, o: Outcome)
    requires CompleteTurn(db, t, name, expected, o).1 == Done
    ensures var a, after := ArtifactId(db.threads[t].parent, name), CompleteTurn(db, t, name, expected, o).0;
            (exists i :: |LogOf(db, t)| <= i < |LogOf(after, t)| && LogOf(after, t)[i].event == WorkflowHandoff(name, Current(after, a).revision))
            <==> Current(after, a) != Current(db, a)
  {
    var a, after := ArtifactId(db.threads[t].parent, name), CompleteTurn(db, t, name, expected, o).0;
    if Current(after, a) != Current(db, a) {
      assert LogOf(after, t)[|LogOf(db, t)| + 1].event == WorkflowHandoff(name, Current(after, a).revision);
    }
  }

  // ---- revisions ---------------------------------------------------------------------------

  /** The operation deletes artifact `a`, or the whole parent session it belongs to. */
  predicate Forgets(op: Op, a: ArtifactId) {
    op == SetState(a, None) || op == DropParent(a.parent)
  }

  /** A stored artifact has a revision of at least 1, so revision 0 means there is none. */
  ghost predicate Stored(db: Db) {
    forall a | a in db.artifacts :: db.artifacts[a].revision > 0
  }

  lemma ArtifactStep(m: Moment, a: ArtifactId)
    requires Legal(m) && Stored(m.before)
    ensures Stored(m.after)
    ensures !Forgets(m.op, a) ==>
              var old', new' := Current(m.before, a), Current(m.after, a);
              new' == old' || new'.revision == old'.revision + 1
  {
    match m.op
    case Commit(_, _, _, _) =>
    case SetState(_, _) =>
    case DropParent(_) =>
    case _ => assert m.after.artifacts == m.before.artifacts;
  }

  lemma {:induction false} StoredAlways(h: seq<Moment>, i: nat)
    requires IsHistory(h) && i < |h| && Stored(h[0].before)
    ensures Stored(h[i].before) && Stored(h[i].after)
  {
    if i > 0 {
      StoredAlways(h, i - 1);
      assert h[i - 1].after == h[i].before;
    }
    ArtifactStep(h[i], ArtifactId("", ""));
  }

  /** While an artifact is not forgotten its revision never drops, and one revision is only ever one state. */
  lemma {:induction false} RevisionIdentifiesState(h: seq<Moment>, i: nat, j: nat, a: ArtifactId)
    requires IsHistory(h) && i < j <= |h| && Stored(h[0].before)
    requires forall m | i <= m < j :: !Forgets(h[m].op, a)
    ensures var first, last := Current(h[i].before, a), Current(h[j - 1].after, a);
            first.revision <= last.revision && (first.revision == last.revision ==> first == last)
    decreases j
  {
    if i < j - 1 {
      RevisionIdentifiesState(h, i, j - 1, a);
      assert h[j - 2].after == h[j - 1].before;
    }
    StoredAlways(h, j - 1);
    ArtifactStep(h[j - 1], a);
  }

  /** The condition is needed: a deleted artifact starts again at revision 1, with any state. */
  lemma DeletionRestartsRevisions(db: Db, a: ArtifactId, state: State)
    ensures var deleted := Apply(db, SetState(a, None)).0;
            Current(Apply(deleted, SetState(a, Some(state))).0, a) == Artifact(state, 1)
  {
  }
}
