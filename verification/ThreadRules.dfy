/** When the operations on a side thread succeed, and what never changes about a thread. */
module ThreadRules {
  import opened Basics
  import opened ThreadDb
  import opened ThreadHistory

  // ---- the transition table -----------------------------------------------------------------

  /** Nothing leads out of completed and cancelled. */
  predicate Final(s: Status) {
    s == Completed || s == Cancelled
  }

  /**
   The table by its targets: every thread that is not final may be cancelled and, unless it already
   did, fail or become active; only an active one waits, and what waits for the user cannot complete.
   */
  lemma TransitionTable(source: Status, target: Status)
    requires source in STATUSES && target in STATUSES
    ensures target in AllowedFrom(source) <==>
              && !Final(source) && source != target
              && (target.WaitingUser? || target.WaitingConfirmation? ==> source == Active)
              && (target == Completed ==> source == Active || source == WaitingConfirmation)
  {
  }

  // ---- which calls succeed ---------------------------------------------------------------------

  /** A transition succeeds exactly if the table allows it, and then the thread has the new status, one version up. */
  lemma MovesSucceedExactly(db: Db, t: string, target: Status)
    ensures var (next, reply) := Transition(db, t, target);
            && (reply == Done <==> t in db.threads && target in STATUSES && target in AllowedFrom(db.threads[t].status))
            && (reply == Done ==>
                  && t in next.threads && next.threads[t] == db.threads[t].(status := target, version := db.threads[t].version + 1)
                  && next.artifacts == db.artifacts)
            && (t in db.threads && reply != Done ==> reply == Raised(if target in STATUSES then InvalidTransition else UnsupportedStatus))
  {
  }

  /** A thread can be closed exactly while it is not final. */
  lemma ClosingSucceedsUntilFinal(db: Db, t: string)
    requires t in db.threads && db.threads[t].status in STATUSES
    ensures var (next, reply) := Transition(db, t, Cancelled);
            if Final(db.threads[t].status) then reply == Raised(InvalidTransition) && next == db
            else reply == Done && t in next.threads && next.threads[t].status == Cancelled
  {
  }

  /** Failing a turn succeeds exactly for an active thread, and then it has failed, for the reason that is logged first. */
  lemma FailingSucceedsExactlyInTurn(db: Db, t: string, reason: string)
    ensures var (next, reply) := FailTurn(db, t, reason);
            && (reply == Done <==> t in db.threads && db.threads[t].status == Active)
            && (reply == Absent <==> t !in db.threads)
            && (reply == Done ==>
                  && t in next.threads && next.threads[t] == db.threads[t].(status := Failed, version := db.threads[t].version + 1)
                  && |LogOf(next, t)| == |LogOf(db, t)| + 2 && LogOf(next, t)[|LogOf(db, t)|].event == TurnFailed(reason))
  {
  }

  /** A turn begins exactly in a resumable thread, which is then active and has logged the start last. */
  lemma TurnsBeginExactly(db: Db, t: string)
    ensures var (next, reply) := BeginTurn(db, t);
            && (reply == Done <==> t in db.threads && db.threads[t].status in {Active, WaitingUser, WaitingConfirmation})
            && (reply == Raised(ThreadNotFound) <==> t !in db.threads)
            && (reply == Done ==>
                  && t in next.threads && next.threads[t].status == Active
                  && next.threads[t].version == db.threads[t].version + (if db.threads[t].status == Active then 0 else 1)
                  && |LogOf(next, t)| > |LogOf(db, t)| && LogOf(next, t)[|LogOf(next, t)| - 1].event == TurnStarted)
  {
  }

  /** A commit goes through exactly for an active thread, a completion status and the current revision; a conflict is only ever a stale revision. */
  lemma CommitsSucceedExactly(db: Db, t: string, name: string, expected: nat, o: Outcome)
    ensures var reply := CompleteTurn(db, t, name, expected, o).1;
            var ready := t in db.threads && db.threads[t].status == Active && o.next in {WaitingUser, WaitingConfirmation, Completed, Failed};
            && (reply == Done <==> ready && Current(db, ArtifactId(db.threads[t].parent, name)).revision == expected)
            && (reply == Raised(WorkflowConflict) <==> ready && Current(db, ArtifactId(db.threads[t].parent, name)).revision != expected)
  {
  }

  /** A message is taken exactly from the user or the assistant, in any thread there is. */
  lemma MessagesAreTakenExactly(db: Db, t: string, role: Role, content: string, attachments: seq<string>)
    ensures AppendMessage(db, t, role, content, attachments).1 == Done <==> t in db.threads && role in {User, Assistant}
    ensures AppendMessage(db, t, role, content, attachments).1 == Absent <==> t !in db.threads && role in {User, Assistant}
  {
  }

  /** A thread is created exactly under a new id and with a known status. */
  lemma CreationSucceedsExactly(db: Db, t: string, parent: string, skill: string, stateKey: string, handler: string, status: Status)
    ensures var (next, reply) := CreateThread(db, t, parent, skill, stateKey, handler, status);
            && (reply == Done <==> t !in db.threads && status in STATUSES)
            && (reply == Raised(DuplicateThread) <==> t in db.threads && status in STATUSES)
            && (reply == Done ==>
                  && t in next.threads && IdentityOf(next.threads[t]) == Identity(parent, skill, stateKey, handler)
                  && next.threads[t].status == status && next.threads[t].version == 1 && next.threads[t].checkpoint == None)
  {
  }

  // ---- identity -------------------------------------------------------------------------------

  datatype Identity = Identity(parent: string, skill: string, stateKey: string, handler: string)

  function IdentityOf(row: Thread): Identity {
    Identity(row.parent, row.skill, row.stateKey, row.handler)
  }

  /** What thread `t` was created as, last time it was. */
  function CreatedAs(h: seq<Moment>, t: string): Option<Identity> {
    if h == [] then None
    else
      var m := h[|h| - 1];
      match m.op
      case Create(u, parent, skill, stateKey, handler, _) =>
        if u == t && m.reply == Done then Some(Identity(parent, skill, stateKey, handler)) else CreatedAs(h[..|h| - 1], t)
      case DropParent(parent) =>
        var before := CreatedAs(h[..|h| - 1], t);
        if before.Some? && before.value.parent == parent then None else before
      case _ => CreatedAs(h[..|h| - 1], t)
  }

  /** A thread is there, in every reachable store, exactly if it was created since its parent was last deleted, and it is still what it was created as. */
  lemma {:induction false} ThreadsKeepTheirIdentity(h: seq<Moment>, t: string)
    requires IsHistory(h) && h != [] && h[0].before == EMPTY
    ensures var db := h[|h| - 1].after;
            CreatedAs(h, t) == if t in db.threads then Some(IdentityOf(db.threads[t])) else None
  {
    var n := |h| - 1;
    if n > 0 {
      ThreadsKeepTheirIdentity(h[..n], t);
      assert h[n - 1].after == h[n].before;
    }
    assert Legal(h[n]);
    IdentityStep(h[n], t, CreatedAs(h[..n], t));
  }

  lemma IdentityStep(m: Moment, t: string, before: Option<Identity>)
    requires Legal(m) && before == if t in m.before.threads then Some(IdentityOf(m.before.threads[t])) else None
    ensures (if t in m.after.threads then Some(IdentityOf(m.after.threads[t])) else None)
         == match m.op
            case Create(u, parent, skill, stateKey, handler, _) =>
              if u == t && m.reply == Done then Some(Identity(parent, skill, stateKey, handler)) else before
            case DropParent(parent) => if before.Some? && before.value.parent == parent then None else before
            case _ => before
  {
  }

  // ---- artifacts -------------------------------------------------------------------------------

  /** A state that is written is read back one revision up, and nothing else is touched; a deleted artifact reads as empty. */
  lemma WrittenStateIsRead(db: Db, a: ArtifactId, state: Option<State>)
    ensures var (next, revision) := SetWorkflowState(db, a, state);
            && revision == Current(db, a).revision + 1
            && Current(next, a) == (match state case Some(s) => Artifact(s, revision) case None => Artifact(map[], 0))
            && next.threads == db.threads && next.log == db.log
            && forall other | other != a :: Current(next, other) == Current(db, other)
  {
  }

  /** The states written to artifact `a` after one more call: by a direct write, or by a commit that changes it. */
  function WrittenTo(m: Moment, a: ArtifactId, states: seq<State>): seq<State> {
    match m.op
    case SetState(b, Some(state)) => if b == a then states + [state] else states
    case SetState(b, None) => if b == a then [] else states
    case DropParent(parent) => if a.parent == parent then [] else states
    case Commit(t, name, _, o) =>
      if m.reply == Done && t in m.before.threads && ArtifactId(m.before.threads[t].parent, name) == a
         && o.state != (if states == [] then map[] else states[|states| - 1])
      then states + [o.state] else states
    case _ => states
  }

  function StatesWritten(h: seq<Moment>, a: ArtifactId): seq<State> {
    if h == [] then [] else WrittenTo(h[|h| - 1], a, StatesWritten(h[..|h| - 1], a))
  }

  function LastOf(states: seq<State>): Artifact {
    if states == [] then Artifact(map[], 0) else Artifact(states[|states| - 1], |states|)
  }

  lemma WriteStep(m: Moment, a: ArtifactId, states: seq<State>)
    requires Legal(m) && Current(m.before, a) == LastOf(states)
    ensures Current(m.after, a) == LastOf(WrittenTo(m, a, states))
  {
    match m.op
    case SetState(_, _) =>
    case DropParent(_) =>
    case Commit(_, _, _, _) =>
    case _ => assert m.after.artifacts == m.before.artifacts;
  }

  /** In every reachable store an artifact is the last state written to it since it was deleted, at the revision that counts the writes. */
  lemma {:induction false} ArtifactIsItsLastWrite(h: seq<Moment>, a: ArtifactId)
    requires IsHistory(h) && h != [] && h[0].before == EMPTY
    ensures Current(h[|h| - 1].after, a) == LastOf(StatesWritten(h, a))
  {
    var n := |h| - 1;
    if n > 0 {
      ArtifactIsItsLastWrite(h[..n], a);
      assert h[n - 1].after == h[n].before;
    }
    assert Legal(h[n]);
    WriteStep(h[n], a, StatesWritten(h[..n], a));
  }

  /** Deleting a session removes its threads with their logs and its artifacts, and nothing of any other. */
  lemma DeletionIsComplete(db: Db, parent: string)
    ensures var next := DeleteParent(db, parent);
            && (forall t :: t in next.threads <==> t in db.threads && db.threads[t].parent != parent)
            && (forall t | t in next.threads :: next.threads[t] == db.threads[t] && LogOf(next, t) == LogOf(db, t))
            && (forall t | t in db.threads && db.threads[t].parent == parent :: LogOf(next, t) == [])
            && (forall a :: a in next.artifacts <==> a in db.artifacts && a.parent != parent)
            && (forall a | a in next.artifacts :: next.artifacts[a] == db.artifacts[a])
  {
  }
}
