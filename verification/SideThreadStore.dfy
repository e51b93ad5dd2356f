/**
 The side-thread store as the object the session manager drives.  Each method
 performs its statements in order; the contract gives the whole new state.
 */
module SideThreadStores {
  import opened Basics
  import opened ThreadDb

  class SideThreadStore {
    var threads: map<string, Thread>
    var log: map<string, seq<Logged>>
    var artifacts: map<ArtifactId, Artifact>

    ghost function Tables(): Db
      reads this
    {
      Db(threads, log, artifacts)
    }

    /** Every log is numbered 1, 2, ..., n. */
    ghost predicate Valid()
      reads this
    {
      forall t | t in log :: Numbered(log[t])
    }

    constructor ()
      ensures Valid() && Tables() == EMPTY
    {
      threads, log, artifacts := map[], map[], map[];
    }

    method AppendEvent(t: string, e: Event) returns (sequence: nat)
      requires Valid()
      modifies this`log
      ensures Valid()
      ensures t in log && log[t] == AppendTo(old(LogOf(Tables(), t)), e)
      ensures log == old(log)[t := log[t]]
      ensures sequence == LastSequence(log[t])
    {
      var events := if t in log then log[t] else [];
      sequence := MaxSequence(events) + 1;
      NumberedMax(events);
      log := log[t := events + [Logged(sequence, e)]];
    }

    method CreateThread(t: string, parent: string, skill: string, stateKey: string, handler: string, status: Status)
      returns (reply: Reply)
      requires Valid()
      modifies this
      ensures Valid()
      ensures (Tables(), reply) == ThreadDb.CreateThread(old(Tables()), t, parent, skill, stateKey, handler, status)
    {
      if status !in STATUSES {
        return Raised(UnsupportedStatus);
      }
      if t in threads {
        return Raised(DuplicateThread);
      }
      threads := threads[t := Thread(parent, skill, stateKey, handler, status, None, 1)];
      var _ := AppendEvent(t, ThreadCreated(status));
      return Done;
    }

    method ImportMessages(t: string, messages: seq<Event>) returns (reply: Reply)
      requires Valid()
      modifies this`log
      ensures Valid()
      ensures (Tables(), reply) == ThreadDb.ImportMessages(old(Tables()), t, messages)
    {
      ghost var before := LogOf(Tables(), t);
      var snapshot := log;
      var appended := false;
      assert messages[0..] == messages;
      for i := 0 to |messages|
        invariant Valid()
        invariant appended <==> Importable(messages) > Importable(messages[i..])
        invariant Importable(messages[i..]) <= Importable(messages)
        invariant appended ==> t in threads
        invariant Import(LogOf(Tables(), t), messages[i..]) == Import(before, messages)
        invariant log == if appended then old(log)[t := LogOf(Tables(), t)] else old(log)
      {
        assert messages[i..][1..] == messages[i + 1..];
        var e := messages[i];
        if !e.Message? || e.role.OtherRole? {
          continue;
        }
        if t !in threads {
          log := snapshot;
          return Raised(ThreadNotFound);
        }
        var _ := AppendEvent(t, e);
        appended := true;
      }
      return Done;
    }

    method GetMessages(t: string) returns (messages: seq<Event>)
      ensures messages == MessagesOf(LogOf(Tables(), t))
    {
      var rows := if t in log then log[t] else [];
      messages := [];
      for i := 0 to |rows|
        invariant messages == MessagesOf(rows[..i])
      {
        assert rows[..i + 1][..i] == rows[..i];
        if rows[i].event.Message? {
          messages := messages + [rows[i].event];
        }
      }
      assert rows[..|rows|] == rows;
    }

    method BeginTurn(t: string) returns (reply: Reply)
      requires Valid()
      modifies this
      ensures Valid()
      ensures (Tables(), reply) == ThreadDb.BeginTurn(old(Tables()), t)
    {
      if t !in threads {
        return Raised(ThreadNotFound);
      }
      var status := threads[t].status;
      if status !in RESUMABLE {
        return Raised(NotResumable);
      }
      if status != Active {
        threads := threads[t := threads[t].(status := Active, version := threads[t].version + 1)];
        var _ := AppendEvent(t, StatusChanged(status, Active));
      }
      var _ := AppendEvent(t, TurnStarted);
      assert log == old(log)[t := log[t]];
      return Done;
    }

    method AppendMessage(t: string, role: Role, content: string, attachments: seq<string>) returns (reply: Reply)
      requires Valid()
      modifies this
      ensures Valid()
      ensures (Tables(), reply) == ThreadDb.AppendMessage(old(Tables()), t, role, content, attachments)
    {
      if role.OtherRole? {
        return Raised(UnsupportedRole);
      }
      if t !in threads {
        return Absent;
      }
      var _ := AppendEvent(t, Message(role, content, attachments));
      threads := threads[t := threads[t].(version := threads[t].version + 1)];
      return Done;
    }

    /** First part of a turn commit: the user's message and the handoff of a changed artifact. */
    method LogRequest(t: string, a: ArtifactId, current: Artifact, o: Outcome)
      requires Valid()
      modifies this`log, this`artifacts
      ensures Valid()
      ensures t in log && log == old(log)[t := log[t]]
      ensures log[t] == Asked(old(LogOf(Tables(), t)), a.name, current, o)
      ensures artifacts == if o.state != current.state
                           then old(artifacts)[a := Artifact(o.state, current.revision + 1)]
                           else old(artifacts)
    {
      var _ := AppendEvent(t, Message(User, o.userContent, o.attachments));
      if o.state != current.state {
        artifacts := artifacts[a := Artifact(o.state, current.revision + 1)];
        var _ := AppendEvent(t, WorkflowHandoff(a.name, current.revision + 1));
        assert log == old(log)[t := log[t]];
      }
    }

    /** Second part: the answer and the checkpoint. */
    method LogReply(t: string, o: Outcome) returns (checkpoint: nat)
      requires Valid()
      modifies this`log
      ensures Valid()
      ensures t in log && log == old(log)[t := log[t]]
      ensures log[t] == Checked(old(LogOf(Tables(), t)), o)
      ensures checkpoint == LastSequence(log[t])
    {
      var _ := AppendEvent(t, Message(Assistant, o.answer, []));
      checkpoint := AppendEvent(t, Checkpoint(o.next));
    }

    /** Third part: the row and its status change. */
    method FinishTurn(t: string, next: Status, checkpoint: nat)
      requires Valid() && t in threads && t in log
      modifies this`threads, this`log
      ensures Valid()
      ensures var row := old(threads)[t];
              threads == old(threads)[t := row.(status := next, checkpoint := Some(checkpoint), version := row.version + 1)]
      ensures log == old(log)[t := AppendTo(old(log)[t], StatusChanged(Active, next))]
    {
      threads := threads[t := threads[t].(status := next, checkpoint := Some(checkpoint), version := threads[t].version + 1)];
      var _ := AppendEvent(t, StatusChanged(Active, next));
      assert log == old(log)[t := log[t]];
    }

    method CompleteTurn(t: string, name: string, expected: nat, o: Outcome) returns (reply: Reply)
      requires Valid()
      modifies this
      ensures Valid()
      ensures (Tables(), reply) == ThreadDb.CompleteTurn(old(Tables()), t, name, expected, o)
    {
      if o.next !in COMPLETIONS {
        return Raised(InvalidCompletion);
      }
      if t !in threads {
        return Raised(ThreadNotFound);
      }
      if threads[t].status != Active {
        return Raised(NoActiveTurn);
      }
      var a := ArtifactId(threads[t].parent, name);
      var current := if a in artifacts then artifacts[a] else Artifact(map[], 0);
      if current.revision != expected {
        return Raised(WorkflowConflict);
      }
      LogRequest(t, a, current, o);
      var checkpoint := LogReply(t, o);
      FinishTurn(t, o.next, checkpoint);
      assert log == old(log)[t := log[t]];
      return Done;
    }

    method Transition(t: string, target: Status) returns (reply: Reply)
      requires Valid()
      modifies this
      ensures Valid()
      ensures (Tables(), reply) == ThreadDb.Transition(old(Tables()), t, target)
    {
      if target !in STATUSES {
        return Raised(UnsupportedStatus);
      }
      if t !in threads {
        return Absent;
      }
      var source := threads[t].status;
      if target !in AllowedFrom(source) {
        return Raised(InvalidTransition);
      }
      threads := threads[t := threads[t].(status := target, version := threads[t].version + 1)];
      var _ := AppendEvent(t, StatusChanged(source, target));
      return Done;
    }

    method FailTurn(t: string, reason: string) returns (reply: Reply)
      requires Valid()
      modifies this
      ensures Valid()
      ensures (Tables(), reply) == ThreadDb.FailTurn(old(Tables()), t, reason)
    {
      if t !in threads {
        return Absent;
      }
      if threads[t].status != Active {
        return Raised(NoActiveTurn);
      }
      var _ := AppendEvent(t, TurnFailed(reason));
      var _ := AppendEvent(t, StatusChanged(Active, Failed));
      assert log == old(log)[t := log[t]];
      threads := threads[t := threads[t].(status := Failed, version := threads[t].version + 1)];
      return Done;
    }

    method SetWorkflowState(a: ArtifactId, state: Option<State>) returns (revision: nat)
      requires Valid()
      modifies this`artifacts
      ensures Valid()
      ensures (Tables(), revision) == ThreadDb.SetWorkflowState(old(Tables()), a, state)
    {
      revision := if a in artifacts then artifacts[a].revision else 0;
      if state.None? {
        artifacts := artifacts - {a};
        return revision + 1;
      }
      revision := revision + 1;
      artifacts := artifacts[a := Artifact(state.value, revision)];
    }

    /** The state is None exactly for an artifact that does not exist. */
    method GetWorkflowState(a: ArtifactId) returns (state: Option<State>, revision: nat)
      ensures state.Some? <==> a in artifacts
      ensures Current(Tables(), a) == Artifact(if state.Some? then state.value else map[], revision)
    {
      if a !in artifacts {
        return None, 0;
      }
      return Some(artifacts[a].state), artifacts[a].revision;
    }

    method DeleteParent(parent: string)
      requires Valid()
      modifies this
      ensures Valid()
      ensures Tables() == ThreadDb.DeleteParent(old(Tables()), parent)
    {
      var gone := set t | t in threads && threads[t].parent == parent;
      threads := threads - gone;
      log := log - gone;
      artifacts := map a | a in artifacts && a.parent != parent :: artifacts[a];
    }
  }
}
