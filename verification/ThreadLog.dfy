/** What the event log of one side thread looks like, and what it says about the thread's row. */
module ThreadLog {
  import opened Basics
  import opened ThreadDb

  /** The status that replaying the log arrives at. */
  function Replay(log: seq<Logged>): Status {
    if log == [] then Unsupported("")
    else
      match log[|log| - 1].event
      case ThreadCreated(status) => status
      case StatusChanged(_, to) => to
      case _ => Replay(log[..|log| - 1])
  }

  /** Every message and every status change counts one, every checkpoint takes two back. */
  function Tally(log: seq<Logged>): int {
    if log == [] then 0
    else Tally(log[..|log| - 1]) +
         match log[|log| - 1].event
         case StatusChanged(_, _) => 1
         case Message(_, _, _) => 1
         case Checkpoint(_) => -2
         case _ => 0
  }

  function LastCheckpoint(log: seq<Logged>): Option<nat> {
    if log == [] then None
    else if log[|log| - 1].event.Checkpoint? then Some(log[|log| - 1].sequence)
    else LastCheckpoint(log[..|log| - 1])
  }

  /** May event `e` come right after `log`? */
  predicate MayFollow(log: seq<Logged>, e: Event) {
    && (e.ThreadCreated? <==> log == [])
    && (e.ThreadCreated? ==> e.status in STATUSES)
    && (e.StatusChanged? ==> e.from == Replay(log) && e.to in AllowedFrom(e.from))
    && (e.Checkpoint? ==> Replay(log) == Active && e.status in COMPLETIONS)
    && (log != [] && log[|log| - 1].event.Checkpoint? ==> e == StatusChanged(Active, log[|log| - 1].event.status))
  }

  predicate WellFormed(log: seq<Logged>) {
    log == [] ||
    var n := |log| - 1;
    WellFormed(log[..n]) && MayFollow(log[..n], log[n].event) && log[n].sequence == n + 1
  }

  /** The row of a thread agrees with its log, of which `imported` messages came from a legacy import. */
  predicate RowMatches(row: Thread, log: seq<Logged>, imported: nat) {
    && WellFormed(log) && log != [] && !log[|log| - 1].event.Checkpoint?
    && row.status == Replay(log) && row.status in STATUSES
    && row.checkpoint == LastCheckpoint(log)
    && row.version == 1 + Tally(log) - imported
  }

  lemma Grow(log: seq<Logged>, e: Event)
    requires WellFormed(log) && MayFollow(log, e)
    ensures var longer := AppendTo(log, e);
            && WellFormed(longer)
            && Replay(longer) == (match e case ThreadCreated(s) => s case StatusChanged(_, s) => s case _ => Replay(log))
            && Tally(longer) == Tally(log) + (match e case StatusChanged(_, _) => 1 case Message(_, _, _) => 1 case Checkpoint(_) => -2 case _ => 0)
            && LastCheckpoint(longer) == if e.Checkpoint? then Some(|log| + 1) else LastCheckpoint(log)
  {
    assert AppendTo(log, e)[..|log|] == log;
  }

  lemma {:induction false} GrowByImport(row: Thread, log: seq<Logged>, imported: nat, messages: seq<Event>)
    requires RowMatches(row, log, imported)
    ensures RowMatches(row, Import(log, messages), imported + Importable(messages))
    decreases |messages|
  {
    if messages != [] {
      var e := messages[0];
      if e.Message? && !e.role.OtherRole? {
        Grow(log, e);
        GrowByImport(row, AppendTo(log, e), imported + 1, messages[1..]);
      } else {
        GrowByImport(row, log, imported, messages[1..]);
      }
    }
  }

  lemma GrowByTurn(row: Thread, log: seq<Logged>, imported: nat, name: string, current: Artifact, o: Outcome)
    requires RowMatches(row, log, imported) && row.status == Active && o.next in COMPLETIONS
    ensures var checked := Checked(Asked(log, name, current, o), o);
            RowMatches(row.(status := o.next, checkpoint := Some(LastSequence(checked)), version := row.version + 1),
                       AppendTo(checked, StatusChanged(Active, o.next)), imported)
  {
    var user := Message(User, o.userContent, o.attachments);
    Grow(log, user);
    if o.state != current.state {
      Grow(AppendTo(log, user), WorkflowHandoff(name, current.revision + 1));
    }
    var asked := Asked(log, name, current, o);
    var assistant := Message(Assistant, o.answer, []);
    Grow(asked, assistant);
    Grow(AppendTo(asked, assistant), Checkpoint(o.next));
    Grow(Checked(asked, o), StatusChanged(Active, o.next));
  }

  // ---- what a well-formed log guarantees its readers ------------------------------------

  lemma {:induction false} PrefixIsWellFormed(log: seq<Logged>, i: nat)
    requires WellFormed(log) && i <= |log|
    ensures WellFormed(log[..i])
    decreases |log|
  {
    if i < |log| {
      PrefixIsWellFormed(log[..|log| - 1], i);
      assert log[..|log| - 1][..i] == log[..i];
    } else {
      assert log[..i] == log;
    }
  }

  /** Position `i`: numbered `i + 1`, only the first event creates, and a change starts from the replayed status. */
  lemma {:induction false} EveryEventFollows(log: seq<Logged>, i: nat)
    requires WellFormed(log) && i < |log|
    ensures log[i].sequence == i + 1 && MayFollow(log[..i], log[i].event)
    ensures log[i].event.StatusChanged?
            ==> log[i].event.from == Replay(log[..i]) && log[i].event.to in AllowedFrom(Replay(log[..i]))
    ensures log[i].event.ThreadCreated? <==> i == 0
  {
    PrefixIsWellFormed(log, i + 1);
    assert log[..i + 1][..i] == log[..i];
  }

  /** A checkpoint is at once followed by the status change it announces. */
  lemma CheckpointIsFollowed(row: Thread, log: seq<Logged>, imported: nat, i: nat)
    requires RowMatches(row, log, imported) && i < |log| && log[i].event.Checkpoint?
    ensures i + 1 < |log| && log[i + 1].event == StatusChanged(Active, log[i].event.status)
  {
    if i + 1 < |log| {
      EveryEventFollows(log, i + 1);
    }
  }

  /** If no status change to active lies in `i..j`, an inactive thread stays inactive. */
  lemma {:induction false} StaysInactive(log: seq<Logged>, i: nat, j: nat)
    requires WellFormed(log) && 0 < i <= j <= |log| && Replay(log[..i]) != Active
    requires forall m | i <= m < j :: !(log[m].event.StatusChanged? && log[m].event.to == Active)
    ensures Replay(log[..j]) != Active
    decreases j
  {
    if i < j {
      StaysInactive(log, i, j - 1);
      EveryEventFollows(log, j - 1);
      assert log[..j][..j - 1] == log[..j - 1];
    }
  }

  /** Between two checkpoints the thread has been made active again. */
  lemma CheckpointsAreSeparated(row: Thread, log: seq<Logged>, imported: nat, i: nat, j: nat)
    requires RowMatches(row, log, imported) && i < j < |log|
    requires log[i].event.Checkpoint? && log[j].event.Checkpoint?
    ensures exists m :: i < m < j && log[m].event.StatusChanged? && log[m].event.to == Active
  {
    CheckpointIsFollowed(row, log, imported, i);
    EveryEventFollows(log, i);
    EveryEventFollows(log, j);
    assert log[..i + 2][..i + 1] == log[..i + 1];
    if forall m | i < m < j :: !(log[m].event.StatusChanged? && log[m].event.to == Active) {
      StaysInactive(log, i + 2, j);
    }
  }

  /** Completed and cancelled are final: nothing later in the log changes them. */
  lemma {:induction false} FinalStatusIsKept(log: seq<Logged>, i: nat, j: nat)
    requires WellFormed(log) && 0 < i <= j <= |log| && Replay(log[..i]) in {Completed, Cancelled}
    ensures Replay(log[..j]) == Replay(log[..i])
    decreases j
  {
    if i < j {
      FinalStatusIsKept(log, i, j - 1);
      EveryEventFollows(log, j - 1);
      assert log[..j][..j - 1] == log[..j - 1];
    }
  }

  /** The named checkpoint is in the log, and no later event is a checkpoint. */
  lemma {:induction false} CheckpointReference(log: seq<Logged>)
    requires WellFormed(log)
    ensures LastCheckpoint(log) == None ==> forall i | 0 <= i < |log| :: !log[i].event.Checkpoint?
    ensures LastCheckpoint(log).Some? ==>
              var c := LastCheckpoint(log).value;
              && 0 < c <= |log| && log[c - 1].event.Checkpoint? && log[c - 1].sequence == c
              && forall i | c <= i < |log| :: !log[i].event.Checkpoint?
  {
    if log != [] {
      CheckpointReference(log[..|log| - 1]);
    }
  }
}
