/**
 Side-agent turns that run at the same time: each worker finds its thread, reads the
 shared artifact with its revision, begins the turn, runs its handler, and commits or
 fails.  Everybody else may use the store in between in any way.
 */
module SkillTurns {
  import opened Basics
  import opened ThreadDb
  import opened ThreadHistory

  /** Where a call of `respond` stands, with what it has read. */
  datatype Turn =
    | Outside
    | Found(t: string, artifact: ArtifactId)
    | HasRead(t: string, artifact: ArtifactId, seen: Artifact)
    | Begun(t: string, artifact: ArtifactId, seen: Artifact)

  datatype Act =
    | FindThread(worker: nat, thread: string)
    | ReadState(worker: nat)
    | BeginOrFail(worker: nat)
    | HandlerFails(worker: nat, reason: string)
    | CommitTurn(worker: nat, outcome: Outcome)
    | Elsewhere(op: Op)

  datatype System = System(db: Db, turns: map<nat, Turn>)

  function TurnOf(s: System, w: nat): Turn {
    if w in s.turns then s.turns[w] else Outside
  }

  /** A turn that cannot begin is reported as failed before `respond` raises. */
  function BeginDb(db: Db, t: string): (Db, bool) {
    var (begun, reply) := BeginTurn(db, t);
    if reply == Done then (begun, true) else (FailTurn(db, t, "handler_error").0, false)
  }

  /** The commit a worker in turn `u` sends. */
  function CommitOf(u: Turn, o: Outcome): Op
    requires u.Begun?
  {
    Commit(u.t, u.artifact.name, u.seen.revision, o)
  }

  function Run(s: System, a: Act): System {
    match a
    case FindThread(w, t) =>
      if TurnOf(s, w) == Outside && t in s.db.threads && s.db.threads[t].status in RESUMABLE then
        s.(turns := s.turns[w := Found(t, ArtifactId(s.db.threads[t].parent, s.db.threads[t].stateKey))])
      else s
    case ReadState(w) =>
      var u := TurnOf(s, w);
      if u.Found? then s.(turns := s.turns[w := HasRead(u.t, u.artifact, Current(s.db, u.artifact))]) else s
    case BeginOrFail(w) =>
      var u := TurnOf(s, w);
      if u.HasRead? then
        var (db, begun) := BeginDb(s.db, u.t);
        System(db, s.turns[w := if begun then Begun(u.t, u.artifact, u.seen) else Outside])
      else s
    case HandlerFails(w, reason) =>
      var u := TurnOf(s, w);
      if u.Begun? then System(Apply(s.db, GiveUp(u.t, reason)).0, s.turns[w := Outside]) else s
    case CommitTurn(w, o) =>
      var u := TurnOf(s, w);
      if u.Begun? then System(Apply(s.db, CommitOf(u, o)).0, s.turns[w := Outside]) else s
    case Elsewhere(op) => s.(db := Apply(s.db, op).0)
  }

  datatype Moment = Moment(before: System, act: Act, after: System)

  predicate Legal(m: Moment) {
    m.after == Run(m.before, m.act)
  }

  /** Any interleaving of any number of workers and of other callers, from any store. */
  ghost predicate IsRun(run: seq<Moment>) {
    && (forall i {:trigger Legal(run[i])} | 0 <= i < |run| :: Legal(run[i]))
    && (forall i, j | 0 <= i && j == i + 1 < |run| :: run[i].after == run[j].before)
    && (run != [] ==> Stored(run[0].before.db) && run[0].before.turns == map[])
  }

  /** The act deletes the parent session. */
  predicate DropsSession(a: Act, parent: string) {
    a == Elsewhere(DropParent(parent))
  }

  /** The act deletes the artifact itself. */
  predicate Erases(a: Act, id: ArtifactId) {
    a == Elsewhere(SetState(id, None))
  }

  predicate Forgetting(a: Act, id: ArtifactId) {
    Erases(a, id) || DropsSession(a, id.parent)
  }

  /** One act moves an artifact by at most one revision, unless it forgets it. */
  lemma ActStep(m: Moment, id: ArtifactId)
    requires Legal(m) && Stored(m.before.db)
    ensures Stored(m.after.db)
    ensures !Forgetting(m.act, id) ==>
              var old', new' := Current(m.before.db, id), Current(m.after.db, id);
              new' == old' || new'.revision == old'.revision + 1
  {
    var db := m.before.db;
    match m.act
    case CommitTurn(w, o) =>
      if TurnOf(m.before, w).Begun? {
        var op := CommitOf(TurnOf(m.before, w), o);
        ArtifactStep(ThreadHistory.Moment(db, op, Apply(db, op).0, Apply(db, op).1), id);
      }
    case Elsewhere(op) =>
      ArtifactStep(ThreadHistory.Moment(db, op, Apply(db, op).0, Apply(db, op).1), id);
    case _ =>
      assert m.after.db.artifacts == db.artifacts;
  }

  lemma {:induction false} StoredThroughout(run: seq<Moment>, i: nat)
    requires IsRun(run) && i < |run|
    ensures Stored(run[i].before.db)
  {
    if i > 0 {
      StoredThroughout(run, i - 1);
      ActStep(run[i - 1], ArtifactId("", ""));
      assert run[i - 1].after == run[i].before;
    }
  }

  /** A revision identifies a state for as long as the artifact is not forgotten. */
  lemma {:induction false} RevisionsIdentify(run: seq<Moment>, i: nat, j: nat, id: ArtifactId)
    requires IsRun(run) && i <= j < |run|
    requires forall m | i <= m < j :: !Forgetting(run[m].act, id)
    ensures var first, last := Current(run[i].before.db, id), Current(run[j].before.db, id);
            first.revision <= last.revision && (first.revision == last.revision ==> first == last)
    decreases j
  {
    if i < j {
      RevisionsIdentify(run, i, j - 1, id);
      StoredThroughout(run, j - 1);
      ActStep(run[j - 1], id);
      assert run[j - 1].after == run[j].before;
    }
  }

  // ---- the thread of a turn -----------------------------------------------------------------

  predicate InPlace(db: Db, t: string, parent: string) {
    t in db.threads && db.threads[t].parent == parent
  }

  lemma OpKeepsPlace(db: Db, op: Op, t: string, parent: string)
    requires InPlace(db, t, parent) && op != DropParent(parent)
    ensures InPlace(Apply(db, op).0, t, parent)
  {
  }

  /** Thread `t` keeps its parent session while that is not deleted. */
  lemma ThreadKeepsPlace(m: Moment, t: string, parent: string)
    requires Legal(m) && !DropsSession(m.act, parent) && InPlace(m.before.db, t, parent)
    ensures InPlace(m.after.db, t, parent)
  {
    var db := m.before.db;
    match m.act
    case FindThread(_, _) =>
    case ReadState(_) =>
    case BeginOrFail(w) => BeginKeepsPlace(db, TurnOf(m.before, w), t, parent);
    case HandlerFails(w, reason) =>
      if TurnOf(m.before, w).Begun? { OpKeepsPlace(db, GiveUp(TurnOf(m.before, w).t, reason), t, parent); }
    case CommitTurn(w, o) =>
      if TurnOf(m.before, w).Begun? { OpKeepsPlace(db, CommitOf(TurnOf(m.before, w), o), t, parent); }
    case Elsewhere(op) => OpKeepsPlace(db, op, t, parent);
  }

  lemma BeginKeepsPlace(db: Db, u: Turn, t: string, parent: string)
    requires InPlace(db, t, parent)
    ensures u.HasRead? ==> InPlace(BeginDb(db, u.t).0, t, parent)
  {
  }

  lemma {:induction false} ThreadStaysInPlace(run: seq<Moment>, i: nat, j: nat, t: string, parent: string)
    requires IsRun(run) && i <= j < |run| && InPlace(run[i].before.db, t, parent)
    requires forall m | i <= m < j :: !DropsSession(run[m].act, parent)
    ensures InPlace(run[j].before.db, t, parent)
    decreases j
  {
    if i < j {
      ThreadStaysInPlace(run, i, j - 1, t, parent);
      ThreadKeepsPlace(run[j - 1], t, parent);
      assert run[j - 1].after == run[j].before;
    }
  }

  // ---- the turn of a worker ---------------------------------------------------------------------

  /** The worker has turned to thread `t` and its artifact, and has perhaps read it already. */
  predicate IsOn(u: Turn, t: string, artifact: ArtifactId) {
    !u.Outside? && u.t == t && u.artifact == artifact
  }

  predicate FindsAt(m: Moment, w: nat, t: string, artifact: ArtifactId) {
    m.act == FindThread(w, t) && TurnOf(m.before, w) == Outside && TurnOf(m.after, w) == Found(t, artifact)
  }

  predicate ReadsAt(m: Moment, w: nat, u: Turn) {
    m.act == ReadState(w) && TurnOf(m.before, w).Found? && u.HasRead? && TurnOf(m.after, w) == u
  }

  predicate SameRead(v: Turn, u: Turn)
    requires u.HasRead?
  {
    (v.HasRead? || v.Begun?) && v.t == u.t && v.artifact == u.artifact && v.seen == u.seen
  }

  lemma KeepsTurn(m: Moment, w: nat, t: string, artifact: ArtifactId)
    requires Legal(m) && IsOn(TurnOf(m.before, w), t, artifact) && TurnOf(m.after, w) != Outside
    ensures IsOn(TurnOf(m.after, w), t, artifact)
    ensures forall u: Turn | u.HasRead? && SameRead(TurnOf(m.before, w), u) :: SameRead(TurnOf(m.after, w), u)
  {
  }

  /** From its read on, a worker that has not left its turn still holds what it read. */
  lemma {:induction false} WorkerKeepsItsRead(run: seq<Moment>, i: nat, j: nat, w: nat, u: Turn)
    requires IsRun(run) && i < j < |run| && ReadsAt(run[i], w, u)
    requires forall m | i < m <= j :: TurnOf(run[m].before, w) != Outside
    ensures SameRead(TurnOf(run[j].before, w), u)
    decreases j
  {
    assert run[j - 1].after == run[j].before;
    if i + 1 < j {
      WorkerKeepsItsRead(run, i, j - 1, w, u);
      KeepsTurn(run[j - 1], w, u.t, u.artifact);
    }
  }

  /** Until it reads, a worker that has not left its turn is still on the thread it found. */
  lemma {:induction false} WorkerKeepsItsThread(run: seq<Moment>, f: nat, i: nat, w: nat, t: string, artifact: ArtifactId)
    requires IsRun(run) && f < i < |run| && FindsAt(run[f], w, t, artifact)
    requires forall m | f < m <= i :: TurnOf(run[m].before, w) != Outside
    ensures IsOn(TurnOf(run[i].before, w), t, artifact)
    decreases i
  {
    assert run[i - 1].after == run[i].before;
    if f + 1 < i {
      WorkerKeepsItsThread(run, f, i - 1, w, t, artifact);
      KeepsTurn(run[i - 1], w, t, artifact);
    }
  }

  /** One turn of worker `w`: it finds its thread at `f`, reads at `i`, and its commit at `j` goes through. */
  ghost predicate CommitsRead(run: seq<Moment>, f: nat, i: nat, j: nat, w: nat, u: Turn) {
    && f < i < j < |run|
    && ReadsAt(run[i], w, u) && FindsAt(run[f], w, u.t, u.artifact)
    && (forall m | f < m <= j :: TurnOf(run[m].before, w) != Outside)
    && run[j].act.CommitTurn? && run[j].act.worker == w && TurnOf(run[j].before, w).Begun?
    && Apply(run[j].before.db, CommitOf(TurnOf(run[j].before, w), run[j].act.outcome)).1 == Done
  }

  /** A turn begins exactly if its thread is still resumable, which is then active; if not, nothing is changed and the turn is over. */
  lemma TurnBeginsIfResumable(s: System, w: nat)
    requires TurnOf(s, w).HasRead?
    ensures var u, next := TurnOf(s, w), Run(s, BeginOrFail(w));
            if u.t in s.db.threads && s.db.threads[u.t].status in RESUMABLE then
              && TurnOf(next, w) == Begun(u.t, u.artifact, u.seen) && u.t in next.db.threads && next.db.threads[u.t].status == Active
              && next.db.artifacts == s.db.artifacts
            else TurnOf(next, w) == Outside && next.db == s.db
  {
  }

  /** A handler that fails ends the turn; its thread has failed if it was still active, and no artifact changes. */
  lemma FailureEndsTheTurn(s: System, w: nat, reason: string)
    requires TurnOf(s, w).Begun?
    ensures var u, next := TurnOf(s, w), Run(s, HandlerFails(w, reason));
            && TurnOf(next, w) == Outside && next.db.artifacts == s.db.artifacts
            && (u.t in s.db.threads && s.db.threads[u.t].status == Active ==> u.t in next.db.threads && next.db.threads[u.t].status == Failed)
  {
  }

  /** The artifact that the commit of a turn writes: that of the thread as it is now. */
  function Target(db: Db, u: Turn): ArtifactId
    requires !u.Outside? && u.t in db.threads
  {
    ArtifactId(db.threads[u.t].parent, u.artifact.name)
  }

  /** The commit at `j` replaces exactly what the turn had read. */
  ghost predicate Safe(run: seq<Moment>, j: nat, u: Turn)
    requires j < |run| && !u.Outside?
  {
    var db := run[j].before.db;
    u.HasRead? && u.t in db.threads && Current(db, Target(db, u)) == u.seen
  }

  /** A commit that goes through meets the revision it expects. */
  lemma CommitMeetsItsRevision(run: seq<Moment>, f: nat, i: nat, j: nat, w: nat, u: Turn)
    requires IsRun(run) && CommitsRead(run, f, i, j, w, u)
    ensures var db, after, written := run[j].before.db, run[j].after.db, run[j].act.outcome.state;
            && u.t in db.threads && Current(db, Target(db, u)).revision == u.seen.revision
            && Current(after, Target(db, u))
               == if written == Current(db, Target(db, u)).state then Current(db, Target(db, u)) else Artifact(written, u.seen.revision + 1)
  {
    WorkerKeepsItsRead(run, i, j, w, u);
    assert Legal(run[j]);
  }

  lemma ReadIsCurrent(run: seq<Moment>, f: nat, i: nat, j: nat, w: nat, u: Turn)
    requires IsRun(run) && CommitsRead(run, f, i, j, w, u)
    ensures Current(run[i].before.db, u.artifact) == u.seen
  {
    WorkerKeepsItsThread(run, f, i, w, u.t, u.artifact);
    assert Legal(run[i]);
  }

  /** Whoever read revision 0 is safe, whatever is deleted, created or written in between. */
  lemma FirstWriterIsSafe(run: seq<Moment>, f: nat, i: nat, j: nat, w: nat, u: Turn)
    requires IsRun(run) && CommitsRead(run, f, i, j, w, u) && u.seen.revision == 0
    ensures Safe(run, j, u)
  {
    CommitMeetsItsRevision(run, f, i, j, w, u);
    ReadIsCurrent(run, f, i, j, w, u);
    StoredThroughout(run, i);
    StoredThroughout(run, j);
  }

  /**
   No lost update: unless the session was deleted after the thread was found, or the
   artifact after it was read, a commit that goes through replaces exactly the state its
   turn had read, and raises the revision by one if it changes that state.
   */
  lemma NoLostUpdate(run: seq<Moment>, f: nat, i: nat, j: nat, w: nat, u: Turn)
    requires IsRun(run) && CommitsRead(run, f, i, j, w, u)
    requires forall m | f <= m < j :: !DropsSession(run[m].act, u.artifact.parent)
    requires forall m | i <= m < j :: !Erases(run[m].act, u.artifact)
    ensures Safe(run, j, u) && Target(run[j].before.db, u) == u.artifact
    ensures Current(run[i].before.db, u.artifact) == u.seen
    ensures var written := run[j].act.outcome.state;
            Current(run[j].after.db, u.artifact)
            == if written == u.seen.state then u.seen else Artifact(written, u.seen.revision + 1)
  {
    CommitMeetsItsRevision(run, f, i, j, w, u);
    ReadIsCurrent(run, f, i, j, w, u);
    assert Legal(run[f]);
    ThreadStaysInPlace(run, f, j, u.t, u.artifact.parent);
    RevisionsIdentify(run, i, j, u.artifact);
  }

  /** Of two turns that read the same revision, at most one commits a change. */
  lemma OneWriterPerRevision(run: seq<Moment>, f1: nat, i1: nat, j1: nat, w1: nat, u1: Turn,
                             f2: nat, i2: nat, j2: nat, w2: nat, u2: Turn)
    requires IsRun(run) && CommitsRead(run, f1, i1, j1, w1, u1) && CommitsRead(run, f2, i2, j2, w2, u2) && j1 < j2
    requires u1.artifact == u2.artifact && u1.seen.revision == u2.seen.revision
    requires forall m | (if f1 < f2 then f1 else f2) <= m < j2 :: !Forgetting(run[m].act, u1.artifact)
    ensures run[j1].act.outcome.state == u1.seen.state
  {
    NoLostUpdate(run, f1, i1, j1, w1, u1);
    NoLostUpdate(run, f2, i2, j2, w2, u2);
    assert run[j1].after == run[j1 + 1].before;
    RevisionsIdentify(run, j1 + 1, j2, u1.artifact);
  }
}
