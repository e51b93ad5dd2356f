/**
 Exactly when a side-agent commit is safe against everything that may happen during
 its turn: if it expects revision 0, or if nothing is deleted.
 */
module LostUpdates {
  import opened Basics
  import opened ThreadDb
  import opened ThreadHistory
  import opened SkillTurns

  /**
   Every commit that goes through with expected revision `r` replaces what its turn had
   read, in every run; `sessions` and `artifacts` say whether the session may be deleted
   once the thread is found, and the artifact once it is read.
   */
  ghost predicate AlwaysSafe(r: nat, sessions: bool, artifacts: bool) {
    forall run: seq<SkillTurns.Moment>, f: nat, i: nat, j: nat, w: nat, u: Turn ::
      IsRun(run) && CommitsRead(run, f, i, j, w, u) && u.seen.revision == r
      && (sessions || forall m | f <= m < j :: !DropsSession(run[m].act, u.artifact.parent))
      && (artifacts || forall m | i <= m < j :: !Erases(run[m].act, u.artifact))
      ==> Safe(run, j, u)
  }

  /** A commit is safe against every continuation exactly if it expects revision 0 or no deletion can happen. */
  lemma SafetyIsExact(r: nat, sessions: bool, artifacts: bool)
    ensures AlwaysSafe(r, sessions, artifacts) <==> r == 0 || (!sessions && !artifacts)
  {
    if r == 0 || (!sessions && !artifacts) {
      forall run: seq<SkillTurns.Moment>, f: nat, i: nat, j: nat, w: nat, u: Turn |
          IsRun(run) && CommitsRead(run, f, i, j, w, u) && u.seen.revision == r
          && (sessions || forall m | f <= m < j :: !DropsSession(run[m].act, u.artifact.parent))
          && (artifacts || forall m | i <= m < j :: !Erases(run[m].act, u.artifact))
        ensures Safe(run, j, u)
      {
        if r == 0 {
          FirstWriterIsSafe(run, f, i, j, w, u);
        } else {
          NoLostUpdate(run, f, i, j, w, u);
        }
      }
    } else {
      var deletion := if artifacts then [SetState(ARTIFACT, None)] else [DropParent("p"), RECREATE];
      var run, j := LostUpdate(r, deletion);
      assert CommitsRead(run, 0, 1, j, 0, Reading(r));
    }
  }

  // ---- playing a script ---------------------------------------------------------------------

  function After(s: System, acts: seq<Act>): System {
    if acts == [] then s else Run(After(s, acts[..|acts| - 1]), acts[|acts| - 1])
  }

  function Play(s: System, acts: seq<Act>): seq<SkillTurns.Moment> {
    seq(|acts|, k requires 0 <= k < |acts| =>
      SkillTurns.Moment(After(s, acts[..k]), acts[k], After(s, acts[..k + 1])))
  }

  lemma OneMore(s: System, acts: seq<Act>, a: Act)
    ensures After(s, acts + [a]) == Run(After(s, acts), a)
  {
    assert (acts + [a])[..|acts|] == acts;
  }

  lemma PlayIsRun(s: System, acts: seq<Act>)
    requires Stored(s.db) && s.turns == map[]
    ensures IsRun(Play(s, acts))
  {
    var run := Play(s, acts);
    forall i {:trigger SkillTurns.Legal(run[i])} | 0 <= i < |run| ensures SkillTurns.Legal(run[i]) {
      assert acts[..i + 1] == acts[..i] + [acts[i]];
      OneMore(s, acts[..i], acts[i]);
    }
    if run != [] {
      assert acts[..0] == [];
    }
  }

  function Ops(ops: seq<Op>): seq<Act> {
    seq(|ops|, i requires 0 <= i < |ops| => Elsewhere(ops[i]))
  }

  /** What other callers do leaves the turns alone. */
  lemma {:induction false} OthersKeepTurns(s: System, acts: seq<Act>, n: nat, m: nat)
    requires n <= m <= |acts| && forall k | n <= k < m :: acts[k].Elsewhere?
    ensures After(s, acts[..m]).turns == After(s, acts[..n]).turns
    decreases m
  {
    if n < m {
      OthersKeepTurns(s, acts, n, m - 1);
      assert acts[..m] == acts[..m - 1] + [acts[m - 1]];
      OneMore(s, acts[..m - 1], acts[m - 1]);
    }
  }

  // ---- an update that is lost ---------------------------------------------------------------------

  const ARTIFACT := ArtifactId("p", "k")
  const RECREATE := Create("t", "p", "s", "k", "h", Active)
  const OTHERS: State := map["text" := "theirs"]
  const OUTCOME := Outcome("question", [], "answer", map["text" := "mine"], WaitingUser)

  /** An active thread, and its artifact at revision `r`. */
  function Start(r: nat): System {
    System(Db(map["t" := Thread("p", "s", "k", "h", Active, None, 1)], map["t" := []], map[ARTIFACT := Artifact(map[], r)]), map[])
  }

  const OPENING: seq<Act> := [FindThread(0, "t"), ReadState(0), BeginOrFail(0)]

  /** The turn opens, others delete the artifact and write it `n` times, and the turn commits. */
  function Script(deletion: seq<Op>, n: nat): seq<Act> {
    OPENING + Ops(deletion) + Writes(n)
  }

  function Writes(n: nat): seq<Act> {
    seq(n, i => Elsewhere(SetState(ARTIFACT, Some(OTHERS))))
  }

  /** The thread is active under its parent, and the artifact has been written `n` times since it was deleted. */
  predicate Rewritten(db: Db, n: nat) {
    && "t" in db.threads && db.threads["t"].parent == "p" && db.threads["t"].status == Active
    && Current(db, ARTIFACT) == if n == 0 then Artifact(map[], 0) else Artifact(OTHERS, n)
  }

  lemma OpeningReads(r: nat)
    requires r > 0
    ensures After(Start(r), OPENING[..1]).turns == map[0 := Found("t", ARTIFACT)]
    ensures After(Start(r), OPENING[..2]).turns == map[0 := HasRead("t", ARTIFACT, Artifact(map[], r))]
    ensures var begun := After(Start(r), OPENING);
            && begun.turns == map[0 := Begun("t", ARTIFACT, Artifact(map[], r))]
            && "t" in begun.db.threads && begun.db.threads["t"] == Start(r).db.threads["t"]
            && begun.db.artifacts == Start(r).db.artifacts
  {
    var s := Start(r);
    assert OPENING[..0] == [] && OPENING[..1] == [] + [OPENING[0]] && OPENING[..2] == OPENING[..1] + [OPENING[1]];
    assert OPENING == OPENING[..2] + [OPENING[2]];
    OneMore(s, [], OPENING[0]);
    OneMore(s, OPENING[..1], OPENING[1]);
    OneMore(s, OPENING[..2], OPENING[2]);
  }

  lemma DeletionClears(r: nat, deletion: seq<Op>)
    requires r > 0 && deletion in {[SetState(ARTIFACT, None)], [DropParent("p"), RECREATE]}
    ensures Rewritten(After(Start(r), OPENING + Ops(deletion)).db, 0)
  {
    var s := Start(r);
    OpeningReads(r);
    OneMore(s, OPENING, Elsewhere(deletion[0]));
    if |deletion| == 1 {
      assert OPENING + Ops(deletion) == OPENING + [Elsewhere(deletion[0])];
    } else {
      assert OPENING + Ops(deletion) == OPENING + [Elsewhere(deletion[0])] + [Elsewhere(deletion[1])];
      OneMore(s, OPENING + [Elsewhere(deletion[0])], Elsewhere(deletion[1]));
    }
  }

  lemma {:induction false} WritesCount(r: nat, deletion: seq<Op>, n: nat)
    requires r > 0 && deletion in {[SetState(ARTIFACT, None)], [DropParent("p"), RECREATE]}
    ensures Rewritten(After(Start(r), Script(deletion, n)).db, n)
  {
    if n == 0 {
      DeletionClears(r, deletion);
      assert Script(deletion, 0) == OPENING + Ops(deletion);
    } else {
      WritesCount(r, deletion, n - 1);
      assert Script(deletion, n) == Script(deletion, n - 1) + [Elsewhere(SetState(ARTIFACT, Some(OTHERS)))];
      OneMore(Start(r), Script(deletion, n - 1), Elsewhere(SetState(ARTIFACT, Some(OTHERS))));
    }
  }

  lemma ScriptTurns(r: nat, deletion: seq<Op>, n: nat, m: nat)
    requires r > 0 && 1 <= m <= |Script(deletion, n)|
    ensures TurnOf(After(Start(r), Script(deletion, n)[..m]), 0)
         == if m == 1 then Found("t", ARTIFACT)
            else if m == 2 then HasRead("t", ARTIFACT, Artifact(map[], r))
            else Begun("t", ARTIFACT, Artifact(map[], r))
  {
    var script := Script(deletion, n);
    OpeningReads(r);
    if m < 3 {
      assert script[..m] == OPENING[..m];
    } else {
      assert script[..3] == OPENING;
      OthersKeepTurns(Start(r), script, 3, m);
    }
  }

  /** The run of a script that ends in a commit: its moments start where the script has got to. */
  lemma PlayedUpTo(s: System, script: seq<Act>, last: Act, m: nat)
    requires m <= |script|
    ensures var run := Play(s, script + [last]);
            && run[m].before == After(s, script[..m])
            && run[m].act == (if m < |script| then script[m] else last)
            && (m < |script| ==> run[m].after == After(s, script[..m + 1]))
  {
    var acts := script + [last];
    assert acts[..m] == script[..m];
    if m < |script| {
      assert acts[..m + 1] == script[..m + 1];
    }
  }

  /** The stale commit meets the revision it expects, on a state that its turn has not seen. */
  lemma StaleCommitGoesThrough(db: Db, r: nat)
    requires r > 0 && Rewritten(db, r)
    ensures Apply(db, Commit("t", "k", r, OUTCOME)).1 == Done
    ensures Current(db, ARTIFACT) == Artifact(OTHERS, r) != Artifact(map[], r)
  {
    assert "text" in OTHERS;
  }

  function Reading(r: nat): Turn {
    HasRead("t", ARTIFACT, Artifact(map[], r))
  }

  lemma ScriptFindsAndReads(r: nat, deletion: seq<Op>)
    requires r > 0
    ensures var run := Play(Start(r), Script(deletion, r) + [CommitTurn(0, OUTCOME)]);
            FindsAt(run[0], 0, "t", ARTIFACT) && ReadsAt(run[1], 0, Reading(r))
  {
    var script := Script(deletion, r);
    PlayedUpTo(Start(r), script, CommitTurn(0, OUTCOME), 0);
    PlayedUpTo(Start(r), script, CommitTurn(0, OUTCOME), 1);
    ScriptTurns(r, deletion, r, 1);
    ScriptTurns(r, deletion, r, 2);
    assert script[..0] == [];
  }

  /** For every revision from 1 on, and either deletion, a run in which a stale commit replaces what it has never read. */
  lemma LostUpdate(r: nat, deletion: seq<Op>) returns (run: seq<SkillTurns.Moment>, j: nat)
    requires r > 0 && deletion in {[SetState(ARTIFACT, None)], [DropParent("p"), RECREATE]}
    ensures IsRun(run) && CommitsRead(run, 0, 1, j, 0, Reading(r)) && !Safe(run, j, Reading(r))
    ensures |deletion| == 1 ==> forall m | 0 <= m < j :: !DropsSession(run[m].act, "p")
    ensures |deletion| == 2 ==> forall m | 0 <= m < j :: !Erases(run[m].act, ARTIFACT)
  {
    var script, last := Script(deletion, r), CommitTurn(0, OUTCOME);
    run, j := Play(Start(r), script + [last]), |script|;
    PlayIsRun(Start(r), script + [last]);
    ScriptFindsAndReads(r, deletion);
    forall m | 0 < m <= j ensures TurnOf(run[m].before, 0) != Outside {
      PlayedUpTo(Start(r), script, last, m);
      ScriptTurns(r, deletion, r, m);
    }
    PlayedUpTo(Start(r), script, last, j);
    ScriptTurns(r, deletion, r, j);
    assert script[..j] == script;
    WritesCount(r, deletion, r);
    StaleCommitGoesThrough(run[j].before.db, r);
    DeletesOnly(deletion, r);
    forall m | 0 <= m < j ensures run[m].act == script[m] {
      PlayedUpTo(Start(r), script, last, m);
    }
  }

  lemma DeletesOnly(deletion: seq<Op>, n: nat)
    requires deletion in {[SetState(ARTIFACT, None)], [DropParent("p"), RECREATE]}
    ensures |deletion| == 1 ==> forall m | 0 <= m < |Script(deletion, n)| :: !DropsSession(Script(deletion, n)[m], "p")
    ensures |deletion| == 2 ==> forall m | 0 <= m < |Script(deletion, n)| :: !Erases(Script(deletion, n)[m], ARTIFACT)
  {
  }
}
