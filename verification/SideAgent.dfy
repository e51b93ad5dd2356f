/**
 Opening, answering and closing side threads, one call after the other.  A parent
 session then never has two live threads for one skill.
 */
module SideAgent {
  import opened Basics
  import opened ThreadDb
  import opened ThreadHistory
  import opened SkillTurns

  /** Thread `t` is a resumable thread of the given parent session and skill. */
  predicate IsLive(db: Db, t: string, parent: string, skill: string) {
    && t in db.threads && db.threads[t].parent == parent && db.threads[t].skill == skill
    && db.threads[t].status in RESUMABLE
  }

  ghost predicate SingleLive(db: Db) {
    forall t, u, parent, skill :: IsLive(db, t, parent, skill) && IsLive(db, u, parent, skill) ==> t == u
  }

  function NewThread(db: Db, id: string, parent: string, skill: string, stateKey: string, handler: string, opening: string): Db {
    AppendMessage(CreateThread(db, id, parent, skill, stateKey, handler, Active).0, id, Assistant, opening, []).0
  }

  /** `open`: hands out some live thread of the skill if there is one, else a new one. */
  ghost predicate Opens(db: Db, parent: string, skill: string, stateKey: string, handler: string, opening: string, result: string, next: Db) {
    if exists t :: IsLive(db, t, parent, skill) then IsLive(db, result, parent, skill) && next == db
    else result !in db.threads && next == NewThread(db, result, parent, skill, stateKey, handler, opening)
  }

  /** `respond` on its own: None stands for a handler that raises. */
  function Respond(db: Db, t: string, result: Option<Outcome>): Db {
    if t !in db.threads || db.threads[t].status !in RESUMABLE then db
    else
      var id := ArtifactId(db.threads[t].parent, db.threads[t].stateKey);
      var begun := BeginTurn(db, t).0;
      match result
      case None => FailTurn(begun, t, "handler_error").0
      case Some(o) => CompleteTurn(begun, t, id.name, Current(db, id).revision, o).0
  }

  datatype Call =
    | Open(parent: string, skill: string, stateKey: string, handler: string, opening: string, result: string)
    | Answer(t: string, turn: Option<Outcome>)
    | Close(t: string)

  ghost predicate Calls(db: Db, c: Call, next: Db) {
    match c
    case Open(parent, skill, stateKey, handler, opening, result) => Opens(db, parent, skill, stateKey, handler, opening, result, next)
    case Answer(t, turn) => (turn.Some? ==> turn.value.next in {WaitingUser, WaitingConfirmation}) && next == Respond(db, t, turn)
    case Close(t) => next == Transition(db, t, Cancelled).0
  }

  lemma RespondCommits(db: Db, t: string, o: Outcome)
    requires t in db.threads && db.threads[t].status in RESUMABLE && o.next in {WaitingUser, WaitingConfirmation}
    ensures var id := ArtifactId(db.threads[t].parent, db.threads[t].stateKey);
            var next := Respond(db, t, Some(o));
            && Current(next, id).state == o.state
            && Current(next, id).revision == Current(db, id).revision + (if o.state == Current(db, id).state then 0 else 1)
  {
  }

  /** Without a rival the commit of `respond` always goes through and its result is visible. */
  lemma RespondGoesThrough(db: Db, t: string, o: Outcome)
    requires t in db.threads && db.threads[t].status in RESUMABLE && o.next in {WaitingUser, WaitingConfirmation}
    ensures var id := ArtifactId(db.threads[t].parent, db.threads[t].stateKey);
            var next := Respond(db, t, Some(o));
            && next.threads[t].status == o.next && next.threads.Keys == db.threads.Keys
            && Current(next, id).state == o.state
            && Current(next, id).revision == Current(db, id).revision + (if o.state == Current(db, id).state then 0 else 1)
            && (forall u | u in db.threads && u != t :: next.threads[u] == db.threads[u])
            && next.threads[t].parent == db.threads[t].parent && next.threads[t].skill == db.threads[t].skill
  {
    RespondCommits(db, t, o);
  }

  /** Answering and closing never make another thread live. */
  lemma LiveOnlyBefore(db: Db, c: Call, next: Db, u: string, parent: string, skill: string)
    requires Calls(db, c, next) && !c.Open? && IsLive(next, u, parent, skill)
    ensures IsLive(db, u, parent, skill)
  {
    if c.Answer? && c.turn.Some? && c.t in db.threads && db.threads[c.t].status in RESUMABLE {
      RespondGoesThrough(db, c.t, c.turn.value);
    }
  }

  lemma CallsKeepSingleLive(db: Db, c: Call, next: Db)
    requires SingleLive(db) && Calls(db, c, next)
    ensures SingleLive(next)
  {
    forall t, u, parent, skill | IsLive(next, t, parent, skill) && IsLive(next, u, parent, skill)
      ensures t == u
    {
      if c.Open? {
        if !exists l :: IsLive(db, l, c.parent, c.skill) {
          if t != c.result { assert IsLive(db, t, parent, skill); }
          if u != c.result { assert IsLive(db, u, parent, skill); }
        }
      } else {
        LiveOnlyBefore(db, c, next, t, parent, skill);
        LiveOnlyBefore(db, c, next, u, parent, skill);
      }
    }
  }

  datatype Done = Done(before: Db, call: Call, after: Db)

  ghost predicate IsSession(run: seq<Done>) {
    && (forall i | 0 <= i < |run| :: Calls(run[i].before, run[i].call, run[i].after))
    && (forall i, j | 0 <= i && j == i + 1 < |run| :: run[i].after == run[j].before)
    && (run != [] ==> run[0].before == EMPTY)
  }

  /** In every sequential use there is at most one live thread per parent session and skill. */
  lemma {:induction false} AtMostOneLiveThread(run: seq<Done>, i: nat)
    requires IsSession(run) && i < |run|
    ensures SingleLive(run[i].before) && SingleLive(run[i].after)
  {
    if i > 0 {
      AtMostOneLiveThread(run, i - 1);
      assert run[i - 1].after == run[i].before;
    }
    CallsKeepSingleLive(run[i].before, run[i].call, run[i].after);
  }

  /** So `open` returns the live thread whenever there is one, and afterwards its result is the live thread. */
  lemma OpenReturnsTheLiveThread(run: seq<Done>, i: nat, t: string)
    requires IsSession(run) && i < |run| && run[i].call.Open?
    ensures var c := run[i].call;
            && (IsLive(run[i].before, t, c.parent, c.skill) ==> c.result == t && run[i].after == run[i].before)
            && (IsLive(run[i].after, t, c.parent, c.skill) <==> t == c.result)
  {
    AtMostOneLiveThread(run, i);
    var c := run[i].call;
    if !exists l :: IsLive(run[i].before, l, c.parent, c.skill) {
      assert IsLive(run[i].after, c.result, c.parent, c.skill);
    }
  }

  /** A thread that `open` creates is active, is what was asked for, and has said its opening message and nothing else. */
  lemma NewThreadGreets(db: Db, t: string, parent: string, skill: string, stateKey: string, handler: string, opening: string)
    requires t !in db.threads && LogOf(db, t) == []
    ensures var next := NewThread(db, t, parent, skill, stateKey, handler, opening);
            && next.threads == db.threads[t := Thread(parent, skill, stateKey, handler, Active, None, 2)]
            && MessagesOf(LogOf(next, t)) == [Message(Assistant, opening, [])]
            && next.artifacts == db.artifacts
  {
    MessagesAppend([], ThreadCreated(Active));
    MessagesAppend(AppendTo([], ThreadCreated(Active)), Message(Assistant, opening, []));
  }

  /** A creation keeps the single live thread exactly if there was none yet when it happens, whatever was there when it looked. */
  lemma CreationNeedsNoLiveThread(db: Db, t: string, parent: string, skill: string, stateKey: string, handler: string, opening: string)
    requires SingleLive(db) && t !in db.threads
    ensures SingleLive(NewThread(db, t, parent, skill, stateKey, handler, opening)) <==> !exists l :: IsLive(db, l, parent, skill)
  {
    var next := NewThread(db, t, parent, skill, stateKey, handler, opening);
    assert IsLive(next, t, parent, skill);
    if l :| IsLive(db, l, parent, skill) {
      assert IsLive(next, l, parent, skill) && l != t;
    } else {
      forall a, b, p, k | IsLive(next, a, p, k) && IsLive(next, b, p, k) ensures a == b {
        if a != t { assert IsLive(db, a, p, k); }
        if b != t { assert IsLive(db, b, p, k); }
      }
    }
  }

  /** Two opens that both look before either creates do leave two live threads. */
  lemma RacingOpensMakeTwo(db: Db, t: string, u: string, parent: string, skill: string, stateKey: string, handler: string, opening: string)
    requires t != u && t !in db.threads && u !in db.threads && !exists l :: IsLive(db, l, parent, skill)
    ensures Opens(db, parent, skill, stateKey, handler, opening, t, NewThread(db, t, parent, skill, stateKey, handler, opening))
    ensures Opens(db, parent, skill, stateKey, handler, opening, u, NewThread(db, u, parent, skill, stateKey, handler, opening))
    ensures !SingleLive(NewThread(NewThread(db, t, parent, skill, stateKey, handler, opening), u, parent, skill, stateKey, handler, opening))
  {
    var both := NewThread(NewThread(db, t, parent, skill, stateKey, handler, opening), u, parent, skill, stateKey, handler, opening);
    assert IsLive(both, t, parent, skill) && IsLive(both, u, parent, skill);
  }
}
