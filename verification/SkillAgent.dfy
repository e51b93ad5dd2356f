/** The executor of side agents: it opens threads and answers in them through the side-thread store. */
module SkillAgents {
  import opened Basics
  import opened ThreadDb
  import opened SideThreadStores
  import opened SideAgent

  /** A handler answers for a thread and the state of its artifact, or raises. */
  type Handler = (Thread, State) -> Option<Outcome>

  /** How a call of `respond` ends; `Refused` passes on what the store raises. */
  datatype TurnReply = Answered | NoThread | NotLive | HandlerFailed | Refused(error: Error)

  class SkillAgentExecutor {
    const store: SideThreadStore

    constructor (store: SideThreadStore)
      ensures this.store == store
    {
      this.store := store;
    }

    /** `listed` are the threads of the parent session in the order the store lists them. */
    method Open(parent: string, skill: string, stateKey: string, handler: string, opening: string, listed: seq<string>, newId: string)
      returns (thread: string)
      requires store.Valid() && newId !in store.threads
      requires forall t :: t in listed <==> t in store.threads && store.threads[t].parent == parent
      modifies store
      ensures store.Valid()
      ensures Opens(old(store.Tables()), parent, skill, stateKey, handler, opening, thread, store.Tables())
    {
      for i := 0 to |listed|
        invariant store.Tables() == old(store.Tables()) && store.Valid()
        invariant forall j | 0 <= j < i :: !IsLive(store.Tables(), listed[j], parent, skill)
      {
        assert listed[i] in listed;
        if store.threads[listed[i]].skill == skill && store.threads[listed[i]].status in RESUMABLE {
          assert IsLive(store.Tables(), listed[i], parent, skill);
          return listed[i];
        }
      }
      var _ := store.CreateThread(newId, parent, skill, stateKey, handler, Active);
      var _ := store.AppendMessage(newId, Assistant, opening, []);
      return newId;
    }

    /** Read, begin, handle, then commit or fail. */
    method Respond(t: string, handler: Handler) returns (reply: TurnReply)
      requires store.Valid()
      modifies store
      ensures store.Valid()
      ensures store.Tables() == SideAgent.Respond(old(store.Tables()), t, HandlerResult(old(store.Tables()), t, handler))
      ensures reply == Answered <==> IsResumable(old(store.Tables()), t) && Answers(old(store.Tables()), t, handler)
      ensures reply == NoThread <==> t !in old(store.threads)
      ensures reply == NotLive <==> t in old(store.threads) && old(store.threads)[t].status !in RESUMABLE
      ensures reply == HandlerFailed <==> IsResumable(old(store.Tables()), t) && HandlerResult(old(store.Tables()), t, handler) == None
    {
      if t !in store.threads {
        return NoThread;
      }
      var thread := store.threads[t];
      if thread.status !in RESUMABLE {
        return NotLive;
      }
      var id := ArtifactId(thread.parent, thread.stateKey);
      var state, revision := store.GetWorkflowState(id);
      var current := if state.Some? then state.value else map[];
      var begun := store.BeginTurn(t);
      var result := handler(thread, current);
      if result.None? {
        var _ := store.FailTurn(t, "handler_error");
        return HandlerFailed;
      }
      var committed := store.CompleteTurn(t, id.name, revision, result.value);
      reply := if committed.Raised? then Refused(committed.error) else Answered;
    }
  }

  predicate IsResumable(db: Db, t: string) {
    t in db.threads && db.threads[t].status in RESUMABLE
  }

  /** What the handler makes of the thread and of the state it finds. */
  function HandlerResult(db: Db, t: string, handler: Handler): Option<Outcome> {
    if t !in db.threads then None
    else handler(db.threads[t], Current(db, ArtifactId(db.threads[t].parent, db.threads[t].stateKey)).state)
  }

  /** The store after a turn in thread `t` with this handler. */
  function AfterTurn(db: Db, t: string, handler: Handler): Db {
    SideAgent.Respond(db, t, HandlerResult(db, t, handler))
  }

  predicate Answers(db: Db, t: string, handler: Handler) {
    var result := HandlerResult(db, t, handler);
    result.Some? && result.value.next in COMPLETIONS
  }

  // ---- one turn after the other ---------------------------------------------------------------

  /** Thread `u` works on the artifact of thread `t`, as `t` itself does. */
  predicate SharesArtifact(db: Db, t: string, u: string) {
    && t in db.threads && u in db.threads
    && db.threads[u].parent == db.threads[t].parent && db.threads[u].stateKey == db.threads[t].stateKey
  }

  /** The first turn on an artifact is given the empty state. */
  lemma FirstTurnStartsEmpty(db: Db, t: string, handler: Handler)
    requires t in db.threads && ArtifactId(db.threads[t].parent, db.threads[t].stateKey) !in db.artifacts
    ensures HandlerResult(db, t, handler) == handler(db.threads[t], map[])
  {
  }

  /** After an answered turn, the next turn on the artifact, in whatever thread, is given exactly the state that the answer left. */
  lemma NextTurnSeesTheAnswer(db: Db, t: string, first: Handler, o: Outcome, u: string, second: Handler)
    requires IsResumable(db, t) && SharesArtifact(db, t, u)
    requires HandlerResult(db, t, first) == Some(o) && o.next in COMPLETIONS
    ensures var next := AfterTurn(db, t, first);
            && SharesArtifact(next, t, u) && HandlerResult(next, u, second) == second(next.threads[u], o.state)
            && next.threads[t].status == o.next
  {
  }

  /** A handler that hands back the state it was given changes no artifact and no revision. */
  lemma UnchangedStateIsNotWritten(db: Db, t: string, handler: Handler)
    requires forall thread, state :: handler(thread, state).Some? ==> handler(thread, state).value.state == state
    ensures AfterTurn(db, t, handler).artifacts == db.artifacts
  {
  }

  /** A handler that raises fails the thread and touches no artifact; one that does not say how the turn ends leaves the thread active. */
  lemma FailedTurnKeepsTheArtifact(db: Db, t: string, handler: Handler)
    requires IsResumable(db, t) && !Answers(db, t, handler)
    ensures var next := AfterTurn(db, t, handler);
            && next.artifacts == db.artifacts && t in next.threads
            && next.threads[t].status == (if HandlerResult(db, t, handler) == None then Failed else Active)
  {
  }

  /** Only the thread of the turn is touched, and only its own artifact. */
  lemma TurnsKeepToThemselves(db: Db, t: string, handler: Handler)
    ensures var next := AfterTurn(db, t, handler);
            next.threads.Keys == db.threads.Keys && forall u | u in db.threads && u != t :: next.threads[u] == db.threads[u]
  {
  }

  lemma TurnsKeepToTheirLog(db: Db, t: string, handler: Handler, u: string)
    requires u != t
    ensures LogOf(AfterTurn(db, t, handler), u) == LogOf(db, u)
  {
  }

  lemma TurnsKeepToTheirArtifact(db: Db, t: string, handler: Handler, a: ArtifactId)
    requires t in db.threads && a != ArtifactId(db.threads[t].parent, db.threads[t].stateKey)
    ensures Current(AfterTurn(db, t, handler), a) == Current(db, a)
  {
  }

  /** The handler makes `change` of the state, and its turn waits for the user again. */
  ghost predicate Makes(handler: Handler, change: State -> State) {
    forall thread, state ::
      && handler(thread, state).Some? && handler(thread, state).value.state == change(state)
      && handler(thread, state).value.next in {WaitingUser, WaitingConfirmation}
  }

  function AfterTurns(db: Db, t: string, handlers: seq<Handler>): Db {
    if handlers == [] then db
    else AfterTurn(AfterTurns(db, t, handlers[..|handlers| - 1]), t, handlers[|handlers| - 1])
  }

  function Changed(state: State, changes: seq<State -> State>): State {
    if changes == [] then state else changes[|changes| - 1](Changed(state, changes[..|changes| - 1]))
  }

  /** Over a whole conversation the draft passes through all changes, one after the other, and none is lost. */
  lemma {:induction false} TurnsPassTheStateOn(db: Db, t: string, handlers: seq<Handler>, changes: seq<State -> State>)
    requires IsResumable(db, t) && |handlers| == |changes| && forall i | 0 <= i < |handlers| :: Makes(handlers[i], changes[i])
    ensures var id, last := ArtifactId(db.threads[t].parent, db.threads[t].stateKey), AfterTurns(db, t, handlers);
            && IsResumable(last, t) && last.threads[t].parent == db.threads[t].parent && last.threads[t].stateKey == db.threads[t].stateKey
            && Current(last, id).state == Changed(Current(db, id).state, changes)
  {
    if handlers != [] {
      var n := |handlers| - 1;
      TurnsPassTheStateOn(db, t, handlers[..n], changes[..n]);
      var before := AfterTurns(db, t, handlers[..n]);
      var state := Current(before, ArtifactId(db.threads[t].parent, db.threads[t].stateKey)).state;
      assert Makes(handlers[n], changes[n]);
      assert handlers[n](before.threads[t], state).Some?;
      RespondGoesThrough(before, t, handlers[n](before.threads[t], state).value);
      assert HandlerResult(before, t, handlers[n]) == handlers[n](before.threads[t], state);
    }
  }
}
