/**
 One confirmation request from start to end: load the run, derive the idempotency
 key, claim the action (importing an older pending run if the store does not know
 it), do the work, and complete or fail the receipt.  And what happens when the
 same request comes again.
 */
module ActionEndpoints {
  import opened Basics
  import opened RunDb
  import opened RunStores
  import opened RunHistory
  import opened WorkerProtocol

  datatype Action = ApprovePlan | ApproveMethod | ReviseMethod | ApproveData | ApprovePriorResult
  {
    function Name(): string {
      match this
      case ApprovePlan => "analysis_plan_approve"
      case ApproveMethod => "method_review_approve"
      case ReviseMethod => "method_review_revise"
      case ApproveData => "data_authorization_approve"
      case ApprovePriorResult => "prior_result_authorization_approve"
    }

    /** The status a run must have for the action; otherwise the work is rejected. */
    function Demands(): RunStatus {
      match this
      case ApprovePlan => Other("analysis_plan_review_ready")
      case ApprovePriorResult => Other("prior_result_authorization_pending")
      case _ => Other("method_review_ready")
    }

    /** The action puts a new review in the place of the one it answers. */
    predicate NewReview() {
      ApprovePlan? || ReviseMethod?
    }
  }

  /** A request of a client; an empty `header` is none. */
  datatype Request = Request(id: string, action: Action, header: string, instruction: string)

  /** The hexadecimal digest of a text. */
  type Digest = string -> string

  /** `review_id or request_id` */
  function ReviewOf(st: RunState): string {
    OrDefault(st.reviewId, st.requestId)
  }

  function Revision(review: string, instruction: string): string {
    review + ":" + instruction
  }

  /** `_action_idempotency_key` */
  function Token(q: Request, st: RunState, digest: Digest): string {
    if q.header != "" then (if |q.header| <= 256 then q.header else q.header[..256])
    else if q.action.ReviseMethod? then digest(Revision(ReviewOf(st), q.instruction))
    else ReviewOf(st)
  }

  function KeyOf(q: Request, st: RunState, digest: Digest): Key {
    Key(q.id, q.action.Name(), Token(q, st, digest))
  }

  /** What the work of an action comes to; `Raises` is an error the endpoint reports, `Crashes` any other. */
  datatype Work = Raises | Crashes | Returns(state: Snapshot, response: Json)

  /** The answer to the client; `Replayed` is the response of an earlier request. */
  datatype Reply = NoRun | Replayed(response: Json) | Waiting | Rejected | Crashed | Done(response: Json)

  /** The lease of a claim, when the caller names none. */
  const LEASE_SECONDS := 300

  /** The run as stored; failing that, a copy kept elsewhere, if it is the caller's own. */
  function Load(db: Db, id: string, owner: Principal, kept: Option<Snapshot>): Option<Snapshot> {
    if ReadState(db, id, owner).Some? then ReadState(db, id, owner)
    else if kept.Some? && kept.value.st.Owner() == owner then kept
    else None
  }

  /** After the claim was granted: the work, and what becomes of the receipt and the run. */
  function Conclude(db: Db, k: Key, work: Work): (Db, Reply) {
    match work
    case Raises => (Fail(db, k), Rejected)
    case Crashes => (db, Crashed)
    case Returns(state, response) => (Save(Complete(db, k, state, response), state.st, state), Done(response))
  }

  function Handle(db: Db, q: Request, kept: Option<Snapshot>, owner: Principal, clock: real, digest: Digest, work: Snapshot -> Work): (Db, Reply) {
    match Load(db, q.id, owner, kept)
    case None => (db, NoRun)
    case Some(pending) =>
      var k := KeyOf(q, pending.st, digest);
      var (next, answer) := ClaimOrImport(db, k, pending.st, pending, owner, LEASE_SECONDS, clock);
      match answer
      case NotFound => (next, NoRun)
      case AlreadyCompleted(response) => (next, Replayed(response))
      case Busy => (next, Waiting)
      case Claimed => Conclude(next, k, work(pending))
  }

  class ActionEndpoint {
    const store: RunStore

    constructor (store: RunStore)
      ensures this.store == store
    {
      this.store := store;
    }

    method ClaimAction(k: Key, pending: Snapshot, owner: Principal, clock: real) returns (claim: ClaimAnswer)
      modifies store
      ensures (store.Tables(), claim) == ClaimOrImport(old(store.Tables()), k, pending.st, pending, owner, LEASE_SECONDS, clock)
    {
      claim := store.ClaimAction(k, owner, LEASE_SECONDS, clock, clock);
      if claim == NotFound {
        store.Save(pending.st, pending);
        claim := store.ClaimAction(k, owner, LEASE_SECONDS, clock, clock);
      }
    }

    method Act(q: Request, kept: Option<Snapshot>, owner: Principal, clock: real, digest: Digest, work: Snapshot -> Work) returns (reply: Reply)
      modifies store
      ensures (store.Tables(), reply) == Handle(old(store.Tables()), q, kept, owner, clock, digest, work)
    {
      var pending := store.Get(q.id, owner);
      if pending == None {
        if kept == None || kept.value.st.Owner() != owner {
          return NoRun;
        }
        pending := kept;
      }
      var k := KeyOf(q, pending.value.st, digest);
      var claim := ClaimAction(k, pending.value, owner, clock);
      if claim == NotFound {
        return NoRun;
      }
      if claim.AlreadyCompleted? {
        return Replayed(claim.response);
      }
      if claim == Busy {
        return Waiting;
      }
      match work(pending.value)
      case Raises =>
        store.FailAction(k);
        return Rejected;
      case Crashes =>
        return Crashed;
      case Returns(state, response) =>
        store.CompleteAction(k, state, response);
        store.Save(state.st, state);
        return Done(response);
    }
  }

  // ---- the same request again ---------------------------------------------------------------

  lemma SameSuffix(a: string, b: string, instruction: string)
    ensures Revision(a, instruction) == Revision(b, instruction) <==> a == b
  {
    if Revision(a, instruction) == Revision(b, instruction) {
      assert |a| == |b|;
      assert Revision(a, instruction)[..|a|] == a && Revision(b, instruction)[..|b|] == b;
    }
  }

  /** The digests of the two texts do not collide. */
  predicate NoCollision(q: Request, a: RunState, b: RunState, digest: Digest) {
    var x, y := Revision(ReviewOf(a), q.instruction), Revision(ReviewOf(b), q.instruction);
    digest(x) == digest(y) ==> x == y
  }

  /** The key of a request stays the same exactly if a header is given or the review does not change. */
  lemma KeyIsKept(q: Request, a: RunState, b: RunState, digest: Digest)
    requires NoCollision(q, a, b, digest)
    ensures KeyOf(q, a, digest) == KeyOf(q, b, digest) <==> q.header != "" || ReviewOf(a) == ReviewOf(b)
  {
    SameSuffix(ReviewOf(a), ReviewOf(b), q.instruction);
  }

  /** No later call of the history gives the run another review. */
  ghost predicate ReviewStays(h: seq<Moment>, i: nat, id: string) {
    forall m | i < m < |h| && id in h[m].before.runs && id in h[m].after.runs ::
      ReviewOf(h[m].after.runs[id].state.st) == ReviewOf(h[m].before.runs[id].state.st)
  }

  lemma {:induction false} CompletedReviewIsRead(h: seq<Moment>, i: nat, j: nat, k: Key)
    requires IsHistory(h) && i < j <= |h| && Completes(h[i], k) && Undisturbed(h, i, j, k) && ReviewStays(h, i, k.request)
    ensures k.request in h[j - 1].after.runs
    ensures ReviewOf(h[j - 1].after.runs[k.request].state.st) == ReviewOf(h[i].op.state.st)
    decreases j
  {
    ResponseIsKept(h, i, j, k);
    assert Legal(h[j - 1]);
    if i < j - 1 {
      CompletedReviewIsRead(h, i, j - 1, k);
      assert Follows(h[j - 2], h[j - 1]);
    }
  }

  /** At `i` a request was completed, and nothing has undone that since. */
  ghost predicate Completed(h: seq<Moment>, i: nat, q: Request, first: RunState, owner: Principal, digest: Digest)
    requires i < |h|
  {
    var k := KeyOf(q, first, digest);
    IsHistory(h) && Completes(h[i], k) && Undisturbed(h, i, |h|, k) && h[i].op.state.st.Owner() == owner
  }

  /** The digest tells the review of a request from the one that the run has now. */
  predicate ToldApart(db: Db, q: Request, first: RunState, digest: Digest) {
    q.id in db.runs ==> NoCollision(q, first, db.runs[q.id].state.st, digest)
  }

  /**
   A request that was completed comes again, after any history of store calls.  With a
   header, or while the run still has the review that the request was about, it is
   answered with the stored response and changes nothing.  Otherwise it is a request
   about the review of now: replayed only if there is an answer to that, and done
   again if it is new.
   */
  lemma RepetitionFollowsTheReview(h: seq<Moment>, i: nat, q: Request, first: RunState, kept: Option<Snapshot>, owner: Principal,
      clock: real, digest: Digest, work: Snapshot -> Work)
    requires i < |h| && Completed(h, i, q, first, owner, digest) && ToldApart(h[|h| - 1].after, q, first, digest)
    ensures q.id in h[|h| - 1].after.runs
    ensures var db := h[|h| - 1].after;
            var now, (next, reply) := db.runs[q.id].state, Handle(db, q, kept, owner, clock, digest, work);
            var k := KeyOf(q, now.st, digest);
            if q.header != "" || ReviewOf(now.st) == ReviewOf(first) then (next, reply) == (db, Replayed(h[i].op.response))
            else
              && k != KeyOf(q, first, digest)
              && (reply.Replayed? <==> k in db.receipts && Answered(db.receipts[k]))
              && (k !in db.receipts ==> reply == Conclude(db, k, work(now)).1)
  {
    var k, db := KeyOf(q, first, digest), h[|h| - 1].after;
    ResponseIsKept(h, i, |h|, k);
    var now := db.runs[q.id].state.st;
    KeyIsKept(q, first, now, digest);
    if q.header != "" || ReviewOf(now) == ReviewOf(first) {
      AnsweredRequest(db, q, kept, owner, clock, digest, work);
    } else {
      NewRequest(db, q, kept, owner, clock, digest, work);
    }
  }

  /** Review ids are never used again: if the run has another review now, nothing has been answered about that. */
  predicate FreshReviews(db: Db, q: Request, first: RunState, digest: Digest) {
    q.id in db.runs ==>
      var k := KeyOf(q, db.runs[q.id].state.st, digest);
      k != KeyOf(q, first, digest) && k in db.receipts ==> !Answered(db.receipts[k])
  }

  /** So, while no other call renews the review: exactly if the request has a header or its own completion kept the review. */
  lemma RepetitionIsReplayedIffKeyIsKept(h: seq<Moment>, i: nat, q: Request, first: RunState, kept: Option<Snapshot>, owner: Principal,
      clock: real, digest: Digest, work: Snapshot -> Work)
    requires i < |h| && Completed(h, i, q, first, owner, digest) && ReviewStays(h, i, q.id)
    requires ToldApart(h[|h| - 1].after, q, first, digest) && FreshReviews(h[|h| - 1].after, q, first, digest)
    ensures var db, response, same := h[|h| - 1].after, h[i].op.response, ReviewOf(h[i].op.state.st) == ReviewOf(first);
            var (next, reply) := Handle(db, q, kept, owner, clock, digest, work);
            && ((next, reply) == (db, Replayed(response)) <==> q.header != "" || same)
            && (reply.Replayed? <==> q.header != "" || same)
  {
    RepetitionFollowsTheReview(h, i, q, first, kept, owner, clock, digest, work);
    CompletedReviewIsRead(h, i, |h|, KeyOf(q, first, digest));
  }

  /** A request with an answered receipt gets the stored response. */
  lemma AnsweredRequest(db: Db, q: Request, kept: Option<Snapshot>, owner: Principal, clock: real, digest: Digest, work: Snapshot -> Work)
    requires q.id in db.runs && db.runs[q.id].owner == owner
    requires var k := KeyOf(q, db.runs[q.id].state.st, digest); k in db.receipts && Answered(db.receipts[k])
    ensures var receipt := db.receipts[KeyOf(q, db.runs[q.id].state.st, digest)];
            Handle(db, q, kept, owner, clock, digest, work) == (db, Replayed(receipt.response.value))
  {
  }

  /** A request without an answer is not replayed, and without a receipt it is claimed and done. */
  lemma NewRequest(db: Db, q: Request, kept: Option<Snapshot>, owner: Principal, clock: real, digest: Digest, work: Snapshot -> Work)
    requires q.id in db.runs && db.runs[q.id].owner == owner
    ensures var k, pending := KeyOf(q, db.runs[q.id].state.st, digest), db.runs[q.id].state;
            var reply := Handle(db, q, kept, owner, clock, digest, work).1;
            && (reply.Replayed? <==> k in db.receipts && Answered(db.receipts[k]))
            && (k !in db.receipts ==> reply == Conclude(db, k, work(pending)).1)
  {
  }

  /** What an action may do to a run: it demands a status, keeps the run's identity, and renews the review or keeps it. */
  predicate Behaves(q: Request, before: Snapshot, work: Work) {
    work.Returns? ==>
      && before.st.status == Some(q.action.Demands())
      && work.state.st.requestId == before.st.requestId
      && if q.action.NewReview() then work.state.st.reviewId !in {"", ReviewOf(before.st)}
         else work.state.st.reviewId == before.st.reviewId
  }

  /** So approving a method or its data is always safe to repeat; approving a plan and revising only with a header. */
  lemma WhichActionsAreReplayed(h: seq<Moment>, i: nat, q: Request, first: Snapshot, kept: Option<Snapshot>, owner: Principal,
      clock: real, digest: Digest, work: Snapshot -> Work)
    requires i < |h| && Completed(h, i, q, first.st, owner, digest) && Behaves(q, first, Returns(h[i].op.state, h[i].op.response))
    requires ReviewStays(h, i, q.id) && ToldApart(h[|h| - 1].after, q, first.st, digest) && FreshReviews(h[|h| - 1].after, q, first.st, digest)
    ensures var db := h[|h| - 1].after;
            Handle(db, q, kept, owner, clock, digest, work).1 == Replayed(h[i].op.response) <==> q.header != "" || !q.action.NewReview()
  {
    RepetitionIsReplayedIffKeyIsKept(h, i, q, first.st, kept, owner, clock, digest, work);
  }

  // ---- other repetitions ---------------------------------------------------------------------

  /** A copy kept elsewhere is kept under its own request id. */
  predicate KeptFor(q: Request, kept: Option<Snapshot>) {
    kept.Some? ==> kept.value.st.requestId == q.id
  }

  /** Nobody but the owner is told anything about a run that exists, and nothing changes. */
  lemma StrangersLearnNothing(db: Db, q: Request, kept: Option<Snapshot>, stranger: Principal, clock: real, digest: Digest, work: Snapshot -> Work)
    requires q.id in db.runs && db.runs[q.id].owner != stranger && KeptFor(q, kept)
    ensures Handle(db, q, kept, stranger, clock, digest, work) == (db, NoRun)
  {
  }

  /** While a lease is running, a repeated request is told to wait and changes nothing. */
  lemma RunningRequestIsNotRepeated(db: Db, q: Request, kept: Option<Snapshot>, owner: Principal, clock: real, digest: Digest,
      work: Snapshot -> Work, lease: real)
    requires q.id in db.runs && db.runs[q.id].owner == owner
    requires var k := KeyOf(q, db.runs[q.id].state.st, digest);
             k in db.receipts && db.receipts[k].status.InProgress? && db.receipts[k].lease == Some(lease) && clock < lease
    ensures Handle(db, q, kept, owner, clock, digest, work) == (db, Waiting)
  {
  }

  /** The claim of a request that is granted leaves the state it has read, and its receipt in progress for the full lease. */
  lemma GrantedRequest(db: Db, q: Request, kept: Option<Snapshot>, owner: Principal, clock: real, digest: Digest)
    requires KeptFor(q, kept) && Load(db, q.id, owner, kept).Some?
    ensures var pending := Load(db, q.id, owner, kept).value;
            var k := KeyOf(q, pending.st, digest);
            var (next, answer) := ClaimOrImport(db, k, pending.st, pending, owner, LEASE_SECONDS, clock);
            answer == Claimed ==>
              && ReadState(next, q.id, owner) == Some(pending) && k in next.receipts && next.receipts[k].status.InProgress?
              && next.receipts[k].lease == Some(clock + 300.0)
  {
  }

  /** A claim of a stored run of the owner is granted again exactly after a failure, or once the lease has run out. */
  lemma TakenUpAgain(db: Db, q: Request, kept: Option<Snapshot>, owner: Principal, clock: real, digest: Digest, work: Snapshot -> Work)
    requires ReadState(db, q.id, owner).Some?
    requires var k := KeyOf(q, db.runs[q.id].state.st, digest); k in db.receipts && !Answered(db.receipts[k])
    requires work(db.runs[q.id].state).Returns? && work(db.runs[q.id].state).state.st.Owner() == owner
    ensures var k := KeyOf(q, db.runs[q.id].state.st, digest);
            var (next, reply) := Handle(db, q, kept, owner, clock, digest, work);
            var receipt := db.receipts[k];
            if receipt.status.Failed? || (receipt.status.InProgress? && (receipt.lease == None || receipt.lease.value <= clock)) then
              && reply == Done(work(db.runs[q.id].state).response) && k in next.receipts
              && next.receipts[k].response == Some(work(db.runs[q.id].state).response)
              && next.receipts[k].attempts == db.receipts[k].attempts + 1
            else reply == Waiting && next == db
  {
  }

  /** A request whose work was rejected can be repeated at once, and is then an attempt more. */
  lemma RejectionCanBeRetried(db: Db, q: Request, kept: Option<Snapshot>, owner: Principal, clock: real, digest: Digest, work: Snapshot -> Work,
      later: real, again: Snapshot -> Work)
    requires KeptFor(q, kept) && Handle(db, q, kept, owner, clock, digest, work).1 == Rejected
    requires var pending := Load(db, q.id, owner, kept).value; again(pending).Returns? && again(pending).state.st.Owner() == owner
    ensures var pending := Load(db, q.id, owner, kept).value;
            var k := KeyOf(q, pending.st, digest);
            var failed := Handle(db, q, kept, owner, clock, digest, work).0;
            var (retried, reply) := Handle(failed, q, kept, owner, later, digest, again);
            && k in failed.receipts && k in retried.receipts && reply == Done(again(pending).response)
            && retried.receipts[k].response == Some(again(pending).response)
            && retried.receipts[k].attempts == failed.receipts[k].attempts + 1
  {
    GrantedRequest(db, q, kept, owner, clock, digest);
    TakenUpAgain(Handle(db, q, kept, owner, clock, digest, work).0, q, kept, owner, later, digest, again);
  }

  /** A request whose work crashed waits for the rest of its lease, and is done again exactly from then on. */
  lemma CrashWaitsForTheLease(db: Db, q: Request, kept: Option<Snapshot>, owner: Principal, clock: real, digest: Digest, work: Snapshot -> Work,
      later: real, again: Snapshot -> Work)
    requires KeptFor(q, kept) && Handle(db, q, kept, owner, clock, digest, work).1 == Crashed
    requires var pending := Load(db, q.id, owner, kept).value; again(pending).Returns? && again(pending).state.st.Owner() == owner
    ensures var crashed := Handle(db, q, kept, owner, clock, digest, work).0;
            var reply := Handle(crashed, q, kept, owner, later, digest, again).1;
            && (reply == Waiting <==> later < clock + 300.0)
            && (reply.Done? <==> later >= clock + 300.0)
  {
    GrantedRequest(db, q, kept, owner, clock, digest);
    TakenUpAgain(Handle(db, q, kept, owner, clock, digest, work).0, q, kept, owner, later, digest, again);
  }

  // ---- a revision that is applied twice --------------------------------------------------------

  const ALICE := Principal("alice", "local")

  function UnderReview(review: string): Snapshot {
    Snapshot(RunState("r", "s", "alice", "local", Some(Other("method_review_ready")), review), "{}")
  }

  const REVISE := Request("r", ReviseMethod, "", "only the last month")

  /** A revision of the method that is again up for review, under a review id of its own. */
  function Revised(before: Snapshot): Work {
    Returns(UnderReview(before.st.reviewId + "'"), "{}")
  }

  /** Sent twice without a header, the same revision is done twice, under two receipts. */
  lemma RevisionIsAppliedTwice(owner: Principal, digest: Digest, clock: real, later: real)
    requires owner == ALICE
    requires digest(Revision("v", REVISE.instruction)) != digest(Revision("v'", REVISE.instruction))
    ensures var db := Save(EMPTY, UnderReview("v").st, UnderReview("v"));
            var (once, reply) := Handle(db, REVISE, None, owner, clock, digest, Revised);
            var (twice, again) := Handle(once, REVISE, None, owner, later, digest, Revised);
            && reply == again == Done("{}")
            && ReadState(once, "r", owner) == Some(UnderReview("v'")) && ReadState(twice, "r", owner) == Some(UnderReview("v''"))
            && |once.receipts| == 1 && |twice.receipts| == 2
  {
    var db := Save(EMPTY, UnderReview("v").st, UnderReview("v"));
    assert Revised(UnderReview("v")) == Returns(UnderReview("v'"), "{}");
    assert Revised(UnderReview("v'")) == Returns(UnderReview("v''"), "{}");
  }
}
