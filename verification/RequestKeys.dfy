/**
 Two different confirmation requests: when they share a receipt, and that they have
 nothing to do with each other when they do not.
 */
module RequestKeys {
  import opened Basics
  import opened RunDb
  import opened RunHistory
  import opened RunWrites
  import opened RunEvents
  import opened WorkerProtocol
  import opened ActionEndpoints

  function First256(header: string): string {
    if |header| > 256 then header[..256] else header
  }

  /** The review a request without a header is about; a run without one is named by its request. */
  function ReviewedBy(st: RunState): string {
    if st.reviewId == "" then st.requestId else st.reviewId
  }

  /** The digests of the two revisions do not collide. */
  predicate TellsApart(q: Request, a: RunState, r: Request, b: RunState, digest: Digest) {
    var x, y := Revision(ReviewOf(a), q.instruction), Revision(ReviewOf(b), r.instruction);
    digest(x) == digest(y) ==> x == y
  }

  /** Review ids are UUIDs, and so are request ids; in particular they hold no colon. */
  predicate PlainReviews(a: RunState, b: RunState) {
    ':' !in ReviewedBy(a) && ':' !in ReviewedBy(b)
  }

  /** Neither has a header: they answer the same review, and a revision asks for the same. */
  predicate SameWithoutHeader(q: Request, a: RunState, r: Request, b: RunState) {
    ReviewedBy(a) == ReviewedBy(b) && (q.action == ReviseMethod ==> q.instruction == r.instruction)
  }

  /** What a request without a header is keyed by. */
  function Named(q: Request, a: RunState, digest: Digest): string {
    if q.action == ReviseMethod then digest(ReviewedBy(a) + ":" + q.instruction) else ReviewedBy(a)
  }

  lemma ColonAtTheEnd(a: string, x: string, b: string)
    requires ':' !in b && b <= a + (":" + x)
    ensures |b| <= |a|
  {
    var s := a + (":" + x);
    assert s[|a|] == ':';
    assert forall i | 0 <= i < |b| :: s[i] == b[i] && s[i] != ':';
  }

  lemma UpToTheColon(a: string, x: string, b: string, y: string)
    requires ':' !in a && ':' !in b && a + (":" + x) == b + (":" + y)
    ensures a == b && x == y
  {
    var s := a + (":" + x);
    ColonAtTheEnd(a, x, b);
    ColonAtTheEnd(b, y, a);
    assert s[..|a|] == a && s[..|a|] == b;
    assert s[|a| + 1..] == x && s[|a| + 1..] == y;
  }

  /** Revisions have the same text exactly if they revise the same review in the same way. */
  lemma SameRevision(a: string, x: string, b: string, y: string)
    requires ':' !in a && ':' !in b
    ensures Revision(a, x) == Revision(b, y) <==> a == b && x == y
  {
    assert Revision(a, x) == a + (":" + x) && Revision(b, y) == b + (":" + y);
    if Revision(a, x) == Revision(b, y) {
      UpToTheColon(a, x, b, y);
    }
  }

  /** The longer review goes on with a colon where the other ends, and its rest leads the other's instruction. */
  predicate Confused(a: string, x: string, b: string, y: string) {
    |a| < |b| && a + ":" <= b && x == b[|a| + 1..] + (":" + y)
  }

  lemma ConfusedIfLonger(a: string, x: string, b: string, y: string)
    requires |a| < |b|
    ensures Revision(a, x) == Revision(b, y) <==> Confused(a, x, b, y)
  {
    var s, t := Revision(a, x), Revision(b, y);
    assert s[..|a| + 1] == a + ":" && s[|a| + 1..] == x;
    assert t[..|a| + 1] == b[..|a| + 1] && t[|a| + 1..] == b[|a| + 1..] + (":" + y);
    if s == t {
      assert a + ":" == b[..|a| + 1];
    }
    if Confused(a, x, b, y) {
      assert s == s[..|a| + 1] + s[|a| + 1..] && t == t[..|a| + 1] + t[|a| + 1..];
    }
  }

  /** With colons in review ids, revisions of different reviews can have the same text, and so the same key: exactly then. */
  lemma ColonsConfuseRevisions(a: string, x: string, b: string, y: string)
    ensures Revision(a, x) == Revision(b, y) <==> (a == b && x == y) || Confused(a, x, b, y) || Confused(b, y, a, x)
    ensures Revision("v", "w:all") == Revision("v:w", "all")
  {
    if |a| < |b| {
      ConfusedIfLonger(a, x, b, y);
    } else if |b| < |a| {
      ConfusedIfLonger(b, y, a, x);
    } else {
      assert Revision(a, x)[..|a|] == a && Revision(b, y)[..|a|] == b;
      assert Revision(a, x)[|a| + 1..] == x && Revision(b, y)[|a| + 1..] == y;
    }
    assert "v" + ":" + "w:all" == "v:w" + ":" + "all";
  }

  lemma TokensAgree(q: Request, a: RunState, r: Request, b: RunState, digest: Digest)
    requires TellsApart(q, a, r, b, digest) && PlainReviews(a, b) && q.action == r.action
    ensures Token(q, a, digest) == Token(r, b, digest) <==>
              if q.header != "" && r.header != "" then First256(q.header) == First256(r.header)
              else if q.header != "" then First256(q.header) == Named(r, b, digest)
              else if r.header != "" then Named(q, a, digest) == First256(r.header)
              else SameWithoutHeader(q, a, r, b)
  {
    SameRevision(ReviewedBy(a), q.instruction, ReviewedBy(b), r.instruction);
  }

  /**
   Two requests share a receipt if and only if they are for the same action on the same run and
   either carry headers with the same first 256 characters, or neither carries one and they answer
   the same review, a revision with the same instruction; or the header of one happens to be what
   the other is keyed by.
   */
  lemma KeysAgreeExactly(q: Request, a: RunState, r: Request, b: RunState, digest: Digest)
    requires TellsApart(q, a, r, b, digest) && PlainReviews(a, b)
    ensures KeyOf(q, a, digest) == KeyOf(r, b, digest) <==>
              && q.id == r.id && q.action == r.action
              && if q.header != "" && r.header != "" then First256(q.header) == First256(r.header)
                 else if q.header != "" then First256(q.header) == Named(r, b, digest)
                 else if r.header != "" then Named(q, a, digest) == First256(r.header)
                 else SameWithoutHeader(q, a, r, b)
  {
    if q.action == r.action {
      TokensAgree(q, a, r, b, digest);
    } else {
      ActionsHaveNames(q.action, r.action);
    }
  }

  lemma ActionsHaveNames(a: Action, b: Action)
    ensures a.Name() == b.Name() <==> a == b
  {
    assert ApprovePlan.Name()[0] == 'a' && ApprovePriorResult.Name()[0] == 'p' && ApproveData.Name()[0] == 'd';
    assert ApproveMethod.Name()[0] == 'm' == ReviseMethod.Name()[0];
    assert ApproveMethod.Name()[14] == 'a' && ReviseMethod.Name()[14] == 'r';
  }

  // ---- requests with different keys ---------------------------------------------------------

  /** The same tables but for the receipt of `k`. */
  ghost predicate SameBut(db: Db, other: Db, k: Key) {
    && db.runs == other.runs && db.events == other.events
    && forall j | j != k :: (j in db.receipts <==> j in other.receipts) && (j in db.receipts ==> db.receipts[j] == other.receipts[j])
  }

  lemma OneClaimIsIndependent(db: Db, other: Db, k: Key, j: Key, owner: Principal, seconds: int, clock: real)
    requires SameBut(db, other, k) && j != k
    ensures Claim(db, j, owner, seconds, clock, clock).1 == Claim(other, j, owner, seconds, clock, clock).1
    ensures SameBut(Claim(db, j, owner, seconds, clock, clock).0, Claim(other, j, owner, seconds, clock, clock).0, k)
  {
  }

  lemma ClaimsAreIndependent(db: Db, other: Db, k: Key, j: Key, st: RunState, pending: Snapshot, owner: Principal, seconds: int, clock: real)
    requires SameBut(db, other, k) && j != k
    ensures ClaimOrImport(db, j, st, pending, owner, seconds, clock).1 == ClaimOrImport(other, j, st, pending, owner, seconds, clock).1
    ensures SameBut(ClaimOrImport(db, j, st, pending, owner, seconds, clock).0, ClaimOrImport(other, j, st, pending, owner, seconds, clock).0, k)
  {
    OneClaimIsIndependent(db, other, k, j, owner, seconds, clock);
    var mine, others := Claim(db, j, owner, seconds, clock, clock).0, Claim(other, j, owner, seconds, clock, clock).0;
    assert SameBut(Save(mine, st, pending), Save(others, st, pending), k);
    OneClaimIsIndependent(Save(mine, st, pending), Save(others, st, pending), k, j, owner, seconds, clock);
  }

  lemma ConclusionsAreIndependent(db: Db, other: Db, k: Key, j: Key, work: Work)
    requires SameBut(db, other, k) && j != k
    ensures Conclude(db, j, work).1 == Conclude(other, j, work).1
    ensures SameBut(Conclude(db, j, work).0, Conclude(other, j, work).0, k)
  {
  }

  /**
   Whatever the receipt of one key holds, running, failed, answered or none at all: a request with
   another key gets the same reply, and does the same to everything else.
   */
  lemma OtherReceiptsDoNotMatter(db: Db, other: Db, k: Key, q: Request, kept: Option<Snapshot>, owner: Principal, clock: real,
      digest: Digest, work: Snapshot -> Work)
    requires SameBut(db, other, k)
    requires var pending := Load(db, q.id, owner, kept); pending.Some? ==> KeyOf(q, pending.value.st, digest) != k
    ensures Handle(db, q, kept, owner, clock, digest, work).1 == Handle(other, q, kept, owner, clock, digest, work).1
    ensures SameBut(Handle(db, q, kept, owner, clock, digest, work).0, Handle(other, q, kept, owner, clock, digest, work).0, k)
  {
    assert Load(db, q.id, owner, kept) == Load(other, q.id, owner, kept);
    if Load(db, q.id, owner, kept).Some? {
      var pending := Load(db, q.id, owner, kept).value;
      var j := KeyOf(q, pending.st, digest);
      ClaimsAreIndependent(db, other, k, j, pending.st, pending, owner, LEASE_SECONDS, clock);
      var next, answer := ClaimOrImport(db, j, pending.st, pending, owner, LEASE_SECONDS, clock).0, ClaimOrImport(db, j, pending.st, pending, owner, LEASE_SECONDS, clock).1;
      if answer == Claimed {
        ConclusionsAreIndependent(next, ClaimOrImport(other, j, pending.st, pending, owner, LEASE_SECONDS, clock).0, k, j, work(pending));
      }
    }
  }

  /** One revision crashes and keeps its lease; another revision of the same review is done at once all the same. */
  lemma RevisionsDoNotDelayEachOther(db: Db, q: Request, r: Request, owner: Principal, clock: real, later: real, digest: Digest,
      crash: Snapshot -> Work, work: Snapshot -> Work)
    requires ReadState(db, q.id, owner).Some? && q.id == r.id && q.action == r.action == ReviseMethod && q.header == r.header == ""
    requires q.instruction != r.instruction
    requires var st := db.runs[q.id].state.st; TellsApart(q, st, r, st, digest) && PlainReviews(st, st) && KeyOf(r, st, digest) !in db.receipts
    requires crash(db.runs[q.id].state) == Crashes && work(db.runs[q.id].state).Returns?
    ensures var after := Handle(db, q, None, owner, clock, digest, crash).0;
            Handle(after, r, None, owner, later, digest, work).1 == Done(work(db.runs[q.id].state).response)
  {
    var st := db.runs[q.id].state.st;
    KeysAgreeExactly(q, st, r, st, digest);
    var after := Handle(db, q, None, owner, clock, digest, crash).0;
    assert after.runs == db.runs && KeyOf(r, st, digest) !in after.receipts;
  }

  // ---- what a request leaves behind -----------------------------------------------------------

  /** The stored run decides, whatever copy is kept elsewhere; without one, the copy serves its own owner alone. */
  lemma StoredRunIsPreferred(db: Db, q: Request, kept: Option<Snapshot>, owner: Principal, clock: real, digest: Digest, work: Snapshot -> Work)
    ensures ReadState(db, q.id, owner).Some? ==>
              Handle(db, q, kept, owner, clock, digest, work) == Handle(db, q, None, owner, clock, digest, work)
    ensures ReadState(db, q.id, owner) == None && (kept == None || OwnerGiven(kept.value.st) != owner) ==>
              Handle(db, q, kept, owner, clock, digest, work) == (db, NoRun)
  {
  }

  /** A copy of an older run is imported and its request done, if the run is not stored yet and the copy is the caller's. */
  lemma OlderRunIsImported(db: Db, q: Request, copy: Snapshot, owner: Principal, clock: real, digest: Digest, work: Snapshot -> Work)
    requires q.id !in db.runs && KeyOf(q, copy.st, digest) !in db.receipts && work(copy).Returns?
    requires copy.st.requestId == q.id != "" && copy.st.sessionId != "" && OwnerGiven(copy.st) == owner
    ensures var k := KeyOf(q, copy.st, digest);
            var imported, claim := ClaimOrImport(db, k, copy.st, copy, owner, LEASE_SECONDS, clock).0, ClaimOrImport(db, k, copy.st, copy, owner, LEASE_SECONDS, clock).1;
            && claim == Claimed
            && imported.runs == db.runs[q.id := Run(copy.st.sessionId, owner, StatusGiven(copy.st), 1, copy)]
            && imported.events == db.events + [Event(q.id, None, StatusGiven(copy.st), 1)]
    ensures Handle(db, q, Some(copy), owner, clock, digest, work).1 == Done(work(copy).response)
  {
  }

  /** The work keeps the run's identity. */
  predicate SameRun(state: Snapshot, id: string, session: string, owner: Principal) {
    state.st.requestId == id && state.st.sessionId == session != "" && OwnerGiven(state.st) == owner && id != ""
  }

  lemma DoneClaims(db: Db, q: Request, kept: Option<Snapshot>, owner: Principal, clock: real, digest: Digest, work: Snapshot -> Work)
    requires ReadState(db, q.id, owner).Some? && Handle(db, q, kept, owner, clock, digest, work).1.Done?
    ensures var run := db.runs[q.id];
            var k := KeyOf(q, run.state.st, digest);
            var claimed := Claim(db, k, owner, LEASE_SECONDS, clock, clock).0;
            && claimed.runs == db.runs && claimed.events == db.events && CanComplete(claimed, k, owner) && work(run.state).Returns?
            && Handle(db, q, kept, owner, clock, digest, work) == Conclude(claimed, k, work(run.state))
  {
  }

  lemma ConclusionIsRecorded(db: Db, k: Key, state: Snapshot, response: Json)
    requires CanComplete(db, k, OwnerGiven(state.st)) && SameRun(state, k.request, state.st.sessionId, OwnerGiven(state.st))
    ensures var run, next := db.runs[k.request], Conclude(db, k, Returns(state, response)).0;
            && next.runs == db.runs[k.request := Run(state.st.sessionId, run.owner, StatusGiven(state.st), run.version + 2, state)]
            && next.events == db.events + [Event(k.request, Some(run.status), StatusGiven(state.st), run.version + 1)]
            && k in next.receipts && Answered(next.receipts[k]) && next.receipts[k].response == Some(response)
  {
  }

  /**
   A request that is done leaves the state its work returned, two versions up, with one event from
   the status before, and its response as the answer of its receipt.
   */
  lemma DoneIsRecorded(db: Db, q: Request, kept: Option<Snapshot>, owner: Principal, clock: real, digest: Digest, work: Snapshot -> Work)
    requires ReadState(db, q.id, owner).Some? && Handle(db, q, kept, owner, clock, digest, work).1.Done?
    requires var run := db.runs[q.id]; work(run.state).Returns? ==> SameRun(work(run.state).state, q.id, run.session, owner)
    ensures var run, k := db.runs[q.id], KeyOf(q, db.runs[q.id].state.st, digest);
            var (next, reply) := Handle(db, q, kept, owner, clock, digest, work);
            && work(run.state).Returns? && reply.response == work(run.state).response
            && var state := work(run.state).state;
               && next.runs == db.runs[q.id := Run(run.session, owner, StatusGiven(state.st), run.version + 2, state)]
               && next.events == db.events + [Event(q.id, Some(run.status), StatusGiven(state.st), run.version + 1)]
               && k in next.receipts && Answered(next.receipts[k]) && next.receipts[k].response == Some(reply.response)
  {
    DoneClaims(db, q, kept, owner, clock, digest, work);
    var run := db.runs[q.id];
    var k := KeyOf(q, run.state.st, digest);
    var claimed := Claim(db, k, owner, LEASE_SECONDS, clock, clock).0;
    ConclusionIsRecorded(claimed, k, work(run.state).state, work(run.state).response);
  }

  /** A request that is not done changes no run and no event, unless it imports the run. */
  lemma OnlyDoneChangesTheRun(db: Db, q: Request, kept: Option<Snapshot>, owner: Principal, clock: real, digest: Digest, work: Snapshot -> Work)
    requires q.id in db.runs && KeptFor(q, kept) && !Handle(db, q, kept, owner, clock, digest, work).1.Done?
    ensures Handle(db, q, kept, owner, clock, digest, work).0.runs == db.runs
    ensures Handle(db, q, kept, owner, clock, digest, work).0.events == db.events
  {
  }
}
