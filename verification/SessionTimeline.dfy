/**
 One session file: the conversation, the private results and the timeline from
 which the user interface restores both in their common order.  Review cards hang
 on timeline events and must not disturb that order.
 */
module SessionTimeline {
  import opened Basics

  /** A review card as stored: its "status", its "review_id" and whatever else it shows. */
  type Review = map<string, string>

  datatype Message = Message(role: string, content: string, stamp: string, request: Option<string>)

  datatype Analysis = Analysis(id: string, created: string)

  datatype Event =
    | Said(role: string, content: string, request: Option<string>, stamp: string, review: Option<Review>)
    | Computed(analysisId: string, stamp: string)
  {
    predicate Reviewed() {
      Said? && review.Some?
    }

    /** `str(event.get("request_id") or "")` */
    function Request(): string {
      if Said? && request.Some? then request.value else ""
    }

    function Bare(): Event {
      if Said? then this.(review := None) else this
    }
  }

  datatype Session = Session(title: string, history: seq<Message>, analyses: seq<Analysis>, timeline: seq<Event>)

  const PENDING: set<string> := {
    "analysis_plan_review_ready", "method_review_ready", "data_authorization_pending", "prior_result_authorization_pending"
  }

  predicate IsPending(review: Review) {
    "status" in review && review["status"] in PENDING
  }

  // ---- what the operations do --------------------------------------------------------------

  function Title(d: Session, role: string, content: string): string {
    if role != "user" || d.history != [] then d.title
    else if |content| > 50 then content[..50] + "..."
    else content
  }

  function WithMessage(d: Session, role: string, content: string, request: Option<string>, now: string): Session {
    Session(
      Title(d, role, content),
      d.history + [Message(role, content, now, if request == Some("") then None else request)],
      d.analyses,
      d.timeline + [Said(role, content, request, now, None)])
  }

  function WithAnalysis(d: Session, analysis: Analysis, now: string): Session {
    d.(analyses := d.analyses + [analysis], timeline := d.timeline + [Computed(analysis.id, now)])
  }

  /** What the reverse searches of the timeline look for. */
  datatype Wanted = AnyReply | ReplyTo(request: string) | CardOf(request: string, reviewId: Option<string>) | AnyCardOf(request: string)
  {
    predicate Fits(e: Event) {
      && e.Said?
      && match this
         case AnyReply => e.role == "assistant"
         case ReplyTo(r) => e.role == "assistant" && e.request == Some(r)
         case CardOf(r, id) =>
           && e.request == Some(r) && e.review.Some? && e.review.value != map[]
           && (id.Some? ==> "review_id" in e.review.value && e.review.value["review_id"] == id.value)
         case AnyCardOf(r) => e.request == Some(r) && e.review.Some?
    }
  }

  /** The last event that fits, or -1. */
  function Latest(es: seq<Event>, w: Wanted): (i: int)
    ensures -1 <= i < |es| && (i >= 0 ==> w.Fits(es[i])) && forall j | i < j < |es| :: !w.Fits(es[j])
  {
    if es == [] then -1
    else if w.Fits(es[|es| - 1]) then |es| - 1
    else Latest(es[..|es| - 1], w)
  }

  lemma LatestIs(es: seq<Event>, w: Wanted, i: int)
    requires -1 <= i < |es| && (i >= 0 ==> w.Fits(es[i])) && forall j | i < j < |es| :: !w.Fits(es[j])
    ensures Latest(es, w) == i
  {
  }

  function WithSnapshot(es: seq<Event>, request: string, review: Review): seq<Event> {
    var exact, reply := Latest(es, ReplyTo(request)), Latest(es, AnyReply);
    if exact >= 0 then es[exact := es[exact].(review := Some(review))]
    else if reply >= 0 then es[reply := es[reply].(request := Some(request), review := Some(review))]
    else es
  }

  function WithStatus(es: seq<Event>, request: string, status: string, reviewId: Option<string>): seq<Event> {
    var i := Latest(es, CardOf(request, reviewId));
    if i >= 0 then es[i := es[i].(review := Some(es[i].review.value["status" := status]))] else es
  }

  function WithoutSnapshot(es: seq<Event>, request: string): seq<Event> {
    var i := Latest(es, AnyCardOf(request));
    if i >= 0 then es[i := es[i].(review := None)] else es
  }

  predicate Spared(e: Event, keep: Option<string>) {
    keep.Some? && keep.value != "" && e.Request() == keep.value
  }

  function Spare(e: Event, keep: Option<string>): Event {
    if Spared(e, keep) then e else e.Bare()
  }

  function WithoutSnapshots(es: seq<Event>, keep: Option<string>): seq<Event> {
    seq(|es|, i requires 0 <= i < |es| => Spare(es[i], keep))
  }

  /** How many cards that removes. */
  function Dropped(es: seq<Event>, keep: Option<string>): nat {
    if es == [] then 0
    else Dropped(es[..|es| - 1], keep) + if es[|es| - 1].Reviewed() && !Spared(es[|es| - 1], keep) then 1 else 0
  }

  function CloseUnlessPending(e: Event): Event {
    if e.Reviewed() && IsPending(e.review.value) then e else e.Bare()
  }

  function PendingOnly(es: seq<Event>): seq<Event> {
    seq(|es|, i requires 0 <= i < |es| => CloseUnlessPending(es[i]))
  }

  /** A parsed time stamp; one that does not parse sorts last. */
  datatype Instant = At(time: int) | Never
  {
    predicate NotAfter(other: Instant) {
      other.Never? || (At? && time <= other.time)
    }
  }

  /** Put `e` behind every event that is not later: a stable sort, one event at a time. */
  function SortIn(es: seq<Event>, e: Event, clock: string -> Instant): seq<Event> {
    if es == [] || clock(es[|es| - 1].stamp).NotAfter(clock(e.stamp)) then es + [e]
    else SortIn(es[..|es| - 1], e, clock) + [es[|es| - 1]]
  }

  function Sorted(es: seq<Event>, clock: string -> Instant): seq<Event> {
    if es == [] then [] else SortIn(Sorted(es[..|es| - 1], clock), es[|es| - 1], clock)
  }

  function EventsOf(history: seq<Message>, analyses: seq<Analysis>): seq<Event> {
    seq(|history|, i requires 0 <= i < |history| =>
      Said(history[i].role, history[i].content, history[i].request, history[i].stamp, None))
    + seq(|analyses|, i requires 0 <= i < |analyses| => Computed(analyses[i].id, analyses[i].created))
  }

  /** The timeline a read returns and leaves behind: cleaned of closed cards, or rebuilt if there is none. */
  function Shown(d: Session, clock: string -> Instant): seq<Event> {
    if d.timeline != [] then PendingOnly(d.timeline) else PendingOnly(Sorted(EventsOf(d.history, d.analyses), clock))
  }

  // ---- the session file, changed in place ---------------------------------------------------

  class SessionFile {
    var title: string
    var history: seq<Message>
    var analyses: seq<Analysis>
    var timeline: seq<Event>

    ghost function Data(): Session
      reads this
    {
      Session(title, history, analyses, timeline)
    }

    constructor (title: string)
      ensures Data() == Session(title, [], [], [])
    {
      this.title := title;
      history, analyses, timeline := [], [], [];
    }

    method AddMessage(role: string, content: string, request: Option<string>, now: string)
      modifies this
      ensures Data() == WithMessage(old(Data()), role, content, request, now)
    {
      var message := Message(role, content, now, None);
      if request.Some? && request.value != "" {
        message := message.(request := request);
      }
      history := history + [message];
      timeline := timeline + [Said(role, content, request, message.stamp, None)];
      if role == "user" && |history| == 1 {
        title := if |content| > 50 then content[..50] + "..." else content;
      }
    }

    method AddPrivateAnalysis(analysis: Analysis, now: string)
      modifies this
      ensures Data() == WithAnalysis(old(Data()), analysis, now)
    {
      analyses := analyses + [analysis];
      timeline := timeline + [Computed(analysis.id, now)];
    }

    method SetReviewSnapshot(request: string, review: Review) returns (found: bool)
      modifies this
      ensures Data() == old(Data()).(timeline := WithSnapshot(old(timeline), request, review))
      ensures found == (Latest(old(timeline), AnyReply) >= 0)
    {
      var fallback := -1;
      var i := |timeline|;
      while i > 0
        invariant 0 <= i <= |timeline| && Data() == old(Data())
        invariant forall j | i <= j < |timeline| :: !ReplyTo(request).Fits(timeline[j])
        invariant -1 <= fallback < |timeline| && (fallback >= 0 ==> i <= fallback && AnyReply.Fits(timeline[fallback]))
        invariant forall j | i <= j < |timeline| && fallback < j :: !AnyReply.Fits(timeline[j])
      {
        i := i - 1;
        if AnyReply.Fits(timeline[i]) && fallback == -1 {
          fallback := i;
        }
        if ReplyTo(request).Fits(timeline[i]) {
          LatestIs(timeline, ReplyTo(request), i);
          assert AnyReply.Fits(timeline[i]);
          timeline := timeline[i := timeline[i].(review := Some(review))];
          return true;
        }
      }
      LatestIs(timeline, ReplyTo(request), -1);
      LatestIs(timeline, AnyReply, fallback);
      found := fallback >= 0;
      if found {
        timeline := timeline[fallback := timeline[fallback].(request := Some(request), review := Some(review))];
      }
    }

    /** The last event that fits, found by scanning backwards. */
    method Search(w: Wanted) returns (i: int)
      ensures i == Latest(timeline, w)
    {
      i := |timeline| - 1;
      while i >= 0
        invariant -1 <= i < |timeline| && forall j | i < j < |timeline| :: !w.Fits(timeline[j])
      {
        if w.Fits(timeline[i]) {
          LatestIs(timeline, w, i);
          return;
        }
        i := i - 1;
      }
      LatestIs(timeline, w, -1);
    }

    method SetReviewStatus(request: string, status: string, reviewId: Option<string>) returns (found: bool)
      modifies this
      ensures Data() == old(Data()).(timeline := WithStatus(old(timeline), request, status, reviewId))
      ensures found == (Latest(old(timeline), CardOf(request, reviewId)) >= 0)
    {
      var i := Search(CardOf(request, reviewId));
      found := i >= 0;
      if found {
        timeline := timeline[i := timeline[i].(review := Some(timeline[i].review.value["status" := status]))];
      }
    }

    method ClearReviewSnapshot(request: string) returns (found: bool)
      modifies this
      ensures Data() == old(Data()).(timeline := WithoutSnapshot(old(timeline), request))
      ensures found == (Latest(old(timeline), AnyCardOf(request)) >= 0)
    {
      var i := Search(AnyCardOf(request));
      found := i >= 0;
      if found {
        timeline := timeline[i := timeline[i].(review := None)];
      }
    }

    method ClearReviewSnapshots(keep: Option<string>) returns (removed: nat)
      modifies this
      ensures Data() == old(Data()).(timeline := WithoutSnapshots(old(timeline), keep))
      ensures removed == Dropped(old(timeline), keep)
    {
      removed := 0;
      ghost var was := timeline;
      for i := 0 to |timeline|
        invariant Data() == old(Data()).(timeline := timeline) && |timeline| == |was|
        invariant forall j | 0 <= j < |was| :: timeline[j] == if j < i then Spare(was[j], keep) else was[j]
        invariant removed == Dropped(was[..i], keep)
      {
        assert was[..i + 1][..i] == was[..i];
        if timeline[i].Reviewed() && !Spared(timeline[i], keep) {
          timeline := timeline[i := timeline[i].(review := None)];
          removed := removed + 1;
        }
      }
      assert was[..|was|] == was;
    }

    method GetTimeline(clock: string -> Instant) returns (events: seq<Event>)
      modifies this
      ensures events == Shown(old(Data()), clock)
      ensures Data() == old(Data()).(timeline := events)
    {
      if timeline == [] {
        events := Sorted(EventsOf(history, analyses), clock);
      } else {
        events := timeline;
      }
      ghost var was := events;
      for i := 0 to |events|
        invariant |events| == |was|
        invariant forall j | 0 <= j < |was| :: events[j] == if j < i then CloseUnlessPending(was[j]) else was[j]
      {
        if events[i].Reviewed() && !IsPending(events[i].review.value) {
          events := events[i := events[i].(review := None)];
        }
      }
      timeline := events;
    }
  }

  // ---- the timeline merges the conversation and the results -----------------------------------

  datatype Side = Conversation | Results

  function Kept(es: seq<Event>, side: Side): seq<Event> {
    if es == [] then []
    else if es[|es| - 1].Said? == side.Conversation? then Kept(es[..|es| - 1], side) + [es[|es| - 1]]
    else Kept(es[..|es| - 1], side)
  }

  predicate Tells(e: Event, m: Message) {
    e.Said? && e.role == m.role && e.content == m.content && e.stamp == m.stamp
  }

  /** The message events are the conversation in order, the result events are the results in order. */
  ghost predicate Merges(d: Session) {
    var said, computed := Kept(d.timeline, Conversation), Kept(d.timeline, Results);
    && |said| == |d.history| && (forall i | 0 <= i < |said| :: Tells(said[i], d.history[i]))
    && |computed| == |d.analyses| && (forall i | 0 <= i < |computed| :: computed[i] == Computed(d.analyses[i].id, computed[i].stamp))
  }

  /** Equal up to review card and request id. */
  predicate Alike(a: Event, b: Event) {
    if a.Said? then b.Said? && a == b.(review := a.review, request := a.request) else a == b
  }

  ghost predicate AllAlike(a: seq<Event>, b: seq<Event>) {
    |a| == |b| && forall i | 0 <= i < |a| :: Alike(a[i], b[i])
  }

  lemma {:induction false} KeptAlike(a: seq<Event>, b: seq<Event>, side: Side)
    requires AllAlike(a, b)
    ensures AllAlike(Kept(a, side), Kept(b, side))
  {
    if a != [] {
      KeptAlike(a[..|a| - 1], b[..|b| - 1], side);
      assert Alike(a[|a| - 1], b[|b| - 1]);
    }
  }

  /** Everything that can happen to a session file. */
  datatype Op =
    | Say(role: string, content: string, requestId: Option<string>, now: string)
    | Compute(analysis: Analysis, now: string)
    | SetSnapshot(request: string, review: Review)
    | SetStatus(request: string, status: string, reviewId: Option<string>)
    | ClearSnapshot(request: string)
    | ClearSnapshots(keep: Option<string>)
    | Read

  function Apply(d: Session, op: Op, clock: string -> Instant): Session {
    match op
    case Say(role, content, request, now) => WithMessage(d, role, content, request, now)
    case Compute(analysis, now) => WithAnalysis(d, analysis, now)
    case SetSnapshot(request, review) => d.(timeline := WithSnapshot(d.timeline, request, review))
    case SetStatus(request, status, reviewId) => d.(timeline := WithStatus(d.timeline, request, status, reviewId))
    case ClearSnapshot(request) => d.(timeline := WithoutSnapshot(d.timeline, request))
    case ClearSnapshots(keep) => d.(timeline := WithoutSnapshots(d.timeline, keep))
    case Read => d.(timeline := Shown(d, clock))
  }

  function Run(title: string, ops: seq<Op>, clock: string -> Instant): Session {
    if ops == [] then Session(title, [], [], []) else Apply(Run(title, ops[..|ops| - 1], clock), ops[|ops| - 1], clock)
  }

  lemma AlikeMerges(d: Session, timeline: seq<Event>)
    requires Merges(d) && AllAlike(d.timeline, timeline)
    ensures Merges(d.(timeline := timeline))
  {
    KeptAlike(d.timeline, timeline, Conversation);
    KeptAlike(d.timeline, timeline, Results);
    var said, computed := Kept(d.timeline, Conversation), Kept(d.timeline, Results);
    var said', computed' := Kept(timeline, Conversation), Kept(timeline, Results);
    assert forall i | 0 <= i < |said| :: Alike(said[i], said'[i]) && Tells(said[i], d.history[i]);
    assert forall i | 0 <= i < |computed| :: Alike(computed[i], computed'[i]);
  }

  lemma StepMerges(d: Session, op: Op, clock: string -> Instant)
    requires Merges(d)
    ensures Merges(Apply(d, op, clock))
  {
    var after := Apply(d, op, clock);
    if op.Say? || op.Compute? {
      assert after.timeline[..|d.timeline|] == d.timeline;
    } else {
      if op.Read? && d.timeline == [] {
        assert d.history == [] && d.analyses == [];
      }
      AlikeMerges(d, after.timeline);
    }
  }

  /** In every session ever reached the timeline merges the conversation and the results. */
  lemma {:induction false} TimelineMerges(title: string, ops: seq<Op>, clock: string -> Instant)
    ensures Merges(Run(title, ops, clock))
  {
    if ops != [] {
      TimelineMerges(title, ops[..|ops| - 1], clock);
      StepMerges(Run(title, ops[..|ops| - 1], clock), ops[|ops| - 1], clock);
    }
  }

  // ---- what was said and computed ----------------------------------------------------------------

  /** The events of the operations, in order: every message and every result, at its time. */
  function Happened(ops: seq<Op>): seq<Event> {
    if ops == [] then []
    else
      var init := Happened(ops[..|ops| - 1]);
      match ops[|ops| - 1]
      case Say(role, content, request, now) => init + [Said(role, content, request, now, None)]
      case Compute(analysis, now) => init + [Computed(analysis.id, now)]
      case _ => init
  }

  /** The messages of the operations, in order; an empty request id is none. */
  function SaidBy(ops: seq<Op>): seq<Message> {
    if ops == [] then []
    else
      var init := SaidBy(ops[..|ops| - 1]);
      match ops[|ops| - 1]
      case Say(role, content, request, now) => init + [Message(role, content, now, if request == Some("") then None else request)]
      case _ => init
  }

  function ComputedBy(ops: seq<Op>): seq<Analysis> {
    if ops == [] then []
    else
      var init := ComputedBy(ops[..|ops| - 1]);
      match ops[|ops| - 1] case Compute(analysis, _) => init + [analysis] case _ => init
  }

  lemma AlikeGrows(a: seq<Event>, b: seq<Event>, e: Event)
    requires AllAlike(a, b)
    ensures AllAlike(a + [e], b + [e])
  {
  }

  /** Whatever else is done to the cards, the timeline is what happened, in order, each event at its own time. */
  lemma {:induction false} TimelineIsWhatHappened(title: string, ops: seq<Op>, clock: string -> Instant)
    ensures AllAlike(Run(title, ops, clock).timeline, Happened(ops))
    ensures Run(title, ops, clock).history == SaidBy(ops) && Run(title, ops, clock).analyses == ComputedBy(ops)
  {
    if ops != [] {
      var init, op := ops[..|ops| - 1], ops[|ops| - 1];
      var d, happened := Run(title, init, clock), Happened(init);
      TimelineIsWhatHappened(title, init, clock);
      TimelineMerges(title, init, clock);
      match op
      case Say(role, content, request, now) => AlikeGrows(d.timeline, happened, Said(role, content, request, now, None));
      case Compute(analysis, now) => AlikeGrows(d.timeline, happened, Computed(analysis.id, now));
      case _ => CardsKeepTimeline(d, op, clock, happened);
    }
  }

  lemma CardsKeepTimeline(d: Session, op: Op, clock: string -> Instant, happened: seq<Event>)
    requires Merges(d) && !op.Say? && !op.Compute? && AllAlike(d.timeline, happened)
    ensures AllAlike(Apply(d, op, clock).timeline, happened)
  {
    if op.Read? && d.timeline == [] {
      assert d.history == [] && d.analyses == [];
    }
    var after := Apply(d, op, clock).timeline;
    assert AllAlike(d.timeline, after);
    forall i | 0 <= i < |after| ensures Alike(after[i], happened[i]) {
      assert Alike(d.timeline[i], after[i]) && Alike(d.timeline[i], happened[i]);
    }
  }

  /** A session is named after its first message if that is the user's, by its first 50 characters; otherwise it keeps its title. */
  lemma {:induction false} TitleIsTheFirstQuestion(title: string, ops: seq<Op>, clock: string -> Instant)
    ensures var said := SaidBy(ops);
            Run(title, ops, clock).title ==
              if said == [] || said[0].role != "user" then title
              else if |said[0].content| <= 50 then said[0].content
              else said[0].content[..50] + ['.', '.', '.']
  {
    if ops != [] {
      TitleIsTheFirstQuestion(title, ops[..|ops| - 1], clock);
      TimelineIsWhatHappened(title, ops[..|ops| - 1], clock);
      TimelineIsWhatHappened(title, ops, clock);
    }
  }

  // ---- review cards -----------------------------------------------------------------------------

  /** The card waits for a decision of the user, on a plan, a method, data, or a prior result. */
  predicate Awaits(review: Review) {
    "status" in review
    && var status := review["status"];
       || status == "analysis_plan_review_ready" || status == "method_review_ready"
       || status == "data_authorization_pending" || status == "prior_result_authorization_pending"
  }

  /** Every card a read returns awaits a decision; any other is gone from the file too. */
  lemma ReadsShowOnlyPendingCards(d: Session, clock: string -> Instant, i: nat)
    requires i < |Shown(d, clock)|
    ensures var e := Shown(d, clock)[i];
            && (e.Reviewed() ==> Awaits(e.review.value))
            && (d.timeline != [] ==>
                  (&& i < |d.timeline|
                   && (e.Reviewed() <==> d.timeline[i].Reviewed() && Awaits(d.timeline[i].review.value))
                   && (e.Reviewed() ==> e == d.timeline[i])))
  {
  }

  /** After clearing, exactly the cards of the kept request are left. */
  lemma OnlyTheKeptRequestHasCards(es: seq<Event>, keep: Option<string>, i: nat)
    requires i < |es|
    ensures var e := WithoutSnapshots(es, keep)[i];
            && (e.Reviewed() <==> es[i].Reviewed() && keep.Some? && keep.value != "" && es[i].Request() == keep.value)
            && (e.Reviewed() ==> e == es[i])
  {
  }

  /** A snapshot hangs on the last reply, and on the last reply of its own request if there is one. */
  lemma SnapshotIsFound(es: seq<Event>, request: string, review: Review)
    ensures var after := WithSnapshot(es, request, review);
            var i := Latest(after, ReplyTo(request));
            && (i >= 0 <==> exists j | 0 <= j < |es| :: AnyReply.Fits(es[j]))
            && (i >= 0 ==> after[i].review == Some(review) && forall j | 0 <= j < |es| && j != i :: after[j] == es[j])
  {
    var exact, reply := Latest(es, ReplyTo(request)), Latest(es, AnyReply);
    var after := WithSnapshot(es, request, review);
    if exact >= 0 {
      LatestIs(after, ReplyTo(request), exact);
      assert AnyReply.Fits(es[exact]);
    } else {
      LatestIs(after, ReplyTo(request), reply);
    }
  }

  /**
   Setting the status finds the card just set, by request alone or by its own id; the
   status is then the one given and the rest of the card is kept.
   */
  lemma StatusReachesTheSnapshot(es: seq<Event>, request: string, review: Review, status: string, byId: bool)
    requires Latest(es, AnyReply) >= 0 && review != map[] && (byId ==> "review_id" in review)
    requires forall j | 0 <= j < |es| && es[j].Reviewed() :: es[j].role == "assistant"
    ensures var bound := WithSnapshot(es, request, review);
            var i := Latest(bound, ReplyTo(request));
            var after := WithStatus(bound, request, status, if byId then Some(review["review_id"]) else None);
            && i >= 0 && after == bound[i := bound[i].(review := Some(review["status" := status]))]
  {
    SnapshotIsFound(es, request, review);
    var bound := WithSnapshot(es, request, review);
    var i := Latest(bound, ReplyTo(request));
    var w := CardOf(request, if byId then Some(review["review_id"]) else None);
    forall j | i < j < |bound| ensures !w.Fits(bound[j]) {
      assert !ReplyTo(request).Fits(bound[j]);
      assert bound[j] == es[j];
    }
    LatestIs(bound, w, i);
  }

  /** A card of the request hangs on the event; with an id given, the card itself carries that id. */
  predicate IsCardOf(e: Event, request: string, reviewId: Option<string>) {
    && e.Said? && e.request == Some(request) && e.review.Some?
    && match reviewId case None => true case Some(id) => "review_id" in e.review.value && e.review.value["review_id"] == id
  }

  /** At `i` is the last event for which `holds`. */
  predicate LastOfAll(es: seq<Event>, i: nat, holds: Event -> bool) {
    i < |es| && holds(es[i]) && forall j | i < j < |es| :: !holds(es[j])
  }

  /** A status goes to the last card of its request, and of its id if one is given, that is not empty, and nowhere else. */
  lemma StatusGoesToItsCard(es: seq<Event>, request: string, status: string, reviewId: Option<string>) returns (i: int)
    ensures var after, card := WithStatus(es, request, status, reviewId), (e: Event) => IsCardOf(e, request, reviewId) && e.review.value != map[];
            if i >= 0 then LastOfAll(es, i, card) && after == es[i := es[i].(review := Some(es[i].review.value["status" := status]))]
            else after == es && forall j | 0 <= j < |es| :: !card(es[j])
  {
    i := Latest(es, CardOf(request, reviewId));
  }

  /** Clearing a request removes its last card, and no other. */
  lemma ClearingRemovesTheLastCard(es: seq<Event>, request: string) returns (i: int)
    ensures var after, card := WithoutSnapshot(es, request), (e: Event) => IsCardOf(e, request, None);
            if i >= 0 then LastOfAll(es, i, card) && after == es[i := es[i].(review := None)]
            else after == es && forall j | 0 <= j < |es| :: !card(es[j])
  {
    i := Latest(es, AnyCardOf(request));
  }

  function CardsIn(es: seq<Event>): nat {
    if es == [] then 0 else CardsIn(es[..|es| - 1]) + if es[|es| - 1].Said? && es[|es| - 1].review.Some? then 1 else 0
  }

  /** The number reported is that of the cards that are gone. */
  lemma {:induction false} ClearedAreCounted(es: seq<Event>, keep: Option<string>)
    ensures CardsIn(WithoutSnapshots(es, keep)) + Dropped(es, keep) == CardsIn(es)
  {
    if es != [] {
      ClearedAreCounted(es[..|es| - 1], keep);
      assert WithoutSnapshots(es, keep)[..|es| - 1] == WithoutSnapshots(es[..|es| - 1], keep);
    }
  }

  predicate CardsHangOnReplies(es: seq<Event>) {
    forall j | 0 <= j < |es| && es[j].Reviewed() :: es[j].role == "assistant"
  }

  lemma StepKeepsCardsOnReplies(d: Session, op: Op, clock: string -> Instant)
    requires CardsHangOnReplies(d.timeline) && Merges(d)
    ensures CardsHangOnReplies(Apply(d, op, clock).timeline)
  {
    if d.timeline == [] {
      assert d.history == [] && d.analyses == [];
    }
    var after := Apply(d, op, clock).timeline;
    forall j | 0 <= j < |after| && after[j].Reviewed() ensures after[j].role == "assistant" {
      assert j < |d.timeline|;
    }
  }

  /** No card is ever found on anything but a reply. */
  lemma {:induction false} OnlyRepliesHaveCards(title: string, ops: seq<Op>, clock: string -> Instant)
    ensures CardsHangOnReplies(Run(title, ops, clock).timeline)
  {
    if ops != [] {
      OnlyRepliesHaveCards(title, ops[..|ops| - 1], clock);
      TimelineMerges(title, ops[..|ops| - 1], clock);
      StepKeepsCardsOnReplies(Run(title, ops[..|ops| - 1], clock), ops[|ops| - 1], clock);
    }
  }

  // ---- which request a reply belongs to --------------------------------------------------------

  /** The request ids of the message events, in order. */
  function Requests(es: seq<Event>): seq<string> {
    if es == [] then []
    else if es[|es| - 1].Said? then Requests(es[..|es| - 1]) + [es[|es| - 1].Request()]
    else Requests(es[..|es| - 1])
  }

  function HistoryRequests(history: seq<Message>): seq<string> {
    seq(|history|, i requires 0 <= i < |history| => OrElse(history[i].request))
  }

  function OrElse(request: Option<string>): string {
    if request.Some? then request.value else ""
  }

  /** The timeline and the conversation agree on the request of every message. */
  predicate RequestsAgree(d: Session) {
    Requests(d.timeline) == HistoryRequests(d.history)
  }

  /** No reply belongs to `request`, and the last reply there is belongs to another. */
  predicate Rebinds(es: seq<Event>, request: string) {
    var reply := Latest(es, AnyReply);
    Latest(es, ReplyTo(request)) < 0 && reply >= 0 && es[reply].Request() != request
  }

  lemma {:induction false} RequestsEqual(a: seq<Event>, b: seq<Event>)
    requires AllAlike(a, b)
    ensures |Requests(a)| == |Requests(b)|
    ensures Requests(a) == Requests(b) <==> forall j | 0 <= j < |a| :: a[j].Request() == b[j].Request()
  {
    if a != [] {
      var n := |a| - 1;
      RequestsEqual(a[..n], b[..n]);
      assert Alike(a[n], b[n]);
      if a[n].Said? {
        LastsEqual(Requests(a[..n]), a[n].Request(), Requests(b[..n]), b[n].Request());
      }
      if a[n].Request() == b[n].Request() && forall j | 0 <= j < n :: a[..n][j].Request() == b[..n][j].Request() {
        assert forall j | 0 <= j < n :: a[j] == a[..n][j] && b[j] == b[..n][j];
      }
      if forall j | 0 <= j < |a| :: a[j].Request() == b[j].Request() {
        assert forall j | 0 <= j < n :: a[..n][j].Request() == b[..n][j].Request();
      }
    }
  }

  lemma LastsEqual(a: seq<string>, x: string, b: seq<string>, y: string)
    requires |a| == |b|
    ensures a + [x] == b + [y] <==> a == b && x == y
  {
    if a + [x] == b + [y] {
      assert (a + [x])[..|a|] == a && (b + [y])[..|b|] == b;
      assert (a + [x])[|a|] == x && (b + [y])[|b|] == y;
    }
  }

  lemma SnapshotKeepsRequests(es: seq<Event>, request: string, review: Review)
    ensures var after := WithSnapshot(es, request, review);
            && AllAlike(es, after)
            && ((forall j | 0 <= j < |es| :: es[j].Request() == after[j].Request()) <==> !Rebinds(es, request))
  {
    var after := WithSnapshot(es, request, review);
    if Rebinds(es, request) {
      var reply := Latest(es, AnyReply);
      assert es[reply].Request() != after[reply].Request();
    }
  }

  lemma OthersKeepRequests(d: Session, op: Op, clock: string -> Instant)
    requires Merges(d) && !op.Say? && !op.Compute? && !op.SetSnapshot?
    ensures var after := Apply(d, op, clock);
            && after.history == d.history && AllAlike(d.timeline, after.timeline)
            && forall j | 0 <= j < |d.timeline| :: d.timeline[j].Request() == after.timeline[j].Request()
  {
    if d.timeline == [] {
      assert d.history == [] && d.analyses == [];
    }
  }

  /** The ids keep agreeing, except exactly when a snapshot takes over the reply of another request. */
  lemma RequestsAgreeUnlessRebound(d: Session, op: Op, clock: string -> Instant)
    requires Merges(d) && RequestsAgree(d)
    ensures RequestsAgree(Apply(d, op, clock)) <==> !(op.SetSnapshot? && Rebinds(d.timeline, op.request))
  {
    var after := Apply(d, op, clock);
    match op
    case Say(_, _, _, _) =>
      assert after.timeline[..|d.timeline|] == d.timeline;
    case Compute(_, _) =>
      assert after.timeline[..|d.timeline|] == d.timeline;
    case SetSnapshot(request, review) =>
      SnapshotKeepsRequests(d.timeline, request, review);
      RequestsEqual(d.timeline, after.timeline);
    case _ =>
      OthersKeepRequests(d, op, clock);
      RequestsEqual(d.timeline, after.timeline);
  }

  /** A reply given for "r1" is taken over by the card of "r2". */
  lemma SnapshotTakesOverAReply(d: Session, review: Review)
    requires d == WithMessage(Session("", [], [], []), "assistant", "", Some("r1"), "")
    ensures Merges(d) && RequestsAgree(d) && Rebinds(d.timeline, "r2")
    ensures WithSnapshot(d.timeline, "r2", review) == [d.timeline[0].(request := Some("r2"), review := Some(review))]
  {
    LatestIs(d.timeline, ReplyTo("r2"), -1);
    LatestIs(d.timeline, AnyReply, 0);
    OneReply(d);
  }

  lemma OneReply(d: Session)
    requires |d.timeline| == |d.history| == 1 && d.analyses == [] && d.timeline[0].Said? && Tells(d.timeline[0], d.history[0])
    ensures Merges(d)
    ensures Requests(d.timeline) == [d.timeline[0].Request()]
  {
    assert d.timeline[..0] == [];
  }

  // ---- sessions saved before there was a timeline ----------------------------------------------

  ghost predicate InOrder(es: seq<Event>, clock: string -> Instant) {
    forall i, j | 0 <= i < j < |es| :: clock(es[i].stamp).NotAfter(clock(es[j].stamp))
  }

  lemma {:induction false} SortInKeeps(es: seq<Event>, e: Event, clock: string -> Instant)
    ensures multiset(SortIn(es, e, clock)) == multiset(es) + multiset{e}
  {
    if es != [] {
      assert es == es[..|es| - 1] + [es[|es| - 1]];
      SortInKeeps(es[..|es| - 1], e, clock);
    }
  }

  lemma {:induction false} SortInOrder(es: seq<Event>, e: Event, clock: string -> Instant)
    requires InOrder(es, clock)
    ensures InOrder(SortIn(es, e, clock), clock)
  {
    if es != [] && !clock(es[|es| - 1].stamp).NotAfter(clock(e.stamp)) {
      var init, last := es[..|es| - 1], es[|es| - 1];
      SortInOrder(init, e, clock);
      SortInKeeps(init, e, clock);
      var placed := SortIn(init, e, clock);
      forall i | 0 <= i < |placed| ensures clock(placed[i].stamp).NotAfter(clock(last.stamp)) {
        assert placed[i] in multiset(placed);
        if placed[i] != e {
          assert placed[i] in multiset(init);
        }
      }
    }
  }

  lemma {:induction false} SortedInOrder(es: seq<Event>, clock: string -> Instant)
    ensures InOrder(Sorted(es, clock), clock) && multiset(Sorted(es, clock)) == multiset(es)
  {
    if es != [] {
      SortedInOrder(es[..|es| - 1], clock);
      SortInOrder(Sorted(es[..|es| - 1], clock), es[|es| - 1], clock);
      SortInKeeps(Sorted(es[..|es| - 1], clock), es[|es| - 1], clock);
      assert es == es[..|es| - 1] + [es[|es| - 1]];
    }
  }

  lemma SortInAtTheEnd(es: seq<Event>, e: Event, clock: string -> Instant)
    requires es == [] || clock(es[|es| - 1].stamp).NotAfter(clock(e.stamp))
    ensures SortIn(es, e, clock) == es + [e]
  {
  }

  lemma InitInOrder(es: seq<Event>, clock: string -> Instant)
    requires es != [] && InOrder(es, clock)
    ensures var init, last := es[..|es| - 1], es[|es| - 1];
            && es == init + [last] && InOrder(init, clock)
            && (init == [] || clock(init[|init| - 1].stamp).NotAfter(clock(last.stamp)))
  {
    var init := es[..|es| - 1];
    assert forall i | 0 <= i < |init| :: init[i] == es[i];
  }

  lemma {:induction false} OrderedIsSorted(es: seq<Event>, clock: string -> Instant)
    requires InOrder(es, clock)
    ensures Sorted(es, clock) == es
  {
    if es != [] {
      InitInOrder(es, clock);
      OrderedIsSorted(es[..|es| - 1], clock);
      SortInAtTheEnd(es[..|es| - 1], es[|es| - 1], clock);
    }
  }

  lemma SortedFixesOrder(es: seq<Event>, clock: string -> Instant)
    ensures Sorted(es, clock) == es <==> InOrder(es, clock)
  {
    SortedInOrder(es, clock);
    if InOrder(es, clock) {
      OrderedIsSorted(es, clock);
    }
  }

  lemma {:induction false} KeptMembers(es: seq<Event>, side: Side)
    ensures forall e | e in Kept(es, side) :: e in es && e.Said? == side.Conversation?
  {
    if es != [] {
      KeptMembers(es[..|es| - 1], side);
    }
  }

  lemma KeptAppend(es: seq<Event>, e: Event, side: Side)
    ensures Kept(es + [e], side) == if e.Said? == side.Conversation? then Kept(es, side) + [e] else Kept(es, side)
  {
    assert (es + [e])[..|es|] == es;
  }

  lemma SortInAppend(es: seq<Event>, last: Event, e: Event, clock: string -> Instant)
    requires !clock(last.stamp).NotAfter(clock(e.stamp))
    ensures SortIn(es + [last], e, clock) == SortIn(es, e, clock) + [last]
  {
    assert (es + [last])[..|es|] == es;
  }

  /** An event that goes last goes last on its side. */
  lemma KeptBefore(es: seq<Event>, e: Event, side: Side, clock: string -> Instant)
    requires InOrder(es, clock) && (es == [] || clock(es[|es| - 1].stamp).NotAfter(clock(e.stamp)))
    ensures SortIn(Kept(es, side), e, clock) == Kept(es, side) + [e]
  {
    KeptMembers(es, side);
    var kept := Kept(es, side);
    if kept != [] {
      assert kept[|kept| - 1] in es;
      assert clock(kept[|kept| - 1].stamp).NotAfter(clock(es[|es| - 1].stamp));
    }
  }

  lemma {:induction false} KeptSortIn(es: seq<Event>, e: Event, side: Side, clock: string -> Instant)
    requires InOrder(es, clock)
    ensures Kept(SortIn(es, e, clock), side)
         == if e.Said? == side.Conversation? then SortIn(Kept(es, side), e, clock) else Kept(es, side)
  {
    if es == [] || clock(es[|es| - 1].stamp).NotAfter(clock(e.stamp)) {
      KeptAppend(es, e, side);
      KeptBefore(es, e, side, clock);
    } else {
      var init, last := es[..|es| - 1], es[|es| - 1];
      assert es == init + [last];
      KeptSortIn(init, e, side, clock);
      KeptAppend(SortIn(init, e, clock), last, side);
      SortInAppend(Kept(init, side), last, e, clock);
    }
  }

  lemma {:induction false} KeptSorted(es: seq<Event>, side: Side, clock: string -> Instant)
    ensures Kept(Sorted(es, clock), side) == Sorted(Kept(es, side), clock)
  {
    if es != [] {
      var init, last := es[..|es| - 1], es[|es| - 1];
      KeptSorted(init, side, clock);
      SortedInOrder(init, clock);
      KeptSortIn(Sorted(init, clock), last, side, clock);
      var kept := Kept(init, side);
      assert (kept + [last])[..|kept|] == kept;
    }
  }

  predicate TellsOf(e: Event, history: seq<Message>) {
    exists i :: 0 <= i < |history| && e == Said(history[i].role, history[i].content, history[i].request, history[i].stamp, None)
  }

  predicate ResultOf(e: Event, analyses: seq<Analysis>) {
    exists i :: 0 <= i < |analyses| && e == Computed(analyses[i].id, analyses[i].created)
  }

  /** What a rebuilt timeline holds: every message with its role, text, request and time, and every result with its own. */
  lemma RebuiltFromSession(d: Session, clock: string -> Instant, e: Event)
    requires d.timeline == []
    ensures e in Shown(d, clock) <==> TellsOf(e, d.history) || ResultOf(e, d.analyses)
  {
    var all := EventsOf(d.history, d.analyses);
    RebuildKeepsOrderedSides(d, Conversation, clock);
    SameMembers(Shown(d, clock), all, e);
    EventsAreOfSession(d.history, d.analyses, e);
  }

  lemma SameMembers(a: seq<Event>, b: seq<Event>, e: Event)
    requires multiset(a) == multiset(b)
    ensures e in a <==> e in b
  {
    assert e in a <==> e in multiset(a);
    assert e in b <==> e in multiset(b);
  }

  lemma EventsAreOfSession(history: seq<Message>, analyses: seq<Analysis>, e: Event)
    ensures e in EventsOf(history, analyses) <==> TellsOf(e, history) || ResultOf(e, analyses)
  {
    var all := EventsOf(history, analyses);
    assert |all| == |history| + |analyses|;
    if i :| 0 <= i < |history| && e == Said(history[i].role, history[i].content, history[i].request, history[i].stamp, None) {
      assert all[i] == e;
    }
    if i :| 0 <= i < |analyses| && e == Computed(analyses[i].id, analyses[i].created) {
      assert all[|history| + i] == e;
    }
    if i :| 0 <= i < |all| && all[i] == e && i >= |history| {
      assert all[i] == Computed(analyses[i - |history|].id, analyses[i - |history|].created);
    }
  }

  /**
   Reading a session without a timeline builds one in time order that holds every message
   and result once; it keeps the order of a side exactly when that side's own stamps do not run back.
   */
  lemma RebuildKeepsOrderedSides(d: Session, side: Side, clock: string -> Instant)
    requires d.timeline == []
    ensures var all := EventsOf(d.history, d.analyses);
            && InOrder(Shown(d, clock), clock) && multiset(Shown(d, clock)) == multiset(all)
            && (Kept(Shown(d, clock), side) == Kept(all, side) <==> InOrder(Kept(all, side), clock))
  {
    var all := EventsOf(d.history, d.analyses);
    var sorted := Sorted(all, clock);
    SortedInOrder(all, clock);
    forall i | 0 <= i < |sorted| ensures PendingOnly(sorted)[i] == sorted[i] {
      assert sorted[i] in multiset(all);
      assert sorted[i] in all;
    }
    assert Shown(d, clock) == sorted;
    KeptSorted(all, side, clock);
    SortedFixesOrder(Kept(all, side), clock);
  }
}
