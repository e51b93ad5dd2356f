/** Which way a run takes through the graph, and how it ends. */
module RunPaths {
  import opened Basics
  import opened RunGraph

  /** The nodes of the method flow, from the search on. */
  predicate OnMethodFlow(n: Node) {
    || n.SearchSchema? || n.SelectSchema? || n.LoadMetadata? || n.PlanAnalysis? || n.GenerateMethod? || n.QueryGuard?
    || n.PrepareSchemaRepair? || n.ExecuteReadonly? || n.RefuseMethod?
  }

  // ---- the route of action validation --------------------------------------------------------

  lemma FirstTwoSteps(cs: seq<Choice>)
    requires |cs| >= 2
    ensures Run(ENTRY, cs[..0]) == ENTRY && Run(ENTRY, cs[..1]) == Step(ENTRY, cs[0])
    ensures Run(ENTRY, cs[..2]) == Step(Step(ENTRY, cs[0]), cs[1])
  {
    assert cs[..1][..0] == cs[..0] == [] && cs[..2][..1] == cs[..1];
  }

  lemma EntryRenders(cs: seq<Choice>)
    requires |cs| == 2 && !cs[0].raises && !cs[1].raises
    ensures Run(ENTRY, cs).node == (if cs[1].route.MethodFlow? then SearchSchema else RenderDirectResponse)
  {
    FirstTwoSteps(cs);
    assert cs[..2] == cs && cs[..1][..0] == [] && cs[..1] == [cs[0]];
  }

  /** Where the direct answer has got to after `n` steps of a run in which nothing raises. */
  function DirectNode(n: nat): Node {
    if n == 0 then PlanResponse else if n == 1 then ValidateAction else if n == 2 then RenderDirectResponse else if n == 3 then Audit else End
  }

  predicate NothingRaises(cs: seq<Choice>) {
    forall i | 0 <= i < |cs| :: !cs[i].raises
  }

  /** A run whose second answer decides on another route renders the direct answer, is audited, and ends. */
  lemma {:induction false} DirectAnswerIsRendered(cs: seq<Choice>)
    requires NothingRaises(cs) && (|cs| >= 2 ==> !cs[1].route.MethodFlow?)
    ensures Run(ENTRY, cs) == ENTRY.(node := DirectNode(|cs|))
  {
    if cs != [] {
      DirectAnswerIsRendered(cs[..|cs| - 1]);
    }
  }

  lemma DirectStep(s: State, c: Choice, n: nat)
    requires s.node == Raised || (s.node == DirectNode(n) && (n == 1 ==> c.raises || !c.route.MethodFlow?))
    ensures Step(s, c).node == DirectNode(n + 1) || Step(s, c).node == Raised
  {
  }

  /** With another route no node of the method flow is ever visited, raise or no raise. */
  lemma {:induction false} OtherRoutesStayOut(cs: seq<Choice>, n: Node)
    requires OnMethodFlow(n) && (|cs| >= 2 ==> cs[1].raises || !cs[1].route.MethodFlow?)
    ensures Visits(ENTRY, cs, n) == 0
    ensures Run(ENTRY, cs).node == DirectNode(|cs|) || Run(ENTRY, cs).node == Raised
  {
    if cs != [] {
      OtherRoutesStayOut(cs[..|cs| - 1], n);
      DirectStep(Run(ENTRY, cs[..|cs| - 1]), cs[|cs| - 1], |cs| - 1);
    }
  }

  /** The run that searches, generates `m`, finds it clean and executes it. */
  function Straight(m: Method): Choice {
    Choice(false, MethodFlow, Some([m]), map[], None, false, _ => [], _ => DryRun(true, []), _ => Execution(true, "direct_db"), false)
  }

  function Repeated(c: Choice, n: nat): seq<Choice> {
    seq(n, i => c)
  }

  /** The node that the straight run is at before step `n` of the method flow. */
  function StraightNode(n: nat): Node {
    if n == 0 then SearchSchema else if n == 1 then SelectSchema else if n == 2 then LoadMetadata else if n == 3 then PlanAnalysis
    else if n == 4 then GenerateMethod else if n == 5 then QueryGuard else if n == 6 then ExecuteReadonly else End
  }

  /** The run has got to step `n` of the straight way. */
  predicate OnStraight(s: State, n: nat) {
    && s.node == StraightNode(n) && Paired(s)
    && (n == 5 || n == 6 ==> s.compiled != [])
    && (n == 6 ==> s.status == GuardPassed)
  }

  lemma StraightStep(s: State, m: Method, n: nat)
    requires OnStraight(s, n) && n < 7
    ensures OnStraight(Step(s, Straight(m)), n + 1)
  {
    StepKeepsPaired(s, Straight(m));
    if n == 4 {
      StraightGeneration(s, m);
    }
    if n == 5 {
      StraightGuard(s, m);
    }
  }

  lemma StraightGeneration(s: State, m: Method)
    requires s.node == GenerateMethod
    ensures Step(s, Straight(m)).node == QueryGuard && Step(s, Straight(m)).compiled != []
  {
    assert |CompilePlan([m], map[])| == 1;
  }

  lemma StraightGuard(s: State, m: Method)
    requires s.node == QueryGuard && s.compiled != []
    ensures var t := Step(s, Straight(m)); t.node == ExecuteReadonly && t.status == GuardPassed && t.compiled != []
  {
    GuardAcceptsExactlyClean(s.compiled, Straight(m).review, Straight(m).dryRun);
  }

  lemma {:induction false} StraightRun(start: seq<Choice>, m: Method, n: nat)
    requires |start| == 2 && !start[0].raises && !start[1].raises && start[1].route.MethodFlow? && n <= 7
    ensures OnStraight(Run(ENTRY, start + Repeated(Straight(m), n)), n)
  {
    var cs := start + Repeated(Straight(m), n);
    if n == 0 {
      assert cs == start;
      EntryRenders(start);
      AlwaysPaired(start);
    } else {
      assert cs[..|cs| - 1] == start + Repeated(Straight(m), n - 1);
      StraightRun(start, m, n - 1);
      StraightStep(Run(ENTRY, cs[..|cs| - 1]), m, n - 1);
    }
  }

  /** A run with these two answers to begin with. */
  ghost predicate Begins(cs: seq<Choice>, c: Choice, d: Choice) {
    |cs| >= 2 && cs[0] == c && cs[1] == d
  }

  lemma MethodFlowIsVisited(c: Choice, d: Choice, n: Node, m: Method) returns (cs: seq<Choice>)
    requires !c.raises && !d.raises && d.route.MethodFlow? && n in {SearchSchema, GenerateMethod, QueryGuard, ExecuteReadonly}
    ensures Begins(cs, c, d) && Visits(ENTRY, cs, n) > 0
  {
    var k := if n == SearchSchema then 0 else if n == GenerateMethod then 4 else if n == QueryGuard then 5 else 6;
    var before := [c, d] + Repeated(Straight(m), k);
    StraightRun([c, d], m, k);
    cs := before + [Straight(m)];
    assert cs[..|cs| - 1] == before;
  }

  /**
   The second answer decides: if it does not raise, search, generation, guard and execution can be
   visited if and only if its route is the method flow.
   */
  lemma RouteDecides(c: Choice, d: Choice, n: Node, m: Method)
    requires !c.raises && !d.raises && n in {SearchSchema, GenerateMethod, QueryGuard, ExecuteReadonly}
    ensures (exists cs :: Begins(cs, c, d) && Visits(ENTRY, cs, n) > 0) <==> d.route.MethodFlow?
  {
    if d.route.MethodFlow? {
      var cs := MethodFlowIsVisited(c, d, n, m);
    } else {
      forall cs | Begins(cs, c, d) ensures Visits(ENTRY, cs, n) == 0 {
        OtherRoutesStayOut(cs, n);
      }
    }
  }

  // ---- what the status says ------------------------------------------------------------------

  /** The status of a run names what was last done in it. */
  predicate StatusTells(s: State) {
    match s.node
    case PlanResponse | ValidateAction | RenderDirectResponse => s.status == Started && s.repairs == 0 && s.drafts == []
    case SearchSchema | SelectSchema | LoadMetadata | PlanAnalysis =>
      s.status == if s.repairs == 0 then Started else SchemaRepairPrepared
    case GenerateMethod => s.status == AnalysisPlanned
    case QueryGuard => s.status == MethodGenerated || s.status == MethodGenerationFailed
    case ExecuteReadonly => s.status == GuardPassed
    case PrepareSchemaRepair | RefuseMethod => s.status == GuardFailed
    case Audit => s.status == MethodRefused || (s.status == Started && s.drafts == [])
    case End => s.status.Executed? || s.status == MethodExecutionFailed || s.status == MethodRefused || (s.status == Started && s.drafts == [])
    case _ => true
  }

  /** Until the guard, a round has no errors but that of a failed generation. */
  predicate ErrorsOfRound(s: State) {
    && (s.node in {SearchSchema, SelectSchema, LoadMetadata, PlanAnalysis, GenerateMethod} ==> s.errors == [])
    && (s.node in {PlanResponse, ValidateAction, RenderDirectResponse} ==> s.errors == [])
    && (s.node == QueryGuard ==> s.errors == if s.status == MethodGenerated then [] else ["method generation failed"])
  }

  lemma StepTells(s: State, c: Choice)
    requires Current(s.node) && StatusTells(s)
    ensures StatusTells(Step(s, c))
  {
  }

  lemma StepKeepsErrors(s: State, c: Choice)
    requires Current(s.node) && ErrorsOfRound(s)
    ensures ErrorsOfRound(Step(s, c))
  {
  }

  lemma {:induction false} StatusNamesTheLastStep(cs: seq<Choice>)
    ensures StatusTells(Run(ENTRY, cs)) && ErrorsOfRound(Run(ENTRY, cs)) && Current(Run(ENTRY, cs).node)
  {
    if cs != [] {
      var s := Run(ENTRY, cs[..|cs| - 1]);
      StatusNamesTheLastStep(cs[..|cs| - 1]);
      StepTells(s, cs[|cs| - 1]);
      StepKeepsErrors(s, cs[|cs| - 1]);
      StepGoesOn(s, cs[|cs| - 1]);
    }
  }

  // ---- how a run ends -------------------------------------------------------------------------

  /** How often each of the last nodes was visited, told from where the run is. */
  predicate Tail(s: State, executed: nat, refused: nat, rendered: nat, audited: nat) {
    match s.node
    case End =>
      if s.status == MethodRefused then refused == audited == 1 && executed == rendered == 0
      else if s.status == Started then rendered == audited == 1 && executed == refused == 0
      else executed == 1 && refused == rendered == audited == 0
    case Audit => executed == audited == 0 && (if s.status == MethodRefused then refused == 1 && rendered == 0 else refused == 0 && rendered == 1)
    case Raised => true
    case _ => executed == refused == rendered == audited == 0
  }

  lemma StepMovesTail(s: State, c: Choice, executed: nat, refused: nat, rendered: nat, audited: nat)
    requires Current(s.node) && StatusTells(s) && Tail(s, executed, refused, rendered, audited)
    ensures Tail(Step(s, c), executed + (if s.node == ExecuteReadonly then 1 else 0), refused + (if s.node == RefuseMethod then 1 else 0),
                 rendered + (if s.node == RenderDirectResponse then 1 else 0), audited + (if s.node == Audit then 1 else 0))
  {
  }

  /**
   A run that has ended was executed once and its status is that of the execution, or it was refused
   and audited once and says so, or it was answered directly and audited and nothing else.
   */
  lemma {:induction false} RunsEndInThreeWays(cs: seq<Choice>)
    ensures Tail(Run(ENTRY, cs), Visits(ENTRY, cs, ExecuteReadonly), Visits(ENTRY, cs, RefuseMethod),
                 Visits(ENTRY, cs, RenderDirectResponse), Visits(ENTRY, cs, Audit))
  {
    if cs != [] {
      var init := cs[..|cs| - 1];
      RunsEndInThreeWays(init);
      StatusNamesTheLastStep(init);
      StepMovesTail(Run(ENTRY, init), cs[|cs| - 1], Visits(ENTRY, init, ExecuteReadonly), Visits(ENTRY, init, RefuseMethod),
                    Visits(ENTRY, init, RenderDirectResponse), Visits(ENTRY, init, Audit));
    }
  }

  // ---- a guard that finds something --------------------------------------------------------------

  /** What a function reports of all methods, one after the other. */
  function Reported(ms: seq<Method>, report: Method -> seq<string>): seq<string> {
    if ms == [] then [] else Reported(ms[..|ms| - 1], report) + report(ms[|ms| - 1])
  }

  function FromDryRun(c: Choice): Method -> seq<string> {
    m => c.dryRun(m).errors
  }

  lemma {:induction false} ConcatSplits(a: seq<seq<string>>, b: seq<string>)
    ensures Concat(a + [b]) == Concat(a) + b
  {
    if a == [] {
      assert [] + [b] == [b] && Concat([b][1..]) == [];
    } else {
      assert (a + [b])[1..] == a[1..] + [b];
      ConcatSplits(a[1..], b);
      assert a[0] + (Concat(a[1..]) + b) == (a[0] + Concat(a[1..])) + b;
    }
  }

  lemma {:induction false} ReportedIsConcat(qs: seq<Query>, report: Method -> seq<string>, lists: seq<seq<string>>)
    requires |lists| == |qs| && forall i | 0 <= i < |qs| :: lists[i] == report(qs[i].draft)
    ensures Concat(lists) == Reported(MethodsOf(qs), report)
  {
    if qs != [] {
      var n := |qs| - 1;
      ReportedIsConcat(qs[..n], report, lists[..n]);
      assert lists == lists[..n] + [lists[n]];
      ConcatSplits(lists[..n], lists[n]);
      assert MethodsOf(qs)[..n] == MethodsOf(qs[..n]);
    }
  }

  lemma GuardErrorsAreReports(qs: seq<Query>, review: Method -> seq<string>, dryRun: Method -> DryRun, found: Method -> seq<string>)
    requires forall m :: found(m) == dryRun(m).errors
    ensures GuardErrors(qs, review, dryRun) == Reported(MethodsOf(qs), review) + Reported(MethodsOf(qs), found)
  {
    ReportedIsConcat(qs, review, seq(|qs|, i requires 0 <= i < |qs| => review(qs[i].draft)));
    ReportedIsConcat(qs, found, seq(|qs|, i requires 0 <= i < |qs| => dryRun(qs[i].draft).errors));
  }

  /** The guard adds all that the reviews report, then all that the dry runs report, method by method. */
  lemma GuardReports(s: State, c: Choice)
    requires s.node == QueryGuard && Paired(s) && s.drafts != [] && !c.raises
    ensures Step(s, c).errors == s.errors + (Reported(s.drafts, c.review) + Reported(s.drafts, FromDryRun(c)))
    ensures Step(s, c).drafts == s.drafts && Step(s, c).repairs == s.repairs
  {
    GuardErrorsAreReports(s.compiled, c.review, c.dryRun, FromDryRun(c));
    assert s.compiled != [];
  }

  /** A guard visit with a finding goes back to the search while fewer than three repairs were made and the finding is not marked. */
  lemma AfterAFinding(s: State, c: Choice)
    requires s.node == QueryGuard && Paired(s) && s.drafts != [] && !c.raises
    requires !(forall m | m in s.drafts :: Clean(m, c.review, c.dryRun))
    ensures Step(s, c).node == if s.repairs < 3 && !c.marked then PrepareSchemaRepair else RefuseMethod
  {
    GuardDecides(s, c);
  }

  /** So over whole runs: the repairs that were made are those that were visited. */
  lemma FindingsAreRepairedOrRefused(cs: seq<Choice>, c: Choice)
    requires Run(ENTRY, cs).node == QueryGuard && Run(ENTRY, cs).drafts != [] && !c.raises
    requires !(forall m | m in Run(ENTRY, cs).drafts :: Clean(m, c.review, c.dryRun))
    ensures Step(Run(ENTRY, cs), c).node
         == if Visits(ENTRY, cs, PrepareSchemaRepair) < 3 && !c.marked then PrepareSchemaRepair else RefuseMethod
    ensures Step(Run(ENTRY, cs), c).errors
         == (if Run(ENTRY, cs).status == MethodGenerated then [] else ["method generation failed"])
            + (Reported(Run(ENTRY, cs).drafts, c.review) + Reported(Run(ENTRY, cs).drafts, FromDryRun(c)))
  {
    AlwaysPaired(cs);
    StatusNamesTheLastStep(cs);
    VisitsCount(cs);
    AfterAFinding(Run(ENTRY, cs), c);
    GuardReports(Run(ENTRY, cs), c);
  }

  lemma RefusalKeepsErrors(s: State, c: Choice, d: Choice)
    requires s.node == RefuseMethod && !c.raises && !d.raises
    ensures var t := Step(Step(s, c), d);
            t.node == End && t.status == MethodRefused && t.errors == s.errors && t.drafts == s.drafts
  {
  }

  lemma GenerationIsNoted(s: State, g: Choice)
    requires s.node == GenerateMethod && !g.raises
    ensures Step(s, g).node == QueryGuard
    ensures Step(s, g).status == MethodGenerated <==> g.generated.Some? && g.generated.value != []
  {
  }

  /**
   A run that is refused ends with exactly the findings of its last round: the failed generation, if
   it failed, then what the reviews and what the dry runs report of the drafts that were checked.
   */
  lemma RefusedRunsNameTheirErrors(cs: seq<Choice>, g: Choice, c: Choice, d: Choice, e: Choice)
    requires Run(ENTRY, cs).node == GenerateMethod && NothingRaises([g, c, d, e])
    requires Run(ENTRY, cs + [g]).drafts != [] && Step(Run(ENTRY, cs + [g]), c).node == RefuseMethod
    ensures var checked := Run(ENTRY, cs + [g]).drafts;
            var t := Step(Step(Step(Run(ENTRY, cs + [g]), c), d), e);
            && t.node == End && t.status == MethodRefused && t.drafts == checked
            && t.errors == (if g.generated.Some? && g.generated.value != [] then [] else ["method generation failed"])
                 + (Reported(checked, c.review) + Reported(checked, FromDryRun(c)))
  {
    assert (cs + [g])[..|cs|] == cs && ![g, c, d, e][0].raises && ![g, c, d, e][1].raises && ![g, c, d, e][2].raises && ![g, c, d, e][3].raises;
    GenerationIsNoted(Run(ENTRY, cs), g);
    AlwaysPaired(cs + [g]);
    StatusNamesTheLastStep(cs + [g]);
    var s := Run(ENTRY, cs + [g]);
    GuardReports(s, c);
    RefusalKeepsErrors(Step(s, c), d, e);
  }

  // ---- what is compiled ----------------------------------------------------------------------------

  /** Every compiled query runs the text and the values of its own method. */
  predicate CompiledFromDrafts(s: State) {
    forall i | 0 <= i < |s.compiled| :: s.compiled[i].sql == s.compiled[i].draft.sql && s.compiled[i].params == s.compiled[i].draft.params
  }

  lemma StepCompiles(s: State, c: Choice)
    requires CompiledFromDrafts(s)
    ensures CompiledFromDrafts(Step(s, c))
  {
  }

  lemma {:induction false} QueriesAreTheirMethods(cs: seq<Choice>)
    ensures CompiledFromDrafts(Run(ENTRY, cs))
  {
    if cs != [] {
      QueriesAreTheirMethods(cs[..|cs| - 1]);
      StepCompiles(Run(ENTRY, cs[..|cs| - 1]), cs[|cs| - 1]);
    }
  }

  /** Execution ends a run exactly if its guard has passed and there is a method to execute; otherwise it raises. */
  lemma ExecutionNeedsAPassedGuard(s: State, c: Choice)
    requires s.node == ExecuteReadonly && !c.raises
    ensures Step(s, c).node == if s.status == GuardPassed && StateMethods(s).Some? then End else Raised
  {
  }

  lemma {:induction false} PassingMember(ms: seq<Method>, execute: Method -> Execution, n: nat, m: Method)
    requires n <= |ms|
    ensures m in Passing(ms, execute, n) <==> execute(m).passed && exists i :: 0 <= i < n && ms[i] == m
  {
    if n > 0 {
      PassingMember(ms, execute, n - 1, m);
    }
  }

  lemma PassingAre(ms: seq<Method>, execute: Method -> Execution, m: Method)
    ensures m in Passing(ms, execute, |ms|) <==> m in ms && execute(m).passed
  {
    PassingMember(ms, execute, |ms|, m);
  }

  /** No step is reported exactly if all methods passed. */
  lemma NoneFails(ms: seq<Method>, execute: Method -> Execution)
    ensures FailingSteps(ms, execute, |ms|) == [] <==> forall i | 0 <= i < |ms| :: execute(ms[i]).passed
  {
    var failing := FailingSteps(ms, execute, |ms|);
    if failing != [] {
      assert failing[0] in failing;
      OnlyFailuresAreReported(ms, execute, |ms|, failing[0]);
    }
    if i :| 0 <= i < |ms| && !execute(ms[i]).passed {
      OnlyFailuresAreReported(ms, execute, |ms|, i + 1);
    }
  }

  /** An execution ends as executed, in the mode all ran in, if and only if every method passed, and shows those that did. */
  lemma ExecutionShows(s: State, ms: seq<Method>, execute: Method -> Execution)
    requires ms != []
    ensures var t := Execute(s, ms, execute);
            && t.node == End && (t.status.Executed? || t.status == MethodExecutionFailed)
            && (t.status.Executed? <==> forall i | 0 <= i < |ms| :: execute(ms[i]).passed)
            && (t.status.Executed? ==> t.drafts == ms && (t.status.mode == "mixed" || forall m | m in ms :: execute(m).mode == t.status.mode))
            && ((exists i :: 0 <= i < |ms| && execute(ms[i]).passed) ==> t.drafts == Passing(ms, execute, |ms|) != [])
  {
    NoneFails(ms, execute);
    StepsAreAccountedFor(ms, execute, |ms|);
    assert ms[..|ms|] == ms;
    if i :| 0 <= i < |ms| && execute(ms[i]).passed {
      PassingAre(ms, execute, ms[i]);
    }
  }

  lemma ExecutionIsRun(s: State, ms: seq<Method>, d: Choice)
    requires s.node == ExecuteReadonly && s.status == GuardPassed && StateMethods(s) == Some(ms) && !d.raises
    ensures Step(s, d) == Execute(s, ms, d.execute)
  {
  }

  /**
   From the guard to the end: what is executed is what the guard has found clean; the run ends as
   executed if and only if every method passed, and shows those that did.
   */
  lemma ExecutionEndsTheRun(cs: seq<Choice>, c: Choice, d: Choice, m: Method)
    requires Step(Run(ENTRY, cs), c).node == ExecuteReadonly && !d.raises
    ensures var methods, t := StateMethods(Run(ENTRY, cs)), Step(Step(Run(ENTRY, cs), c), d);
            && methods.Some? && t.node == End && (t.status.Executed? || t.status == MethodExecutionFailed)
            && (m in methods.value ==> Clean(m, c.review, c.dryRun))
            && (t.status.Executed? <==> forall i | 0 <= i < |methods.value| :: d.execute(methods.value[i]).passed)
            && (t.status.Executed? && m in methods.value ==> t.status.mode == "mixed" || d.execute(m).mode == t.status.mode)
            && (m in methods.value && d.execute(m).passed ==> m in t.drafts)
            && (t.status.Executed? ==> t.drafts == methods.value)
            && ((exists i :: 0 <= i < |methods.value| && d.execute(methods.value[i]).passed) && m in t.drafts ==>
                  m in methods.value && d.execute(m).passed)
  {
    OnlyValidatedMethodsRun(cs, c);
    var s, ms := Step(Run(ENTRY, cs), c), StateMethods(Run(ENTRY, cs)).value;
    ExecutionIsRun(s, ms, d);
    ExecutionShows(s, ms, d.execute);
    PassingAre(ms, d.execute, m);
  }

  // ---- the nodes that only old checkpoints reach -------------------------------------------------

  /** A dependent method is made exactly if the prior result is found; if not, both nodes say so and the old drafts are checked. */
  lemma DependentMethodNeedsPriorResult(s: State, c: Choice, d: Choice)
    requires s.node == LoadPriorResult && !c.raises && !d.raises
    ensures var t := Step(Step(s, c), d);
            && t.repairs == s.repairs
            && if !c.priorFound then
                 && t.node == QueryGuard && t.status == DependentMethodFailed && t.drafts == s.drafts && t.compiled == s.compiled
                 && t.errors == s.errors + ["prior result not found", "prior result not loaded"]
               else if d.generated.Some? && d.generated.value != [] then
                 t.node == QueryGuard && t.status == MethodGenerated && t.drafts == [d.generated.value[0]] && t.errors == s.errors && Paired(t)
               else t.node == Raised
  {
  }

  lemma ErrorsAreReports(ms: seq<Method>, review: Method -> seq<string>, dryRun: Method -> DryRun, found: Method -> seq<string>)
    requires forall m :: found(m) == dryRun(m).errors
    ensures ReviewErrors(ms, review) == Reported(ms, review) && DryRunErrors(ms, dryRun) == Reported(ms, found)
  {
    var qs := CompileAll(ms);
    assert MethodsOf(qs) == ms;
    ReportedIsConcat(qs, review, seq(|ms|, i requires 0 <= i < |ms| => review(ms[i])));
    ReportedIsConcat(qs, found, seq(|ms|, i requires 0 <= i < |ms| => dryRun(ms[i]).errors));
  }

  /** A round of the older loop adds what its reviews report, and if that is nothing, what its checks report. */
  lemma RoundReports(s: State, c: Choice)
    requires s.drafts != []
    ensures var r := ReviewMethod(s, c);
            && r.errors == s.errors + Reported(s.drafts, c.review)
            && (r.status == MethodReviewed <==> Reported(s.drafts, c.review) == [])
            && (r.status == MethodReviewed ==> SyntheticCheck(r, c).errors == s.errors + Reported(s.drafts, FromDryRun(c)))
  {
    ErrorsAreReports(s.drafts, c.review, c.dryRun, FromDryRun(c));
  }

  /** A repair counts whether it succeeds or not; if it does, its methods replace the drafts and the errors are cleared. */
  lemma RepairReplacesDrafts(s: State, c: Choice)
    requires Paired(s)
    ensures var t, repaired := Repair(s, c), c.repaired.Some? && c.repaired.value != [];
            && t.repairs == s.repairs + 1 && Paired(t)
            && t.drafts == (if repaired then c.repaired.value else s.drafts)
            && (t.errors == [] <==> repaired)
            && (t.status == MethodRepaired <==> repaired)
    ensures s.node == RepairMethod && !c.raises ==> Step(s, c) == Repair(s, c).(node := QueryGuard)
  {
    if c.repaired.Some? {
      assert MethodsOf(CompileAll(c.repaired.value)) == c.repaired.value;
    }
  }
}
