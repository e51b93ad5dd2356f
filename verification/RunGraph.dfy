/**
 The query run as a node-level state machine.  A `Choice` supplies what the model,
 the selector, the validators and the database answer at one node; the machine is
 proved for every sequence of choices.
 */
module RunGraph {
  import opened Basics

  const MAX_REPAIRS: nat := 3

  datatype Node =
    | PlanResponse | ValidateAction | RenderDirectResponse | SearchSchema | SelectSchema | LoadMetadata
    | PlanAnalysis | GenerateMethod | QueryGuard | RepairMethod | PrepareSchemaRepair | ExecuteReadonly
    | RefuseMethod | LoadPriorResult | GenerateDependentMethod | Audit
    | End      // the graph has finished
    | Raised   // a node raised and the invocation ended abnormally

  datatype Status =
    | Started | AnalysisPlanned | MethodGenerated | MethodGenerationFailed | GuardPassed | GuardFailed
    | SchemaRepairPrepared | MethodRepaired | MethodRepairFailed | MethodRefused | PriorResultLoaded
    | PriorResultNotFound | DependentMethodFailed | MethodReviewed | MethodReviewFailed | CheckPassed
    | CheckFailed | MethodReviewReady | MethodExecutionFailed | Executed(mode: string)

  datatype Method = Method(name: string, sql: string, params: map<string, string>)

  /** A compiled query carries the method it was compiled from. */
  datatype Query = Query(sql: string, params: map<string, string>, draft: Method)

  datatype State = State(node: Node, status: Status, repairs: nat, errors: seq<string>,
                         draft: Option<Method>, drafts: seq<Method>, compiled: seq<Query>)

  /** A dry run has a verdict and a list of errors; the guard reads the errors. */
  datatype DryRun = DryRun(passed: bool, errors: seq<string>)

  /** Whether the execution of a method passed, and in which mode it ran. */
  datatype Execution = Execution(passed: bool, mode: string)

  datatype Route = MethodFlow | OtherRoute

  datatype Choice = Choice(
    raises: bool,                      // the node raises instead of returning
    route: Route,                      // what action validation decided
    generated: Option<seq<Method>>,    // drafts of the planner, or None for a caught exception
    params: map<string, string>,       // the bound input values
    repaired: Option<seq<Method>>,     // what the SQL repair came up with
    priorFound: bool,
    review: Method -> seq<string>,     // errors of the static review
    dryRun: Method -> DryRun,
    execute: Method -> Execution,
    marked: bool)                      // a binding or infrastructure marker occurs in the recent errors

  const ENTRY := State(PlanResponse, Started, 0, [], None, [], [])

  function CompileMethod(m: Method): Query {
    Query(m.sql, m.params, m)
  }

  function CompileAll(ms: seq<Method>): seq<Query> {
    seq(|ms|, i requires 0 <= i < |ms| => CompileMethod(ms[i]))
  }

  /** `compile_analysis_plan`: every draft gets the bound values. */
  function CompilePlan(drafts: seq<Method>, params: map<string, string>): seq<Query> {
    seq(|drafts|, i requires 0 <= i < |drafts| => CompileMethod(drafts[i].(params := params)))
  }

  function MethodsOf(qs: seq<Query>): seq<Method> {
    seq(|qs|, i requires 0 <= i < |qs| => qs[i].draft)
  }

  /** `_state_methods`; None is the KeyError for a run without any draft. */
  function StateMethods(s: State): (ms: Option<seq<Method>>)
    ensures ms.Some? ==> ms.value != []
  {
    if s.drafts != [] then Some(s.drafts)
    else if s.draft.Some? then Some([s.draft.value])
    else None
  }

  function StateCompiledQueries(s: State): Option<seq<Query>> {
    if s.compiled != [] then Some(s.compiled)
    else match StateMethods(s) case Some(ms) => Some(CompileAll(ms)) case None => None
  }

  function Concat(lists: seq<seq<string>>): seq<string> {
    if lists == [] then [] else lists[0] + Concat(lists[1..])
  }

  /** The errors of `QueryGuard.validate`: all reviews first, then all dry runs. */
  function GuardErrors(qs: seq<Query>, review: Method -> seq<string>, dryRun: Method -> DryRun): seq<string> {
    Concat(seq(|qs|, i requires 0 <= i < |qs| => review(qs[i].draft)))
    + Concat(seq(|qs|, i requires 0 <= i < |qs| => dryRun(qs[i].draft).errors))
  }

  function ShouldResearchSchema(s: State, marked: bool): bool {
    s.repairs < MAX_REPAIRS && !marked
  }

  /** Replace drafts and compiled queries together, as every successful generation does. */
  function WithQueries(s: State, qs: seq<Query>): State
    requires qs != []
  {
    s.(compiled := qs, draft := Some(qs[0].draft), drafts := MethodsOf(qs))
  }

  function Generate(s: State, c: Choice): State {
    if c.generated.Some? && c.generated.value != [] then
      WithQueries(s, CompilePlan(c.generated.value, c.params)).(status := MethodGenerated)
    else s.(status := MethodGenerationFailed, errors := s.errors + ["method generation failed"])
  }

  function Guard(s: State, c: Choice): State {
    match StateCompiledQueries(s)
    case None => s.(node := Raised)
    case Some(qs) =>
      if qs == [] then s.(status := GuardFailed, errors := s.errors + ["no compiled query"])
      else
        var errors := GuardErrors(qs, c.review, c.dryRun);
        s.(status := if errors == [] then GuardPassed else GuardFailed, errors := s.errors + errors)
  }

  function AfterGuard(s: State, c: Choice): Node {
    if s.node == Raised then Raised
    else if s.status == GuardPassed then ExecuteReadonly
    else if ShouldResearchSchema(s, c.marked) then PrepareSchemaRepair
    else RefuseMethod
  }

  function Repair(s: State, c: Choice): State {
    if c.repaired.Some? && c.repaired.value != [] then
      WithQueries(s, CompileAll(c.repaired.value)).(repairs := s.repairs + 1, status := MethodRepaired, errors := [])
    else s.(repairs := s.repairs + 1, status := MethodRepairFailed, errors := s.errors + ["method repair failed"])
  }

  /** The methods among the first `n` whose execution passed, in order. */
  function Passing(ms: seq<Method>, execute: Method -> Execution, n: nat): seq<Method>
    requires n <= |ms|
  {
    if n == 0 then []
    else Passing(ms, execute, n - 1) + if execute(ms[n - 1]).passed then [ms[n - 1]] else []
  }

  /** The step numbers, from 1, of the methods among the first `n` whose execution failed. */
  function FailingSteps(ms: seq<Method>, execute: Method -> Execution, n: nat): seq<nat>
    requires n <= |ms|
  {
    if n == 0 then []
    else FailingSteps(ms, execute, n - 1) + if execute(ms[n - 1]).passed then [] else [n]
  }

  /** The mode that all of them ran in, or "mixed". */
  function ModeOf(ms: seq<Method>, execute: Method -> Execution): string
    requires ms != []
  {
    if forall m | m in ms :: execute(m).mode == execute(ms[0]).mode then execute(ms[0]).mode else "mixed"
  }

  /** One failure decides the status; otherwise it names the mode. */
  function ExecutionStatus(ms: seq<Method>, execute: Method -> Execution): Status
    requires ms != []
  {
    if FailingSteps(ms, execute, |ms|) != [] then MethodExecutionFailed else Executed(ModeOf(ms, execute))
  }

  /** `_execute_methods`: the methods that passed stay, if any did, and every failed step is noted. */
  function Execute(s: State, ms: seq<Method>, execute: Method -> Execution): State
    requires ms != []
  {
    var finals, failures := Passing(ms, execute, |ms|), FailingSteps(ms, execute, |ms|);
    var ended := s.(node := End, status := ExecutionStatus(ms, execute), errors := s.errors + seq(|failures|, i => "step failed"));
    if finals == [] then ended else ended.(draft := Some(finals[0]), drafts := finals)
  }

  predicate Halted(s: State) {
    s.node == End || s.node == Raised
  }

  /** Run the current node and follow the edge it leads to. */
  function Step(s: State, c: Choice): State {
    if Halted(s) then s
    else if c.raises then s.(node := Raised)
    else
      match s.node
      case PlanResponse => s.(node := ValidateAction)
      case ValidateAction => s.(node := if c.route == MethodFlow then SearchSchema else RenderDirectResponse)
      case RenderDirectResponse => s.(node := Audit)
      case SearchSchema => s.(node := SelectSchema)
      case SelectSchema => s.(node := LoadMetadata)
      case LoadMetadata => s.(node := PlanAnalysis)
      case PlanAnalysis => s.(node := GenerateMethod, status := AnalysisPlanned)
      case GenerateMethod => Generate(s, c).(node := QueryGuard)
      case QueryGuard => var guarded := Guard(s, c); guarded.(node := AfterGuard(guarded, c))
      case PrepareSchemaRepair => s.(node := SearchSchema, repairs := s.repairs + 1, errors := [], status := SchemaRepairPrepared)
      case RepairMethod => Repair(s, c).(node := QueryGuard)
      case ExecuteReadonly =>
        if s.status != GuardPassed || StateMethods(s).None? then s.(node := Raised) else Execute(s, StateMethods(s).value, c.execute)
      case RefuseMethod => s.(node := Audit, status := MethodRefused)
      case LoadPriorResult =>
        if c.priorFound then s.(node := GenerateDependentMethod, status := PriorResultLoaded)
        else s.(node := GenerateDependentMethod, status := PriorResultNotFound, errors := s.errors + ["prior result not found"])
      case GenerateDependentMethod =>
        if s.status != PriorResultLoaded then
          s.(node := QueryGuard, status := DependentMethodFailed, errors := s.errors + ["prior result not loaded"])
        else if c.generated.Some? && c.generated.value != [] then
          WithQueries(s, [CompileMethod(c.generated.value[0])]).(node := QueryGuard, status := MethodGenerated)
        else s.(node := Raised)
      case Audit => s.(node := End)
  }

  function Run(s: State, cs: seq<Choice>): State {
    if cs == [] then s else Step(Run(s, cs[..|cs| - 1]), cs[|cs| - 1])
  }

  /** How often `node` is run. */
  function Visits(s: State, cs: seq<Choice>, node: Node): nat {
    if cs == [] then 0
    else Visits(s, cs[..|cs| - 1], node) + if Run(s, cs[..|cs| - 1]).node == node then 1 else 0
  }

  // ---- termination ---------------------------------------------------------------------

  function Rank(n: Node): nat {
    match n
    case PlanResponse => 10
    case ValidateAction => 9
    case SearchSchema => 8
    case SelectSchema => 7
    case LoadMetadata => 6
    case PlanAnalysis | LoadPriorResult => 5
    case GenerateMethod | GenerateDependentMethod | RepairMethod => 4
    case QueryGuard => 3
    case PrepareSchemaRepair | RefuseMethod | RenderDirectResponse => 2
    case ExecuteReadonly | Audit => 1
    case End | Raised => 0
  }

  function RepairsLeft(s: State): nat {
    if s.repairs < MAX_REPAIRS then MAX_REPAIRS - s.repairs else 0
  }

  /** A repair is only ever prepared while one is left. */
  predicate Sane(s: State) {
    s.node == PrepareSchemaRepair ==> s.repairs < MAX_REPAIRS
  }

  /** The steps that are left: seven nodes for each remaining repair, plus the rank of the node. */
  function Fuel(s: State): nat {
    7 * RepairsLeft(s) + Rank(s.node)
  }

  lemma StepKeepsSane(s: State, c: Choice)
    requires Sane(s)
    ensures Sane(Step(s, c))
  {
  }

  /** A step never gives a repair back, and only preparing one takes it. */
  lemma StepTakesRepairs(s: State, c: Choice)
    ensures Step(s, c).repairs == s.repairs + if !Halted(s) && !c.raises && (s.node == PrepareSchemaRepair || s.node == RepairMethod) then 1 else 0
  {
  }

  lemma GuardDescends(s: State, c: Choice)
    requires s.node == QueryGuard
    ensures Rank(Step(s, c).node) < 3
  {
  }

  lemma WorkDescends(s: State, c: Choice)
    requires s.node == GenerateMethod || s.node == RepairMethod || s.node == GenerateDependentMethod
    ensures Rank(Step(s, c).node) < Rank(s.node)
  {
  }

  lemma ExecutionDescends(s: State, c: Choice)
    requires s.node == ExecuteReadonly
    ensures Halted(Step(s, c))
  {
  }

  lemma StepDescends(s: State, c: Choice)
    requires !Halted(s)
    ensures Rank(Step(s, c).node) < Rank(s.node) || (s.node == PrepareSchemaRepair && !c.raises && Step(s, c).node == SearchSchema)
  {
    if s.node == QueryGuard {
      GuardDescends(s, c);
    } else if s.node == GenerateMethod || s.node == RepairMethod || s.node == GenerateDependentMethod {
      WorkDescends(s, c);
    } else if s.node == ExecuteReadonly {
      ExecutionDescends(s, c);
    }
  }

  lemma StepBurnsFuel(s: State, c: Choice)
    requires Sane(s) && !Halted(s)
    ensures Fuel(Step(s, c)) < Fuel(s)
  {
    StepTakesRepairs(s, c);
    StepDescends(s, c);
  }

  lemma {:induction false} EveryStepBurnsFuel(s: State, cs: seq<Choice>)
    requires Sane(s)
    ensures Sane(Run(s, cs)) && (Halted(Run(s, cs)) || Fuel(Run(s, cs)) + |cs| <= Fuel(s))
  {
    if cs != [] {
      var t := Run(s, cs[..|cs| - 1]);
      EveryStepBurnsFuel(s, cs[..|cs| - 1]);
      StepKeepsSane(t, cs[|cs| - 1]);
      if !Halted(t) {
        StepBurnsFuel(t, cs[|cs| - 1]);
      }
    }
  }

  lemma FuelIsLeftUntilHalted(s: State)
    ensures Halted(s) || Fuel(s) > 0
  {
  }

  /** Whatever is answered, the graph halts within `Fuel` steps: 31 from the entry node. */
  lemma GraphHalts(s: State, cs: seq<Choice>)
    requires Sane(s)
    ensures Sane(Run(s, cs))
    ensures Halted(Run(s, cs)) || Fuel(Run(s, cs)) + |cs| <= Fuel(s)
    ensures |cs| >= Fuel(s) ==> Halted(Run(s, cs))
  {
    EveryStepBurnsFuel(s, cs);
    FuelIsLeftUntilHalted(Run(s, cs));
  }

  /** From the entry: at most three repairs are prepared and the guard runs at most four times. */
  lemma {:induction false} VisitsAreBounded(cs: seq<Choice>)
    ensures Fuel(ENTRY) == 31 && Visits(ENTRY, cs, PrepareSchemaRepair) <= MAX_REPAIRS
    ensures Visits(ENTRY, cs, QueryGuard) <= 1 + Visits(ENTRY, cs, PrepareSchemaRepair)
  {
    VisitsCount(cs);
  }

  /** One more guard visit is due: the run is on its way to the guard. */
  function GuardDue(n: Node): nat {
    match n
    case PlanResponse | ValidateAction | SearchSchema | SelectSchema | LoadMetadata => 1
    case PlanAnalysis | GenerateMethod | QueryGuard => 1
    case _ => 0
  }

  /** The nodes of a run that starts at the entry; the others only serve old checkpoints. */
  predicate Current(n: Node) {
    !n.RepairMethod? && !n.LoadPriorResult? && !n.GenerateDependentMethod?
  }

  lemma StepPaysForGuard(s: State, c: Choice)
    requires Sane(s) && Current(s.node)
    ensures var t := Step(s, c);
            var prepared := if s.node == PrepareSchemaRepair then 1 else 0;
            && Sane(t) && Current(t.node)
            && (t.node == Raised || t.repairs == s.repairs + prepared)
            && (if s.node == QueryGuard then 1 else 0) + GuardDue(t.node) <= GuardDue(s.node) + prepared
  {
  }

  lemma {:induction false} VisitsCount(cs: seq<Choice>)
    ensures var s, prepared := Run(ENTRY, cs), Visits(ENTRY, cs, PrepareSchemaRepair);
            && Sane(s) && Current(s.node) && prepared <= MAX_REPAIRS && (s.node == Raised || s.repairs == prepared)
            && Visits(ENTRY, cs, QueryGuard) + GuardDue(s.node) <= 1 + prepared
  {
    if cs != [] {
      var n := |cs| - 1;
      VisitsCount(cs[..n]);
      StepPaysForGuard(Run(ENTRY, cs[..n]), cs[n]);
    }
  }

  /** The answer that is worst for the run: always a draft, and always an error that a new search might cure. */
  function Worst(m: Method): Choice {
    Choice(false, MethodFlow, Some([m]), map[], None, false, _ => ["error"], _ => DryRun(false, []), _ => Execution(false, ""), false)
  }

  /** Where a run of `steps` steps has got to, and what it has visited. */
  ghost predicate Reaches(cs: seq<Choice>, steps: nat, node: Node, repairs: nat, guards: nat) {
    var s := Run(ENTRY, cs);
    && |cs| == steps && s.node == node && s.repairs == repairs && (node == QueryGuard ==> s.compiled != [])
    && Visits(ENTRY, cs, QueryGuard) == guards && Visits(ENTRY, cs, PrepareSchemaRepair) == repairs
  }

  /** The node that the worst answer leads to. */
  function AfterWorst(node: Node, repairs: nat): Node
    requires Current(node) && node != ExecuteReadonly && node != RenderDirectResponse
  {
    match node
    case PlanResponse => ValidateAction
    case ValidateAction | PrepareSchemaRepair => SearchSchema
    case SearchSchema => SelectSchema
    case SelectSchema => LoadMetadata
    case LoadMetadata => PlanAnalysis
    case PlanAnalysis => GenerateMethod
    case GenerateMethod => QueryGuard
    case QueryGuard => if repairs < MAX_REPAIRS then PrepareSchemaRepair else RefuseMethod
    case RefuseMethod => Audit
    case _ => node
  }

  lemma WorstStep(cs: seq<Choice>, m: Method, steps: nat, node: Node, repairs: nat, guards: nat) returns (next: seq<Choice>)
    requires Reaches(cs, steps, node, repairs, guards) && !Halted(Run(ENTRY, cs))
    requires Current(node) && node != ExecuteReadonly && node != RenderDirectResponse && node != Audit
    ensures next == cs + [Worst(m)]
    ensures Reaches(next, steps + 1, AfterWorst(node, repairs),
                    if node == PrepareSchemaRepair then repairs + 1 else repairs, if node == QueryGuard then guards + 1 else guards)
  {
    next := cs + [Worst(m)];
    assert next[..|cs|] == cs;
    if node == QueryGuard {
      WorstGuard(Run(ENTRY, cs), m);
    }
  }

  lemma WorstGuard(s: State, m: Method)
    requires s.node == QueryGuard && s.compiled != []
    ensures Step(s, Worst(m)).node == (if s.repairs < MAX_REPAIRS then PrepareSchemaRepair else RefuseMethod)
    ensures Step(s, Worst(m)).repairs == s.repairs
  {
    var w := Worst(m);
    GuardAcceptsExactlyClean(s.compiled, w.review, w.dryRun);
    assert !Clean(s.compiled[0].draft, w.review, w.dryRun);
  }

  lemma WorstSearch(cs: seq<Choice>, m: Method, steps: nat, repairs: nat, guards: nat) returns (next: seq<Choice>)
    requires Reaches(cs, steps, SearchSchema, repairs, guards)
    ensures Reaches(next, steps + 3, PlanAnalysis, repairs, guards)
  {
    next := WorstStep(cs, m, steps, SearchSchema, repairs, guards);
    next := WorstStep(next, m, steps + 1, SelectSchema, repairs, guards);
    next := WorstStep(next, m, steps + 2, LoadMetadata, repairs, guards);
  }

  /** From the search through the guard, six nodes. */
  lemma WorstRound(cs: seq<Choice>, m: Method, steps: nat, repairs: nat, guards: nat) returns (next: seq<Choice>)
    requires Reaches(cs, steps, SearchSchema, repairs, guards)
    ensures Reaches(next, steps + 6, AfterWorst(QueryGuard, repairs), repairs, guards + 1)
  {
    next := WorstSearch(cs, m, steps, repairs, guards);
    next := WorstStep(next, m, steps + 3, PlanAnalysis, repairs, guards);
    next := WorstStep(next, m, steps + 4, GenerateMethod, repairs, guards);
    next := WorstStep(next, m, steps + 5, QueryGuard, repairs, guards);
  }

  lemma WorstStart(m: Method) returns (cs: seq<Choice>)
    ensures Reaches(cs, 2, SearchSchema, 0, 0)
  {
    cs := WorstStep([], m, 0, PlanResponse, 0, 0);
    cs := WorstStep(cs, m, 1, ValidateAction, 0, 0);
  }

  /** A round that ends in a repair, seven nodes. */
  lemma WorstRepair(cs: seq<Choice>, m: Method, steps: nat, repairs: nat) returns (next: seq<Choice>)
    requires Reaches(cs, steps, SearchSchema, repairs, repairs) && repairs < MAX_REPAIRS
    ensures Reaches(next, steps + 7, SearchSchema, repairs + 1, repairs + 1)
  {
    next := WorstRound(cs, m, steps, repairs, repairs);
    next := WorstStep(next, m, steps + 6, PrepareSchemaRepair, repairs, repairs + 1);
  }

  /** The worst run up to the search that follows `n` repairs. */
  lemma {:induction false} WorstRounds(n: nat, m: Method) returns (cs: seq<Choice>)
    requires n <= MAX_REPAIRS
    ensures Reaches(cs, 2 + 7 * n, SearchSchema, n, n)
  {
    if n == 0 {
      cs := WorstStart(m);
    } else {
      cs := WorstRounds(n - 1, m);
      cs := WorstRepair(cs, m, 7 * n - 5, n - 1);
    }
  }

  /** The worst run up to its audit. */
  lemma WorstRefusal(m: Method) returns (cs: seq<Choice>)
    ensures Reaches(cs, 30, Audit, MAX_REPAIRS, MAX_REPAIRS + 1)
  {
    cs := WorstRounds(MAX_REPAIRS, m);
    cs := WorstRound(cs, m, 23, MAX_REPAIRS, MAX_REPAIRS);
    cs := WorstStep(cs, m, 29, RefuseMethod, MAX_REPAIRS, MAX_REPAIRS + 1);
  }

  /** The bounds are sharp: some run takes 30 steps without having halted, with three repairs and four guard visits. */
  lemma BoundsAreReached(m: Method) returns (cs: seq<Choice>)
    ensures |cs| == Fuel(ENTRY) - 1 && !Halted(Run(ENTRY, cs))
    ensures Visits(ENTRY, cs, PrepareSchemaRepair) == MAX_REPAIRS && Visits(ENTRY, cs, QueryGuard) == MAX_REPAIRS + 1
  {
    cs := WorstRefusal(m);
  }

  // ---- the step limit of the graph library ---------------------------------------------------

  /** An invocation that may run at most `limit` nodes; if the graph has not finished by then, it is cut off. */
  function Invoke(cs: seq<Choice>, limit: nat): State {
    var s := Run(ENTRY, if limit < |cs| then cs[..limit] else cs);
    if limit <= |cs| && !Halted(s) then s.(node := Raised) else s
  }

  /** How many nodes of a round lie before `n`; what follows the guard comes one step after a full round. */
  function Distance(n: Node): (d: nat)
    ensures d > 0 <==> n != PlanResponse
  {
    match n
    case PlanResponse => 0
    case ValidateAction => 1
    case SearchSchema => 2
    case SelectSchema => 3
    case LoadMetadata => 4
    case PlanAnalysis => 5
    case GenerateMethod => 6
    case QueryGuard => 7
    case _ => 1
  }

  lemma StepGoesOn(s: State, c: Choice)
    requires Current(s.node)
    ensures Current(Step(s, c).node) && Step(s, c).node != PlanResponse
    ensures Distance(Step(s, c).node) + (if s.node == QueryGuard then 7 else 0) <= Distance(s.node) + 1
  {
  }

  lemma {:induction false} StepsOfRounds(cs: seq<Choice>)
    ensures Current(Run(ENTRY, cs).node) && (cs != [] ==> Run(ENTRY, cs).node != PlanResponse)
    ensures |cs| >= Distance(Run(ENTRY, cs).node) + 7 * Visits(ENTRY, cs, QueryGuard)
  {
    if cs != [] {
      StepsOfRounds(cs[..|cs| - 1]);
      StepGoesOn(Run(ENTRY, cs[..|cs| - 1]), cs[|cs| - 1]);
    }
  }

  /** A round takes seven steps: the guard is visited for the n-th time in step 1 + 7 n at the earliest. */
  lemma GuardNeedsSteps(cs: seq<Choice>)
    ensures Visits(ENTRY, cs, QueryGuard) > 0 ==> |cs| >= 1 + 7 * Visits(ENTRY, cs, QueryGuard)
  {
    StepsOfRounds(cs);
  }

  /** A prefix of a run that has not halted has not halted either. */
  lemma {:induction false} HaltedStays(s: State, cs: seq<Choice>, n: nat)
    requires n <= |cs| && Halted(Run(s, cs[..n]))
    ensures Run(s, cs) == Run(s, cs[..n])
    decreases |cs|
  {
    if n < |cs| {
      assert cs[..|cs| - 1][..n] == cs[..n];
      HaltedStays(s, cs[..|cs| - 1], n);
    } else {
      assert cs[..n] == cs;
    }
  }

  /** Under a limit the guard is visited at most once for every seven steps after the first: three times for 25 steps. */
  lemma GuardVisitsUnderLimit(cs: seq<Choice>, limit: nat)
    requires |cs| <= limit
    ensures Visits(ENTRY, cs, QueryGuard) <= if limit == 0 then 0 else (limit - 1) / 7
    ensures limit == 25 ==> Visits(ENTRY, cs, QueryGuard) <= 3
  {
    GuardNeedsSteps(cs);
  }

  /** The fourth guard visit, after the third repair, is within reach exactly from a limit of 29 steps on. */
  lemma FourthGuardVisitNeeds29Steps(limit: nat, m: Method)
    ensures (exists cs :: |cs| <= limit && Visits(ENTRY, cs, QueryGuard) == MAX_REPAIRS + 1) <==> limit >= 29
  {
    if cs :| |cs| <= limit && Visits(ENTRY, cs, QueryGuard) == MAX_REPAIRS + 1 {
      GuardNeedsSteps(cs);
    }
    if limit >= 29 {
      var cs := WorstRounds(MAX_REPAIRS, m);
      cs := WorstRound(cs, m, 23, MAX_REPAIRS, MAX_REPAIRS);
      assert |cs| <= limit && Visits(ENTRY, cs, QueryGuard) == MAX_REPAIRS + 1;
    }
  }

  /** The limit cuts some run off exactly if it is below 31 steps. */
  lemma LimitMattersBelow31(limit: nat, m: Method)
    ensures (exists cs :: Invoke(cs, limit) != Run(ENTRY, cs)) <==> limit < Fuel(ENTRY)
  {
    if limit < Fuel(ENTRY) {
      var cs := BoundsAreReached(m);
      if Halted(Run(ENTRY, cs[..limit])) {
        HaltedStays(ENTRY, cs, limit);
      }
      assert Invoke(cs[..limit], limit).node == Raised;
      assert Invoke(cs[..limit], limit) != Run(ENTRY, cs[..limit]);
    } else {
      forall cs ensures Invoke(cs, limit) == Run(ENTRY, cs) {
        if limit <= |cs| {
          GraphHalts(ENTRY, cs[..limit]);
          HaltedStays(ENTRY, cs, limit);
          assert limit == |cs| ==> cs[..limit] == cs;
        }
      }
    }
  }

  // ---- what runs is what was validated ----------------------------------------------------

  /** Until a run has ended, the drafts are exactly the methods of the compiled queries. */
  predicate Paired(s: State) {
    s.node != End ==>
      && MethodsOf(s.compiled) == s.drafts
      && s.draft == if s.drafts == [] then None else Some(s.drafts[0])
  }

  lemma StepKeepsPaired(s: State, c: Choice)
    requires Paired(s)
    ensures Paired(Step(s, c))
  {
    if s.node == RepairMethod && c.repaired.Some? && c.repaired.value != [] {
      assert |CompileAll(c.repaired.value)| > 0;
    }
  }

  lemma {:induction false} AlwaysPaired(cs: seq<Choice>)
    ensures Paired(Run(ENTRY, cs))
  {
    if cs != [] {
      AlwaysPaired(cs[..|cs| - 1]);
      StepKeepsPaired(Run(ENTRY, cs[..|cs| - 1]), cs[|cs| - 1]);
    }
  }

  /** The drafts of the last generation that succeeded, with the values bound to them. */
  function LastGeneration(cs: seq<Choice>): seq<Method> {
    if cs == [] then []
    else
      var c := cs[|cs| - 1];
      if Run(ENTRY, cs[..|cs| - 1]).node == GenerateMethod && !c.raises && c.generated.Some? && c.generated.value != [] then
        seq(|c.generated.value|, i requires 0 <= i < |c.generated.value| =>
          Method(c.generated.value[i].name, c.generated.value[i].sql, c.params))
      else LastGeneration(cs[..|cs| - 1])
  }

  lemma OthersKeepDrafts(s: State, c: Choice)
    requires Current(s.node) && !(s.node == GenerateMethod && !c.raises && c.generated.Some? && c.generated.value != [])
    ensures s.node != ExecuteReadonly || Step(s, c).node != End ==> Step(s, c).drafts == s.drafts
  {
  }

  lemma GenerationSetsDrafts(s: State, c: Choice)
    requires s.node == GenerateMethod && !c.raises && c.generated.Some? && c.generated.value != []
    ensures Step(s, c).drafts == seq(|c.generated.value|, i requires 0 <= i < |c.generated.value| =>
              Method(c.generated.value[i].name, c.generated.value[i].sql, c.params))
  {
  }

  /** On every path, until they are executed, the drafts are those of the last successful generation, each with all its bound values. */
  lemma {:induction false} DraftsAreTheLastGeneration(cs: seq<Choice>)
    ensures Run(ENTRY, cs).node != End || Visits(ENTRY, cs, ExecuteReadonly) == 0 ==> Run(ENTRY, cs).drafts == LastGeneration(cs)
  {
    if cs != [] {
      var s, c := Run(ENTRY, cs[..|cs| - 1]), cs[|cs| - 1];
      if s.node == GenerateMethod && !c.raises && c.generated.Some? && c.generated.value != [] {
        GenerationSetsDrafts(s, c);
      } else {
        DraftsAreTheLastGeneration(cs[..|cs| - 1]);
        VisitsCount(cs[..|cs| - 1]);
        OthersKeepDrafts(s, c);
      }
    }
  }

  lemma {:induction false} ConcatIsEmpty(lists: seq<seq<string>>)
    ensures Concat(lists) == [] <==> forall i | 0 <= i < |lists| :: lists[i] == []
  {
    if lists != [] {
      ConcatIsEmpty(lists[1..]);
      assert forall i | 0 < i < |lists| :: lists[i] == lists[1..][i - 1];
    }
  }

  predicate Clean(m: Method, review: Method -> seq<string>, dryRun: Method -> DryRun) {
    review(m) == [] && dryRun(m).errors == []
  }

  /** The guard reports no error exactly when every method is clean in review and dry run. */
  lemma GuardAcceptsExactlyClean(qs: seq<Query>, review: Method -> seq<string>, dryRun: Method -> DryRun)
    ensures GuardErrors(qs, review, dryRun) == [] <==> forall i | 0 <= i < |qs| :: Clean(qs[i].draft, review, dryRun)
  {
    var reviews := seq(|qs|, i requires 0 <= i < |qs| => review(qs[i].draft));
    var runs := seq(|qs|, i requires 0 <= i < |qs| => dryRun(qs[i].draft).errors);
    ConcatIsEmpty(reviews);
    ConcatIsEmpty(runs);
    if GuardErrors(qs, review, dryRun) == [] {
      assert |Concat(reviews)| == 0 && |Concat(runs)| == 0;
      forall i | 0 <= i < |qs| ensures Clean(qs[i].draft, review, dryRun) {
        assert reviews[i] == [] && runs[i] == [];
      }
    }
  }

  lemma GuardDecides(s: State, c: Choice)
    requires Paired(s)
    ensures var t := Step(s, c);
            t.node == ExecuteReadonly <==>
              && s.node == QueryGuard && !c.raises && StateMethods(s).Some?
              && (forall m | m in StateMethods(s).value :: Clean(m, c.review, c.dryRun))
    ensures Step(s, c).node == ExecuteReadonly ==>
              StateMethods(Step(s, c)) == StateMethods(s) && Step(s, c).status == GuardPassed && Step(s, c).drafts != []
  {
    if s.node == QueryGuard && s.drafts != [] {
      GuardAcceptsExactlyClean(s.compiled, c.review, c.dryRun);
      assert |s.compiled| == |s.drafts| && forall i | 0 <= i < |s.compiled| :: s.compiled[i].draft == s.drafts[i];
    }
  }

  /**
   Execution is entered from the guard alone, and exactly when every method that
   will be executed passed the review and the dry run of that very guard visit.
   */
  lemma OnlyValidatedMethodsRun(cs: seq<Choice>, c: Choice)
    ensures var s, t := Run(ENTRY, cs), Step(Run(ENTRY, cs), c);
            t.node == ExecuteReadonly <==>
              && s.node == QueryGuard && !c.raises && StateMethods(s).Some?
              && (forall m | m in StateMethods(s).value :: Clean(m, c.review, c.dryRun))
    ensures var s, t := Run(ENTRY, cs), Step(Run(ENTRY, cs), c);
            t.node == ExecuteReadonly ==> StateMethods(t) == StateMethods(s) && t.status == GuardPassed && t.drafts != []
  {
    AlwaysPaired(cs);
    GuardDecides(Run(ENTRY, cs), c);
  }

  /** A regeneration that fails leaves the earlier drafts in place, and the guard checks those again. */
  lemma StaleDraftsAreRevalidated(cs: seq<Choice>, failed: Choice, c: Choice)
    requires Run(ENTRY, cs).node == GenerateMethod && !failed.raises && failed.generated == None && !c.raises
    ensures var s := Run(ENTRY, cs);
            var t := Step(Step(s, failed), c);
            && StateMethods(Step(s, failed)) == StateMethods(s)
            && (StateMethods(s) == None <==> t.node == Raised)
            && (t.node == ExecuteReadonly <==> StateMethods(s).Some? && forall m | m in StateMethods(s).value :: Clean(m, c.review, c.dryRun))
  {
    OnlyValidatedMethodsRun(cs + [failed], c);
    assert (cs + [failed])[..|cs|] == cs;
    AlwaysPaired(cs);
  }

  // ---- the older confirmation path, a loop ----------------------------------------------

  function ReviewErrors(ms: seq<Method>, review: Method -> seq<string>): seq<string> {
    Concat(seq(|ms|, i requires 0 <= i < |ms| => review(ms[i])))
  }

  function DryRunErrors(ms: seq<Method>, dryRun: Method -> DryRun): seq<string> {
    Concat(seq(|ms|, i requires 0 <= i < |ms| => dryRun(ms[i]).errors))
  }

  /** `review_method` without the part that stores the reviews. */
  function ReviewMethod(s: State, c: Choice): State {
    match StateMethods(s)
    case None => s.(status := MethodReviewFailed, errors := s.errors + ["no method_draft"])
    case Some(ms) =>
      var errors := ReviewErrors(ms, c.review);
      if errors != [] then s.(status := MethodReviewFailed, errors := s.errors + errors) else s.(status := MethodReviewed)
  }

  function SyntheticCheck(s: State, c: Choice): State
    requires StateMethods(s).Some?
  {
    var ms := StateMethods(s).value;
    s.(status := if forall m | m in ms :: c.dryRun(m).passed then CheckPassed else CheckFailed,
       errors := s.errors + DryRunErrors(ms, c.dryRun))
  }

  lemma NoReviewErrors(ms: seq<Method>, review: Method -> seq<string>)
    ensures ReviewErrors(ms, review) == [] <==> forall m | m in ms :: review(m) == []
  {
    var reviews := seq(|ms|, i requires 0 <= i < |ms| => review(ms[i]));
    ConcatIsEmpty(reviews);
    assert forall i | 0 <= i < |ms| :: reviews[i] == review(ms[i]);
  }

  lemma ReviewedIsClean(s: State, c: Choice)
    ensures ReviewMethod(s, c).status == MethodReviewed
            <==> StateMethods(s).Some? && forall m | m in StateMethods(s).value :: c.review(m) == []
  {
    if StateMethods(s).Some? {
      NoReviewErrors(StateMethods(s).value, c.review);
    }
  }

  /** One round passes exactly when every method is clean in review and passes its check; it repairs nothing itself. */
  lemma RoundIsDecided(s: State, c: Choice)
    ensures var r := ReviewMethod(s, c);
            && r.repairs == s.repairs && StateMethods(r) == StateMethods(s)
            && (r.status == MethodReviewed ==> StateMethods(r).Some?)
            && (r.status == MethodReviewed ==> SyntheticCheck(r, c).repairs == s.repairs && StateMethods(SyntheticCheck(r, c)) == StateMethods(s))
            && ((r.status == MethodReviewed && SyntheticCheck(r, c).status == CheckPassed)
                <==> StateMethods(s).Some? && forall m | m in StateMethods(s).value :: c.review(m) == [] && c.dryRun(m).passed)
  {
    ReviewedIsClean(s, c);
  }

  /** The methods of the loop after `n` repairs: of the last repair that came up with any, else of the generation, else those of before. */
  function LoopMethods(start: State, first: Choice, answers: nat -> Choice, n: nat): Option<seq<Method>> {
    if n > 0 then
      var repaired := answers(n - 1).repaired;
      if repaired.Some? && repaired.value != [] then repaired else LoopMethods(start, first, answers, n - 1)
    else if first.generated.Some? && first.generated.value != [] then
      Some(seq(|first.generated.value|, i requires 0 <= i < |first.generated.value| =>
        Method(first.generated.value[i].name, first.generated.value[i].sql, first.params)))
    else StateMethods(start)
  }

  /** There are methods, and one round finds nothing against any of them. */
  predicate Faultless(methods: Option<seq<Method>>, c: Choice) {
    methods.Some? && forall m | m in methods.value :: c.review(m) == [] && c.dryRun(m).passed
  }

  lemma RepairedMethods(s: State, c: Choice)
    ensures StateMethods(Repair(s, c)) == if c.repaired.Some? && c.repaired.value != [] then c.repaired else StateMethods(s)
  {
    if c.repaired.Some? && c.repaired.value != [] {
      assert MethodsOf(CompileAll(c.repaired.value)) == c.repaired.value;
    }
  }

  /** `s` is what the loop works on after `n` repairs, none of whose rounds was faultless. */
  predicate InLoop(start: State, first: Choice, answers: nat -> Choice, s: State, n: nat) {
    && n <= RepairsLeft(start) && s.repairs == start.repairs + n
    && StateMethods(s) == LoopMethods(start, first, answers, n)
    && forall k | 0 <= k < n :: !Faultless(LoopMethods(start, first, answers, k), answers(k))
  }

  lemma LoopStarts(start: State, first: Choice, answers: nat -> Choice)
    ensures InLoop(start, first, answers, Generate(start, first), 0)
  {
    if first.generated.Some? && first.generated.value != [] {
      assert Generate(start, first).drafts == LoopMethods(start, first, answers, 0).value;
    }
  }

  lemma LoopGoesOn(start: State, first: Choice, answers: nat -> Choice, s: State, n: nat)
    requires InLoop(start, first, answers, s, n) && s.repairs < MAX_REPAIRS
    requires !Faultless(StateMethods(s), answers(n))
    ensures InLoop(start, first, answers, Repair(s, answers(n)), n + 1)
  {
    RepairedMethods(s, answers(n));
  }

  lemma StatusKeepsLoop(start: State, first: Choice, answers: nat -> Choice, s: State, n: nat, status: Status)
    requires InLoop(start, first, answers, s, n)
    ensures InLoop(start, first, answers, s.(status := status), n)
  {
  }

  /** One round of review and check leaves the methods alone and passes exactly if they are faultless. */
  lemma LoopRound(start: State, first: Choice, answers: nat -> Choice, s: State, n: nat)
    requires InLoop(start, first, answers, s, n)
    ensures var r := ReviewMethod(s, answers(n));
            && InLoop(start, first, answers, r, n)
            && (r.status == MethodReviewed ==> StateMethods(r).Some? && InLoop(start, first, answers, SyntheticCheck(r, answers(n)), n))
            && (r.status == MethodReviewed && SyntheticCheck(r, answers(n)).status == CheckPassed <==> Faultless(StateMethods(s), answers(n)))
  {
    RoundIsDecided(s, answers(n));
  }

  /**
   Review, check, repair, again.  `answers(k)` is what happens in round `k`.  The
   loop ends because a repair counts whether it succeeds or not; it shows the first
   method set in which a round finds nothing, and refuses the last one otherwise.
   */
  method PrepareMethodAfterAnalysisPlan(start: State, first: Choice, answers: nat -> Choice) returns (s: State, rounds: nat)
    ensures s.status == MethodRefused || s.status == MethodReviewReady
    ensures rounds <= RepairsLeft(start) && s.repairs == start.repairs + rounds
    ensures StateMethods(s) == LoopMethods(start, first, answers, rounds)
    ensures s.status == MethodReviewReady <==> Faultless(LoopMethods(start, first, answers, rounds), answers(rounds))
    ensures forall k | 0 <= k < rounds :: !Faultless(LoopMethods(start, first, answers, k), answers(k))
    ensures s.status == MethodRefused ==> s.repairs >= MAX_REPAIRS
  {
    s := Generate(start, first);
    rounds := 0;
    LoopStarts(start, first, answers);
    while true
      invariant InLoop(start, first, answers, s, rounds)
      decreases RepairsLeft(s)
    {
      LoopRound(start, first, answers, s, rounds);
      s := ReviewMethod(s, answers(rounds));
      if s.status == MethodReviewed {
        s := SyntheticCheck(s, answers(rounds));
        if s.status == CheckPassed {
          StatusKeepsLoop(start, first, answers, s, rounds, MethodReviewReady);
          s := s.(status := MethodReviewReady);
          return;
        }
        if s.repairs < MAX_REPAIRS {
          LoopGoesOn(start, first, answers, s, rounds);
          s := Repair(s, answers(rounds));
          rounds := rounds + 1;
          continue;
        }
        StatusKeepsLoop(start, first, answers, s, rounds, MethodRefused);
        s := s.(status := MethodRefused);
        return;
      }
      if s.repairs < MAX_REPAIRS {
        LoopGoesOn(start, first, answers, s, rounds);
        s := Repair(s, answers(rounds));
        rounds := rounds + 1;
        continue;
      }
      StatusKeepsLoop(start, first, answers, s, rounds, MethodRefused);
      s := s.(status := MethodRefused);
      return;
    }
  }

  // ---- execution ---------------------------------------------------------------------------

  /** Exactly the failed steps are reported as such. */
  lemma {:induction false} OnlyFailuresAreReported(ms: seq<Method>, execute: Method -> Execution, n: nat, k: nat)
    requires n <= |ms|
    ensures k in FailingSteps(ms, execute, n) <==> 1 <= k <= n && !execute(ms[k - 1]).passed
  {
    if n > 0 {
      OnlyFailuresAreReported(ms, execute, n - 1, k);
    }
  }

  /** Every step is either passed or failed. */
  lemma {:induction false} StepsAreAccountedFor(ms: seq<Method>, execute: Method -> Execution, n: nat)
    requires n <= |ms|
    ensures |Passing(ms, execute, n)| + |FailingSteps(ms, execute, n)| == n
    ensures FailingSteps(ms, execute, n) == [] ==> Passing(ms, execute, n) == ms[..n]
  {
    if n > 0 {
      StepsAreAccountedFor(ms, execute, n - 1);
    }
  }

  /** Every method is tried, in order; a failure does not stop the rest but decides the status. */
  method ExecuteMethods(ms: seq<Method>, execute: Method -> Execution) returns (finals: seq<Method>, failures: seq<nat>, status: Status)
    requires ms != []
    ensures finals == Passing(ms, execute, |ms|) && failures == FailingSteps(ms, execute, |ms|)
    ensures status == ExecutionStatus(ms, execute)
    ensures status == MethodExecutionFailed <==> failures != []
    ensures status.Executed? ==>
              finals == ms && (status.mode != "mixed" ==> forall m | m in ms :: execute(m).mode == status.mode)
  {
    finals, failures := [], [];
    for index := 0 to |ms|
      invariant finals == Passing(ms, execute, index) && failures == FailingSteps(ms, execute, index)
    {
      if !execute(ms[index]).passed {
        failures := failures + [index + 1];
        continue;
      }
      finals := finals + [ms[index]];
    }
    StepsAreAccountedFor(ms, execute, |ms|);
    if finals == [] || failures != [] {
      return finals, failures, MethodExecutionFailed;
    }
    assert ms[..|ms|] == ms;
    var mode := CommonMode(ms, execute);
    status := Executed(mode);
  }

  /** The mode that all methods ran in, or "mixed". */
  method CommonMode(ms: seq<Method>, execute: Method -> Execution) returns (mode: string)
    requires ms != []
    ensures mode == ModeOf(ms, execute)
    ensures (forall m | m in ms :: execute(m).mode == execute(ms[0]).mode) ==> mode == execute(ms[0]).mode
    ensures mode != "mixed" ==> forall m | m in ms :: execute(m).mode == mode
  {
    var modes := set m | m in ms :: execute(m).mode;
    if modes == {execute(ms[0]).mode} {
      mode := execute(ms[0]).mode;
      forall m | m in ms ensures execute(m).mode == mode {
        assert execute(m).mode in modes;
      }
    } else {
      mode := "mixed";
    }
  }
}
