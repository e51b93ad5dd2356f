/**
 The whole chain from filters to an accepted query: no filter the user gave is
 silently dropped, and nothing but those filters enters the SQL.  Slots are made in
 two places, when an analysis is planned and when a method is revised; the second
 forgets the specifications of the query that the run builds on.
 */
module BindingChain {
  import opened Basics
  import opened OrderedDict
  import opened SlotIds
  import opened Placeholders
  import opened FilterBinding

  /** What the run state holds for method generation. */
  datatype Planned = Planned(baseParams: Dict<Value>, specs: seq<RawSpec>,
                             params: Dict<Value>, currentSpecs: seq<RawSpec>, slots: seq<FilterBinding.Slot>)
  {
    /** `{**base_params, **proposal_params}` */
    function Merged(): Dict<Value> {
      PutAll(baseParams, params)
    }
  }

  /** `plan_analysis` on normalised filters: it stores the merged specifications as the base. */
  function Plan(baseParams: Dict<Value>, baseSpecs: seq<RawSpec>, params: Dict<Value>, specs: seq<RawSpec>): Planned {
    var merged := Merge(baseSpecs, specs);
    Planned(baseParams, merged, params, specs, Slots(PutAll(baseParams, params), merged))
  }

  /** `revise_method_review`: more parameters, and slots made from the proposal's own specifications. */
  function Revise(p: Planned, added: Dict<Value>): Planned {
    var params := PutAll(p.params, added);
    p.(params := params, slots := Slots(PutAll(p.baseParams, params), p.currentSpecs))
  }

  /** The slots of the state were made for its parameters, from the specifications `used`. */
  predicate Uses(p: Planned, used: seq<RawSpec>) {
    p.slots == Slots(p.Merged(), used)
  }

  /** What the specifications `used` say of a parameter: the last usable one of its name, if there is any. */
  function SpecFor(used: seq<RawSpec>, filter: Entry<Value>): Spec {
    match LastUsable(used, filter.key) case Some(spec) => spec case None => Spec("", "")
  }

  /** `_bound_input_params`: merges once more, and makes slots again if none are stored. */
  function BoundParams(p: Planned, resolve: Resolver): Option<Dict<Bound>> {
    var specs := Merge(p.specs, p.currentSpecs);
    var slots := if p.slots != [] then p.slots else Slots(p.Merged(), specs);
    Bind(p.Merged(), resolve, slots)
  }

  function SlotIdSet(slots: seq<FilterBinding.Slot>): set<string> {
    IdsUpTo(slots, |slots|)
  }

  /** The slots of a plan are those that merging once more would give. */
  lemma PlanUsesMergedSpecs(baseParams: Dict<Value>, baseSpecs: seq<RawSpec>, params: Dict<Value>, specs: seq<RawSpec>)
    ensures Uses(Plan(baseParams, baseSpecs, params, specs), Merge(Merge(baseSpecs, specs), specs))
  {
    MergeAbsorbs(baseSpecs, specs);
  }

  /** Whether there are any slots at all does not depend on the specifications. */
  lemma {:induction false} NoSlotsWhateverSpecs(params: Dict<Value>, a: Dict<Spec>, b: Dict<Spec>)
    ensures Arity(params, a) == 0 <==> Arity(params, b) == 0
  {
    if params != [] {
      NoSlotsWhateverSpecs(params[1..], a, b);
    }
  }

  /** Generation binds exactly the slots that the SQL planner was shown. */
  lemma GenerationBindsShownSlots(p: Planned, used: seq<RawSpec>, resolve: Resolver)
    requires Uses(p, used)
    ensures BoundParams(p, resolve) == Bind(p.Merged(), resolve, p.slots)
  {
    var sorted, again := Sorted(p.Merged()), PutAll([], Named(Merge(p.specs, p.currentSpecs)));
    SlotCount(sorted, PutAll([], Named(used)), 1);
    SlotCount(sorted, again, 1);
    NoSlotsWhateverSpecs(sorted, PutAll([], Named(used)), again);
  }

  /** The slots have distinct ids and belong to parameters of the run. */
  lemma SlotsAreSound(p: Planned, used: seq<RawSpec>)
    requires Uses(p, used)
    ensures DistinctIds(p.slots) && AllSourced(p.Merged(), p.slots)
  {
    var sorted, byName := Sorted(p.Merged()), PutAll([], Named(used));
    forall i, j | 0 <= i < j < |p.slots| ensures p.slots[i].id != p.slots[j].id {
      SlotIdsDistinct(sorted, byName, 1, i, j);
    }
    forall i | 0 <= i < |p.slots| ensures p.slots[i].source in Keys(p.Merged()) {
      var k, m := SlotShape(sorted, byName, 1, i);
      SortedHasAll(p.Merged(), sorted[m]);
    }
  }

  /** Binding yields one name per slot: none is lost, none collides, none is added. */
  lemma BoundNamesAreTheSlots(p: Planned, used: seq<RawSpec>, resolve: Resolver)
    requires Uses(p, used)
    ensures BoundParams(p, resolve).Some? ==> Keys(BoundParams(p, resolve).value) == SlotIdSet(p.slots)
    ensures |SlotIdSet(p.slots)| == |p.slots| == Arity(Sorted(p.Merged()), PutAll([], Named(used)))
  {
    GenerationBindsShownSlots(p, used, resolve);
    SlotsAreSound(p, used);
    if BoundParams(p, resolve).Some? {
      OnlySlotsAreBound(p.Merged(), resolve, p.slots);
    }
    DistinctIdsCount(p.slots, |p.slots|);
    SlotCount(Sorted(p.Merged()), PutAll([], Named(used)), 1);
  }

  lemma {:induction false} DistinctIdsCount(slots: seq<FilterBinding.Slot>, n: nat)
    requires DistinctIds(slots) && n <= |slots|
    ensures |IdsUpTo(slots, n)| == n
  {
    if n > 0 {
      DistinctIdsCount(slots, n - 1);
      IdsUpToAreIds(slots, n - 1, slots[n - 1].id);
    }
  }

  /** The values bind without an exception, and the SQL passes the binding check on them. */
  predicate Passes(p: Planned, resolve: Resolver, sql: string) {
    BoundParams(p, resolve).Some? && Accepted(CheckBindings(sql, Keys(BoundParams(p, resolve).value)))
  }

  /** A SQL text passes the binding check exactly when its placeholders are the slot ids. */
  lemma AcceptedMeansAllSlots(p: Planned, used: seq<RawSpec>, resolve: Resolver, sql: string)
    requires Uses(p, used) && BoundParams(p, resolve).Some?
    ensures Passes(p, resolve, sql) <==> PlaceholdersOf(sql) == SlotIdSet(p.slots)
  {
    BoundNamesAreTheSlots(p, used, resolve);
    AcceptedIffEqual(sql, Keys(BoundParams(p, resolve).value));
  }

  // ---- whose values count ------------------------------------------------------------------

  /** The value of a parameter is the one of the question at hand, and failing that the one of the query it builds on. */
  lemma OwnParamsWin(p: Planned, name: string)
    requires Distinct(p.baseParams) && Distinct(p.params)
    ensures Find(p.Merged(), name) == if name in Keys(p.params) then Find(p.params, name) else Find(p.baseParams, name)
  {
    PutAllFacts(p.baseParams, p.params);
    if name in Keys(p.params) {
      LastWriteWins(p.baseParams, p.params, Position(p.params, name));
    } else {
      UnwrittenStays(p.baseParams, p.params, name);
    }
  }

  /** In a revision the values it adds win over those of the proposal, and those over the base query's. */
  lemma AddedParamsWin(p: Planned, added: Dict<Value>, name: string)
    requires Distinct(p.baseParams) && Distinct(p.params) && Distinct(added)
    ensures Find(Revise(p, added).Merged(), name)
         == if name in Keys(added) then Find(added, name) else if name in Keys(p.params) then Find(p.params, name) else Find(p.baseParams, name)
  {
    PutAllFacts(p.params, added);
    OwnParamsWin(Revise(p, added), name);
    if name in Keys(added) {
      LastWriteWins(p.params, added, Position(added, name));
    } else {
      UnwrittenStays(p.params, added, name);
    }
  }

  // ---- every filter reaches the query ------------------------------------------------------

  lemma PlaceAmongSorted(d: Dict<Value>, filter: Entry<Value>) returns (m: nat)
    requires filter in d
    ensures m < |Sorted(d)| && Sorted(d)[m] == filter
  {
    SortedHasAll(d, filter);
    m :| 0 <= m < |Sorted(d)| && Sorted(d)[m] == filter;
  }

  /** A non-null parameter of the run is served by the slots. */
  lemma FilterHasSlots(p: Planned, used: seq<RawSpec>, filter: Entry<Value>) returns (i: nat, n: nat)
    requires Uses(p, used) && filter in p.Merged() && !filter.value.Null?
    ensures Serve(p.slots, i, n, filter, SpecFor(used, filter))
  {
    var sorted := Sorted(p.Merged());
    var m := PlaceAmongSorted(p.Merged(), filter);
    FindIsLastUsable(used, filter.key);
    n := 1 + Filled(sorted, m);
    i := EveryFilterHasSlots(sorted, PutAll([], Named(used)), 1, m);
  }

  /** The slot of a parameter is bound to that parameter's value. */
  lemma SlotTakesFilterValue(p: Planned, resolve: Resolver, filter: Entry<Value>, i: nat)
    requires Distinct(p.baseParams) && filter in p.Merged() && i < |p.slots| && p.slots[i].source == filter.key
    ensures p.slots[i].source in Keys(p.Merged())
    ensures BoundTo(p.Merged(), resolve, p.slots, i)
         == if p.slots[i].part.None? then Some(Whole(filter.value))
            else match resolve(FirstRange(p.slots, filter.key), filter.value)
                 case None => None
                 case Some(range) => Some(Limit(if p.slots[i].part == Some(Start) then range.0 else range.1))
  {
    PutAllFacts(p.baseParams, p.params);
    var at :| 0 <= at < |p.Merged()| && p.Merged()[at] == filter;
    OnlyPosition(p.Merged(), filter.key, at);
  }

  /** In accepted SQL every slot is a placeholder bound to its own value. */
  lemma AcceptedSlotIsBound(p: Planned, used: seq<RawSpec>, resolve: Resolver, sql: string, i: nat)
    requires Uses(p, used) && Passes(p, resolve, sql) && i < |p.slots|
    ensures p.slots[i].source in Keys(p.Merged()) && p.slots[i].id in PlaceholdersOf(sql)
    ensures BoundTo(p.Merged(), resolve, p.slots, i).Some?
    ensures Find(BoundParams(p, resolve).value, p.slots[i].id) == BoundTo(p.Merged(), resolve, p.slots, i)
  {
    GenerationBindsShownSlots(p, used, resolve);
    AcceptedMeansAllSlots(p, used, resolve, sql);
    SlotsAreSound(p, used);
    SlotIsBound(p.Merged(), resolve, p.slots, i);
    IdsUpToAreIds(p.slots, |p.slots|, p.slots[i].id);
  }

  /** Slot `i` occurs in the SQL and is bound to `b`. */
  predicate Carries(p: Planned, resolve: Resolver, sql: string, i: nat, b: Bound) {
    && i < |p.slots| && p.slots[i].id in PlaceholdersOf(sql)
    && BoundParams(p, resolve).Some? && Find(BoundParams(p, resolve).value, p.slots[i].id) == Some(b)
  }

  /** In accepted SQL a slot of a filter carries the filter's value, or its limit of the resolved range. */
  lemma FilterSlotCarries(p: Planned, used: seq<RawSpec>, resolve: Resolver, sql: string, filter: Entry<Value>, i: nat)
    requires Distinct(p.baseParams) && Uses(p, used) && Passes(p, resolve, sql)
    requires filter in p.Merged() && i < |p.slots| && p.slots[i].source == filter.key
    ensures if p.slots[i].part.None? then Carries(p, resolve, sql, i, Whole(filter.value))
            else
              var range := resolve(FirstRange(p.slots, filter.key), filter.value);
              range.Some? && Carries(p, resolve, sql, i, Limit(if p.slots[i].part == Some(Start) then range.value.0 else range.value.1))
  {
    AcceptedSlotIsBound(p, used, resolve, sql, i);
    SlotTakesFilterValue(p, resolve, filter, i);
  }

  /**
   No filter is dropped, wherever the slots were made: in an accepted query every
   non-null parameter of the run appears as a placeholder bound to its value under the
   operator of its specification, a range as both of its limits, which come from one
   and the same resolution: from the first on, and before the second.
   */
  lemma NoFilterIsDropped(p: Planned, used: seq<RawSpec>, resolve: Resolver, sql: string, filter: Entry<Value>) returns (i: nat, n: nat)
    requires Distinct(p.baseParams) && Uses(p, used) && Passes(p, resolve, sql)
    requires filter in p.Merged() && !filter.value.Null?
    ensures Serve(p.slots, i, n, filter, SpecFor(used, filter))
    ensures if SpecFor(used, filter).operator == "between" || SpecFor(used, filter).valueType == "date_range" then
              var range := resolve(FirstRange(p.slots, filter.key), filter.value);
              range.Some? && Carries(p, resolve, sql, i, Limit(range.value.0)) && Carries(p, resolve, sql, i + 1, Limit(range.value.1))
            else Carries(p, resolve, sql, i, Whole(filter.value))
  {
    i, n := FilterHasSlots(p, used, filter);
    FilterSlotCarries(p, used, resolve, sql, filter, i);
    if TakesTwo(SpecFor(used, filter)) {
      FilterSlotCarries(p, used, resolve, sql, filter, i + 1);
    }
  }

  /** Conversely, any SQL text that is written with the slots, each at least once, is accepted. */
  lemma UsingAllSlotsIsAccepted(p: Planned, used: seq<RawSpec>, resolve: Resolver, pieces: seq<Piece>)
    requires WellPunctuated(pieces) && Uses(p, used) && BoundParams(p, resolve).Some?
    requires (set id | id in IdsOf(pieces)) == SlotIdSet(p.slots)
    ensures Passes(p, resolve, Render(pieces))
  {
    RenderedPlaceholders(pieces);
    AcceptedMeansAllSlots(p, used, resolve, Render(pieces));
  }

  /** Every slot id is an identifier, so it can be written as a placeholder. */
  lemma SlotIdsAreIdentifiers(p: Planned, used: seq<RawSpec>, i: nat)
    requires Uses(p, used) && i < |p.slots|
    ensures IsIdentifier(p.slots[i].id)
  {
    var k, m := SlotShape(Sorted(p.Merged()), PutAll([], Named(used)), 1, i);
    SlotIdIsIdentifier(k, p.slots[i].part);
  }

  // ---- what a revision forgets ---------------------------------------------------------------

  /** Two specifications serve a filter in the same way: as a half-open range, or under the same operator. */
  predicate SameForm(a: Spec, b: Spec) {
    && (TakesTwo(a) <==> TakesTwo(b))
    && (!TakesTwo(a) ==> OrDefault(a.operator, "eq") == OrDefault(b.operator, "eq"))
  }

  /** No specification means a plain equality. */
  lemma EqualityIsDefault(spec: Spec)
    ensures SameForm(spec, Spec("", "")) <==> SameForm(spec, Spec("eq", ""))
  {
  }

  /**
   A revision serves a filter as the plan did exactly if the proposal itself specifies
   the filter, or the plan served it as a plain equality.
   */
  lemma RevisionKeepsFilterIff(baseSpecs: seq<RawSpec>, specs: seq<RawSpec>, filter: Entry<Value>)
    ensures SameForm(SpecFor(Merge(baseSpecs, specs), filter), SpecFor(specs, filter))
            <==> LastUsable(specs, filter.key).Some? || SameForm(SpecFor(Merge(baseSpecs, specs), filter), Spec("eq", ""))
  {
    MergedLastUsable(baseSpecs, specs, filter.key);
    EqualityIsDefault(SpecFor(Merge(baseSpecs, specs), filter));
  }

  /** Those are the specifications that the plan and its revision use. */
  lemma RevisionUsesProposal(baseParams: Dict<Value>, baseSpecs: seq<RawSpec>, params: Dict<Value>, specs: seq<RawSpec>, added: Dict<Value>)
    ensures var planned := Plan(baseParams, baseSpecs, params, specs);
            Uses(planned, Merge(baseSpecs, specs)) && Uses(Revise(planned, added), specs)
  {
  }

  // ---- a time range that becomes an equality ----------------------------------------------------

  const CREATED: Entry<Value> := Entry("created", Text("last month"))
  const BETWEEN: RawSpec := SpecDict("created", "between", "date_range", map[])

  lemma SlotsOfOne(e: Entry<Value>, specs: seq<RawSpec>)
    requires !e.value.Null?
    ensures Slots([e], specs) == SlotsOf(e, PutAll([], Named(specs)), 1)
  {
    assert Sorted([e]) == [e] && [e][1..] == [];
    assert SlotsFrom([], PutAll([], Named(specs)), 2) == [];
  }

  lemma BetweenIsMerged()
    ensures SpecFor(Merge([BETWEEN], []), CREATED) == Spec("between", "date_range")
  {
    MergedLastUsable([BETWEEN], [], "created");
  }

  lemma OneScalarIsBound(e: Entry<Value>, resolve: Resolver, slot: FilterBinding.Slot)
    requires slot.source == e.key && slot.part == None
    ensures Bind([e], resolve, [slot]) == Some([Entry(slot.id, Whole(e.value))])
  {
    var b := Entry(slot.id, Whole(e.value));
    assert [e][0].key in Keys([e]) && Position([e], e.key) == 0;
    assert BoundTo([e], resolve, [slot], 0) == Some(b.value);
    assert Writes([e], resolve, [slot], 0) == Some([]);
    assert Writes([e], resolve, [slot], 1) == Some([] + [b]);
    assert [] + [b] == [b] && [b][..0] == [];
    assert PutAll([], [b]) == Put([], b) == [b];
  }

  /** A time range inherited from the query that the run builds on becomes an equality with the phrase itself. */
  lemma RevisionLosesARange(resolve: Resolver)
    ensures var planned := Plan([CREATED], [BETWEEN], [], []);
            var revised := Revise(planned, []);
            && |planned.slots| == 2 && planned.slots[0].part == Some(Start) && planned.slots[1].part == Some(End)
            && |revised.slots| == 1 && revised.slots[0].part == None && revised.slots[0].operator == "eq"
            && BoundParams(revised, resolve) == Some([Entry(revised.slots[0].id, Whole(CREATED.value))])
  {
    var planned := Plan([CREATED], [BETWEEN], [], []);
    var revised := Revise(planned, []);
    assert planned.Merged() == [CREATED] == revised.Merged();
    RangeIsPlanned();
    EqualityWithoutSpecs();
    OneScalarIsBound(CREATED, resolve, revised.slots[0]);
    assert revised.slots == [revised.slots[0]];
    RevisionUsesProposal([CREATED], [BETWEEN], [], [], []);
    GenerationBindsShownSlots(revised, [], resolve);
  }

  lemma RangeIsPlanned()
    ensures var slots := Slots([CREATED], Merge([BETWEEN], []));
            |slots| == 2 && slots[0].part == Some(Start) && slots[1].part == Some(End)
  {
    SlotsOfOne(CREATED, Merge([BETWEEN], []));
    BetweenIsMerged();
    FindIsLastUsable(Merge([BETWEEN], []), "created");
  }

  lemma EqualityWithoutSpecs()
    ensures var slots := Slots([CREATED], []);
            |slots| == 1 && slots[0].part == None && slots[0].operator == "eq" && slots[0].source == CREATED.key
  {
    SlotsOfOne(CREATED, []);
    FindIsLastUsable([], "created");
  }
}
