/**
 From user filters to bound SQL inputs: filter specifications are merged, every
 non-null parameter gets one or two opaque slots, and the slots are bound to values.
 */
module FilterBinding {
  import opened Basics
  import opened OrderedDict
  import opened SlotIds

  // ---- filter specifications -------------------------------------------------------------

  /** A specification as it comes in; "" stands for a missing or empty entry. */
  datatype RawSpec =
    | NotADict
    | SpecDict(name: string, operator: string, valueType: string, extra: map<string, string>)

  /** What is kept of a specification besides its name. */
  datatype Spec = Spec(operator: string, valueType: string)

  /** The usable specifications, cut down to the kept entries. */
  function Named(specs: seq<RawSpec>): seq<Entry<Spec>> {
    if specs == [] then []
    else
      var s := specs[|specs| - 1];
      var init := Named(specs[..|specs| - 1]);
      if s.SpecDict? && s.name != "" then init + [Entry(s.name, Spec(s.operator, s.valueType))] else init
  }

  /** The merged dictionaries as a list of specifications again. */
  function AsSpecs(d: Dict<Spec>): seq<RawSpec> {
    seq(|d|, i requires 0 <= i < |d| => SpecDict(d[i].key, d[i].value.operator, d[i].value.valueType, map[]))
  }

  function Merge(base: seq<RawSpec>, current: seq<RawSpec>): seq<RawSpec> {
    AsSpecs(PutAll([], Named(base + current)))
  }

  /** `merge_filter_specs` */
  method MergeFilterSpecs(base: seq<RawSpec>, current: seq<RawSpec>) returns (specs: seq<RawSpec>)
    ensures specs == Merge(base, current)
  {
    var all := base + current;
    var merged: Dict<Spec> := [];
    for i := 0 to |all|
      invariant merged == PutAll([], Named(all[..i]))
    {
      NamedSoFar(all, i);
      if all[i].SpecDict? && all[i].name != "" {
        merged := Put(merged, Entry(all[i].name, Spec(all[i].operator, all[i].valueType)));
      }
    }
    assert all[..|all|] == all;
    specs := AsSpecs(merged);
  }

  /** One more specification is one more write, if it is usable. */
  lemma NamedSoFar(all: seq<RawSpec>, i: nat)
    requires i < |all|
    ensures PutAll([], Named(all[..i + 1]))
         == if all[i].SpecDict? && all[i].name != "" then
              Put(PutAll([], Named(all[..i])), Entry(all[i].name, Spec(all[i].operator, all[i].valueType)))
            else PutAll([], Named(all[..i]))
  {
    assert all[..i + 1][..i] == all[..i];
    if all[i].SpecDict? && all[i].name != "" {
      var e := Entry(all[i].name, Spec(all[i].operator, all[i].valueType));
      assert (Named(all[..i]) + [e])[..|Named(all[..i])|] == Named(all[..i]);
    }
  }

  lemma {:induction false} NamedSplits(a: seq<RawSpec>, b: seq<RawSpec>)
    ensures Named(a + b) == Named(a) + Named(b)
  {
    if b == [] {
      assert a + b == a;
    } else {
      var init := b[..|b| - 1];
      NamedSplits(a, init);
      assert (a + b)[..|a + b| - 1] == a + init && (a + b)[|a + b| - 1] == b[|b| - 1];
      assert forall e :: Named(a) + (Named(init) + [e]) == (Named(a) + Named(init)) + [e];
    }
  }

  lemma {:induction false} NamedIsNamed(specs: seq<RawSpec>)
    ensures forall i | 0 <= i < |Named(specs)| :: Named(specs)[i].key != ""
  {
    if specs != [] {
      NamedIsNamed(specs[..|specs| - 1]);
    }
  }

  lemma {:induction false} PutAllIsNamed(es: seq<Entry<Spec>>)
    requires forall i | 0 <= i < |es| :: es[i].key != ""
    ensures forall i | 0 <= i < |PutAll([], es)| :: PutAll([], es)[i].key != ""
  {
    if es != [] {
      assert forall i | 0 <= i < |es| - 1 :: es[..|es| - 1][i] == es[i];
      PutAllIsNamed(es[..|es| - 1]);
    }
  }

  lemma {:induction false} NamedAsSpecs(d: Dict<Spec>)
    requires forall i | 0 <= i < |d| :: d[i].key != ""
    ensures Named(AsSpecs(d)) == d
  {
    if d != [] {
      NamedAsSpecs(d[..|d| - 1]);
      assert AsSpecs(d)[..|d| - 1] == AsSpecs(d[..|d| - 1]);
    }
  }

  /** Reading the result of a merge gives the merged dictionary back. */
  lemma NamedMerge(a: seq<RawSpec>, b: seq<RawSpec>)
    ensures Named(Merge(a, b)) == PutAll(PutAll([], Named(a)), Named(b))
    ensures Distinct(Named(Merge(a, b)))
  {
    NamedIsNamed(a + b);
    PutAllIsNamed(Named(a + b));
    NamedAsSpecs(PutAll([], Named(a + b)));
    NamedSplits(a, b);
    PutAllSplits([], Named(a), Named(b));
    PutAllFacts([], Named(a + b));
  }

  lemma MergeIsNormal(a: seq<RawSpec>, b: seq<RawSpec>)
    ensures Merge(a, b) == AsSpecs(PutAll(PutAll([], Named(a)), Named(b)))
  {
    NamedSplits(a, b);
    PutAllSplits([], Named(a), Named(b));
  }

  /** Merging is associative. */
  lemma MergeAssociative(a: seq<RawSpec>, b: seq<RawSpec>, c: seq<RawSpec>)
    ensures Merge(Merge(a, b), c) == Merge(a, Merge(b, c))
  {
    var x, y, z := Named(a), Named(b), Named(c);
    var first := PutAll([], x);
    PutAllFacts([], x);
    NamedMerge(a, b);
    NamedMerge(b, c);
    MergeIsNormal(Merge(a, b), c);
    MergeIsNormal(a, Merge(b, c));
    PutAllFacts(first, y);
    PutAllNormal([], Named(Merge(a, b)));
    NormalIsFixed(Named(Merge(a, b)));
    PutAllSplits([], y, z);
    PutAllNormal(first, y + z);
    PutAllSplits(first, y, z);
  }

  /** A dictionary with distinct keys is its own normal form. */
  lemma {:induction false} NormalIsFixed<T>(d: Dict<T>)
    requires Distinct(d)
    ensures PutAll([], d) == d
  {
    if d != [] {
      NormalIsFixed(d[..|d| - 1]);
    }
  }

  /** Merging the current specifications in a second time changes nothing. */
  lemma MergeAbsorbs(base: seq<RawSpec>, current: seq<RawSpec>)
    ensures Merge(Merge(base, current), current) == Merge(base, current)
  {
    PutAllFacts([], Named(base));
    NamedMerge(base, current);
    MergeIsNormal(Merge(base, current), current);
    MergeIsNormal(base, current);
    NormalIsFixed(Named(Merge(base, current)));
    WritingTwice(PutAll([], Named(base)), Named(current));
  }

  /** No name is lost or invented. */
  lemma MergeKeepsNames(base: seq<RawSpec>, current: seq<RawSpec>)
    ensures Named(Merge(base, current)) == PutAll([], Named(base + current))
    ensures Keys(Named(Merge(base, current))) == Keys(Named(base + current))
  {
    NamedMerge(base, current);
    NamedSplits(base, current);
    PutAllSplits([], Named(base), Named(current));
    PutAllFacts([], Named(base + current));
  }

  /** The last usable specification of a name wins. */
  lemma MergeLastWins(base: seq<RawSpec>, current: seq<RawSpec>, i: nat)
    requires var all := Named(base + current);
             i < |all| && forall j | i < j < |all| :: all[j].key != all[i].key
    ensures var last := Named(base + current)[i];
            Find(Named(Merge(base, current)), last.key) == Some(last.value)
  {
    MergeKeepsNames(base, current);
    LastWriteWins([], Named(base + current), i);
  }

  /** The last usable specification of a name, as it came in. */
  function LastUsable(specs: seq<RawSpec>, name: string): Option<Spec> {
    if specs == [] then None
    else
      var s := specs[|specs| - 1];
      if s.SpecDict? && s.name == name != "" then Some(Spec(s.operator, s.valueType)) else LastUsable(specs[..|specs| - 1], name)
  }

  /** That is the one the dictionary of specifications holds. */
  lemma {:induction false} FindIsLastUsable(specs: seq<RawSpec>, name: string)
    ensures Find(PutAll([], Named(specs)), name) == LastUsable(specs, name)
  {
    if specs != [] {
      var init, s := specs[..|specs| - 1], specs[|specs| - 1];
      FindIsLastUsable(init, name);
      if s.SpecDict? && s.name != "" {
        var e := Entry(s.name, Spec(s.operator, s.valueType));
        assert (Named(init) + [e])[..|Named(init)|] == Named(init);
        PutAllFacts([], Named(init));
        PutFinds(PutAll([], Named(init)), e, name);
      }
    }
  }

  /** Of the merged specifications the last usable current one decides, and failing that the last usable base one. */
  lemma MergedLastUsable(base: seq<RawSpec>, current: seq<RawSpec>, name: string)
    ensures LastUsable(Merge(base, current), name)
         == if LastUsable(current, name).Some? then LastUsable(current, name) else LastUsable(base, name)
  {
    FindIsLastUsable(Merge(base, current), name);
    FindIsLastUsable(base + current, name);
    MergeKeepsNames(base, current);
    PutAllFacts([], Named(base + current));
    NormalIsFixed(Named(Merge(base, current)));
    LastUsableOfBoth(base, current, name);
  }

  lemma {:induction false} LastUsableOfBoth(a: seq<RawSpec>, b: seq<RawSpec>, name: string)
    ensures LastUsable(a + b, name) == if LastUsable(b, name).Some? then LastUsable(b, name) else LastUsable(a, name)
  {
    if b == [] {
      assert a + b == a;
    } else {
      assert (a + b)[..|a + b| - 1] == a + b[..|b| - 1];
      LastUsableOfBoth(a, b[..|b| - 1], name);
    }
  }

  // ---- slots ---------------------------------------------------------------------------------

  datatype Value =
    | Null | Bool(b: bool) | Number(text: string) | Text(text: string)
    | List(items: seq<Value>) | Object(fields: map<string, Value>)

  datatype Slot = Slot(id: string, source: string, part: Option<Part>, kind: string, semantic: string, operator: string)

  predicate StringLe(a: string, b: string) {
    a == "" || (b != "" && (a[0] < b[0] || (a[0] == b[0] && StringLe(a[1..], b[1..]))))
  }

  function Insert(e: Entry<Value>, d: Dict<Value>): Dict<Value> {
    if d == [] || StringLe(e.key, d[0].key) then [e] + d else [d[0]] + Insert(e, d[1..])
  }

  /** `sorted(params.items())`: by name, since names are distinct. */
  function Sorted(d: Dict<Value>): Dict<Value> {
    if d == [] then [] else Insert(d[0], Sorted(d[1..]))
  }

  function Spaced(name: string): string {
    seq(|name|, i requires 0 <= i < |name| => if name[i] == '_' then ' ' else name[i])
  }

  function SpecOf(specs: Dict<Spec>, name: string): Spec {
    match Find(specs, name) case Some(s) => s case None => Spec("", "")
  }

  function KindOf(spec: Spec, value: Value): string {
    if spec.valueType != "" then spec.valueType
    else if spec.operator == "between" then (if value.Text? then "date_range" else "list")
    else match value
         case Bool(_) => "boolean"
         case Number(_) => "number"
         case List(_) => "list"
         case _ => "text"
  }

  /** Does the parameter need a start and an end? */
  predicate IsRange(spec: Spec, value: Value) {
    spec.operator == "between" || KindOf(spec, value) == "date_range"
  }

  function SlotsOf(p: Entry<Value>, specs: Dict<Spec>, index: nat): seq<Slot> {
    var spec := SpecOf(specs, p.key);
    var kind := KindOf(spec, p.value);
    var rangeKind := if kind == "date_range" then "date" else kind;
    if IsRange(spec, p.value) then
      [Slot(SlotId(index, Some(Start)), p.key, Some(Start), rangeKind, Spaced(p.key) + " start", "gte"),
       Slot(SlotId(index, Some(End)), p.key, Some(End), rangeKind, Spaced(p.key) + " end", "lt")]
    else [Slot(SlotId(index, None), p.key, None, kind, Spaced(p.key), OrDefault(spec.operator, "eq"))]
  }

  function SlotsFrom(params: Dict<Value>, specs: Dict<Spec>, index: nat): seq<Slot> {
    if params == [] then []
    else if params[0].value.Null? then SlotsFrom(params[1..], specs, index)
    else SlotsOf(params[0], specs, index) + SlotsFrom(params[1..], specs, index + 1)
  }

  function Slots(params: Dict<Value>, specs: seq<RawSpec>): seq<Slot> {
    SlotsFrom(Sorted(params), PutAll([], Named(specs)), 1)
  }

  /** `sql_input_slots` */
  method SqlInputSlots(params: Dict<Value>, specs: seq<RawSpec>) returns (slots: seq<Slot>)
    ensures slots == Slots(params, specs)
  {
    var byName := PutAll([], Named(specs));
    slots := [];
    var slotIndex := 1;
    var items := Sorted(params);
    assert items[0..] == items;
    for i := 0 to |items|
      invariant slots + SlotsFrom(items[i..], byName, slotIndex) == SlotsFrom(items, byName, 1)
    {
      assert items[i..][1..] == items[i + 1..];
      var value := items[i].value;
      if value.Null? {
        continue;
      }
      var added := SlotsOf(items[i], byName, slotIndex);
      assert slots + (added + SlotsFrom(items[i + 1..], byName, slotIndex + 1)) == (slots + added) + SlotsFrom(items[i + 1..], byName, slotIndex + 1);
      slots := slots + added;
      slotIndex := slotIndex + 1;
    }
  }

  /** A filter that is meant as a range: an operator between, or a value that is a range of dates. */
  predicate TakesTwo(spec: Spec) {
    spec.operator == "between" || spec.valueType == "date_range"
  }

  /** Slot `s` is one of the slots of parameter `p`. */
  predicate SlotFor(s: Slot, p: Entry<Value>, specs: Dict<Spec>) {
    && s.source == p.key && !p.value.Null?
    && (s.part.Some? <==> TakesTwo(SpecOf(specs, p.key)))
  }

  lemma OwnSlots(p: Entry<Value>, specs: Dict<Spec>, index: nat, i: nat)
    requires !p.value.Null? && i < |SlotsOf(p, specs, index)|
    ensures var s := SlotsOf(p, specs, index)[i]; s.id == SlotId(index, s.part) && SlotFor(s, p, specs)
  {
  }

  /** Slot `s` carries number `k`, not below `index`, and belongs to parameter `m`. */
  predicate Shaped(s: Slot, params: Dict<Value>, specs: Dict<Spec>, index: nat, k: nat, m: nat) {
    k >= index && s.id == SlotId(k, s.part) && m < |params| && SlotFor(s, params[m], specs)
  }

  lemma ShapedFurtherOn(s: Slot, params: Dict<Value>, specs: Dict<Spec>, index: nat, k: nat, m: nat)
    requires params != [] && (Shaped(s, params[1..], specs, index, k, m) || Shaped(s, params[1..], specs, index + 1, k, m))
    ensures Shaped(s, params, specs, index, k, m + 1)
  {
  }

  /** Every slot has an id of its own index and belongs to a non-null parameter. */
  lemma {:induction false} SlotShape(params: Dict<Value>, specs: Dict<Spec>, index: nat, i: nat) returns (k: nat, m: nat)
    requires i < |SlotsFrom(params, specs, index)|
    ensures Shaped(SlotsFrom(params, specs, index)[i], params, specs, index, k, m)
    decreases |params|
  {
    if params[0].value.Null? {
      k, m := SlotShape(params[1..], specs, index, i);
      ShapedFurtherOn(SlotsFrom(params, specs, index)[i], params, specs, index, k, m);
      m := m + 1;
    } else if i < |SlotsOf(params[0], specs, index)| {
      k, m := index, 0;
      OwnSlots(params[0], specs, index, i);
    } else {
      var j := i - |SlotsOf(params[0], specs, index)|;
      BehindOwn(params, specs, index, j);
      k, m := SlotShape(params[1..], specs, index + 1, j);
      ShapedFurtherOn(SlotsFrom(params, specs, index)[i], params, specs, index, k, m);
      m := m + 1;
    }
  }

  lemma BehindOwn(params: Dict<Value>, specs: Dict<Spec>, index: nat, j: nat)
    requires params != [] && !params[0].value.Null? && j < |SlotsFrom(params[1..], specs, index + 1)|
    ensures SlotsFrom(params, specs, index)[|SlotsOf(params[0], specs, index)| + j] == SlotsFrom(params[1..], specs, index + 1)[j]
  {
  }

  /** The ids of all slots are pairwise distinct. */
  lemma {:induction false} SlotIdsDistinct(params: Dict<Value>, specs: Dict<Spec>, index: nat, i: nat, j: nat)
    requires i < j < |SlotsFrom(params, specs, index)|
    ensures SlotsFrom(params, specs, index)[i].id != SlotsFrom(params, specs, index)[j].id
    decreases |params|
  {
    if params[0].value.Null? {
      SlotIdsDistinct(params[1..], specs, index, i, j);
    } else {
      var here := SlotsOf(params[0], specs, index);
      if j < |here| {
        OwnIdsDiffer(params[0], specs, index, i, j);
      } else if i >= |here| {
        SlotIdsDistinct(params[1..], specs, index + 1, i - |here|, j - |here|);
      } else {
        LaterIdsDiffer(params, specs, index, i, j - |here|);
      }
    }
  }

  lemma LaterIdsDiffer(params: Dict<Value>, specs: Dict<Spec>, index: nat, i: nat, j: nat)
    requires params != [] && !params[0].value.Null?
    requires i < |SlotsOf(params[0], specs, index)| && j < |SlotsFrom(params[1..], specs, index + 1)|
    ensures SlotsOf(params[0], specs, index)[i].id != SlotsFrom(params[1..], specs, index + 1)[j].id
  {
    OwnSlots(params[0], specs, index, i);
    var k, m := SlotShape(params[1..], specs, index + 1, j);
    DifferentSlots(index, SlotsOf(params[0], specs, index)[i].part, k, SlotsFrom(params[1..], specs, index + 1)[j].part);
  }

  lemma OwnIdsDiffer(p: Entry<Value>, specs: Dict<Spec>, index: nat, i: nat, j: nat)
    requires i < j < |SlotsOf(p, specs, index)|
    ensures SlotsOf(p, specs, index)[i].id != SlotsOf(p, specs, index)[j].id
  {
    DifferentSlots(index, Some(Start), index, Some(End));
  }

  lemma DifferentSlots(i: nat, p: Option<Part>, j: nat, q: Option<Part>)
    requires i != j || p != q
    ensures SlotId(i, p) != SlotId(j, q)
  {
    if SlotId(i, p) == SlotId(j, q) {
      SlotIdInjective(i, p, j, q);
    }
  }

  /** The name with blanks for underscores. */
  predicate Respaced(text: string, name: string) {
    |text| == |name| && forall i | 0 <= i < |name| :: text[i] == if name[i] == '_' then ' ' else name[i]
  }

  /** What the planner is told about the values of a slot: the given type, or that of the value. */
  function TypeMeant(spec: Spec, value: Value): string {
    if TakesTwo(spec) then
      if spec.valueType == "date_range" || (spec.valueType == "" && value.Text?) then "date"
      else if spec.valueType == "" then "list" else spec.valueType
    else if spec.valueType != "" then spec.valueType
    else if value.Bool? then "boolean" else if value.Number? then "number" else if value.List? then "list" else "text"
  }

  /** A slot of `p` with the given id, meaning and operator. */
  predicate IsSlot(s: Slot, p: Entry<Value>, spec: Spec, id: string, part: Option<Part>, suffix: string, operator: string) {
    && s.id == id && s.source == p.key && s.part == part && s.operator == operator && s.kind == TypeMeant(spec, p.value)
    && |s.semantic| >= |suffix| && s.semantic[|s.semantic| - |suffix|..] == suffix
    && Respaced(s.semantic[..|s.semantic| - |suffix|], p.key)
  }

  /** At `i` there is the slot number `n` of parameter `p` under its own operator, or a half-open pair of slots if `p` is a range. */
  predicate Serve(slots: seq<Slot>, i: nat, n: nat, p: Entry<Value>, spec: Spec) {
    if TakesTwo(spec) then
      && i + 1 < |slots|
      && IsSlot(slots[i], p, spec, "input_" + Numeral(n) + "_start", Some(Start), " start", "gte")
      && IsSlot(slots[i + 1], p, spec, "input_" + Numeral(n) + "_end", Some(End), " end", "lt")
    else i < |slots| && IsSlot(slots[i], p, spec, "input_" + Numeral(n), None, "", if spec.operator == "" then "eq" else spec.operator)
  }

  lemma OwnSlotsServe(p: Entry<Value>, specs: Dict<Spec>, index: nat, behind: seq<Slot>)
    requires !p.value.Null?
    ensures Serve(SlotsOf(p, specs, index) + behind, 0, index, p, SpecOf(specs, p.key))
  {
    var own := SlotsOf(p, specs, index);
    assert Respaced(Spaced(p.key), p.key);
    assert own[0].id == "input_" + Numeral(index) + Suffix(own[0].part);
    if TakesTwo(SpecOf(specs, p.key)) {
      assert |own| == 2 && (own + behind)[0] == own[0] && (own + behind)[1] == own[1];
      assert own[0].semantic[..|p.key|] == Spaced(p.key) == own[1].semantic[..|p.key|];
    } else {
      assert own[0].semantic == Spaced(p.key) == own[0].semantic[..|p.key|];
    }
  }

  /** How many of the first `m` parameters have a value. */
  function Filled(params: Dict<Value>, m: nat): nat
    requires m <= |params|
  {
    if m == 0 then 0 else (if params[0].value.Null? then 0 else 1) + Filled(params[1..], m - 1)
  }

  /** Every non-null parameter is served, under the number it has among them. */
  lemma {:induction false} EveryFilterHasSlots(params: Dict<Value>, specs: Dict<Spec>, index: nat, m: nat) returns (i: nat)
    requires m < |params| && !params[m].value.Null?
    ensures Serve(SlotsFrom(params, specs, index), i, index + Filled(params, m), params[m], SpecOf(specs, params[m].key))
    decreases |params|
  {
    assert m > 0 ==> params[1..][m - 1] == params[m];
    if params[0].value.Null? {
      i := EveryFilterHasSlots(params[1..], specs, index, m - 1);
    } else if m == 0 {
      i := 0;
      OwnSlotsServe(params[0], specs, index, SlotsFrom(params[1..], specs, index + 1));
    } else {
      i := EveryFilterHasSlots(params[1..], specs, index + 1, m - 1);
      ServedFurtherOn(params, specs, index, i, index + Filled(params, m), params[m]);
      i := i + |SlotsOf(params[0], specs, index)|;
    }
  }

  /** What serves a parameter among the later slots serves it among all. */
  lemma ServedFurtherOn(params: Dict<Value>, specs: Dict<Spec>, index: nat, i: nat, n: nat, p: Entry<Value>)
    requires params != [] && !params[0].value.Null? && Serve(SlotsFrom(params[1..], specs, index + 1), i, n, p, SpecOf(specs, p.key))
    ensures Serve(SlotsFrom(params, specs, index), |SlotsOf(params[0], specs, index)| + i, n, p, SpecOf(specs, p.key))
  {
    ServedBehind(SlotsOf(params[0], specs, index), SlotsFrom(params[1..], specs, index + 1), i, n, p, SpecOf(specs, p.key));
  }

  lemma ServedBehind(front: seq<Slot>, slots: seq<Slot>, i: nat, n: nat, p: Entry<Value>, spec: Spec)
    requires Serve(slots, i, n, p, spec)
    ensures Serve(front + slots, |front| + i, n, p, spec)
  {
    assert (front + slots)[|front| + i] == slots[i];
    if TakesTwo(spec) {
      assert (front + slots)[|front| + i + 1] == slots[i + 1];
    }
  }

  /** How many slots the parameters need: two per range, one per other value, none for null. */
  function Arity(params: Dict<Value>, specs: Dict<Spec>): nat {
    if params == [] then 0
    else (if params[0].value.Null? then 0 else if TakesTwo(SpecOf(specs, params[0].key)) then 2 else 1)
         + Arity(params[1..], specs)
  }

  lemma {:induction false} SlotCount(params: Dict<Value>, specs: Dict<Spec>, index: nat)
    ensures |SlotsFrom(params, specs, index)| == Arity(params, specs)
    decreases |params|
  {
    if params != [] {
      SlotCount(params[1..], specs, if params[0].value.Null? then index else index + 1);
    }
  }

  // ---- sorting keeps the parameters ------------------------------------------------------------

  lemma {:induction false} InsertKeeps(e: Entry<Value>, d: Dict<Value>)
    ensures multiset(Insert(e, d)) == multiset{e} + multiset(d)
  {
    if d != [] && !StringLe(e.key, d[0].key) {
      InsertKeeps(e, d[1..]);
      assert d == [d[0]] + d[1..];
    } else {
      assert multiset([e] + d) == multiset{e} + multiset(d);
    }
  }

  lemma {:induction false} SortedKeeps(d: Dict<Value>)
    ensures multiset(Sorted(d)) == multiset(d)
  {
    if d != [] {
      SortedKeeps(d[1..]);
      InsertKeeps(d[0], Sorted(d[1..]));
      assert d == [d[0]] + d[1..];
    }
  }

  /** The entry of `d` at `m` occurs among the sorted entries, and the other way round. */
  lemma SortedHasAll(d: Dict<Value>, e: Entry<Value>)
    ensures e in Sorted(d) <==> e in d
  {
    SortedKeeps(d);
    assert e in Sorted(d) <==> e in multiset(Sorted(d));
    assert e in d <==> e in multiset(d);
  }

  // ---- binding ---------------------------------------------------------------------------------

  datatype Bound = Whole(value: Value) | Limit(text: string)

  /** How a range value resolves when the `n`-th slot is bound; None stands for a value that raises. */
  type Resolver = (nat, Value) -> Option<(string, string)>

  /** The first range slot of `source`. */
  function FirstRange(slots: seq<Slot>, source: string): nat {
    if slots == [] then 0
    else if slots[0].source == source && slots[0].part.Some? then 0
    else 1 + FirstRange(slots[1..], source)
  }

  /** The value bound to slot `i`; both ends of a range come from one resolution. None stands for an exception. */
  function BoundTo(params: Dict<Value>, resolve: Resolver, slots: seq<Slot>, i: nat): Option<Bound>
    requires i < |slots| && slots[i].source in Keys(params)
  {
    var s := slots[i];
    var value := params[Position(params, s.source)].value;
    if s.part.None? then Some(Whole(value))
    else match resolve(FirstRange(slots, s.source), value)
         case None => None
         case Some(range) => Some(Limit(if s.part == Some(Start) then range.0 else range.1))
  }

  /** What the first `n` slots write, in order; a slot of an unknown parameter writes nothing. */
  function Writes(params: Dict<Value>, resolve: Resolver, slots: seq<Slot>, n: nat): Option<seq<Entry<Bound>>>
    requires n <= |slots|
  {
    if n == 0 then Some([])
    else match Writes(params, resolve, slots, n - 1)
         case None => None
         case Some(written) =>
           if slots[n - 1].source !in Keys(params) then Some(written)
           else match BoundTo(params, resolve, slots, n - 1)
                case None => None
                case Some(b) => Some(written + [Entry(slots[n - 1].id, b)])
  }

  function Bind(params: Dict<Value>, resolve: Resolver, slots: seq<Slot>): Option<Dict<Bound>> {
    match Writes(params, resolve, slots, |slots|) case None => None case Some(written) => Some(PutAll([], written))
  }

  lemma {:induction false} FirstRangeFacts(slots: seq<Slot>, source: string, i: nat)
    requires i < |slots| && slots[i].source == source && slots[i].part.Some?
    ensures FirstRange(slots, source) <= i
    ensures slots[FirstRange(slots, source)].source == source && slots[FirstRange(slots, source)].part.Some?
  {
    if !(slots[0].source == source && slots[0].part.Some?) {
      FirstRangeFacts(slots[1..], source, i - 1);
    }
  }

  lemma {:induction false} RaisingStays(params: Dict<Value>, resolve: Resolver, slots: seq<Slot>, i: nat, n: nat)
    requires i < n <= |slots| && slots[i].source in Keys(params) && BoundTo(params, resolve, slots, i) == None
    ensures Writes(params, resolve, slots, n) == None
    decreases n
  {
    if i < n - 1 {
      RaisingStays(params, resolve, slots, i, n - 1);
    }
  }

  lemma WriteOne(written: seq<Entry<Bound>>, e: Entry<Bound>)
    ensures PutAll([], written + [e]) == Put(PutAll([], written), e)
  {
    assert (written + [e])[..|written|] == written;
  }

  /** `bound_input_params`, with its cache of resolved ranges. */
  method BoundInputParams(params: Dict<Value>, resolve: Resolver, slots: seq<Slot>) returns (result: Option<Dict<Bound>>)
    ensures result == Bind(params, resolve, slots)
  {
    var bound: Dict<Bound> := [];
    var cache: map<string, (string, string)> := map[];
    for i := 0 to |slots|
      invariant Writes(params, resolve, slots, i).Some? && bound == PutAll([], Writes(params, resolve, slots, i).value)
      invariant forall name | name in cache :: name in Keys(params)
                  && resolve(FirstRange(slots, name), params[Position(params, name)].value) == Some(cache[name])
      invariant forall j | 0 <= j < i && slots[j].source in Keys(params) && slots[j].part.Some? :: slots[j].source in cache
    {
      var slot := slots[i];
      var position := Position(params, slot.source);
      if position == |params| {
        continue;
      }
      var value := params[position].value;
      if slot.part.Some? {
        FirstRangeFacts(slots, slot.source, i);
        if slot.source !in cache {
          var range := resolve(i, value);
          assert FirstRange(slots, slot.source) == i;
          if range.None? {
            RaisingStays(params, resolve, slots, i, |slots|);
            return None;
          }
          cache := cache[slot.source := range.value];
        }
        var limit := if slot.part == Some(Start) then cache[slot.source].0 else cache[slot.source].1;
        WriteOne(Writes(params, resolve, slots, i).value, Entry(slot.id, Limit(limit)));
        bound := Put(bound, Entry(slot.id, Limit(limit)));
      } else {
        WriteOne(Writes(params, resolve, slots, i).value, Entry(slot.id, Whole(value)));
        bound := Put(bound, Entry(slot.id, Whole(value)));
      }
    }
    result := Some(bound);
  }

  ghost predicate DistinctIds(slots: seq<Slot>) {
    forall i, j | 0 <= i < j < |slots| :: slots[i].id != slots[j].id
  }

  /** The ids of the first `n` slots. */
  function IdsUpTo(slots: seq<Slot>, n: nat): set<string>
    requires n <= |slots|
  {
    if n == 0 then {} else IdsUpTo(slots, n - 1) + {slots[n - 1].id}
  }

  lemma {:induction false} IdsUpToAreIds(slots: seq<Slot>, n: nat, id: string)
    requires n <= |slots|
    ensures id in IdsUpTo(slots, n) <==> exists i :: 0 <= i < n && slots[i].id == id
  {
    if n > 0 {
      IdsUpToAreIds(slots, n - 1, id);
    }
  }

  /** Every slot belongs to a parameter. */
  predicate AllSourced(params: Dict<Value>, slots: seq<Slot>) {
    forall i | 0 <= i < |slots| :: slots[i].source in Keys(params)
  }

  /** If nothing raises, slot after slot writes its own value under its own id. */
  lemma {:induction false} WritesAreSlots(params: Dict<Value>, resolve: Resolver, slots: seq<Slot>, n: nat)
    requires n <= |slots| && AllSourced(params, slots) && Writes(params, resolve, slots, n).Some?
    ensures var written := Writes(params, resolve, slots, n).value;
            |written| == n && forall i | 0 <= i < n :: written[i].key == slots[i].id && Some(written[i].value) == BoundTo(params, resolve, slots, i)
  {
    if n > 0 {
      WritesAreSlots(params, resolve, slots, n - 1);
    }
  }

  /** If nothing raises, exactly the slot ids are bound. */
  lemma OnlySlotsAreBound(params: Dict<Value>, resolve: Resolver, slots: seq<Slot>)
    requires AllSourced(params, slots) && Bind(params, resolve, slots).Some?
    ensures Distinct(Bind(params, resolve, slots).value)
    ensures Keys(Bind(params, resolve, slots).value) == IdsUpTo(slots, |slots|)
  {
    var written := Writes(params, resolve, slots, |slots|).value;
    WritesAreSlots(params, resolve, slots, |slots|);
    PutAllFacts([], written);
    forall id ensures id in Keys(written) <==> id in IdsUpTo(slots, |slots|) {
      IdsUpToAreIds(slots, |slots|, id);
    }
  }

  /** If nothing raises, every slot is bound to its own value. */
  lemma SlotIsBound(params: Dict<Value>, resolve: Resolver, slots: seq<Slot>, i: nat)
    requires i < |slots| && DistinctIds(slots) && AllSourced(params, slots) && Bind(params, resolve, slots).Some?
    ensures BoundTo(params, resolve, slots, i).Some?
    ensures Find(Bind(params, resolve, slots).value, slots[i].id) == BoundTo(params, resolve, slots, i)
  {
    WritesAreSlots(params, resolve, slots, |slots|);
    LastWriteWins([], Writes(params, resolve, slots, |slots|).value, i);
  }
}
