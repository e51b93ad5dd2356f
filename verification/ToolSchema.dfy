/** The JSON boundary of skill tools: validating a value against a subset of JSON Schema. */
module ToolSchema {
  import opened Basics

  datatype Json =
    | JNull | JBool(b: bool) | JInt(n: int) | JFloat(r: real) | JString(s: string)
    | JArray(items: seq<Json>) | JObject(fields: seq<Field>)

  datatype Field = Field(name: string, value: Json)

  datatype TypeName = StringType | ObjectType | ArrayType | BooleanType | IntegerType | NumberType | NullType | UnknownType(name: string)

  /** The "type" entry: missing, one name, or a list. */
  datatype TypeSpec = Untyped | Typed(name: TypeName) | AnyOfTypes(specs: seq<TypeSpec>)

  datatype Node = NotASchema | Sub(schema: Schema)

  datatype Property = Property(name: string, node: Node)

  datatype NodeList = NoList | Nodes(nodes: seq<Node>)

  datatype Schema = Schema(oneOf: NodeList, anyOf: NodeList, typ: TypeSpec, enum: Option<seq<Json>>,
                           properties: seq<Property>, required: seq<string>, closed: bool, items: Node)

  datatype Segment = Key(name: string) | Index(i: nat)

  datatype Kind = MissingArgument | UnknownArgument | WrongType | WrongValue

  datatype Error = Error(kind: Kind, path: seq<Segment>)

  // ---- the validator ---------------------------------------------------------------------

  /** `_matches_json_type` */
  predicate MatchesType(v: Json, t: TypeSpec) {
    match t
    case Untyped => true
    case AnyOfTypes(specs) => exists i | 0 <= i < |specs| :: MatchesType(v, specs[i])
    case Typed(name) =>
      match name
      case StringType => v.JString?
      case ObjectType => v.JObject?
      case ArrayType => v.JArray?
      case BooleanType => v.JBool?
      case IntegerType => v.JInt?
      case NumberType => v.JInt? || v.JFloat?
      case NullType => v.JNull?
      case UnknownType(_) => true
  }

  /** The number a value equals in comparisons; booleans count as 0 and 1. */
  function Numeric(v: Json): Option<real> {
    match v
    case JBool(b) => Some(if b then 1.0 else 0.0)
    case JInt(n) => Some(n as real)
    case JFloat(r) => Some(r)
    case _ => None
  }

  /** Equality as `in` uses it on decoded JSON. */
  predicate Same(a: Json, b: Json)
    decreases a
  {
    if Numeric(a).Some? || Numeric(b).Some? then Numeric(a) == Numeric(b)
    else match a
         case JNull => b.JNull?
         case JString(s) => b.JString? && b.s == s
         case JArray(xs) => b.JArray? && |b.items| == |xs| && forall i | 0 <= i < |xs| :: Same(xs[i], b.items[i])
         case JObject(fs) => b.JObject? && |b.fields| == |fs| && forall i | 0 <= i < |fs| :: HasSame(b.fields, fs[i])
         case _ => false
  }

  /** Is there a field of the same name with the same value? */
  predicate HasSame(fields: seq<Field>, f: Field)
    decreases f
  {
    exists j | 0 <= j < |fields| :: fields[j].name == f.name && Same(f.value, fields[j].value)
  }

  /** `schema.get("oneOf") or schema.get("anyOf")`, if that is a list. */
  function Alternatives(s: Schema): NodeList {
    if s.oneOf.Nodes? && s.oneOf.nodes != [] then s.oneOf else s.anyOf
  }

  predicate HasField(fields: seq<Field>, name: string) {
    exists i | 0 <= i < |fields| :: fields[i].name == name
  }

  /** The position of a declared property, or the length. */
  function Declared(properties: seq<Property>, name: string): (p: nat)
    ensures p <= |properties| && (p < |properties| ==> properties[p].name == name)
    ensures p == |properties| ==> forall i | 0 <= i < |properties| :: properties[i].name != name
  {
    if properties == [] then 0
    else if properties[0].name == name then 0
    else
      var p := Declared(properties[1..], name);
      assert forall i | 0 < i < |properties| :: properties[i] == properties[1..][i - 1];
      p + 1
  }

  function MissingErrors(required: seq<string>, fields: seq<Field>, path: seq<Segment>): seq<Error> {
    if required == [] then []
    else (if HasField(fields, required[0]) then [] else [Error(MissingArgument, path + [Key(required[0])])])
         + MissingErrors(required[1..], fields, path)
  }

  function UnknownErrors(properties: seq<Property>, fields: seq<Field>, path: seq<Segment>): seq<Error> {
    if fields == [] then []
    else (if Declared(properties, fields[0].name) < |properties| then [] else [Error(UnknownArgument, path + [Key(fields[0].name)])])
         + UnknownErrors(properties, fields[1..], path)
  }

  /** `_validate_schema_value` */
  function Validate(v: Json, s: Schema, path: seq<Segment>): seq<Error>
    decreases s, 1
  {
    var alternatives := Alternatives(s);
    if alternatives.Nodes? then
      if exists i | 0 <= i < |alternatives.nodes| :: alternatives.nodes[i].Sub? && Validate(v, alternatives.nodes[i].schema, path) == []
      then [] else [Error(WrongType, path)]
    else if !MatchesType(v, s.typ) then [Error(WrongType, path)]
    else if s.enum.Some? && !(exists i | 0 <= i < |s.enum.value| :: Same(v, s.enum.value[i])) then [Error(WrongValue, path)]
    else match v
         case JObject(fields) =>
           MissingErrors(s.required, fields, path)
           + (if s.closed then UnknownErrors(s.properties, fields, path) else [])
           + FieldErrors(fields, s, path)
         case JArray(items) => ItemErrors(items, s, path, |items|)
         case _ => []
  }

  function FieldErrors(fields: seq<Field>, s: Schema, path: seq<Segment>): seq<Error>
    decreases s, 0, |fields|
  {
    if fields == [] then []
    else
      var p := Declared(s.properties, fields[0].name);
      (if p < |s.properties| && s.properties[p].node.Sub?
       then Validate(fields[0].value, s.properties[p].node.schema, path + [Key(fields[0].name)]) else [])
      + FieldErrors(fields[1..], s, path)
  }

  function ItemErrors(items: seq<Json>, s: Schema, path: seq<Segment>, n: nat): seq<Error>
    requires n <= |items|
    decreases s, 0, n
  {
    if n == 0 || s.items.NotASchema? then []
    else ItemErrors(items, s, path, n - 1) + Validate(items[n - 1], s.items.schema, path + [Index(n - 1)])
  }

  // ---- what it means to conform -------------------------------------------------------------

  /** The type names that a value has. */
  function TypesOf(v: Json): set<TypeName> {
    match v
    case JNull => {NullType}
    case JBool(_) => {BooleanType}
    case JInt(_) => {IntegerType, NumberType}
    case JFloat(_) => {NumberType}
    case JString(_) => {StringType}
    case JArray(_) => {ArrayType}
    case JObject(_) => {ObjectType}
  }

  /** The type names that a "type" entry lists at any depth; None is an entry that allows everything. */
  function Leaves(t: TypeSpec): set<Option<TypeName>> {
    match t
    case Untyped => {None}
    case Typed(name) => if name.UnknownType? then {None} else {Some(name)}
    case AnyOfTypes(specs) => set i, leaf | 0 <= i < |specs| && leaf in Leaves(specs[i]) :: leaf
  }

  ghost predicate TypeAllowed(v: Json, t: TypeSpec) {
    None in Leaves(t) || exists name :: name in TypesOf(v) && Some(name) in Leaves(t)
  }

  /** Declarative conformance, at every depth of the value. */
  ghost predicate Conforms(v: Json, s: Schema)
    decreases s, 1
  {
    match Alternatives(s)
    case Nodes(nodes) => exists i | 0 <= i < |nodes| :: nodes[i].Sub? && Conforms(v, nodes[i].schema)
    case NoList =>
      && TypeAllowed(v, s.typ)
      && (s.enum.Some? ==> exists i | 0 <= i < |s.enum.value| :: Same(v, s.enum.value[i]))
      && (v.JObject? ==>
            && (forall i | 0 <= i < |s.required| :: HasField(v.fields, s.required[i]))
            && (s.closed ==> forall i | 0 <= i < |v.fields| :: Declared(s.properties, v.fields[i].name) < |s.properties|)
            && (forall i | 0 <= i < |v.fields| :: FieldConforms(v.fields[i], s)))
      && (v.JArray? && s.items.Sub? ==> forall i | 0 <= i < |v.items| :: Conforms(v.items[i], s.items.schema))
  }

  /** A field conforms to the property that declares it, if that has a schema. */
  ghost predicate FieldConforms(f: Field, s: Schema)
    decreases s, 0
  {
    var p := Declared(s.properties, f.name);
    p < |s.properties| && s.properties[p].node.Sub? ==> Conforms(f.value, s.properties[p].node.schema)
  }

  lemma {:induction false} TypeCheckIsRight(v: Json, t: TypeSpec)
    ensures MatchesType(v, t) <==> TypeAllowed(v, t)
  {
    match t
    case AnyOfTypes(specs) =>
      forall i | 0 <= i < |specs| ensures MatchesType(v, specs[i]) <==> TypeAllowed(v, specs[i]) {
        TypeCheckIsRight(v, specs[i]);
      }
    case _ =>
  }

  lemma {:induction false} NoMissing(required: seq<string>, fields: seq<Field>, path: seq<Segment>)
    ensures MissingErrors(required, fields, path) == [] <==> forall i | 0 <= i < |required| :: HasField(fields, required[i])
  {
    if required != [] {
      NoMissing(required[1..], fields, path);
      assert forall i | 0 < i < |required| :: required[i] == required[1..][i - 1];
    }
  }

  lemma {:induction false} NoUnknown(properties: seq<Property>, fields: seq<Field>, path: seq<Segment>)
    ensures UnknownErrors(properties, fields, path) == [] <==> forall i | 0 <= i < |fields| :: Declared(properties, fields[i].name) < |properties|
  {
    if fields != [] {
      NoUnknown(properties, fields[1..], path);
      assert forall i | 0 < i < |fields| :: fields[i] == fields[1..][i - 1];
    }
  }

  lemma {:induction false} NoFieldErrors(fields: seq<Field>, s: Schema, path: seq<Segment>)
    ensures FieldErrors(fields, s, path) == [] <==> forall i | 0 <= i < |fields| :: FieldConforms(fields[i], s)
    decreases s, 0, |fields|
  {
    if fields != [] {
      NoFieldErrors(fields[1..], s, path);
      assert forall i | 0 < i < |fields| :: fields[i] == fields[1..][i - 1];
      var p := Declared(s.properties, fields[0].name);
      if p < |s.properties| && s.properties[p].node.Sub? {
        ValidIffConforms(fields[0].value, s.properties[p].node.schema, path + [Key(fields[0].name)]);
      }
    }
  }

  lemma {:induction false} NoItemErrors(items: seq<Json>, s: Schema, path: seq<Segment>, n: nat)
    requires n <= |items| && s.items.Sub?
    ensures ItemErrors(items, s, path, n) == [] <==> forall i | 0 <= i < n :: Conforms(items[i], s.items.schema)
    decreases s, 0, n
  {
    if n > 0 {
      NoItemErrors(items, s, path, n - 1);
      ValidIffConforms(items[n - 1], s.items.schema, path + [Index(n - 1)]);
    }
  }

  /** The validator reports nothing exactly for conforming values, whatever the depth. */
  lemma {:induction false} ValidIffConforms(v: Json, s: Schema, path: seq<Segment>)
    ensures Validate(v, s, path) == [] <==> Conforms(v, s)
    decreases s, 1
  {
    var alternatives := Alternatives(s);
    if alternatives.Nodes? {
      forall i | 0 <= i < |alternatives.nodes| && alternatives.nodes[i].Sub?
        ensures Validate(v, alternatives.nodes[i].schema, path) == [] <==> Conforms(v, alternatives.nodes[i].schema)
      {
        ValidIffConforms(v, alternatives.nodes[i].schema, path);
      }
    } else {
      TypeCheckIsRight(v, s.typ);
      match v
      case JObject(fields) =>
        NoMissing(s.required, fields, path);
        NoUnknown(s.properties, fields, path);
        NoFieldErrors(fields, s, path);
      case JArray(items) =>
        if s.items.Sub? {
          NoItemErrors(items, s, path, |items|);
        }
      case _ =>
    }
  }

  /** A non-empty oneOf is looked at instead of anyOf; an empty or missing one leaves the choice to anyOf. */
  lemma OneOfGoesFirst(v: Json, s: Schema, path: seq<Segment>, other: NodeList)
    ensures s.oneOf.Nodes? && s.oneOf.nodes != [] ==> Validate(v, s.(anyOf := other), path) == Validate(v, s, path)
    ensures (s.oneOf == NoList || s.oneOf == Nodes([])) && s.anyOf.Nodes? && s.anyOf.nodes != [] ==>
              Validate(v, s, path) == Validate(v, s.(oneOf := s.anyOf, anyOf := other), path)
  {
  }

  // ---- which errors are reported -------------------------------------------------------------

  /** The error lies at depth `n` or below; a missing or unknown argument lies below it. */
  predicate AtDepth(e: Error, n: nat) {
    |e.path| >= n && (e.kind.MissingArgument? || e.kind.UnknownArgument? ==> |e.path| > n)
  }

  predicate AllAtDepth(errors: seq<Error>, n: nat) {
    forall i | 0 <= i < |errors| :: AtDepth(errors[i], n)
  }

  lemma {:induction false} ArgumentErrorsAreBelow(required: seq<string>, properties: seq<Property>, fields: seq<Field>, path: seq<Segment>)
    ensures AllAtDepth(MissingErrors(required, fields, path), |path|)
    ensures AllAtDepth(UnknownErrors(properties, fields, path), |path|)
    decreases |required| + |fields|
  {
    if required != [] {
      ArgumentErrorsAreBelow(required[1..], properties, fields, path);
    } else if fields != [] {
      ArgumentErrorsAreBelow(required, properties, fields[1..], path);
    }
  }

  predicate ReportsMissing(name: string, fields: seq<Field>, path: seq<Segment>, e: Error) {
    !HasField(fields, name) && e == Error(MissingArgument, path + [Key(name)])
  }

  predicate ReportsUnknown(properties: seq<Property>, f: Field, path: seq<Segment>, e: Error) {
    Declared(properties, f.name) == |properties| && e == Error(UnknownArgument, path + [Key(f.name)])
  }

  lemma {:induction false} MissingAreExact(required: seq<string>, fields: seq<Field>, path: seq<Segment>)
    ensures forall e :: e in MissingErrors(required, fields, path) <==>
              exists i :: 0 <= i < |required| && ReportsMissing(required[i], fields, path, e)
  {
    if required != [] {
      var rest := required[1..];
      MissingAreExact(rest, fields, path);
      forall e ensures e in MissingErrors(required, fields, path) <==>
                exists i :: 0 <= i < |required| && ReportsMissing(required[i], fields, path, e)
      {
        if e in MissingErrors(rest, fields, path) {
          var i :| 0 <= i < |rest| && ReportsMissing(rest[i], fields, path, e);
          assert rest[i] == required[i + 1];
        }
        if i :| 0 < i < |required| && ReportsMissing(required[i], fields, path, e) {
          assert rest[i - 1] == required[i];
        }
      }
    }
  }

  lemma {:induction false} UnknownAreExact(properties: seq<Property>, fields: seq<Field>, path: seq<Segment>)
    ensures forall e :: e in UnknownErrors(properties, fields, path) <==>
              exists i :: 0 <= i < |fields| && ReportsUnknown(properties, fields[i], path, e)
  {
    if fields != [] {
      var rest := fields[1..];
      UnknownAreExact(properties, rest, path);
      forall e ensures e in UnknownErrors(properties, fields, path) <==>
                exists i :: 0 <= i < |fields| && ReportsUnknown(properties, fields[i], path, e)
      {
        if e in UnknownErrors(properties, rest, path) {
          var i :| 0 <= i < |rest| && ReportsUnknown(properties, rest[i], path, e);
          assert rest[i] == fields[i + 1];
        }
        if i :| 0 < i < |fields| && ReportsUnknown(properties, fields[i], path, e) {
          assert rest[i - 1] == fields[i];
        }
      }
    }
  }

  /** Errors of a value are reported at its path or below, those of its parts strictly below. */
  lemma {:induction false} ErrorsAreBelow(v: Json, s: Schema, path: seq<Segment>)
    ensures AllAtDepth(Validate(v, s, path), |path|)
    decreases s, 1
  {
    if Alternatives(s) == NoList {
      match v
      case JObject(fields) =>
        ArgumentErrorsAreBelow(s.required, s.properties, fields, path);
        FieldErrorsAreBelow(fields, s, path);
      case JArray(items) => ItemErrorsAreBelow(items, s, path, |items|);
      case _ =>
    }
  }

  lemma {:induction false} FieldErrorsAreBelow(fields: seq<Field>, s: Schema, path: seq<Segment>)
    ensures AllAtDepth(FieldErrors(fields, s, path), |path| + 1)
    decreases s, 0, |fields|
  {
    if fields != [] {
      FieldErrorsAreBelow(fields[1..], s, path);
      var p := Declared(s.properties, fields[0].name);
      if p < |s.properties| && s.properties[p].node.Sub? {
        ErrorsAreBelow(fields[0].value, s.properties[p].node.schema, path + [Key(fields[0].name)]);
      }
    }
  }

  lemma {:induction false} ItemErrorsAreBelow(items: seq<Json>, s: Schema, path: seq<Segment>, n: nat)
    requires n <= |items|
    ensures AllAtDepth(ItemErrors(items, s, path, n), |path| + 1)
    decreases s, 0, n
  {
    if n > 0 && s.items.Sub? {
      ItemErrorsAreBelow(items, s, path, n - 1);
      ErrorsAreBelow(items[n - 1], s.items.schema, path + [Index(n - 1)]);
    }
  }

  /** The value passes type and enumeration, so that its parts are looked at. */
  ghost predicate Opened(v: Json, s: Schema) {
    && Alternatives(s) == NoList && TypeAllowed(v, s.typ)
    && (s.enum.Some? ==> exists i | 0 <= i < |s.enum.value| :: Same(v, s.enum.value[i]))
  }

  /** The parts of an opened object and their errors. */
  lemma OpenedErrors(fields: seq<Field>, s: Schema, path: seq<Segment>)
    requires Opened(JObject(fields), s)
    ensures Validate(JObject(fields), s, path)
         == MissingErrors(s.required, fields, path) + (if s.closed then UnknownErrors(s.properties, fields, path) else [])
            + FieldErrors(fields, s, path)
    ensures forall e | e in FieldErrors(fields, s, path) :: AtDepth(e, |path| + 1)
  {
    TypeCheckIsRight(JObject(fields), s.typ);
    FieldErrorsAreBelow(fields, s, path);
    var below := FieldErrors(fields, s, path);
    forall e | e in below ensures AtDepth(e, |path| + 1) {
      var i :| 0 <= i < |below| && below[i] == e;
    }
  }

  /** A missing argument is reported exactly for a required name without a field. */
  lemma MissingIsExact(fields: seq<Field>, s: Schema, path: seq<Segment>, name: string)
    requires Opened(JObject(fields), s)
    ensures Error(MissingArgument, path + [Key(name)]) in Validate(JObject(fields), s, path)
            <==> name in s.required && !HasField(fields, name)
  {
    OpenedErrors(fields, s, path);
    MissingAreExact(s.required, fields, path);
    UnknownAreExact(s.properties, fields, path);
    KeysDiffer(path, name);
  }

  /** An unknown argument is reported exactly for an undeclared field of a closed schema. */
  lemma UnknownIsExact(fields: seq<Field>, s: Schema, path: seq<Segment>, name: string)
    requires Opened(JObject(fields), s)
    ensures Error(UnknownArgument, path + [Key(name)]) in Validate(JObject(fields), s, path)
            <==> s.closed && HasField(fields, name) && Declared(s.properties, name) == |s.properties|
  {
    OpenedErrors(fields, s, path);
    MissingAreExact(s.required, fields, path);
    UnknownAreExact(s.properties, fields, path);
    KeysDiffer(path, name);
  }

  /** A wrong type or value is reported at a value's own path exactly for its own type or value. */
  lemma OwnErrorsAreExact(v: Json, s: Schema, path: seq<Segment>)
    ensures Error(WrongType, path) in Validate(v, s, path)
            <==> if Alternatives(s).Nodes? then !Conforms(v, s) else !TypeAllowed(v, s.typ)
    ensures Error(WrongValue, path) in Validate(v, s, path)
            <==> Alternatives(s) == NoList && TypeAllowed(v, s.typ) && !Opened(v, s)
  {
    TypeCheckIsRight(v, s.typ);
    if Alternatives(s).Nodes? {
      ValidIffConforms(v, s, path);
    } else if Opened(v, s) {
      match v
      case JObject(fields) =>
        OpenedErrors(fields, s, path);
        MissingAreExact(s.required, fields, path);
        UnknownAreExact(s.properties, fields, path);
      case JArray(items) => ItemErrorsAreBelow(items, s, path, |items|);
      case _ =>
    }
  }

  lemma KeysDiffer(path: seq<Segment>, name: string)
    ensures forall other :: path + [Key(other)] == path + [Key(name)] ==> other == name
  {
    forall other | path + [Key(other)] == path + [Key(name)] ensures other == name {
      assert (path + [Key(other)])[|path|] == Key(other) && (path + [Key(name)])[|path|] == Key(name);
    }
  }

  // ---- paths ------------------------------------------------------------------------------------

  function Prefixed(path: seq<Segment>, errors: seq<Error>): seq<Error> {
    seq(|errors|, i requires 0 <= i < |errors| => Error(errors[i].kind, path + errors[i].path))
  }

  lemma PrefixedSplits(path: seq<Segment>, a: seq<Error>, b: seq<Error>)
    ensures Prefixed(path, a + b) == Prefixed(path, a) + Prefixed(path, b)
  {
  }

  lemma PrefixedTwice(p: seq<Segment>, q: seq<Segment>, errors: seq<Error>)
    ensures Prefixed(p, Prefixed(q, errors)) == Prefixed(p + q, errors)
  {
    forall i | 0 <= i < |errors| ensures p + (q + errors[i].path) == (p + q) + errors[i].path {
    }
  }

  lemma {:induction false} MissingMoves(required: seq<string>, fields: seq<Field>, path: seq<Segment>)
    ensures MissingErrors(required, fields, path) == Prefixed(path, MissingErrors(required, fields, []))
  {
    if required != [] {
      MissingMoves(required[1..], fields, path);
      var first: seq<Error> := if HasField(fields, required[0]) then [] else [Error(MissingArgument, [] + [Key(required[0])])];
      PrefixedSplits(path, first, MissingErrors(required[1..], fields, []));
      assert path + ([] + [Key(required[0])]) == path + [Key(required[0])];
    }
  }

  lemma {:induction false} UnknownMoves(properties: seq<Property>, fields: seq<Field>, path: seq<Segment>)
    ensures UnknownErrors(properties, fields, path) == Prefixed(path, UnknownErrors(properties, fields, []))
  {
    if fields != [] {
      UnknownMoves(properties, fields[1..], path);
      var known := Declared(properties, fields[0].name) < |properties|;
      var first: seq<Error> := if known then [] else [Error(UnknownArgument, [] + [Key(fields[0].name)])];
      PrefixedSplits(path, first, UnknownErrors(properties, fields[1..], []));
      assert path + ([] + [Key(fields[0].name)]) == path + [Key(fields[0].name)];
    }
  }

  /** Where the value sits only shows in the paths of its errors. */
  lemma {:induction false} ErrorsMove(v: Json, s: Schema, path: seq<Segment>)
    ensures Validate(v, s, path) == Prefixed(path, Validate(v, s, []))
    decreases s, 1
  {
    assert path + [] == path;
    var alternatives := Alternatives(s);
    if alternatives.Nodes? {
      forall i | 0 <= i < |alternatives.nodes| && alternatives.nodes[i].Sub?
        ensures Validate(v, alternatives.nodes[i].schema, path) == [] <==> Validate(v, alternatives.nodes[i].schema, []) == []
      {
        ErrorsMove(v, alternatives.nodes[i].schema, path);
      }
    } else if v.JObject? {
      MissingMoves(s.required, v.fields, path);
      UnknownMoves(s.properties, v.fields, path);
      FieldErrorsMove(v.fields, s, path);
      var unknown := if s.closed then UnknownErrors(s.properties, v.fields, []) else [];
      PrefixedSplits(path, MissingErrors(s.required, v.fields, []), unknown);
      PrefixedSplits(path, MissingErrors(s.required, v.fields, []) + unknown, FieldErrors(v.fields, s, []));
    } else if v.JArray? {
      ItemErrorsMove(v.items, s, path, |v.items|);
    }
  }

  lemma {:induction false} FieldErrorsMove(fields: seq<Field>, s: Schema, path: seq<Segment>)
    ensures FieldErrors(fields, s, path) == Prefixed(path, FieldErrors(fields, s, []))
    decreases s, 0, |fields|
  {
    if fields != [] {
      FieldErrorsMove(fields[1..], s, path);
      var p := Declared(s.properties, fields[0].name);
      if p < |s.properties| && s.properties[p].node.Sub? {
        var v, sub, key := fields[0].value, s.properties[p].node.schema, [Key(fields[0].name)];
        assert [] + key == key;
        ErrorsMove(v, sub, path + key);
        ErrorsMove(v, sub, key);
        PrefixedTwice(path, key, Validate(v, sub, []));
        PrefixedSplits(path, Validate(v, sub, key), FieldErrors(fields[1..], s, []));
      } else {
        assert FieldErrors(fields, s, []) == FieldErrors(fields[1..], s, []);
      }
    }
  }

  lemma {:induction false} ItemErrorsMove(items: seq<Json>, s: Schema, path: seq<Segment>, n: nat)
    requires n <= |items|
    ensures ItemErrors(items, s, path, n) == Prefixed(path, ItemErrors(items, s, [], n))
    decreases s, 0, n
  {
    if n > 0 && s.items.Sub? {
      ItemErrorsMove(items, s, path, n - 1);
      var v, index := items[n - 1], [Index(n - 1)];
      assert [] + index == index;
      ErrorsMove(v, s.items.schema, path + index);
      ErrorsMove(v, s.items.schema, index);
      PrefixedTwice(path, index, Validate(v, s.items.schema, []));
      PrefixedSplits(path, ItemErrors(items, s, [], n - 1), Validate(v, s.items.schema, index));
    }
  }

  // ---- tool arguments ---------------------------------------------------------------------------

  /** `SkillToolSpec.validate_arguments` */
  method ValidateArguments(s: Schema, arguments: seq<Field>) returns (errors: seq<Error>)
    ensures errors == Validate(JObject(arguments), ObjectPart(s), [])
  {
    errors := MissingErrors(s.required, arguments, []);
    if s.closed {
      errors := errors + UnknownErrors(s.properties, arguments, []);
    }
    ghost var own := MissingErrors(s.required, arguments, []) + (if s.closed then UnknownErrors(s.properties, arguments, []) else []);
    assert arguments[0..] == arguments;
    for i := 0 to |arguments|
      invariant errors + FieldErrors(arguments[i..], s, []) == own + FieldErrors(arguments, s, [])
    {
      assert arguments[i..][1..] == arguments[i + 1..];
      var p := Declared(s.properties, arguments[i].name);
      ghost var rest := FieldErrors(arguments[i + 1..], s, []);
      if p < |s.properties| && s.properties[p].node.Sub? {
        var found := Validate(arguments[i].value, s.properties[p].node.schema, [Key(arguments[i].name)]);
        assert [] + [Key(arguments[i].name)] == [Key(arguments[i].name)];
        assert errors + (found + rest) == (errors + found) + rest;
        errors := errors + found;
      } else {
        assert FieldErrors(arguments[i..], s, []) == [] + rest == rest;
      }
    }
    assert errors == own + FieldErrors(arguments, s, []) by {
      assert arguments[|arguments|..] == [] && errors + [] == errors;
    }
    SameFieldErrors(arguments, s);
    ArgumentsOfObject(s, arguments);
  }

  lemma ArgumentsOfObject(s: Schema, arguments: seq<Field>)
    ensures Validate(JObject(arguments), ObjectPart(s), [])
            == MissingErrors(s.required, arguments, []) + (if s.closed then UnknownErrors(s.properties, arguments, []) else [])
               + FieldErrors(arguments, ObjectPart(s), [])
  {
    assert MatchesType(JObject(arguments), Typed(ObjectType));
  }

  /** What the argument check looks at: the schema without alternatives and enumeration at its top, typed as an object. */
  function ObjectPart(s: Schema): Schema {
    s.(oneOf := NoList, anyOf := NoList, enum := None, typ := Typed(ObjectType))
  }

  lemma {:induction false} SameFieldErrors(fields: seq<Field>, s: Schema)
    ensures FieldErrors(fields, ObjectPart(s), []) == FieldErrors(fields, s, [])
    decreases |fields|
  {
    if fields != [] {
      SameFieldErrors(fields[1..], s);
    }
  }

  /** For an object schema without top-level oneOf, anyOf and enum the argument check is the full validation. */
  lemma ArgumentsAreFullyValidated(s: Schema, arguments: seq<Field>, path: seq<Segment>)
    requires s.typ == Typed(ObjectType) && Alternatives(s) == NoList && s.enum == None
    ensures Validate(JObject(arguments), s, path) == Prefixed(path, Validate(JObject(arguments), ObjectPart(s), []))
    ensures Validate(JObject(arguments), ObjectPart(s), []) == [] <==> Conforms(JObject(arguments), s)
  {
    SameFieldErrors(arguments, s);
    ErrorsMove(JObject(arguments), s, path);
    ValidIffConforms(JObject(arguments), s, []);
  }

  predicate Accepted(s: Schema, arguments: seq<Field>) {
    Validate(JObject(arguments), ObjectPart(s), []) == []
  }

  predicate Listed(s: Schema, v: Json) {
    s.enum.Some? ==> exists i | 0 <= i < |s.enum.value| :: Same(v, s.enum.value[i])
  }

  /**
   Exactly when the argument check of a tool is wrong about its schema: without alternatives at the
   top, for accepted arguments that the top enumeration does not list; with alternatives, for
   arguments that are accepted without conforming to one, or conform to one without being accepted.
   */
  lemma AcceptanceDiffersExactly(s: Schema, arguments: seq<Field>)
    requires s.typ == Typed(ObjectType)
    ensures Accepted(s, arguments) != Conforms(JObject(arguments), s)
            <==> match Alternatives(s)
                 case NoList => Accepted(s, arguments) && !Listed(s, JObject(arguments))
                 case Nodes(nodes) =>
                   Accepted(s, arguments) != exists i | 0 <= i < |nodes| :: nodes[i].Sub? && Conforms(JObject(arguments), nodes[i].schema)
  {
    if Alternatives(s) == NoList {
      ArgumentsConformToObjectPart(s, arguments);
    }
  }

  /** Without alternatives, conforming is being accepted and listed. */
  lemma ArgumentsConformToObjectPart(s: Schema, arguments: seq<Field>)
    requires s.typ == Typed(ObjectType) && Alternatives(s) == NoList
    ensures Conforms(JObject(arguments), s) <==> Accepted(s, arguments) && Listed(s, JObject(arguments))
  {
    var v, part := JObject(arguments), ObjectPart(s);
    ValidIffConforms(v, part, []);
    assert Alternatives(part) == NoList;
    forall i | 0 <= i < |arguments| ensures FieldConforms(arguments[i], s) == FieldConforms(arguments[i], part) {
    }
  }

  /** A schema that only null conforms to. */
  const ONLY_NULL := Schema(NoList, NoList, Typed(NullType), None, [], [], false, NotASchema)

  /** The smallest strict tool schema: no properties, nothing required, nothing else allowed. */
  const NO_ARGUMENTS := Schema(NoList, NoList, Typed(ObjectType), None, [], [], true, NotASchema)

  lemma OnlyNullRefusesObjects(s: Schema)
    requires Alternatives(s) == Nodes([Sub(ONLY_NULL)])
    ensures !Conforms(JObject([]), s)
  {
    assert Alternatives(ONLY_NULL) == NoList;
  }

  lemma EnumRefusesObjects(s: Schema)
    requires Alternatives(s) == NoList && s.enum == Some([JNull])
    ensures !Conforms(JObject([]), s)
  {
    assert !Listed(s, JObject([]));
  }

  lemma EmptyArgumentsAreAccepted(s: Schema)
    requires s.required == [] && s.closed
    ensures Accepted(s, [])
  {
    ArgumentsOfObject(s, []);
  }

  /** A oneOf, an anyOf and an enumeration at the top each refuse the empty arguments that the check accepts. */
  lemma TopAlternativesAreIgnored(s: Schema)
    requires || s == NO_ARGUMENTS.(oneOf := Nodes([Sub(ONLY_NULL)]))
             || s == NO_ARGUMENTS.(anyOf := Nodes([Sub(ONLY_NULL)]))
             || s == NO_ARGUMENTS.(enum := Some([JNull]))
    ensures Accepted(s, []) && !Conforms(JObject([]), s)
  {
    EmptyArgumentsAreAccepted(s);
    if s.enum.Some? {
      EnumRefusesObjects(s);
    } else {
      OnlyNullRefusesObjects(s);
    }
  }
}
