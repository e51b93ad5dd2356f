/** The equality that enumerations of a tool schema use: that of decoded JSON, where truth values are numbers and objects have no order. */
module JsonEquality {
  import opened Basics
  import opened ToolSchema

  /** What the value counts as in a comparison of numbers. */
  predicate CountsAs(v: Json, x: real) {
    (v == JBool(true) && x == 1.0) || (v == JBool(false) && x == 0.0) || (v.JInt? && v.n as real == x) || (v.JFloat? && v.r == x)
  }

  predicate IsScalar(v: Json) {
    !v.JArray? && !v.JObject?
  }

  /** Two scalars are the same if they are one number, one text, or both null. */
  lemma SameScalars(a: Json, b: Json)
    requires IsScalar(a) || IsScalar(b)
    ensures Same(a, b) <==>
              || (a.JNull? && b.JNull?)
              || (a.JString? && b.JString? && a.s == b.s)
              || (exists x :: CountsAs(a, x) && CountsAs(b, x))
  {
    if Numeric(a).Some? {
      assert CountsAs(a, Numeric(a).value);
    }
  }

  // ---- objects ------------------------------------------------------------------------------

  /** The names of the fields are distinct, as they are in a decoded object. */
  predicate DistinctNames(fields: seq<Field>) {
    forall i, j | 0 <= i < j < |fields| :: fields[i].name != fields[j].name
  }

  function NamesUpTo(fields: seq<Field>, n: nat): set<string>
    requires n <= |fields|
  {
    set i | 0 <= i < n :: fields[i].name
  }

  lemma {:induction false} CountNames(fields: seq<Field>, n: nat)
    requires DistinctNames(fields) && n <= |fields|
    ensures |NamesUpTo(fields, n)| == n
  {
    if n > 0 {
      CountNames(fields, n - 1);
      assert NamesUpTo(fields, n) == NamesUpTo(fields, n - 1) + {fields[n - 1].name};
      assert fields[n - 1].name !in NamesUpTo(fields, n - 1);
    }
  }

  lemma SubsetOfSameSize(a: set<string>, b: set<string>)
    requires a <= b && |a| == |b|
    ensures a == b
  {
    assert b == a + (b - a) && |b - a| == 0;
  }

  /** There are as many fields on both sides, and every name of one side is on the other. */
  lemma SameNames(fs: seq<Field>, gs: seq<Field>)
    requires DistinctNames(fs) && DistinctNames(gs) && |fs| == |gs|
    requires forall i | 0 <= i < |fs| :: HasField(gs, fs[i].name)
    ensures forall name :: HasField(fs, name) <==> HasField(gs, name)
  {
    CountNames(fs, |fs|);
    CountNames(gs, |gs|);
    forall name | name in NamesUpTo(fs, |fs|) ensures name in NamesUpTo(gs, |gs|) {
      var i :| 0 <= i < |fs| && fs[i].name == name;
      assert HasField(gs, fs[i].name);
      var j :| 0 <= j < |gs| && gs[j].name == name;
    }
    SubsetOfSameSize(NamesUpTo(fs, |fs|), NamesUpTo(gs, |gs|));
    forall name ensures HasField(fs, name) <==> HasField(gs, name) {
      assert name in NamesUpTo(fs, |fs|) <==> HasField(fs, name);
      assert name in NamesUpTo(gs, |gs|) <==> HasField(gs, name);
    }
  }

  lemma SizesAgree(fs: seq<Field>, gs: seq<Field>)
    requires DistinctNames(fs) && DistinctNames(gs) && forall name :: HasField(fs, name) <==> HasField(gs, name)
    ensures |fs| == |gs|
  {
    CountNames(fs, |fs|);
    CountNames(gs, |gs|);
    forall name ensures name in NamesUpTo(fs, |fs|) <==> name in NamesUpTo(gs, |gs|) {
      assert name in NamesUpTo(fs, |fs|) <==> HasField(fs, name);
      assert name in NamesUpTo(gs, |gs|) <==> HasField(gs, name);
    }
    assert NamesUpTo(fs, |fs|) == NamesUpTo(gs, |gs|);
  }

  /** The fields that both sides have are the same. */
  predicate SharedFieldsSame(fs: seq<Field>, gs: seq<Field>) {
    forall i, j | 0 <= i < |fs| && 0 <= j < |gs| && fs[i].name == gs[j].name :: Same(fs[i].value, gs[j].value)
  }

  /** Two objects are the same, whatever the order of their fields, if and only if they have the same names with the same values. */
  lemma SameObjects(fs: seq<Field>, gs: seq<Field>)
    requires DistinctNames(fs) && DistinctNames(gs)
    ensures Same(JObject(fs), JObject(gs)) <==> (forall name :: HasField(fs, name) <==> HasField(gs, name)) && SharedFieldsSame(fs, gs)
  {
    if Same(JObject(fs), JObject(gs)) {
      forall i | 0 <= i < |fs| ensures HasField(gs, fs[i].name) {
        assert HasSame(gs, fs[i]);
        var j :| 0 <= j < |gs| && gs[j].name == fs[i].name && Same(fs[i].value, gs[j].value);
      }
      SameNames(fs, gs);
      forall i, j | 0 <= i < |fs| && 0 <= j < |gs| && fs[i].name == gs[j].name ensures Same(fs[i].value, gs[j].value) {
        assert HasSame(gs, fs[i]);
        var k :| 0 <= k < |gs| && gs[k].name == fs[i].name && Same(fs[i].value, gs[k].value);
        assert k == j;
      }
    }
    if (forall name :: HasField(fs, name) <==> HasField(gs, name)) && SharedFieldsSame(fs, gs) {
      SizesAgree(fs, gs);
      forall i | 0 <= i < |fs| ensures HasSame(gs, fs[i]) {
        assert HasField(fs, fs[i].name) && HasField(gs, fs[i].name);
        var j :| 0 <= j < |gs| && gs[j].name == fs[i].name;
      }
    }
  }

  // ---- an equality -----------------------------------------------------------------------------

  /** A value that a decoder can produce: no object has a name twice, at any depth. */
  predicate Decoded(v: Json) {
    match v
    case JArray(items) => forall i | 0 <= i < |items| :: Decoded(items[i])
    case JObject(fields) => DistinctNames(fields) && forall i | 0 <= i < |fields| :: Decoded(fields[i].value)
    case _ => true
  }

  lemma {:induction false} SameIsReflexive(v: Json)
    requires Decoded(v)
    ensures Same(v, v)
  {
    match v
    case JArray(items) =>
      forall i | 0 <= i < |items| ensures Same(items[i], items[i]) {
        SameIsReflexive(items[i]);
      }
    case JObject(fields) =>
      forall i, j | 0 <= i < |fields| && 0 <= j < |fields| && fields[i].name == fields[j].name ensures Same(fields[i].value, fields[j].value) {
        assert i == j;
        SameIsReflexive(fields[i].value);
      }
      SameObjects(fields, fields);
    case _ =>
  }

  /** On decoded values it does not matter which side is which. */
  lemma {:induction false} SameIsSymmetric(a: Json, b: Json)
    requires Decoded(a) && Decoded(b)
    ensures Same(a, b) <==> Same(b, a)
  {
    if a.JArray? && b.JArray? {
      forall i | 0 <= i < |a.items| && i < |b.items| ensures Same(a.items[i], b.items[i]) <==> Same(b.items[i], a.items[i]) {
        SameIsSymmetric(a.items[i], b.items[i]);
      }
    } else if a.JObject? && b.JObject? {
      forall i, j | 0 <= i < |a.fields| && 0 <= j < |b.fields|
        ensures Same(a.fields[i].value, b.fields[j].value) <==> Same(b.fields[j].value, a.fields[i].value)
      {
        SameIsSymmetric(a.fields[i].value, b.fields[j].value);
      }
      SameObjects(a.fields, b.fields);
      SameObjects(b.fields, a.fields);
    } else if IsScalar(a) || IsScalar(b) {
      SameScalars(a, b);
      SameScalars(b, a);
    }
  }
}
