/**
 The columns of an entity class: its own, and those of its base classes, with the
 nearest declaration of a name winning.  Base classes may form a cycle.
 */
module EntityColumns {
  import opened Basics

  datatype Column = Column(name: string, details: string)

  /** A class is identified by its file and its name. */
  datatype ClassId = ClassId(file: string, name: string)

  /** What is read of a class: the base class that is named and found, and the columns declared. */
  datatype Class = Class(base: Option<ClassId>, columns: seq<Column>)

  type Sources = map<ClassId, Class>

  predicate Closed(src: Sources) {
    forall c | c in src && src[c].base.Some? :: src[c].base.value in src
  }

  /** The base classes in the order in which they are read, until one is met again. */
  function Bases(src: Sources, c: ClassId, seen: set<ClassId>): (bases: seq<ClassId>)
    requires Closed(src) && c in src
    ensures forall b | b in bases :: b in src
    decreases |src.Keys - seen|
  {
    if c in seen || src[c].base == None then []
    else
      ShrinksBy(src, c, seen);
      [src[c].base.value] + Bases(src, src[c].base.value, seen + {c})
  }

  lemma ShrinksBy(src: Sources, c: ClassId, seen: set<ClassId>)
    requires c in src && c !in seen
    ensures |src.Keys - (seen + {c})| < |src.Keys - seen|
  {
    assert src.Keys - seen == (src.Keys - (seen + {c})) + {c};
  }

  function ColumnsOf(src: Sources, classes: seq<ClassId>): seq<Column>
    requires forall c | c in classes :: c in src
  {
    if classes == [] then [] else src[classes[0]].columns + ColumnsOf(src, classes[1..])
  }

  function FirstNamed(columns: seq<Column>, name: string): (c: Option<Column>)
    ensures c.Some? <==> exists i :: 0 <= i < |columns| && columns[i].name == name
  {
    if columns == [] then None else if columns[0].name == name then Some(columns[0]) else FirstNamed(columns[1..], name)
  }

  predicate Names(columns: seq<Column>, name: string) {
    FirstNamed(columns, name).Some?
  }

  /** Columns of base classes are added in order, unless the name is there already. */
  function Merged(own: seq<Column>, inherited: seq<Column>): seq<Column> {
    if inherited == [] then own
    else
      var merged := Merged(own, inherited[..|inherited| - 1]);
      var last := inherited[|inherited| - 1];
      if Names(merged, last.name) then merged else merged + [last]
  }

  /** `_resolve_inherited_columns` */
  method ResolveInheritedColumns(src: Sources, c: ClassId, seen: set<ClassId>) returns (columns: seq<Column>)
    requires Closed(src) && c in src
    ensures columns == ColumnsOf(src, Bases(src, c, seen))
    decreases |src.Keys - seen|
  {
    columns := [];
    if c in seen {
      return;
    }
    var seen := seen + {c};
    if src[c].base == None {
      return;
    }
    var base := src[c].base.value;
    columns := columns + src[base].columns;
    ShrinksBy(src, c, seen - {c});
    assert seen - {c} + {c} == seen;
    var further := ResolveInheritedColumns(src, base, seen);
    columns := columns + further;
  }

  /** The merge in `parse_typeorm_entity`. */
  method MergeInheritedColumns(src: Sources, c: ClassId) returns (columns: seq<Column>)
    requires Closed(src) && c in src
    ensures columns == Merged(src[c].columns, ColumnsOf(src, Bases(src, c, {})))
  {
    columns := src[c].columns;
    var inherited := ResolveInheritedColumns(src, c, {});
    var names := set column | column in columns :: column.name;
    for i := 0 to |inherited|
      invariant columns == Merged(src[c].columns, inherited[..i])
      invariant forall name :: name in names <==> Names(columns, name)
    {
      assert inherited[..i + 1][..i] == inherited[..i];
      if inherited[i].name !in names {
        FirstNamedJoin(columns, [inherited[i]]);
        columns := columns + [inherited[i]];
        names := names + {inherited[i].name};
      }
    }
    assert inherited[..|inherited|] == inherited;
  }

  // ---- every base class is read, even in a cycle ----------------------------------------------

  /** The class `n` steps up, if there is one. */
  function Up(src: Sources, c: ClassId, n: nat): (a: Option<ClassId>)
    requires Closed(src) && c in src
    ensures a.Some? ==> a.value in src
  {
    if n == 0 then Some(c)
    else match Up(src, c, n - 1)
      case None => None
      case Some(a) => src[a].base
  }

  lemma {:induction false} BasesAreClosed(src: Sources, c: ClassId, seen: set<ClassId>, x: ClassId)
    requires Closed(src) && c in src && (x == c || x in Bases(src, c, seen)) && x !in seen && src[x].base.Some?
    ensures src[x].base.value in Bases(src, c, seen)
    decreases |src.Keys - seen|
  {
    if x != c {
      ShrinksBy(src, c, seen);
      BasesAreClosed(src, src[c].base.value, seen + {c}, x);
    }
  }

  /** However far up the classes go, and even around a cycle, each is among those read. */
  lemma {:induction false} EveryAncestorIsRead(src: Sources, c: ClassId, n: nat)
    requires Closed(src) && c in src && n > 0 && Up(src, c, n).Some?
    ensures Up(src, c, n).value in Bases(src, c, {})
  {
    if n > 1 {
      EveryAncestorIsRead(src, c, n - 1);
    }
    BasesAreClosed(src, c, {}, Up(src, c, n - 1).value);
  }

  /** Nothing but ancestors is read, each step up once. */
  lemma {:induction false} OnlyAncestorsAreRead(src: Sources, c: ClassId, seen: set<ClassId>, from: ClassId, n: nat, k: nat)
    requires Closed(src) && from in src && Up(src, from, n) == Some(c) && k < |Bases(src, c, seen)|
    ensures Up(src, from, n + 1 + k) == Some(Bases(src, c, seen)[k])
    decreases k
  {
    if k > 0 {
      OnlyAncestorsAreRead(src, src[c].base.value, seen + {c}, from, n + 1, k - 1);
    }
  }

  // ---- the nearest declaration wins ------------------------------------------------------------

  lemma {:induction false} FirstNamedJoin(a: seq<Column>, b: seq<Column>)
    ensures forall name :: FirstNamed(a + b, name) == if Names(a, name) then FirstNamed(a, name) else FirstNamed(b, name)
  {
    if a == [] {
      assert a + b == b;
    } else {
      assert (a + b)[1..] == a[1..] + b;
      FirstNamedJoin(a[1..], b);
    }
  }

  lemma {:induction false} MergedKeepsFirst(own: seq<Column>, inherited: seq<Column>)
    ensures forall name :: FirstNamed(Merged(own, inherited), name) == FirstNamed(own + inherited, name)
  {
    if inherited == [] {
      assert own + inherited == own;
    } else {
      var init, last := inherited[..|inherited| - 1], inherited[|inherited| - 1];
      MergedKeepsFirst(own, init);
      assert own + inherited == (own + init) + [last];
      FirstNamedJoin(own + init, [last]);
      FirstNamedJoin(Merged(own, init), [last]);
    }
  }

  /** Merging keeps the class's own columns as they are and adds every other name once. */
  lemma {:induction false} MergedAddsOnce(own: seq<Column>, inherited: seq<Column>)
    ensures own <= Merged(own, inherited)
    ensures forall i, j | 0 <= i < j < |Merged(own, inherited)| && j >= |own| ::
              Merged(own, inherited)[i].name != Merged(own, inherited)[j].name
  {
    if inherited != [] {
      MergedAddsOnce(own, inherited[..|inherited| - 1]);
    }
  }

  lemma {:induction false} FirstInClasses(src: Sources, classes: seq<ClassId>, k: nat, name: string)
    requires forall c | c in classes :: c in src
    requires k < |classes| && Names(src[classes[k]].columns, name)
    requires forall i | 0 <= i < k :: !Names(src[classes[i]].columns, name)
    ensures FirstNamed(ColumnsOf(src, classes), name) == FirstNamed(src[classes[k]].columns, name)
  {
    FirstNamedJoin(src[classes[0]].columns, ColumnsOf(src, classes[1..]));
    if k > 0 {
      FirstInClasses(src, classes[1..], k - 1, name);
    }
  }

  /** The first class up the chain that declares a name is read at its own distance, before any other that does. */
  lemma NearestIsReadFirst(src: Sources, c: ClassId, n: nat, name: string)
    requires Closed(src) && c in src && Up(src, c, n + 1).Some? && Names(src[Up(src, c, n + 1).value].columns, name)
    requires forall m | 0 <= m <= n && Up(src, c, m).Some? :: !Names(src[Up(src, c, m).value].columns, name)
    ensures var bases := Bases(src, c, {});
            && n < |bases| && Up(src, c, n + 1) == Some(bases[n])
            && forall i | 0 <= i < n :: !Names(src[bases[i]].columns, name)
  {
    var bases := Bases(src, c, {});
    EveryAncestorIsRead(src, c, n + 1);
    var k :| 0 <= k < |bases| && bases[k] == Up(src, c, n + 1).value;
    OnlyAncestorsAreRead(src, c, {}, c, 0, k);
    assert k >= n;
    OnlyAncestorsAreRead(src, c, {}, c, 0, n);
    forall i | 0 <= i < n ensures !Names(src[bases[i]].columns, name) {
      OnlyAncestorsAreRead(src, c, {}, c, 0, i);
      assert Up(src, c, i + 1).Some?;
    }
  }

  /** The column of a name is the one declared by the nearest class up the chain that declares it. */
  lemma NearestDeclarationWins(src: Sources, c: ClassId, n: nat, name: string)
    requires Closed(src) && c in src && Up(src, c, n).Some? && Names(src[Up(src, c, n).value].columns, name)
    requires forall m | 0 <= m < n && Up(src, c, m).Some? :: !Names(src[Up(src, c, m).value].columns, name)
    ensures FirstNamed(Merged(src[c].columns, ColumnsOf(src, Bases(src, c, {}))), name)
         == FirstNamed(src[Up(src, c, n).value].columns, name)
  {
    var own, bases := src[c].columns, Bases(src, c, {});
    MergedKeepsFirst(own, ColumnsOf(src, bases));
    FirstNamedJoin(own, ColumnsOf(src, bases));
    if n > 0 {
      assert Up(src, c, 0) == Some(c);
      NearestIsReadFirst(src, c, n - 1, name);
      FirstInClasses(src, bases, n - 1, name);
    }
  }
}
