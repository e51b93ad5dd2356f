/** Slots are numbered in the order of the parameter names, whatever order the parameters came in. */
module SlotOrder {
  import opened Basics
  import opened OrderedDict
  import opened FilterBinding

  // ---- the order of names -----------------------------------------------------------------

  lemma {:induction false} NamesAreTotal(a: string, b: string)
    ensures StringLe(a, b) || StringLe(b, a)
    ensures StringLe(a, b) && StringLe(b, a) <==> a == b
  {
    if a != "" && b != "" && a[0] == b[0] {
      NamesAreTotal(a[1..], b[1..]);
      assert a == [a[0]] + a[1..] && b == [b[0]] + b[1..];
    }
  }

  lemma {:induction false} NamesAreTransitive(a: string, b: string, c: string)
    requires StringLe(a, b) && StringLe(b, c)
    ensures StringLe(a, c)
  {
    if a != "" && a[0] == b[0] == c[0] {
      NamesAreTransitive(a[1..], b[1..], c[1..]);
    }
  }

  // ---- sorting by name -------------------------------------------------------------------------

  predicate Ordered(d: Dict<Value>) {
    forall i, j | 0 <= i < j < |d| :: StringLe(d[i].key, d[j].key)
  }

  lemma {:induction false} InsertKeepsOrder(e: Entry<Value>, d: Dict<Value>)
    requires Ordered(d)
    ensures Ordered(Insert(e, d))
  {
    if d == [] {
    } else if StringLe(e.key, d[0].key) {
      forall j | 0 <= j < |d| ensures StringLe(e.key, d[j].key) {
        if j > 0 {
          NamesAreTransitive(e.key, d[0].key, d[j].key);
        }
      }
    } else {
      var rest := Insert(e, d[1..]);
      InsertKeepsOrder(e, d[1..]);
      InsertKeeps(e, d[1..]);
      NamesAreTotal(e.key, d[0].key);
      forall j | 0 <= j < |rest| ensures StringLe(d[0].key, rest[j].key) {
        assert rest[j] in multiset(rest);
        if rest[j] != e {
          assert rest[j] in d[1..];
        }
      }
    }
  }

  lemma {:induction false} SortedIsOrdered(d: Dict<Value>)
    ensures Ordered(Sorted(d))
  {
    if d != [] {
      SortedIsOrdered(d[1..]);
      InsertKeepsOrder(d[0], Sorted(d[1..]));
    }
  }

  predicate DistinctNames(d: Dict<Value>) {
    forall e, f | e in d && f in d && e.key == f.key :: e == f
  }

  lemma SameTails(a: Dict<Value>, b: Dict<Value>)
    requires a != [] && b != [] && a[0] == b[0] && multiset(a) == multiset(b)
    ensures multiset(a[1..]) == multiset(b[1..]) && a == [a[0]] + a[1..] && b == [b[0]] + b[1..]
  {
    assert a == [a[0]] + a[1..] && b == [b[0]] + b[1..];
    assert multiset(a[1..]) == multiset(a) - multiset{a[0]} == multiset(b[1..]);
  }

  /** There is only one way to order entries with distinct names. */
  lemma {:induction false} OrderIsUnique(a: Dict<Value>, b: Dict<Value>)
    requires Ordered(a) && Ordered(b) && DistinctNames(a) && multiset(a) == multiset(b)
    ensures a == b
  {
    assert |a| == |multiset(a)| == |multiset(b)| == |b|;
    if a != [] {
      FirstIsSame(a, b);
      SameTails(a, b);
      OrderIsUnique(a[1..], b[1..]);
    }
  }

  lemma FirstIsSame(a: Dict<Value>, b: Dict<Value>)
    requires Ordered(a) && Ordered(b) && DistinctNames(a) && multiset(a) == multiset(b) && a != [] && b != []
    ensures a[0] == b[0]
  {
    assert a[0] in multiset(b) && b[0] in multiset(a);
    assert a[0] in b && b[0] in a;
    var i :| 0 <= i < |b| && b[i] == a[0];
    var j :| 0 <= j < |a| && a[j] == b[0];
    NamesAreTotal(a[0].key, b[0].key);
  }

  lemma DistinctKeysMeanDistinctNames(d: Dict<Value>)
    requires Distinct(d)
    ensures DistinctNames(d)
  {
  }

  /** The slots, ids and all, do not depend on the order in which the parameters came. */
  lemma SlotsIgnoreInsertionOrder(a: Dict<Value>, b: Dict<Value>, specs: seq<RawSpec>)
    requires Distinct(a) && multiset(a) == multiset(b)
    ensures Ordered(Sorted(a)) && Slots(a, specs) == Slots(b, specs)
  {
    SortedIsOrdered(a);
    SortedIsOrdered(b);
    SortedKeeps(a);
    SortedKeeps(b);
    forall e, f | e in Sorted(a) && f in Sorted(a) && e.key == f.key ensures e == f {
      SortedHasAll(a, e);
      SortedHasAll(a, f);
      DistinctKeysMeanDistinctNames(a);
    }
    OrderIsUnique(Sorted(a), Sorted(b));
  }
}
