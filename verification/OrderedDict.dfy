/** Python dictionaries with string keys: the entries in insertion order, each key once. */
module OrderedDict {
  import opened Basics

  datatype Entry<+T> = Entry(key: string, value: T)

  type Dict<T> = seq<Entry<T>>

  predicate Distinct<T>(d: Dict<T>) {
    forall i, j | 0 <= i < j < |d| :: d[i].key != d[j].key
  }

  function Keys<T>(d: Dict<T>): set<string> {
    set i | 0 <= i < |d| :: d[i].key
  }

  /** The position of `key` among the entries, or the length if it is not there. */
  function Position<T>(d: Dict<T>, key: string): (p: nat)
    ensures p <= |d| && (p < |d| ==> d[p].key == key) && (p == |d| <==> key !in Keys(d))
    ensures forall i | 0 <= i < p :: d[i].key != key
  {
    if d == [] then 0
    else if d[0].key == key then 0
    else
      var p := Position(d[1..], key);
      assert forall i | 0 < i < |d| :: d[i] == d[1..][i - 1];
      assert key in Keys(d) <==> key in Keys(d[1..]) by {
        if key in Keys(d) {
          var i :| 0 <= i < |d| && d[i].key == key;
          assert d[1..][i - 1].key == key;
        }
        if key in Keys(d[1..]) {
          var i :| 0 <= i < |d[1..]| && d[1..][i].key == key;
          assert d[i + 1].key == key;
        }
      }
      p + 1
  }

  function Find<T>(d: Dict<T>, key: string): Option<T> {
    var p := Position(d, key);
    if p < |d| then Some(d[p].value) else None
  }

  /** `d[key] = value`: an existing key keeps its place. */
  function Put<T>(d: Dict<T>, e: Entry<T>): Dict<T> {
    var p := Position(d, e.key);
    if p < |d| then d[p := e] else d + [e]
  }

  function PutAll<T>(d: Dict<T>, es: seq<Entry<T>>): Dict<T> {
    if es == [] then d else Put(PutAll(d, es[..|es| - 1]), es[|es| - 1])
  }

  lemma PutFacts<T>(d: Dict<T>, e: Entry<T>)
    requires Distinct(d)
    ensures Distinct(Put(d, e)) && Keys(Put(d, e)) == Keys(d) + {e.key}
    ensures forall k :: Find(Put(d, e), k) == if k == e.key then Some(e.value) else Find(d, k)
  {
    var r := Put(d, e);
    forall k
      ensures k in Keys(r) <==> k in Keys(d) || k == e.key
    {
      if k in Keys(d) {
        assert r[Position(d, k)].key == k;
      }
      if k in Keys(r) && k != e.key {
        assert d[Position(r, k)].key == k;
      }
      assert r[Position(d, e.key)].key == e.key;
    }
    forall k
      ensures Find(r, k) == if k == e.key then Some(e.value) else Find(d, k)
    {
      if k == e.key {
        OnlyPosition(r, k, Position(d, k));
      } else if k in Keys(d) {
        OnlyPosition(r, k, Position(d, k));
      }
    }
  }

  /** What is found under one key after a write. */
  lemma PutFinds<T>(d: Dict<T>, e: Entry<T>, key: string)
    requires Distinct(d)
    ensures Find(Put(d, e), key) == if key == e.key then Some(e.value) else Find(d, key)
  {
    PutFacts(d, e);
  }

  lemma OnlyPosition<T>(d: Dict<T>, key: string, p: nat)
    requires Distinct(d) && p < |d| && d[p].key == key
    ensures Position(d, key) == p
  {
  }

  lemma {:induction false} PutAllFacts<T>(d: Dict<T>, es: seq<Entry<T>>)
    requires Distinct(d)
    ensures Distinct(PutAll(d, es))
    ensures Keys(PutAll(d, es)) == Keys(d) + Keys(es)
  {
    if es != [] {
      PutAllFacts(d, es[..|es| - 1]);
      PutFacts(PutAll(d, es[..|es| - 1]), es[|es| - 1]);
      assert Keys(es) == Keys(es[..|es| - 1]) + {es[|es| - 1].key} by {
        assert forall i | 0 <= i < |es| - 1 :: es[..|es| - 1][i] == es[i];
      }
    }
  }

  lemma {:induction false} PutAllSplits<T>(d: Dict<T>, es: seq<Entry<T>>, fs: seq<Entry<T>>)
    ensures PutAll(d, es + fs) == PutAll(PutAll(d, es), fs)
  {
    if fs == [] {
      assert es + fs == es;
    } else {
      PutAllSplits(d, es, fs[..|fs| - 1]);
      assert (es + fs)[..|es + fs| - 1] == es + fs[..|fs| - 1];
    }
  }

  /** Writing an entry that is there already changes nothing. */
  lemma PutNothingNew<T>(d: Dict<T>, e: Entry<T>)
    requires Find(d, e.key) == Some(e.value)
    ensures Put(d, e) == d
  {
  }

  /** Overwriting a key at once or after other keys have been written comes to the same. */
  lemma {:induction false} PutCommutes<T>(d: Dict<T>, e: Entry<T>, es: seq<Entry<T>>)
    requires Distinct(d) && e.key in Keys(d) && e.key !in Keys(es)
    ensures PutAll(Put(d, e), es) == Put(PutAll(d, es), e)
  {
    if es != [] {
      var init, last := es[..|es| - 1], es[|es| - 1];
      assert Keys(init) <= Keys(es) && last.key in Keys(es);
      PutCommutes(d, e, init);
      PutAllFacts(d, init);
      var m := PutAll(d, init);
      PutSwaps(m, e, last);
    }
  }

  lemma PutSwaps<T>(d: Dict<T>, e: Entry<T>, f: Entry<T>)
    requires Distinct(d) && e.key in Keys(d) && e.key != f.key
    ensures Put(Put(d, e), f) == Put(Put(d, f), e)
  {
    PutFacts(d, e);
    PutFacts(d, f);
    var p, q := Position(d, e.key), Position(d, f.key);
    OnlyPosition(Put(d, f), e.key, p);
    if q < |d| {
      OnlyPosition(Put(d, e), f.key, q);
    }
  }

  /** Writing `es` or writing their normal form has the same effect. */
  lemma {:induction false} PutAllNormal<T>(d: Dict<T>, es: seq<Entry<T>>)
    requires Distinct(d)
    ensures PutAll(d, PutAll([], es)) == PutAll(d, es)
  {
    if es != [] {
      var init, e := es[..|es| - 1], es[|es| - 1];
      PutAllNormal(d, init);
      PutAllFacts([], init);
      var m := PutAll([], init);
      var p := Position(m, e.key);
      if p == |m| {
        assert (m + [e])[..|m|] == m;
      } else {
        OverwriteLate(d, m, p, e);
      }
    }
  }

  lemma PutOver<T>(d: Dict<T>, e: Entry<T>, f: Entry<T>)
    requires Distinct(d) && e.key == f.key
    ensures Put(Put(d, e), f) == Put(d, f)
  {
    PutFacts(d, e);
    OnlyPosition(Put(d, e), e.key, Position(d, e.key));
  }

  lemma PutAllAround<T>(d: Dict<T>, head: seq<Entry<T>>, e: Entry<T>, tail: seq<Entry<T>>)
    ensures PutAll(d, head + [e] + tail) == PutAll(Put(PutAll(d, head), e), tail)
  {
    PutAllSplits(d, head + [e], tail);
    assert (head + [e])[..|head|] == head;
  }

  lemma OverwriteLate<T>(d: Dict<T>, m: Dict<T>, p: nat, e: Entry<T>)
    requires Distinct(d) && Distinct(m) && p < |m| && m[p].key == e.key
    ensures PutAll(d, m[p := e]) == Put(PutAll(d, m), e)
  {
    var head, tail := m[..p], m[p + 1..];
    assert m == head + [m[p]] + tail && m[p := e] == head + [e] + tail;
    PutAllAround(d, head, m[p], tail);
    PutAllAround(d, head, e, tail);
    var base := PutAll(d, head);
    PutAllFacts(d, head);
    PutFacts(base, m[p]);
    PutOver(base, m[p], e);
    assert e.key !in Keys(tail);
    PutCommutes(Put(base, m[p]), e, tail);
  }

  /** If `d` already says everything that `es` says, writing `es` changes nothing. */
  lemma {:induction false} PutAllNothingNew<T>(d: Dict<T>, es: seq<Entry<T>>)
    requires forall i | 0 <= i < |es| :: Find(d, es[i].key) == Some(es[i].value)
    ensures PutAll(d, es) == d
  {
    if es != [] {
      assert forall i | 0 <= i < |es| - 1 :: es[..|es| - 1][i] == es[i];
      PutAllNothingNew(d, es[..|es| - 1]);
      PutNothingNew(d, es[|es| - 1]);
    }
  }

  /** The last value written under a key is the one that is found. */
  lemma {:induction false} LastWriteWins<T>(d: Dict<T>, es: seq<Entry<T>>, i: nat)
    requires Distinct(d) && i < |es| && forall j | i < j < |es| :: es[j].key != es[i].key
    ensures Find(PutAll(d, es), es[i].key) == Some(es[i].value)
  {
    var init := es[..|es| - 1];
    PutAllFacts(d, init);
    PutFacts(PutAll(d, init), es[|es| - 1]);
    if i < |init| {
      LastWriteWins(d, init, i);
    }
  }

  /** A key that is not written keeps what it had. */
  lemma {:induction false} UnwrittenStays<T>(d: Dict<T>, es: seq<Entry<T>>, k: string)
    requires Distinct(d) && forall i | 0 <= i < |es| :: es[i].key != k
    ensures Find(PutAll(d, es), k) == Find(d, k)
  {
    if es != [] {
      var init := es[..|es| - 1];
      PutAllFacts(d, init);
      PutFacts(PutAll(d, init), es[|es| - 1]);
      UnwrittenStays(d, init, k);
    }
  }

  /** Writing `es` twice is writing it once. */
  lemma WritingTwice<T>(d: Dict<T>, es: seq<Entry<T>>)
    requires Distinct(d)
    ensures PutAll(PutAll(d, es), es) == PutAll(d, es)
  {
    var m := PutAll([], es);
    PutAllFacts(d, es);
    PutAllNormal(PutAll(d, es), es);
    PutAllNormal(d, es);
    PutAllFacts([], es);
    forall i | 0 <= i < |m|
      ensures Find(PutAll(d, es), m[i].key) == Some(m[i].value)
    {
      LastWriteWins(d, m, i);
    }
    PutAllNothingNew(PutAll(d, es), m);
  }
}
