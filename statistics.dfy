/** StatisticCalculatorService: the table from attribute value to the number of
    times it was counted, its guarded increment, and the snapshot sorted by
    count (descending) and then by value (ascending). */
module Statistics {
  import opened Wrappers
  import opened Exceptions
  import opened Strings

  type Table = map<string, nat>

  /** One (attribute value, count) pair of a snapshot. */
  type Entry = (string, nat)

  const EmptyNameMessage := "Attribute name can't be empty"

  /** The count of a value, 0 when it was never counted. */
  function Get(t: Table, k: string): nat
  {
    if k in t then t[k] else 0
  }

  /** What incrementAttributeCount refuses: a null, empty or whitespace-only name. */
  predicate IsNullOrBlank(name: Option<string>)
  {
    name.None? || IsBlank(name.value)
  }

  /** Map.merge(k, 1, Integer::sum): k's count goes up by one, starting from 0
      when k was absent; every other entry stays. */
  function Incremented(t: Table, k: string): (r: Table)
    ensures r.Keys == t.Keys + {k}
    ensures r[k] == Get(t, k) + 1
    ensures forall k' :: k' in t && k' != k ==> r[k'] == t[k']
  {
    t[k := Get(t, k) + 1]
  }

  /** The table after counting each of `names` once, in order. */
  function AddAll(t: Table, names: seq<string>): Table
    decreases |names|
  {
    if names == [] then t else AddAll(Incremented(t, names[0]), names[1..])
  }

  /** Counting a sequence of names adds to each key the number of times it
      occurs in the sequence; keys are never removed. */
  lemma {:induction false} AddAllCounts(t: Table, names: seq<string>)
    ensures AddAll(t, names).Keys == t.Keys + (set n | n in names)
    ensures forall k :: Get(AddAll(t, names), k) == Get(t, k) + multiset(names)[k]
    decreases |names|
  {
    if names != [] {
      var t' := Incremented(t, names[0]);
      AddAllCounts(t', names[1..]);
      assert names == [names[0]] + names[1..];
      assert multiset(names) == multiset{names[0]} + multiset(names[1..]);
      assert (set n | n in names) == {names[0]} + (set n | n in names[1..]);
      forall k ensures Get(AddAll(t, names), k) == Get(t, k) + multiset(names)[k] {
        assert Get(t', k) == Get(t, k) + (if k == names[0] then 1 else 0);
      }
    }
  }

  /** Counting two sequences one after the other. */
  lemma {:induction false} AddAllConcat(t: Table, a: seq<string>, b: seq<string>)
    ensures AddAll(t, a + b) == AddAll(AddAll(t, a), b)
    decreases |a|
  {
    if a != [] {
      assert (a + b)[0] == a[0] && (a + b)[1..] == a[1..] + b;
      AddAllConcat(Incremented(t, a[0]), a[1..], b);
    } else {
      assert a + b == b;
    }
  }

  /** The table depends only on how often each name is counted, not on the
      order of the increments. */
  lemma AddAllPermutation(t: Table, a: seq<string>, b: seq<string>)
    requires multiset(a) == multiset(b)
    ensures AddAll(t, a) == AddAll(t, b)
  {
    AddAllCounts(t, a);
    AddAllCounts(t, b);
    var x, y := AddAll(t, a), AddAll(t, b);
    assert (set n | n in a) == (set n | n in b) by {
      forall n ensures n in a <==> n in b {
        assert n in a <==> n in multiset(a);
      }
    }
    forall k | k in x ensures k in y && x[k] == y[k] {
      assert Get(x, k) == Get(y, k);
    }
    assert x.Keys == y.Keys;
  }

  /** Counting the same sequences in either order gives the same table. */
  lemma AddAllCommutes(t: Table, a: seq<string>, b: seq<string>)
    ensures AddAll(AddAll(t, a), b) == AddAll(AddAll(t, b), a)
  {
    AddAllConcat(t, a, b);
    AddAllConcat(t, b, a);
    assert multiset(a + b) == multiset(b + a);
    AddAllPermutation(t, a + b, b + a);
  }

  /** N increments of one name, starting from an empty table, leave exactly
      that name, with count N. */
  lemma RepeatedIncrements(name: string, n: nat)
    ensures AddAll(map[], seq(n, _ => name)) == if n == 0 then map[] else map[name := n]
  {
    var names := seq(n, _ => name);
    AddAllCounts(map[], names);
    var r := AddAll(map[], names);
    if n > 0 {
      assert names[0] in names;
      assert (set x | x in names) == {name};
      assert multiset(names)[name] == n by {
        MultisetOfRepeat(name, n);
      }
      assert r.Keys == {name};
      assert Get(r, name) == n;
    } else {
      assert names == [];
    }
  }

  lemma {:induction false} MultisetOfRepeat(name: string, n: nat)
    ensures multiset(seq(n, _ => name))[name] == n
  {
    if n > 0 {
      MultisetOfRepeat(name, n - 1);
      assert seq(n, _ => name) == seq(n - 1, _ => name) + [name];
    }
  }

  // ---- The sorted snapshot ----

  /** The report order: a higher count first; for equal counts, the smaller value first. */
  predicate Before(a: Entry, b: Entry)
  {
    a.1 > b.1 || (a.1 == b.1 && StrLess(a.0, b.0))
  }

  predicate Sorted(s: seq<Entry>)
  {
    forall i, j :: 0 <= i < j < |s| ==> Before(s[i], s[j])
  }

  lemma BeforeIrreflexive(a: Entry)
    ensures !Before(a, a)
  {
    StrLessIrreflexive(a.0);
  }

  lemma BeforeTransitive(a: Entry, b: Entry, c: Entry)
    requires Before(a, b) && Before(b, c)
    ensures Before(a, c)
  {
    if a.1 == b.1 && b.1 == c.1 {
      StrLessTransitive(a.0, b.0, c.0);
    }
  }

  lemma BeforeTotal(a: Entry, b: Entry)
    requires a.0 != b.0
    ensures Before(a, b) || Before(b, a)
  {
    StrLessTotal(a.0, b.0);
  }

  lemma BeforeAsymmetric(a: Entry, b: Entry)
    requires Before(a, b)
    ensures !Before(b, a)
  {
    if Before(b, a) {
      BeforeTransitive(a, b, a);
      BeforeIrreflexive(a);
    }
  }

  /** k's entry comes before every other entry of t. */
  predicate IsFirst(t: Table, k: string)
  {
    k in t && forall k' :: k' in t && k' != k ==> Before((k, t[k]), (k', t[k']))
  }

  lemma {:induction false} FirstExists(t: Table)
    requires |t| > 0
    ensures exists k :: IsFirst(t, k)
    decreases |t|
  {
    var x :| x in t;
    var rest := t - {x};
    assert rest.Keys == t.Keys - {x};
    if |rest| == 0 {
      assert t.Keys == {x};
      assert IsFirst(t, x);
    } else {
      FirstExists(rest);
      var y :| IsFirst(rest, y);
      if Before((x, t[x]), (y, t[y])) {
        forall k' | k' in t && k' != x ensures Before((x, t[x]), (k', t[k'])) {
          if k' != y {
            assert k' in rest && rest[k'] == t[k'] && rest[y] == t[y];
            BeforeTransitive((x, t[x]), (y, t[y]), (k', t[k']));
          }
        }
        assert IsFirst(t, x);
      } else {
        BeforeTotal((x, t[x]), (y, t[y]));
        forall k' | k' in t && k' != y ensures Before((y, t[y]), (k', t[k'])) {
          if k' != x {
            assert k' in rest && rest[k'] == t[k'] && rest[y] == t[y];
          }
        }
        assert IsFirst(t, y);
      }
    }
  }

  lemma FirstUnique(t: Table)
    ensures forall a, b :: IsFirst(t, a) && IsFirst(t, b) ==> a == b
  {
    forall a, b | IsFirst(t, a) && IsFirst(t, b) ensures a == b {
      if a != b {
        BeforeAsymmetric((a, t[a]), (b, t[b]));
      }
    }
  }

  /** The first entry of the table, followed by the sorted rest of it, is sorted
      and holds exactly the table's pairs. */
  lemma PrependFirst(t: Table, k: string, rest: Table, tail: seq<Entry>)
    requires IsFirst(t, k) && rest == t - {k}
    requires forall i :: 0 <= i < |tail| ==> tail[i].0 in rest && tail[i].1 == rest[tail[i].0]
    requires forall k' :: k' in rest ==> (k', rest[k']) in tail
    requires Sorted(tail)
    ensures forall i :: 0 <= i < |[(k, t[k])] + tail| ==>
      ([(k, t[k])] + tail)[i].0 in t && ([(k, t[k])] + tail)[i].1 == t[([(k, t[k])] + tail)[i].0]
    ensures forall k' :: k' in t ==> (k', t[k']) in [(k, t[k])] + tail
    ensures Sorted([(k, t[k])] + tail)
  {
    var r := [(k, t[k])] + tail;
    forall i | 0 < i < |r| ensures Before(r[0], r[i]) {
      assert r[i] == tail[i - 1];
    }
    forall k' | k' in t ensures (k', t[k']) in r {
      if k' != k {
        assert k' in rest;
      }
    }
  }

  /** getStatisticSortedByCountThenByName: every (value, count) pair of the
      table exactly once, in the report order. */
  function Snapshot(t: Table): (r: seq<Entry>)
    ensures |r| == |t|
    ensures forall i :: 0 <= i < |r| ==> r[i].0 in t && r[i].1 == t[r[i].0]
    ensures forall k :: k in t ==> (k, t[k]) in r
    ensures Sorted(r)
    decreases |t|
  {
    if |t| == 0 then []
    else
      FirstExists(t);
      FirstUnique(t);
      var k :| IsFirst(t, k);
      var rest := t - {k};
      assert rest.Keys == t.Keys - {k};
      var tail := Snapshot(rest);
      PrependFirst(t, k, rest, tail);
      [(k, t[k])] + tail
  }

  /** The report order is total on distinct values, so a table has exactly one
      sorted arrangement: whatever order the increments came in, the snapshot
      of the final table is the same sequence. */
  lemma {:induction false} SortedArrangementUnique(a: seq<Entry>, b: seq<Entry>)
    requires Sorted(a) && Sorted(b)
    requires forall e :: e in a <==> e in b
    ensures a == b
    decreases |a|
  {
    if a != [] {
      assert a[0] in a;
    }
    if b != [] {
      assert b[0] in b;
    }
    if a != [] && b != [] {
      if a[0] != b[0] {
        var i :| 0 <= i < |a| && a[i] == b[0];
        var j :| 0 <= j < |b| && b[j] == a[0];
        assert i > 0 && j > 0;
        BeforeAsymmetric(a[0], a[i]);
      }
      forall e ensures e in a[1..] <==> e in b[1..] {
        if e in a[1..] {
          var i :| 1 <= i < |a| && a[i] == e;
          if e == b[0] { BeforeIrreflexive(a[0]); }
          assert e in b;
        }
        if e in b[1..] {
          var j :| 1 <= j < |b| && b[j] == e;
          if e == a[0] { BeforeIrreflexive(b[0]); }
          assert e in a;
        }
      }
      SortedArrangementUnique(a[1..], b[1..]);
      assert a == [a[0]] + a[1..] && b == [b[0]] + b[1..];
    }
  }

  /** Any sorted sequence holding exactly the table's pairs is the snapshot. */
  lemma SnapshotCharacterized(t: Table, s: seq<Entry>)
    requires Sorted(s)
    requires forall i :: 0 <= i < |s| ==> s[i].0 in t && s[i].1 == t[s[i].0]
    requires forall k :: k in t ==> (k, t[k]) in s
    ensures Snapshot(t) == s
  {
    var r := Snapshot(t);
    forall e ensures e in r <==> e in s {
      if e in r {
        var i :| 0 <= i < |r| && r[i] == e;
        assert (e.0, t[e.0]) in s;
      }
      if e in s {
        var i :| 0 <= i < |s| && s[i] == e;
        assert (e.0, t[e.0]) in r;
      }
    }
    SortedArrangementUnique(r, s);
  }

  /** {A:1, B:3, C:2} is reported as B, C, A. */
  lemma SnapshotByCountDescending()
    ensures Snapshot(map["A" := 1, "B" := 3, "C" := 2]) == [("B", 3), ("C", 2), ("A", 1)]
  {
    SnapshotCharacterized(map["A" := 1, "B" := 3, "C" := 2], [("B", 3), ("C", 2), ("A", 1)]);
  }

  /** {B:1, C:2, A:2} is reported as A, C, B: equal counts by ascending value. */
  lemma SnapshotTiesByValueAscending()
    ensures Snapshot(map["B" := 1, "C" := 2, "A" := 2]) == [("A", 2), ("C", 2), ("B", 1)]
  {
    assert StrLess("A", "C");
    SnapshotCharacterized(map["B" := 1, "C" := 2, "A" := 2], [("A", 2), ("C", 2), ("B", 1)]);
  }

  /** The counter. The map is updated in place by incrementAttributeCount;
      the snapshot reads it without changing it. */
  class StatisticCalculatorService {
    var attributeCountStatistic: Table

    constructor ()
      ensures attributeCountStatistic == map[]
    {
      attributeCountStatistic := map[];
    }

    /** A null or blank name throws IllegalArgumentException and changes
        nothing; any other name has its count incremented. */
    method IncrementAttributeCount(attributeName: Option<string>) returns (outcome: Outcome<Error>)
      modifies this
      ensures IsNullOrBlank(attributeName) ==>
        outcome == Fail(IllegalArgument(EmptyNameMessage)) &&
        attributeCountStatistic == old(attributeCountStatistic)
      ensures !IsNullOrBlank(attributeName) ==>
        outcome == Pass &&
        attributeCountStatistic == Incremented(old(attributeCountStatistic), attributeName.value)
    {
      if attributeName.None? || IsBlank(attributeName.value) {
        return Fail(IllegalArgument(EmptyNameMessage));
      }
      attributeCountStatistic := Incremented(attributeCountStatistic, attributeName.value);
      outcome := Pass;
    }

    /** The snapshot holds every (value, count) pair of the table once, in
        the report order; reading it changes nothing. */
    function GetStatisticSortedByCountThenByName(): (r: seq<Entry>)
      reads this
      ensures |r| == |attributeCountStatistic|
      ensures forall i :: 0 <= i < |r| ==> r[i].0 in attributeCountStatistic && r[i].1 == attributeCountStatistic[r[i].0]
      ensures forall k :: k in attributeCountStatistic ==> (k, attributeCountStatistic[k]) in r
      ensures Sorted(r)
    {
      Snapshot(attributeCountStatistic)
    }
  }
}
