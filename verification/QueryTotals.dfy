/**
 What the grouped tree adds up to. Grouping splits the selected processes without losing or repeating
 any, so the leaves of the tree are the selected processes, and every group's counts and metrics are
 those of its children, combined.
 */
module QueryTotals {
  import opened Options
  import opened Folds
  import opened QueryModel
  import opened QueryBuild
  import opened Sequences

  // ---- Buckets split the list ----

  lemma {:induction false} BucketCount(procs: seq<Process>, d: Dimension, key: string, p: Process)
    ensures multiset(Bucket(procs, d, key))[p] == if KeyOf(p, d) == key then multiset(procs)[p] else 0
  {
    if procs != [] {
      var last, init := procs[|procs| - 1], procs[..|procs| - 1];
      BucketCount(init, d, key, p);
      MultisetLast(procs);
    }
  }

  lemma {:induction false} KeysOnce(procs: seq<Process>, d: Dimension)
    ensures forall i, j :: 0 <= i < j < |Keys(procs, d)| ==> Keys(procs, d)[i] != Keys(procs, d)[j]
  {
    if procs != [] {
      KeysOnce(procs[..|procs| - 1], d);
    }
  }

  lemma {:induction false} KeysSeen(procs: seq<Process>, d: Dimension, key: string)
    ensures key in Keys(procs, d) <==> exists p :: p in procs && KeyOf(p, d) == key
  {
    if procs != [] {
      var last, init := procs[|procs| - 1], procs[..|procs| - 1];
      KeysSeen(init, d, key);
      assert procs == init + [last];
      assert last in procs && forall p :: p in init ==> p in procs;
      if p :| p in procs && KeyOf(p, d) == key {
        assert p in init || p == last;
      }
    }
  }

  function Joined(procs: seq<Process>, d: Dimension, keys: seq<string>): seq<Process> {
    if keys == [] then [] else Joined(procs, d, keys[..|keys| - 1]) + Bucket(procs, d, keys[|keys| - 1])
  }

  lemma {:induction false} JoinedCount(procs: seq<Process>, d: Dimension, keys: seq<string>, p: Process)
    requires forall i, j :: 0 <= i < j < |keys| ==> keys[i] != keys[j]
    ensures multiset(Joined(procs, d, keys))[p] == if KeyOf(p, d) in keys then multiset(procs)[p] else 0
  {
    if keys != [] {
      var last, init := keys[|keys| - 1], keys[..|keys| - 1];
      JoinedCount(procs, d, init, p);
      BucketCount(procs, d, last, p);
      assert keys == init + [last];
    }
  }

  /** The buckets together are the list, rearranged. */
  lemma Partition(procs: seq<Process>, d: Dimension)
    ensures multiset(Joined(procs, d, Keys(procs, d))) == multiset(procs)
  {
    var keys := Keys(procs, d);
    KeysOnce(procs, d);
    forall p ensures multiset(Joined(procs, d, keys))[p] == multiset(procs)[p] {
      JoinedCount(procs, d, keys, p);
      KeysSeen(procs, d, KeyOf(p, d));
      assert multiset(procs)[p] > 0 ==> p in procs;
    }
  }

  lemma {:induction false} JoinedMeasure<U(!new)>(m: Process -> U, f: (U, U) -> U, unit: U, procs: seq<Process>,
                                                  d: Dimension, keys: seq<string>, parts: seq<U>)
    requires IsMonoid(f, unit) && |parts| == |keys|
    requires forall i :: 0 <= i < |keys| ==> parts[i] == Measure(m, f, unit, Bucket(procs, d, keys[i]))
    ensures Fold(f, unit, parts) == Measure(m, f, unit, Joined(procs, d, keys))
    decreases |keys|
  {
    hide IsMonoid, Bucket;
    if keys != [] {
      var k := |keys| - 1;
      hide Measure;
      JoinedMeasure(m, f, unit, procs, d, keys[..k], parts[..k]);
      MeasureAppend(m, f, unit, Joined(procs, d, keys[..k]), Bucket(procs, d, keys[k]));
    }
  }

  /** Whatever is measured of the processes, the buckets' measures combine to the whole list's. */
  lemma {:induction false} BucketsMeasure<U(!new)>(m: Process -> U, f: (U, U) -> U, unit: U, procs: seq<Process>, d: Dimension, parts: seq<U>)
    requires IsMonoid(f, unit) && |parts| == |Keys(procs, d)|
    requires forall i :: 0 <= i < |parts| ==> parts[i] == Measure(m, f, unit, Bucket(procs, d, Keys(procs, d)[i]))
    ensures Fold(f, unit, parts) == Measure(m, f, unit, procs)
  {
    hide IsMonoid, Measure, Keys, Bucket;
    JoinedMeasure(m, f, unit, procs, d, Keys(procs, d), parts);
    Partition(procs, d);
    MeasurePermutation(m, f, unit, Joined(procs, d, Keys(procs, d)), procs);
  }

  // ---- The measures ----

  function Plus(a: int, b: int): int { a + b }

  function One(p: Process): int { 1 }

  function ThreadsIn(p: Process): int { p.ThreadCount() }

  /** Combining values of which some may be unavailable. */
  function Join(agg: Aggregation): (Option<real>, Option<real>) -> Option<real> {
    (a: Option<real>, b: Option<real>) => match (a, b)
      case (None, _) => b
      case (_, None) => a
      case (Some(x), Some(y)) => Some(Op(agg)(x, y))
  }

  function MetricIn(id: string): Process -> Option<real> { (p: Process) => p.Metric(id).Get() }

  /** The combination of the available values, unavailable when all are. */
  function Combined(agg: Aggregation, xs: seq<Option<real>>): Option<real> { Fold(Join(agg), None, xs) }

  function Union(a: multiset<Row>, b: multiset<Row>): multiset<Row> { a + b }

  function LeavesOne(leaf: string, ids: seq<string>): Process -> multiset<Row> {
    (p: Process) => multiset(MakeLeaves([p], leaf, ids))
  }

  lemma PlusMonoid()
    ensures IsMonoid(Plus, 0)
  {
  }

  lemma UnionMonoid()
    ensures IsMonoid(Union, multiset{})
  {
    forall a ensures Union(multiset{}, a) == a {
      assert multiset{} + a == a;
    }
    forall a, b ensures Union(a, b) == Union(b, a) {
      assert a + b == b + a;
    }
    forall a, b, c ensures Union(Union(a, b), c) == Union(a, Union(b, c)) {
      assert a + b + c == a + (b + c);
    }
  }

  lemma JoinMonoid(agg: Aggregation)
    ensures IsMonoid(Join(agg), None)
  {
    var f := Join(agg);
    forall a, b ensures f(a, b) == f(b, a) {
      if a.Some? && b.Some? {
        OpLaws(agg, a.value, b.value, 0.0);
      }
    }
    forall a, b, c ensures f(f(a, b), c) == f(a, f(b, c)) {
      if a.Some? && b.Some? && c.Some? {
        OpLaws(agg, a.value, b.value, c.value);
      }
    }
  }

  lemma OpLaws(agg: Aggregation, x: real, y: real, z: real)
    ensures Op(agg)(x, y) == Op(agg)(y, x)
    ensures Op(agg)(Op(agg)(x, y), z) == Op(agg)(x, Op(agg)(y, z))
  {
  }

  lemma {:induction false} CountMeasure(procs: seq<Process>)
    ensures Measure(One, Plus, 0, procs) == |procs|
  {
    if procs != [] {
      CountMeasure(procs[..|procs| - 1]);
      MeasureLast(One, Plus, 0, procs);
    }
  }

  lemma {:induction false} ThreadMeasure(procs: seq<Process>)
    ensures Measure(ThreadsIn, Plus, 0, procs) == ThreadTotal(procs)
  {
    if procs != [] {
      ThreadMeasure(procs[..|procs| - 1]);
      MeasureLast(ThreadsIn, Plus, 0, procs);
    }
  }

  lemma {:induction false} MetricMeasure(agg: Aggregation, id: string, procs: seq<Process>)
    ensures Measure(MetricIn(id), Join(agg), None, procs) ==
            var vals := Present(procs, id); if vals == [] then None else Some(Reduce(vals, agg))
  {
    if procs != [] {
      hide Measure, Op;
      var init, last := procs[..|procs| - 1], procs[|procs| - 1];
      MetricMeasure(agg, id, init);
      MeasureLast(MetricIn(id), Join(agg), None, procs);
      var before, vals := Present(init, id), Present(procs, id);
      if last.Metric(id).Get().Some? {
        assert vals[..|vals| - 1] == before;
      } else {
        assert vals == before;
      }
    } else {
      assert Map(MetricIn(id), procs) == [];
    }
  }

  /** A combination is unavailable exactly when every value is. */
  lemma {:induction false} CombinedNone(agg: Aggregation, xs: seq<Option<real>>)
    ensures Combined(agg, xs).None? <==> forall x :: x in xs ==> x.None?
  {
    if xs != [] {
      var init, last := xs[..|xs| - 1], xs[|xs| - 1];
      CombinedNone(agg, init);
      assert xs == init + [last];
      assert Combined(agg, xs) == Join(agg)(Combined(agg, init), last);
      assert forall x :: x in xs <==> x in init || x == last;
    }
  }

  /** What a group shows for a metric: the combination of its processes' values, unavailable only when all are. */
  lemma AggregateIsCombination(agg: Aggregation, id: string, procs: seq<Process>)
    requires !agg.AggMixed?
    ensures AggregateOne(agg, id, procs).Get() == Combined(agg, Map(MetricIn(id), procs))
    ensures AggregateOne(agg, id, procs).Get().None? <==> forall p :: p in procs ==> p.Metric(id).Get().None?
  {
    MetricMeasure(agg, id, procs);
    CombinedNone(agg, Map(MetricIn(id), procs));
    MappedNone(MetricIn(id), procs);
  }

  lemma MappedNone<T>(f: T -> Option<real>, xs: seq<T>)
    ensures (forall y :: y in Map(f, xs) ==> y.None?) <==> forall x :: x in xs ==> f(x).None?
  {
    assert forall i :: 0 <= i < |xs| ==> Map(f, xs)[i] in Map(f, xs) && xs[i] in xs;
  }

  lemma ThreadsOfLast(procs: seq<Process>)
    requires procs != []
    ensures ThreadsOf(procs) == ThreadsOf(procs[..|procs| - 1]) + procs[|procs| - 1].threads
  {
  }

  lemma {:induction false} ThreadsOfAppend(a: seq<Process>, b: seq<Process>)
    ensures ThreadsOf(a + b) == ThreadsOf(a) + ThreadsOf(b)
    decreases |b|
  {
    if b == [] {
      assert a + b == a;
    } else {
      hide ThreadsOf;
      var init, last := b[..|b| - 1], b[|b| - 1];
      ThreadsOfAppend(a, init);
      ThreadsOfLast(b);
      ThreadsOfLast(a + b);
      assert (a + b)[..|a + b| - 1] == a + init && (a + b)[|a + b| - 1] == last;
      Regroup3(ThreadsOf(a), ThreadsOf(init), last.threads);
    }
  }

  lemma MakeLeavesAppend(a: seq<Process>, b: seq<Process>, leaf: string, ids: seq<string>)
    ensures MakeLeaves(a + b, leaf, ids) == MakeLeaves(a, leaf, ids) + MakeLeaves(b, leaf, ids)
  {
    hide ProcessRow, ThreadRow, ThreadsOf;
    if leaf == "thread" {
      ThreadsOfAppend(a, b);
      var s, t := ThreadsOf(a), ThreadsOf(b);
      assert MakeLeaves(a + b, leaf, ids) == seq(|s + t|, i requires 0 <= i < |s + t| => ThreadRow((s + t)[i], ids));
    }
  }

  lemma {:induction false} LeavesMeasure(leaf: string, ids: seq<string>, procs: seq<Process>)
    ensures Measure(LeavesOne(leaf, ids), Union, multiset{}, procs) == multiset(MakeLeaves(procs, leaf, ids))
  {
    hide MakeLeaves;
    if procs == [] {
      NoLeaves(leaf, ids);
    } else {
      hide Measure;
      var init, last := procs[..|procs| - 1], procs[|procs| - 1];
      LeavesMeasure(leaf, ids, init);
      MakeLeavesAppend(init, [last], leaf, ids);
      assert procs == init + [last];
      MeasureLast(LeavesOne(leaf, ids), Union, multiset{}, procs);
    }
  }

  lemma NoLeaves(leaf: string, ids: seq<string>)
    ensures MakeLeaves([], leaf, ids) == []
  {
  }
}
