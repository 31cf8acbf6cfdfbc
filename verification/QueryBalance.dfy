/**
 The two accounts of a grouped tree. Its leaves are the ungrouped leaves, each once. Every group's
 children, process, thread and leaf counts and every summed, minimal or maximal metric are those of its
 children combined, and a metric is unavailable only when it is so in every child.
 */
module QueryBalance {
  import opened Options
  import opened Folds
  import opened QueryModel
  import opened QueryBuild
  import opened QueryTotals

  predicate IsLeaf(r: Row) { r.head.kind == PROCESS || r.head.kind == THREAD }

  /** The leaf rows of a forest, from left to right. */
  function LeafRows(rows: seq<Row>): seq<Row> {
    if rows == [] then []
    else
      var r := rows[|rows| - 1];
      LeafRows(rows[..|rows| - 1]) + (if IsLeaf(r) then [r] else LeafRows(r.sub))
  }

  lemma LeafRowsAndLeaf(init: seq<Row>, last: Row)
    requires IsLeaf(last)
    ensures LeafRows(init + [last]) == LeafRows(init) + [last]
  {
    assert (init + [last])[..|init|] == init;
  }

  lemma {:induction false} LeafRowsOfLeaves(rows: seq<Row>)
    requires forall i :: 0 <= i < |rows| ==> IsLeaf(rows[i])
    ensures LeafRows(rows) == rows
  {
    hide LeafRows, IsLeaf;
    if rows == [] {
      LeafRowsNone();
    } else {
      var last, init := rows[|rows| - 1], rows[..|rows| - 1];
      assert rows == init + [last];
      LeafRowsOfLeaves(init);
      LeafRowsAndLeaf(init, last);
    }
  }

  lemma LeafRowsNone()
    ensures LeafRows([]) == []
  {
  }

  lemma {:induction false} LeavesInCounts(rows: seq<Row>)
    ensures LeavesIn(rows) == |LeafRows(rows)|
  {
    if rows != [] {
      LeavesInCounts(rows[..|rows| - 1]);
      LeavesInCounts(rows[|rows| - 1].sub);
    }
  }

  function LeavesBelow(r: Row): multiset<Row> { multiset(LeafRows(r.sub)) }

  lemma {:induction false} LeafRowsOfGroups(rows: seq<Row>)
    requires forall r :: r in rows ==> !IsLeaf(r)
    ensures multiset(LeafRows(rows)) == Measure(LeavesBelow, Union, multiset{}, rows)
  {
    if rows != [] {
      LeafRowsOfGroups(rows[..|rows| - 1]);
      MeasureLast(LeavesBelow, Union, multiset{}, rows);
    }
  }

  lemma LeafKinds(procs: seq<Process>, leaf: string, ids: seq<string>)
    ensures forall r :: r in MakeLeaves(procs, leaf, ids) ==> IsLeaf(r) && r.head.kind != GROUP
  {
  }

  lemma GroupKinds(reg: Registry, procs: seq<Process>, dims: seq<Dimension>, leaf: string, ids: seq<string>)
    requires dims != []
    ensures forall r :: r in Group(reg, procs, dims, leaf, ids) ==> r.head.kind == GROUP && !IsLeaf(r)
    ensures forall i :: 0 <= i < |Keys(procs, dims[0])| ==>
              Group(reg, procs, dims, leaf, ids)[i] == GroupRow(reg, procs, dims, leaf, ids, Keys(procs, dims[0])[i])
  {
  }

  /** However the processes are grouped, the leaves are those of the ungrouped list, each as often. */
  lemma {:induction false} LeavesAreSelected(reg: Registry, procs: seq<Process>, dims: seq<Dimension>, leaf: string, ids: seq<string>)
    ensures multiset(LeafRows(Group(reg, procs, dims, leaf, ids))) == multiset(MakeLeaves(procs, leaf, ids))
    decreases |dims|
  {
    hide MakeLeaves, LeafRows;
    if dims == [] {
      LeafKinds(procs, leaf, ids);
      LeafRowsOfLeaves(MakeLeaves(procs, leaf, ids));
    } else {
      hide IsMonoid, Bucket, Keys;
      var rows, keys := Group(reg, procs, dims, leaf, ids), Keys(procs, dims[0]);
      GroupKinds(reg, procs, dims, leaf, ids);
      LeafRowsOfGroups(rows);
      var parts := Map(LeavesBelow, rows);
      forall i | 0 <= i < |parts|
        ensures parts[i] == Measure(LeavesOne(leaf, ids), Union, multiset{}, Bucket(procs, dims[0], keys[i]))
      {
        LeavesAreSelected(reg, Bucket(procs, dims[0], keys[i]), dims[1..], leaf, ids);
        LeavesMeasure(leaf, ids, Bucket(procs, dims[0], keys[i]));
      }
      UnionMonoid();
      BucketsMeasure(LeavesOne(leaf, ids), Union, multiset{}, procs, dims[0], parts);
      LeavesMeasure(leaf, ids, procs);
    }
  }

  // ---- Sums over children ----

  function ProcsField(r: Row): int { r.head.procs }

  function ThreadsField(r: Row): int { r.head.threads }

  function LeavesField(r: Row): int { r.head.leaves }

  function RowMetric(id: string): Row -> Option<real> {
    (r: Row) => if id in r.head.metrics then r.head.metrics[id].Get() else None
  }

  predicate ProcessLeaves(leaf: string) { leaf != "none" && leaf != "thread" }

  lemma GroupRowTotals(reg: Registry, procs: seq<Process>, dims: seq<Dimension>, leaf: string, ids: seq<string>, key: string)
    requires dims != []
    ensures var r, bp := GroupRow(reg, procs, dims, leaf, ids, key), Bucket(procs, dims[0], key);
            && ProcsField(r) == Measure(One, Plus, 0, bp)
            && ThreadsField(r) == Measure(ThreadsIn, Plus, 0, bp)
            && forall id :: id in ids && !AggregationOf(reg, id).AggMixed? ==>
                 RowMetric(id)(r) == Measure(MetricIn(id), Join(AggregationOf(reg, id)), None, bp)
  {
    hide Bucket, Group, Measure;
    var bp := Bucket(procs, dims[0], key);
    CountMeasure(bp);
    ThreadMeasure(bp);
    forall id | id in ids && !AggregationOf(reg, id).AggMixed?
      ensures AggregateOne(AggregationOf(reg, id), id, bp).Get() ==
              Measure(MetricIn(id), Join(AggregationOf(reg, id)), None, bp)
    {
      MetricMeasure(AggregationOf(reg, id), id, bp);
    }
  }

  lemma LeafTotals(procs: seq<Process>, leaf: string, ids: seq<string>)
    requires ProcessLeaves(leaf)
    ensures var rows := MakeLeaves(procs, leaf, ids);
            && Map(ProcsField, rows) == Map(One, procs)
            && Map(ThreadsField, rows) == Map(ThreadsIn, procs)
            && forall id :: id in ids ==> Map(RowMetric(id), rows) == Map(MetricIn(id), procs)
  {
    var rows := MakeLeaves(procs, leaf, ids);
    forall i | 0 <= i < |procs|
      ensures ProcsField(rows[i]) == One(procs[i]) && ThreadsField(rows[i]) == ThreadsIn(procs[i])
    {
      assert rows[i] == ProcessRow(procs[i], ids);
    }
  }

  /** The rows of one level together account for all the processes given to it. */
  lemma CountTotals(reg: Registry, procs: seq<Process>, dims: seq<Dimension>, leaf: string, ids: seq<string>)
    requires dims != [] || ProcessLeaves(leaf)
    ensures var rows := Group(reg, procs, dims, leaf, ids);
            && Measure(ProcsField, Plus, 0, rows) == |procs|
            && Measure(ThreadsField, Plus, 0, rows) == ThreadTotal(procs)
  {
    hide MakeLeaves, Bucket, Keys, GroupRow;
    CountMeasure(procs);
    ThreadMeasure(procs);
    if dims == [] {
      LeafTotals(procs, leaf, ids);
    } else {
      hide IsMonoid;
      var rows, keys := Group(reg, procs, dims, leaf, ids), Keys(procs, dims[0]);
      forall i | 0 <= i < |rows|
        ensures ProcsField(rows[i]) == Measure(One, Plus, 0, Bucket(procs, dims[0], keys[i]))
        ensures ThreadsField(rows[i]) == Measure(ThreadsIn, Plus, 0, Bucket(procs, dims[0], keys[i]))
      {
        GroupRowTotals(reg, procs, dims, leaf, ids, keys[i]);
      }
      PlusMonoid();
      BucketsMeasure(One, Plus, 0, procs, dims[0], Map(ProcsField, rows));
      BucketsMeasure(ThreadsIn, Plus, 0, procs, dims[0], Map(ThreadsField, rows));
    }
  }

  lemma MetricTotals(reg: Registry, procs: seq<Process>, dims: seq<Dimension>, leaf: string, ids: seq<string>, id: string)
    requires dims != [] || ProcessLeaves(leaf)
    requires id in ids && !AggregationOf(reg, id).AggMixed?
    ensures Combined(AggregationOf(reg, id), Map(RowMetric(id), Group(reg, procs, dims, leaf, ids))) ==
            AggregateOne(AggregationOf(reg, id), id, procs).Get()
  {
    hide MakeLeaves, Bucket, Keys, GroupRow, AggregateOne;
    var agg := AggregationOf(reg, id);
    AggregateIsCombination(agg, id, procs);
    if dims == [] {
      LeafTotals(procs, leaf, ids);
    } else {
      hide IsMonoid;
      var rows, keys := Group(reg, procs, dims, leaf, ids), Keys(procs, dims[0]);
      forall i | 0 <= i < |rows|
        ensures RowMetric(id)(rows[i]) == Measure(MetricIn(id), Join(agg), None, Bucket(procs, dims[0], keys[i]))
      {
        GroupRowTotals(reg, procs, dims, leaf, ids, keys[i]);
      }
      JoinMonoid(agg);
      BucketsMeasure(MetricIn(id), Join(agg), None, procs, dims[0], Map(RowMetric(id), rows));
    }
  }

  lemma {:induction false} LeavesFieldTotals(rows: seq<Row>)
    requires forall r :: r in rows ==> r.head.leaves == CountLeaves(r)
    ensures Measure(LeavesField, Plus, 0, rows) == LeavesIn(rows)
  {
    if rows != [] {
      LeavesFieldTotals(rows[..|rows| - 1]);
      MeasureLast(LeavesField, Plus, 0, rows);
    }
  }

  lemma LeavesFieldIsCount(reg: Registry, procs: seq<Process>, dims: seq<Dimension>, leaf: string, ids: seq<string>)
    ensures forall r :: r in Group(reg, procs, dims, leaf, ids) ==> r.head.leaves == CountLeaves(r)
  {
    hide Bucket, Keys, ThreadTotal, Aggregates, ThreadsOf;
  }

  // ---- Every group ----

  /** Some children, none of them threads: what is counted per process is there in the children. */
  predicate OverProcesses(r: Row) { r.sub != [] && forall c :: c in r.sub ==> c.head.kind != THREAD }

  ghost predicate SumsUp(reg: Registry, ids: seq<string>, r: Row) {
    && r.head.children == |r.sub|
    && r.head.leaves == |LeafRows(r.sub)| == Measure(LeavesField, Plus, 0, r.sub)
    && (OverProcesses(r) ==>
          && r.head.procs == Measure(ProcsField, Plus, 0, r.sub)
          && r.head.threads == Measure(ThreadsField, Plus, 0, r.sub)
          && forall id :: id in ids && !AggregationOf(reg, id).AggMixed? ==>
               RowMetric(id)(r) == Combined(AggregationOf(reg, id), Map(RowMetric(id), r.sub)))
  }

  /** At a group that adds up, a metric is unavailable exactly when it is for every child. */
  lemma UnavailableOnlyWhenAllAre(reg: Registry, ids: seq<string>, r: Row, id: string)
    requires SumsUp(reg, ids, r) && OverProcesses(r) && id in ids && !AggregationOf(reg, id).AggMixed?
    ensures RowMetric(id)(r).None? <==> forall c :: c in r.sub ==> RowMetric(id)(c).None?
  {
    hide Combined, RowMetric, Measure;
    CombinedNone(AggregationOf(reg, id), Map(RowMetric(id), r.sub));
    MappedNone(RowMetric(id), r.sub);
  }

  ghost predicate Balanced(reg: Registry, ids: seq<string>, leaf: string, rows: seq<Row>) {
    forall r :: r in rows ==>
      && (r.head.kind == GROUP ==> SumsUp(reg, ids, r) && (ProcessLeaves(leaf) ==> OverProcesses(r)))
      && Balanced(reg, ids, leaf, r.sub)
  }

  lemma GroupRowSumsUp(reg: Registry, procs: seq<Process>, dims: seq<Dimension>, leaf: string, ids: seq<string>, key: string)
    requires dims != []
    ensures SumsUp(reg, ids, GroupRow(reg, procs, dims, leaf, ids, key))
  {
    var r, bp, rest := GroupRow(reg, procs, dims, leaf, ids, key), Bucket(procs, dims[0], key), dims[1..];
    hide Bucket, Group, Measure;
    LeavesFieldIsCount(reg, bp, rest, leaf, ids);
    LeavesFieldTotals(r.sub);
    LeavesInCounts(r.sub);
    if OverProcesses(r) {
      ChildrenAreProcesses(reg, bp, rest, leaf, ids);
      CountTotals(reg, bp, rest, leaf, ids);
      forall id | id in ids && !AggregationOf(reg, id).AggMixed?
        ensures RowMetric(id)(r) == Combined(AggregationOf(reg, id), Map(RowMetric(id), r.sub))
      {
        MetricTotals(reg, bp, rest, leaf, ids, id);
      }
    }
  }

  lemma ChildrenAreProcesses(reg: Registry, procs: seq<Process>, dims: seq<Dimension>, leaf: string, ids: seq<string>)
    requires var rows := Group(reg, procs, dims, leaf, ids);
             rows != [] && forall c :: c in rows ==> c.head.kind != THREAD
    ensures dims != [] || ProcessLeaves(leaf)
  {
    if dims == [] {
      ThreadKinds(procs, ids);
    }
  }

  lemma ThreadKinds(procs: seq<Process>, ids: seq<string>)
    ensures var rows := MakeLeaves(procs, "thread", ids); rows != [] ==> rows[0] in rows && rows[0].head.kind == THREAD
  {
  }

  lemma SomeChildren(reg: Registry, procs: seq<Process>, dims: seq<Dimension>, leaf: string, ids: seq<string>)
    requires procs != [] && ProcessLeaves(leaf)
    ensures var rows := Group(reg, procs, dims, leaf, ids);
            rows != [] && forall c :: c in rows ==> c.head.kind != THREAD
  {
    if dims != [] {
      KeysSeen(procs, dims[0], KeyOf(procs[0], dims[0]));
    }
  }

  lemma BucketNotEmpty(procs: seq<Process>, d: Dimension, key: string)
    requires key in Keys(procs, d)
    ensures Bucket(procs, d, key) != []
  {
    KeysSeen(procs, d, key);
    var p :| p in procs && KeyOf(p, d) == key;
    BucketCount(procs, d, key, p);
  }

  /** Every group in the built tree adds up over its children. */
  lemma {:induction false} GroupsAddUp(reg: Registry, procs: seq<Process>, dims: seq<Dimension>, leaf: string, ids: seq<string>)
    ensures Balanced(reg, ids, leaf, Group(reg, procs, dims, leaf, ids))
    decreases |dims|
  {
    var rows := Group(reg, procs, dims, leaf, ids);
    if dims == [] {
      LeafKinds(procs, leaf, ids);
      LeavesHaveNoChildren(procs, leaf, ids);
    } else {
      hide Bucket, SumsUp;
      var keys := Keys(procs, dims[0]);
      forall i | 0 <= i < |rows|
        ensures SumsUp(reg, ids, rows[i]) && (ProcessLeaves(leaf) ==> OverProcesses(rows[i]))
        ensures Balanced(reg, ids, leaf, rows[i].sub)
      {
        var bp := Bucket(procs, dims[0], keys[i]);
        GroupRowSumsUp(reg, procs, dims, leaf, ids, keys[i]);
        GroupsAddUp(reg, bp, dims[1..], leaf, ids);
        BucketNotEmpty(procs, dims[0], keys[i]);
        if ProcessLeaves(leaf) {
          SomeChildren(reg, bp, dims[1..], leaf, ids);
        }
      }
    }
  }

  lemma LeavesHaveNoChildren(procs: seq<Process>, leaf: string, ids: seq<string>)
    ensures forall r :: r in MakeLeaves(procs, leaf, ids) ==> r.sub == []
  {
  }
}
