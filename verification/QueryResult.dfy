/**
 What a finished result shows: the leaves that were selected and pass, under the groups that hold them;
 siblings by the first sort key, unavailable values last; and the top rows of that order under a limit.
 */
module QueryResult {
  import opened Options
  import opened Folds
  import opened QueryModel
  import opened QuerySort
  import opened QueryBuild
  import opened QueryTotals
  import opened QueryBalance
  import opened QueryOrder
  import opened Sequences
  import ByteOrder

  // ---- Having ----

  function Passing(rows: seq<Row>, pass: Head -> bool): seq<Row> {
    if rows == [] then []
    else Passing(rows[..|rows| - 1], pass) + (if pass(rows[|rows| - 1].head) then [rows[|rows| - 1]] else [])
  }

  lemma {:induction false} PassingAppend(a: seq<Row>, b: seq<Row>, pass: Head -> bool)
    ensures Passing(a + b, pass) == Passing(a, pass) + Passing(b, pass)
    decreases |b|
  {
    if b == [] {
      assert a + b == a;
    } else {
      PassingAppend(a, b[..|b| - 1], pass);
      assert (a + b)[..|a + b| - 1] == a + b[..|b| - 1];
    }
  }

  lemma {:induction false} PassingCount(rows: seq<Row>, pass: Head -> bool, r: Row)
    ensures multiset(Passing(rows, pass))[r] == if pass(r.head) then multiset(rows)[r] else 0
  {
    if rows != [] {
      var last, init := rows[|rows| - 1], rows[..|rows| - 1];
      PassingCount(init, pass, r);
      assert rows == init + [last];
    }
  }

  function LeafRowsIn(r: Row): seq<Row> { if IsLeaf(r) then [r] else LeafRows(r.sub) }

  lemma LeafRowsLast(rows: seq<Row>)
    requires rows != []
    ensures LeafRows(rows) == LeafRows(rows[..|rows| - 1]) + LeafRowsIn(rows[|rows| - 1])
  {
  }

  lemma {:induction false} LeafRowsAppend(a: seq<Row>, b: seq<Row>)
    ensures LeafRows(a + b) == LeafRows(a) + LeafRows(b)
    decreases |b|
  {
    if b == [] {
      assert a + b == a;
    } else {
      hide LeafRows, LeafRowsIn;
      var init := b[..|b| - 1];
      LeafRowsAppend(a, init);
      LeafRowsLast(b);
      LeafRowsLast(a + b);
      assert (a + b)[..|a + b| - 1] == a + init && (a + b)[|a + b| - 1] == b[|b| - 1];
      Regroup3(LeafRows(a), LeafRows(init), LeafRowsIn(b[|b| - 1]));
    }
  }

  lemma LeafRowsOne(r: Row)
    ensures LeafRows([r]) == if IsLeaf(r) then [r] else LeafRows(r.sub)
  {
    assert [r][..0] == [];
  }

  /** Leaf rows have no children. */
  predicate Bare(rows: seq<Row>) { forall r :: r in rows ==> (IsLeaf(r) ==> r.sub == []) && Bare(r.sub) }

  /** The leaves left by the having stage are the leaves that pass, in their order. */
  lemma {:induction false} HavingLeaves(rows: seq<Row>, pass: Head -> bool)
    requires Bare(rows)
    ensures LeafRows(ApplyHaving(rows, pass)) == Passing(LeafRows(rows), pass)
    ensures Bare(ApplyHaving(rows, pass))
  {
    if rows != [] {
      var last, init := rows[|rows| - 1], rows[..|rows| - 1];
      assert last in rows && forall r :: r in init ==> r in rows;
      HavingLeaves(init, pass);
      HavingLeaves(last.sub, pass);
      KeptLeaves(last, pass);
      LeafRowsAppend(ApplyHaving(init, pass), Kept(last, pass));
      PassingAppend(LeafRows(init), if IsLeaf(last) then [last] else LeafRows(last.sub), pass);
      KeptIsRest(rows, pass);
    }
  }

  /** The last row of a forest after filtering: itself, or nothing. */
  function Kept(r: Row, pass: Head -> bool): seq<Row> {
    var sub := ApplyHaving(r.sub, pass);
    if pass(r.head) || |sub| > 0 then [Row(r.head, sub)] else []
  }

  lemma KeptIsRest(rows: seq<Row>, pass: Head -> bool)
    requires rows != []
    ensures ApplyHaving(rows, pass) == ApplyHaving(rows[..|rows| - 1], pass) + Kept(rows[|rows| - 1], pass)
  {
  }

  lemma KeptLeaves(r: Row, pass: Head -> bool)
    requires (IsLeaf(r) ==> r.sub == [])
    requires LeafRows(ApplyHaving(r.sub, pass)) == Passing(LeafRows(r.sub), pass) && Bare(ApplyHaving(r.sub, pass))
    ensures LeafRows(Kept(r, pass)) == Passing(if IsLeaf(r) then [r] else LeafRows(r.sub), pass)
    ensures Bare(Kept(r, pass))
  {
    var sub := ApplyHaving(r.sub, pass);
    LeafRowsOne(Row(r.head, sub));
    if IsLeaf(r) {
      assert sub == [] && r == Row(r.head, sub);
      assert [r][..0] == [];
    } else if |sub| == 0 {
      assert LeafRows(sub) == [];
    }
  }

  // ---- Sorting ----

  function LeafShare(r: Row): multiset<Row> { if IsLeaf(r) then multiset{r} else multiset(LeafRows(r.sub)) }

  lemma {:induction false} LeafShares(rows: seq<Row>)
    ensures multiset(LeafRows(rows)) == Measure(LeafShare, Union, multiset{}, rows)
  {
    if rows != [] {
      LeafShares(rows[..|rows| - 1]);
      MeasureLast(LeafShare, Union, multiset{}, rows);
    }
  }

  /** Sorting the tree keeps its leaves. */
  lemma {:induction false} TreeLeaves(rows: seq<Row>, keys: seq<SortKey>)
    requires Bare(rows)
    ensures multiset(LeafRows(SortTree(rows, keys))) == multiset(LeafRows(rows))
    decreases Depth(rows)
  {
    hide LeafRows, IsMonoid, Measure;
    var s, t := Sorted(rows, keys), SortTree(rows, keys);
    SameElements(s, rows);
    forall i | 0 <= i < |t| ensures LeafShare(t[i]) == LeafShare(s[i]) {
      assert s[i] in rows;
      DepthBelow(rows, s[i]);
      TreeLeaves(s[i].sub, keys);
    }
    assert Map(LeafShare, t) == Map(LeafShare, s);
    LeafShares(rows);
    LeafShares(t);
    UnionMonoid();
    MeasureOfEqualMaps(s, t);
    MeasurePermutation(LeafShare, Union, multiset{}, s, rows);
  }

  lemma MeasureOfEqualMaps(s: seq<Row>, t: seq<Row>)
    requires Map(LeafShare, t) == Map(LeafShare, s)
    ensures Measure(LeafShare, Union, multiset{}, s) == Measure(LeafShare, Union, multiset{}, t)
  {
  }

  lemma {:induction false} GroupBare(reg: Registry, procs: seq<Process>, dims: seq<Dimension>, leaf: string, ids: seq<string>)
    ensures Bare(Group(reg, procs, dims, leaf, ids))
    decreases |dims|
  {
    hide Keys, Bucket;
    if dims == [] {
      LeavesHaveNoChildren(procs, leaf, ids);
    } else {
      GroupKinds(reg, procs, dims, leaf, ids);
      var rows, keys := Group(reg, procs, dims, leaf, ids), Keys(procs, dims[0]);
      forall i | 0 <= i < |rows| ensures Bare(rows[i].sub) {
        GroupBare(reg, Bucket(procs, dims[0], keys[i]), dims[1..], leaf, ids);
      }
    }
  }

  /** Without a limit, the leaves of a result are the leaves of the selected processes that pass, each once. */
  lemma ResultLeaves(reg: Registry, all: seq<Process>, spec: Spec)
    requires Build(reg, all, spec).Rows? && spec.limit <= 0
    ensures multiset(LeafRows(Build(reg, all, spec).rows)) ==
            multiset(Passing(MakeLeaves(Selected(all, spec.select), spec.leaf, spec.metrics), spec.having))
  {
    hide LeafRows, ApplyHaving, SortTree, Selected, MakeLeaves, Group, ResolveGroupBy;
    var dims, procs := ResolveGroupBy(spec.groupBy).dims, Selected(all, spec.select);
    var rows, leaves := Tree(reg, procs, dims, spec), MakeLeaves(procs, spec.leaf, spec.metrics);
    TreeOfLeaves(reg, procs, dims, spec);
    HavingLeaves(rows, spec.having);
    TreeLeaves(ApplyHaving(rows, spec.having), spec.sort);
    forall r ensures multiset(Passing(LeafRows(rows), spec.having))[r] == multiset(Passing(leaves, spec.having))[r] {
      PassingCount(LeafRows(rows), spec.having, r);
      PassingCount(leaves, spec.having, r);
    }
  }

  lemma TreeOfLeaves(reg: Registry, procs: seq<Process>, dims: seq<Dimension>, spec: Spec)
    ensures Bare(Tree(reg, procs, dims, spec))
    ensures multiset(LeafRows(Tree(reg, procs, dims, spec))) == multiset(MakeLeaves(procs, spec.leaf, spec.metrics))
  {
    hide Group;
    if dims == [] && spec.leaf == "none" {
      LeafRowsOne(Tree(reg, procs, dims, spec)[0]);
    } else {
      GroupBare(reg, procs, dims, spec.leaf, spec.metrics);
      LeavesAreSelected(reg, procs, dims, spec.leaf, spec.metrics);
    }
  }

  // ---- What the order shows ----

  /** How two rows that come one after the other stand by one key. */
  ghost predicate ByKey(a: Head, b: Head, k: SortKey) {
    match (FieldValue(a, k.field), FieldValue(b, k.field))
    case (Number(x), Number(y)) =>
      y.Some? ==> x.Some? && if k.descending then x.value >= y.value else x.value <= y.value
    case (Text(x), Text(y)) => x == y || if k.descending then ByteOrder.StringLess(y, x) else ByteOrder.StringLess(x, y)
    case _ => false
  }

  /** In a sorted list the first key decides, and values that are unavailable come last either way. */
  lemma SortedByFirstKey(rows: seq<Row>, keys: seq<SortKey>, i: nat, j: nat)
    requires keys != [] && i < j < |rows|
    ensures ByKey(Sorted(rows, keys)[i].head, Sorted(rows, keys)[j].head, keys[0])
  {
    var s := Sorted(rows, keys);
    SortedInOrder(rows, keys);
    hide Sorted;
    NotLessByKey(s[i].head, s[j].head, keys);
  }

  lemma NotLessByKey(a: Head, b: Head, keys: seq<SortKey>)
    requires keys != [] && !Less(b, a, keys)
    ensures ByKey(a, b, keys[0])
  {
    TextFields(a, b, keys[0].field);
    TextIsLabel(a, keys[0].field);
    TextIsLabel(b, keys[0].field);
    ByteOrder.StringLessTotal(a.title, b.title);
    hide FieldValue;
  }

  /** The rows a limit keeps are the first of the sorted rows: none that is dropped comes before one kept. */
  lemma TopRows(reg: Registry, all: seq<Process>, spec: Spec, i: nat, j: nat)
    requires Build(reg, all, spec).Rows?
    ensures Build(reg, all, spec).rows == Cut(Build(reg, all, spec.(limit := 0)).rows, spec.limit)
    ensures var whole := Build(reg, all, spec.(limit := 0)).rows;
            i < j < |whole| ==> !Less(whole[j].head, whole[i].head, spec.sort)
  {
    var whole := Build(reg, all, spec.(limit := 0)).rows;
    if i < j < |whole| {
      hide Less, Sorted;
      var dims := ResolveGroupBy(spec.groupBy).dims;
      SortedInOrder(ApplyHaving(Tree(reg, Selected(all, spec.select), dims, spec), spec.having), spec.sort);
    }
  }
}
