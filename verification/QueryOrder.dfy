/**
 The result of a query does not depend on the order of the processes. Siblings always differ in kind,
 label or key, so their order is total, and everything shown for a group is a combination that no
 rearrangement changes.
 */
module QueryOrder {
  import opened Options
  import opened Folds
  import opened QueryModel
  import opened QuerySort
  import opened QueryBuild
  import opened QueryTotals
  import opened QueryBalance

  // ---- The finished tree of a forest ----

  function Done(rows: seq<Row>, pass: Head -> bool, keys: seq<SortKey>): seq<Row> {
    SortTree(ApplyHaving(rows, pass), keys)
  }

  function Finished(r: Row, pass: Head -> bool, keys: seq<SortKey>): Row { Row(r.head, Done(r.sub, pass, keys)) }

  lemma {:induction false} HavingElements(rows: seq<Row>, pass: Head -> bool, y: Row)
    ensures y in ApplyHaving(rows, pass) <==>
            exists r :: r in rows && y == Row(r.head, ApplyHaving(r.sub, pass)) && (pass(r.head) || y.sub != [])
  {
    if rows != [] {
      var last, init := rows[|rows| - 1], rows[..|rows| - 1];
      HavingElements(init, pass, y);
      assert rows == init + [last];
      assert forall r :: r in rows <==> r in init || r == last;
    }
  }

  lemma {:induction false} HavingDistinct(rows: seq<Row>, pass: Head -> bool)
    requires Distinct(rows)
    ensures Distinct(ApplyHaving(rows, pass))
  {
    hide SameIdent;
    if rows != [] {
      var last, init := rows[|rows| - 1], rows[..|rows| - 1];
      HavingDistinct(init, pass);
      var s := ApplyHaving(init, pass);
      forall i | 0 <= i < |s| ensures !SameIdent(s[i].head, last.head) {
        HavingElements(init, pass, s[i]);
        var r :| r in init && s[i] == Row(r.head, ApplyHaving(r.sub, pass));
        var k :| 0 <= k < |init| && init[k] == r;
        assert rows[k] == r;
      }
    }
  }

  lemma {:induction false} TreeElements(rows: seq<Row>, keys: seq<SortKey>, x: Row)
    ensures x in SortTree(rows, keys) <==> exists r :: r in rows && x == Row(r.head, SortTree(r.sub, keys))
  {
    var s, t := Sorted(rows, keys), SortTree(rows, keys);
    SameElements(s, rows);
    if x in t {
      var i :| 0 <= i < |t| && t[i] == x;
      assert s[i] in rows;
    }
    if r :| r in rows && x == Row(r.head, SortTree(r.sub, keys)) {
      var i :| 0 <= i < |s| && s[i] == r;
      assert t[i] == x;
    }
  }

  lemma TreeStrict(rows: seq<Row>, keys: seq<SortKey>)
    requires Distinct(rows)
    ensures Strict(SortTree(rows, keys), keys)
  {
    hide Less, Distinct, Sorted;
    SortedStrict(rows, keys);
    var s, t := Sorted(rows, keys), SortTree(rows, keys);
    assert forall i :: 0 <= i < |t| ==> t[i].head == s[i].head;
  }

  /** The rows of a finished forest: the finished rows that pass or keep something under them. */
  lemma DoneElements(rows: seq<Row>, pass: Head -> bool, keys: seq<SortKey>, x: Row)
    ensures x in Done(rows, pass, keys) <==>
            exists r :: r in rows && x == Finished(r, pass, keys) && (pass(r.head) || x.sub != [])
  {
    hide SortTree, ApplyHaving;
    var h := ApplyHaving(rows, pass);
    TreeElements(h, keys, x);
    if x in Done(rows, pass, keys) {
      var y :| y in h && x == Row(y.head, SortTree(y.sub, keys));
      HavingElements(rows, pass, y);
      var r :| r in rows && y == Row(r.head, ApplyHaving(r.sub, pass)) && (pass(r.head) || y.sub != []);
      assert |x.sub| == |y.sub| && x == Finished(r, pass, keys);
    }
    if r :| r in rows && x == Finished(r, pass, keys) && (pass(r.head) || x.sub != []) {
      var y := Row(r.head, ApplyHaving(r.sub, pass));
      assert |x.sub| == |y.sub|;
      HavingElements(rows, pass, y);
      assert y in h;
    }
  }

  /** `s` finishes some row of `rows` like `r`. */
  ghost predicate HasTwin(rows: seq<Row>, r: Row, pass: Head -> bool, keys: seq<SortKey>) {
    exists s :: s in rows && Finished(s, pass, keys) == Finished(r, pass, keys)
  }

  /** Forests of distinct siblings with the same finished rows finish alike. */
  lemma TwinsFinishAlike(a: seq<Row>, b: seq<Row>, pass: Head -> bool, keys: seq<SortKey>)
    requires Distinct(a) && Distinct(b)
    requires forall r :: r in a ==> HasTwin(b, r, pass, keys)
    requires forall r :: r in b ==> HasTwin(a, r, pass, keys)
    ensures Done(a, pass, keys) == Done(b, pass, keys)
  {
    HavingDistinct(a, pass);
    HavingDistinct(b, pass);
    TreeStrict(ApplyHaving(a, pass), keys);
    TreeStrict(ApplyHaving(b, pass), keys);
    hide Distinct, SortTree, ApplyHaving, Strict;
    forall x ensures x in Done(a, pass, keys) <==> x in Done(b, pass, keys) {
      TwinIn(a, b, pass, keys, x);
      TwinIn(b, a, pass, keys, x);
    }
    StrictUnique(Done(a, pass, keys), Done(b, pass, keys), keys);
  }

  lemma TwinIn(a: seq<Row>, b: seq<Row>, pass: Head -> bool, keys: seq<SortKey>, x: Row)
    requires forall r :: r in a ==> HasTwin(b, r, pass, keys)
    ensures x in Done(a, pass, keys) ==> x in Done(b, pass, keys)
  {
    hide Done;
    DoneElements(a, pass, keys, x);
    DoneElements(b, pass, keys, x);
    if x in Done(a, pass, keys) {
      var r :| r in a && x == Finished(r, pass, keys) && (pass(r.head) || x.sub != []);
      assert HasTwin(b, r, pass, keys);
    }
  }

  // ---- Rearranging the processes ----

  lemma SameSize<T>(a: seq<T>, b: seq<T>)
    requires multiset(a) == multiset(b)
    ensures |a| == |b| && forall x :: x in a <==> x in b
  {
    assert |multiset(a)| == |a| && |multiset(b)| == |b|;
    assert forall x :: x in a <==> x in multiset(a);
    assert forall x :: x in b <==> x in multiset(b);
  }

  lemma {:induction false} BucketPermutation(a: seq<Process>, b: seq<Process>, d: Dimension, key: string)
    requires multiset(a) == multiset(b)
    ensures multiset(Bucket(a, d, key)) == multiset(Bucket(b, d, key))
  {
    forall p ensures multiset(Bucket(a, d, key))[p] == multiset(Bucket(b, d, key))[p] {
      BucketCount(a, d, key, p);
      BucketCount(b, d, key, p);
    }
  }

  lemma {:induction false} KeysPermutation(a: seq<Process>, b: seq<Process>, d: Dimension)
    requires multiset(a) == multiset(b)
    ensures multiset(Keys(a, d)) == multiset(Keys(b, d))
  {
    hide KeyOf;
    KeysOnce(a, d);
    KeysOnce(b, d);
    SameSize(a, b);
    forall key ensures multiset(Keys(a, d))[key] == multiset(Keys(b, d))[key] {
      KeysSeen(a, d, key);
      KeysSeen(b, d, key);
      CountOnce(Keys(a, d), key);
      CountOnce(Keys(b, d), key);
    }
  }

  lemma {:induction false} CountOnce<T>(s: seq<T>, x: T)
    requires forall i, j :: 0 <= i < j < |s| ==> s[i] != s[j]
    ensures multiset(s)[x] == if x in s then 1 else 0
  {
    if s != [] {
      var last, init := s[|s| - 1], s[..|s| - 1];
      CountOnce(init, x);
      assert s == init + [last];
    }
  }

  lemma {:induction false} BucketKey(procs: seq<Process>, d: Dimension, key: string)
    ensures forall p :: p in Bucket(procs, d, key) ==> KeyOf(p, d) == key
  {
    if procs != [] {
      BucketKey(procs[..|procs| - 1], d, key);
    }
  }

  lemma LabelPermutation(a: seq<Process>, b: seq<Process>, d: Dimension, key: string)
    requires LabelByKey(d.extract) && a != [] && b != []
    requires forall p :: p in a || p in b ==> KeyOf(p, d) == key
    ensures BucketLabel(d, a, key) == BucketLabel(d, b, key)
  {
    assert KeyOf(a[0], d) == key == KeyOf(b[0], d);
  }

  /** These processes agree on each mixed metric, as far as they have it. */
  ghost predicate ValuesAgree(reg: Registry, procs: seq<Process>, ids: seq<string>) {
    forall id :: id in ids && AggregationOf(reg, id).AggMixed? ==> Uniform(Present(procs, id))
  }

  /** So do the processes of each top group, or of the host row. */
  ghost predicate GroupsAgree(reg: Registry, procs: seq<Process>, dims: seq<Dimension>, leaf: string, ids: seq<string>) {
    if dims == [] then leaf == "none" ==> ValuesAgree(reg, procs, ids)
    else forall key :: key in Keys(procs, dims[0]) ==> ValuesAgree(reg, Bucket(procs, dims[0], key), ids)
  }

  lemma {:induction false} PresentSeen(procs: seq<Process>, id: string, x: real)
    ensures x in Present(procs, id) <==> exists p :: p in procs && p.Metric(id).Get() == Some(x)
  {
    if procs != [] {
      var last, init := procs[|procs| - 1], procs[..|procs| - 1];
      PresentSeen(init, id, x);
      assert procs == init + [last];
      assert forall p :: p in procs <==> p in init || p == last;
    }
  }

  /** Uniform values stay so, and stay the same, in any list whose values are among them. */
  lemma PresentAmong(a: seq<Process>, b: seq<Process>, id: string)
    requires forall p :: p in b ==> p in a
    ensures forall x :: x in Present(b, id) ==> x in Present(a, id)
  {
    hide Present;
    forall x | x in Present(b, id) ensures x in Present(a, id) {
      PresentSeen(a, id, x);
      PresentSeen(b, id, x);
    }
  }

  lemma ValuesAgreeAmong(reg: Registry, a: seq<Process>, b: seq<Process>, ids: seq<string>)
    requires ValuesAgree(reg, a, ids) && forall p :: p in b ==> p in a
    ensures ValuesAgree(reg, b, ids)
  {
    hide Present;
    forall id | id in ids && AggregationOf(reg, id).AggMixed? ensures Uniform(Present(b, id)) {
      PresentAmong(a, b, id);
      assert Uniform(Present(a, id));
      if Present(b, id) != [] {
        assert Present(b, id)[0] in Present(b, id);
      }
    }
  }

  lemma GroupsAgreeBelow(reg: Registry, procs: seq<Process>, dims: seq<Dimension>, leaf: string, ids: seq<string>)
    requires ValuesAgree(reg, procs, ids)
    ensures GroupsAgree(reg, procs, dims, leaf, ids)
  {
    if dims != [] {
      forall key | key in Keys(procs, dims[0]) ensures ValuesAgree(reg, Bucket(procs, dims[0], key), ids) {
        BucketAmong(procs, dims[0], key);
        ValuesAgreeAmong(reg, procs, Bucket(procs, dims[0], key), ids);
      }
    }
  }

  lemma BucketAmong(procs: seq<Process>, d: Dimension, key: string)
    ensures forall p :: p in Bucket(procs, d, key) ==> p in procs
  {
    forall p | p in Bucket(procs, d, key) ensures p in procs {
      BucketCount(procs, d, key, p);
    }
  }

  lemma MixedPermutation(id: string, a: seq<Process>, b: seq<Process>)
    requires forall p :: p in a <==> p in b
    requires Uniform(Present(a, id))
    ensures AggregateOne(AggMixed, id, a) == AggregateOne(AggMixed, id, b)
  {
    hide Present;
    PresentAmong(a, b, id);
    PresentAmong(b, a, id);
    var x, y := Present(a, id), Present(b, id);
    if x != [] {
      assert x[0] in x;
    }
    if y != [] {
      assert y[0] in y;
    }
  }

  lemma AggregatePermutation(agg: Aggregation, id: string, a: seq<Process>, b: seq<Process>)
    requires multiset(a) == multiset(b) && (agg.AggMixed? ==> Uniform(Present(a, id)))
    ensures AggregateOne(agg, id, a) == AggregateOne(agg, id, b)
  {
    hide IsMonoid, Measure, Present;
    if agg.AggMixed? {
      SameProcs(a, b);
      MixedPermutation(id, a, b);
    } else {
      JoinMonoid(agg);
      MeasurePermutation(MetricIn(id), Join(agg), None, a, b);
      MetricMeasure(agg, id, a);
      MetricMeasure(agg, id, b);
    }
  }

  lemma SameProcs(a: seq<Process>, b: seq<Process>)
    requires multiset(a) == multiset(b)
    ensures forall p :: p in a <==> p in b
  {
    assert forall p :: p in a <==> p in multiset(a);
    assert forall p :: p in b <==> p in multiset(b);
  }

  lemma AggregatesPermutation(reg: Registry, ids: seq<string>, a: seq<Process>, b: seq<Process>)
    requires multiset(a) == multiset(b) && ValuesAgree(reg, a, ids)
    ensures Aggregates(reg, a, ids) == Aggregates(reg, b, ids)
  {
    forall id | id in ids
      ensures AggregateOne(AggregationOf(reg, id), id, a) == AggregateOne(AggregationOf(reg, id), id, b)
    {
      AggregatePermutation(AggregationOf(reg, id), id, a, b);
    }
  }

  lemma ThreadTotalPermutation(a: seq<Process>, b: seq<Process>)
    requires multiset(a) == multiset(b)
    ensures ThreadTotal(a) == ThreadTotal(b)
  {
    PlusMonoid();
    MeasurePermutation(ThreadsIn, Plus, 0, a, b);
    ThreadMeasure(a);
    ThreadMeasure(b);
  }

  lemma LeavesPermutation(a: seq<Process>, b: seq<Process>, leaf: string, ids: seq<string>)
    requires multiset(a) == multiset(b)
    ensures multiset(MakeLeaves(a, leaf, ids)) == multiset(MakeLeaves(b, leaf, ids))
  {
    hide MakeLeaves, IsMonoid, Measure;
    UnionMonoid();
    MeasurePermutation(LeavesOne(leaf, ids), Union, multiset{}, a, b);
    LeavesMeasure(leaf, ids, a);
    LeavesMeasure(leaf, ids, b);
  }

  lemma {:induction false} ShapePermutation(reg: Registry, a: seq<Process>, b: seq<Process>, dims: seq<Dimension>, leaf: string, ids: seq<string>)
    requires multiset(a) == multiset(b)
    ensures |Group(reg, a, dims, leaf, ids)| == |Group(reg, b, dims, leaf, ids)|
    ensures LeavesIn(Group(reg, a, dims, leaf, ids)) == LeavesIn(Group(reg, b, dims, leaf, ids))
  {
    LeavesPermutation(a, b, leaf, ids);
    SameSize(MakeLeaves(a, leaf, ids), MakeLeaves(b, leaf, ids));
    LeavesAreSelected(reg, a, dims, leaf, ids);
    LeavesAreSelected(reg, b, dims, leaf, ids);
    hide MakeLeaves, LeafRows, LeavesIn, Keys;
    SameSize(LeafRows(Group(reg, a, dims, leaf, ids)), LeafRows(Group(reg, b, dims, leaf, ids)));
    LeavesInCounts(Group(reg, a, dims, leaf, ids));
    LeavesInCounts(Group(reg, b, dims, leaf, ids));
    if dims != [] {
      KeysPermutation(a, b, dims[0]);
      SameSize(Keys(a, dims[0]), Keys(b, dims[0]));
    }
  }

  /** A group shows the same over any arrangement of its processes. */
  lemma {:induction false} HeadPermutation(reg: Registry, a: seq<Process>, b: seq<Process>, dims: seq<Dimension>, leaf: string,
                        ids: seq<string>, key: string)
    requires dims != [] && LabelByKey(dims[0].extract) && ValuesAgree(reg, Bucket(a, dims[0], key), ids)
    requires multiset(a) == multiset(b) && key in Keys(a, dims[0])
    ensures GroupRow(reg, a, dims, leaf, ids, key).head == GroupRow(reg, b, dims, leaf, ids, key).head
  {
    var d := dims[0];
    var p, q := Bucket(a, d, key), Bucket(b, d, key);
    hide ValuesAgree, LabelByKey, Keys, Bucket, KeyOf;
    BucketPermutation(a, b, d, key);
    SameSize(p, q);
    BucketKey(a, d, key);
    BucketKey(b, d, key);
    BucketNotEmpty(a, d, key);
    hide BucketLabel, Aggregates, ThreadTotal, LeavesIn, Group;
    LabelPermutation(p, q, d, key);
    AggregatesPermutation(reg, ids, p, q);
    ThreadTotalPermutation(p, q);
    ShapePermutation(reg, p, q, dims[1..], leaf, ids);
  }

  // ---- Distinct leaves ----

  /** The keys of the leaf entities, as the leaf mode lists them, are all different. */
  ghost predicate DistinctLeafKeys(procs: seq<Process>, leaf: string) {
    if leaf == "none" then true
    else if leaf == "thread" then
      var ths := ThreadsOf(procs);
      forall i, j :: 0 <= i < j < |ths| ==> ths[i].id.Key() != ths[j].id.Key()
    else forall i, j :: 0 <= i < j < |procs| ==> procs[i].id.Key() != procs[j].id.Key()
  }

  lemma DistinctLeaves(procs: seq<Process>, leaf: string, ids: seq<string>)
    requires DistinctLeafKeys(procs, leaf)
    ensures Distinct(MakeLeaves(procs, leaf, ids))
  {
  }

  /** Distinctness by counting, which rearranging and leaving out rows preserve. */
  ghost predicate Single(m: multiset<Row>) {
    && (forall x :: m[x] <= 1)
    && (forall x, y :: x in m && y in m && SameIdent(x.head, y.head) ==> x == y)
  }

  lemma {:induction false} DistinctIsSingle(rows: seq<Row>)
    ensures Distinct(rows) <==> Single(multiset(rows))
  {
    if Distinct(rows) {
      forall i, j | 0 <= i < j < |rows| ensures rows[i] != rows[j] {
        assert !SameIdent(rows[i].head, rows[j].head);
      }
      forall x ensures multiset(rows)[x] <= 1 { CountOnce(rows, x); }
      forall x, y | x in multiset(rows) && y in multiset(rows) && SameIdent(x.head, y.head) ensures x == y {
        var i :| 0 <= i < |rows| && rows[i] == x;
        var j :| 0 <= j < |rows| && rows[j] == y;
        assert i == j;
      }
    }
    if Single(multiset(rows)) {
      forall i, j | 0 <= i < j < |rows| ensures !SameIdent(rows[i].head, rows[j].head) {
        if SameIdent(rows[i].head, rows[j].head) {
          assert rows[i] in multiset(rows) && rows[j] in multiset(rows);
          CountTwice(rows, i, j);
        }
      }
    }
  }

  lemma CountTwice<T>(s: seq<T>, i: nat, j: nat)
    requires i < j < |s| && s[i] == s[j]
    ensures multiset(s)[s[i]] >= 2
  {
    assert s == s[..i] + [s[i]] + s[i + 1..j] + [s[j]] + s[j + 1..];
  }

  function Others(procs: seq<Process>, d: Dimension, key: string): seq<Process> {
    if procs == [] then []
    else
      var p := procs[|procs| - 1];
      Others(procs[..|procs| - 1], d, key) + (if KeyOf(p, d) == key then [] else [p])
  }

  lemma {:induction false} OthersCount(procs: seq<Process>, d: Dimension, key: string, p: Process)
    ensures multiset(Others(procs, d, key))[p] == if KeyOf(p, d) == key then 0 else multiset(procs)[p]
  {
    if procs != [] {
      var last, init := procs[|procs| - 1], procs[..|procs| - 1];
      OthersCount(init, d, key, p);
      MultisetLast(procs);
    }
  }

  lemma BucketAndOthers(procs: seq<Process>, d: Dimension, key: string)
    ensures multiset(procs) == multiset(Bucket(procs, d, key) + Others(procs, d, key))
  {
    forall p ensures multiset(procs)[p] == multiset(Bucket(procs, d, key))[p] + multiset(Others(procs, d, key))[p] {
      BucketCount(procs, d, key, p);
      OthersCount(procs, d, key, p);
    }
  }

  lemma {:induction false} BucketDistinct(procs: seq<Process>, d: Dimension, key: string, leaf: string, ids: seq<string>)
    requires Distinct(MakeLeaves(procs, leaf, ids))
    ensures Distinct(MakeLeaves(Bucket(procs, d, key), leaf, ids))
  {
    hide Distinct, MakeLeaves, Bucket, Others, SameIdent;
    var bp, rest := Bucket(procs, d, key), Others(procs, d, key);
    BucketAndOthers(procs, d, key);
    LeavesPermutation(procs, bp + rest, leaf, ids);
    MakeLeavesAppend(bp, rest, leaf, ids);
    DistinctIsSingle(MakeLeaves(procs, leaf, ids));
    DistinctIsSingle(MakeLeaves(bp, leaf, ids));
    SinglePart(multiset(MakeLeaves(bp, leaf, ids)), multiset(MakeLeaves(rest, leaf, ids)));
  }

  lemma SinglePart(m: multiset<Row>, n: multiset<Row>)
    requires Single(m + n)
    ensures Single(m)
  {
    forall x ensures m[x] <= 1 {
      assert (m + n)[x] <= 1;
    }
    assert forall x :: x in m ==> x in m + n;
  }

  lemma GroupsDistinct(reg: Registry, procs: seq<Process>, dims: seq<Dimension>, leaf: string, ids: seq<string>)
    requires dims != []
    ensures Distinct(Group(reg, procs, dims, leaf, ids))
  {
    hide Keys, Bucket;
    KeysOnce(procs, dims[0]);
    GroupKinds(reg, procs, dims, leaf, ids);
  }

  // ---- The tree ----

  lemma {:induction false} GroupOrderFree(reg: Registry, a: seq<Process>, b: seq<Process>, dims: seq<Dimension>,
                                          leaf: string, ids: seq<string>, pass: Head -> bool, keys: seq<SortKey>)
    requires multiset(a) == multiset(b) && GroupsAgree(reg, a, dims, leaf, ids)
    requires forall d :: d in dims ==> LabelByKey(d.extract)
    requires Distinct(MakeLeaves(a, leaf, ids))
    ensures Done(Group(reg, a, dims, leaf, ids), pass, keys) == Done(Group(reg, b, dims, leaf, ids), pass, keys)
    decreases |dims|
  {
    hide ValuesAgree, LabelByKey, Distinct, MakeLeaves, Done;
    var s, t := Group(reg, a, dims, leaf, ids), Group(reg, b, dims, leaf, ids);
    if dims == [] {
      LeavesPermutation(a, b, leaf, ids);
      DistinctIsSingle(s);
      DistinctIsSingle(t);
      SameSize(s, t);
    } else {
      hide Keys, Bucket;
      GroupsDistinct(reg, a, dims, leaf, ids);
      GroupsDistinct(reg, b, dims, leaf, ids);
      KeysPermutation(a, b, dims[0]);
      SameSize(Keys(a, dims[0]), Keys(b, dims[0]));
      forall key | key in Keys(a, dims[0])
        ensures Finished(GroupRow(reg, a, dims, leaf, ids, key), pass, keys) ==
                Finished(GroupRow(reg, b, dims, leaf, ids, key), pass, keys)
      {
        var p, q := Bucket(a, dims[0], key), Bucket(b, dims[0], key);
        HeadPermutation(reg, a, b, dims, leaf, ids, key);
        BucketPermutation(a, b, dims[0], key);
        BucketDistinct(a, dims[0], key, leaf, ids);
        GroupsAgreeBelow(reg, p, dims[1..], leaf, ids);
        GroupOrderFree(reg, p, q, dims[1..], leaf, ids, pass, keys);
      }
      GroupTwins(reg, a, b, dims, leaf, ids, pass, keys);
      GroupTwins(reg, b, a, dims, leaf, ids, pass, keys);
    }
    TwinsFinishAlike(s, t, pass, keys);
  }

  lemma {:induction false} GroupTwins(reg: Registry, a: seq<Process>, b: seq<Process>, dims: seq<Dimension>,
                   leaf: string, ids: seq<string>, pass: Head -> bool, keys: seq<SortKey>)
    requires dims != []
    requires forall key :: key in Keys(a, dims[0]) <==> key in Keys(b, dims[0])
    requires forall key :: key in Keys(a, dims[0]) ==>
               Finished(GroupRow(reg, a, dims, leaf, ids, key), pass, keys) ==
               Finished(GroupRow(reg, b, dims, leaf, ids, key), pass, keys)
    ensures forall r :: r in Group(reg, a, dims, leaf, ids) ==>
              HasTwin(Group(reg, b, dims, leaf, ids), r, pass, keys)
  {
    hide Keys, Finished, GroupRow;
    var s, t := Group(reg, a, dims, leaf, ids), Group(reg, b, dims, leaf, ids);
    forall r | r in s ensures HasTwin(t, r, pass, keys) {
      var i :| 0 <= i < |s| && s[i] == r;
      var key := Keys(a, dims[0])[i];
      assert key in Keys(b, dims[0]);
      var j :| 0 <= j < |Keys(b, dims[0])| && Keys(b, dims[0])[j] == key;
      assert t[j] in t;
    }
  }

  lemma {:induction false} SelectedCount(all: seq<Process>, select: Process -> bool, p: Process)
    ensures multiset(Selected(all, select))[p] == if select(p) then multiset(all)[p] else 0
  {
    if all != [] {
      var last, init := all[|all| - 1], all[..|all| - 1];
      SelectedCount(init, select, p);
      MultisetLast(all);
    }
  }

  lemma {:induction false} SelectedPermutation(a: seq<Process>, b: seq<Process>, select: Process -> bool)
    requires multiset(a) == multiset(b)
    ensures multiset(Selected(a, select)) == multiset(Selected(b, select))
  {
    forall p ensures multiset(Selected(a, select))[p] == multiset(Selected(b, select))[p] {
      SelectedCount(a, select, p);
      SelectedCount(b, select, p);
    }
  }

  lemma HostPermutation(reg: Registry, a: seq<Process>, b: seq<Process>, ids: seq<string>)
    requires multiset(a) == multiset(b) && ValuesAgree(reg, a, ids)
    ensures FilledRow(reg, HOST, "", "host", "HOST", [], a, ids) == FilledRow(reg, HOST, "", "host", "HOST", [], b, ids)
  {
    SameSize(a, b);
    ThreadTotalPermutation(a, b);
    AggregatesPermutation(reg, ids, a, b);
  }

  lemma ResolvedLabels(ids: seq<string>)
    requires ResolveGroupBy(ids).Dims?
    ensures forall d :: d in ResolveGroupBy(ids).dims ==> LabelByKey(d.extract)
  {
    hide GetDimension, LabelByKey;
    if ids != [] && ids != ["none"] {
      ResolveGroupByExact(ids);
      var dims := ResolveGroupBy(ids).dims;
      forall d | d in dims ensures LabelByKey(d.extract) {
        var i :| 0 <= i < |dims| && dims[i] == d;
        DimensionLabels(ids[i]);
      }
    }
  }

  lemma DimensionLabels(id: string)
    requires GetDimension(id).Some?
    ensures LabelByKey(GetDimension(id).value.extract)
  {
    hide ExtractOf, LabelByKey;
    RegisteredLabelByKey(id);
  }

  /** For each mixed metric, the selected processes of each top group agree on its value. */
  ghost predicate MixedAgree(reg: Registry, all: seq<Process>, spec: Spec) {
    match ResolveGroupBy(spec.groupBy)
    case Refused(_) => true
    case Dims(dims) => GroupsAgree(reg, Selected(all, spec.select), dims, spec.leaf, spec.metrics)
  }

  /** Rearranging the input changes neither the tree, nor the order of siblings, nor the top-N cut. */
  lemma BuildOrderFree(reg: Registry, a: seq<Process>, b: seq<Process>, spec: Spec)
    requires multiset(a) == multiset(b) && MixedAgree(reg, a, spec)
    requires DistinctLeafKeys(Selected(a, spec.select), spec.leaf)
    ensures Build(reg, a, spec) == Build(reg, b, spec)
  {
    if ResolveGroupBy(spec.groupBy).Dims? {
      var dims := ResolveGroupBy(spec.groupBy).dims;
      var p, q := Selected(a, spec.select), Selected(b, spec.select);
      ResolvedLabels(spec.groupBy);
      SelectedPermutation(a, b, spec.select);
      hide ResolveGroupBy, LabelByKey, ValuesAgree, Selected, SortTree, ApplyHaving;
      if dims == [] && spec.leaf == "none" {
        HostPermutation(reg, p, q, spec.metrics);
      } else {
        DistinctLeaves(p, spec.leaf, spec.metrics);
        hide DistinctLeafKeys, Distinct, MakeLeaves, Group;
        GroupOrderFree(reg, p, q, dims, spec.leaf, spec.metrics, spec.having, spec.sort);
      }
    }
  }
}
