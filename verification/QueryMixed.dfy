/**
 Mixed metrics. Such a metric shows the first value of its group, so the result of a query depends on the
 order of the processes exactly when the processes of some group disagree on it.
 */
module QueryMixed {
  import opened Options
  import opened QueryModel
  import opened QueryBuild
  import opened QueryOrder

  // ---- Mixed metrics ----

  /** The payload of a mixed metric is its first value: order-free exactly when the values agree. */
  lemma MixedOrderFree(vals: seq<real>)
    requires vals != []
    ensures (forall t :: multiset(t) == multiset(vals) && t != [] ==> MixedValue(t) == MixedValue(vals)) <==> Uniform(vals)
  {
    if Uniform(vals) {
      forall t | multiset(t) == multiset(vals) && t != [] ensures MixedValue(t) == MixedValue(vals) {
        SameSize(t, vals);
        assert t[0] in vals;
      }
    } else {
      var x :| x in vals && x != vals[0];
      var k :| 0 <= k < |vals| && vals[k] == x;
      var t := [x] + vals[..k] + vals[k + 1..];
      assert vals == vals[..k] + [x] + vals[k + 1..];
      assert multiset(t) == multiset(vals);
      assert MixedValue(t).v != MixedValue(vals).v;
    }
  }

  // ---- Where values disagree, the order shows ----

  /** A process moved to the front of the list. */
  function Fronted(all: seq<Process>, k: nat): seq<Process>
    requires k < |all|
  {
    [all[k]] + (all[..k] + all[k + 1..])
  }

  lemma FrontedPermutes(all: seq<Process>, k: nat)
    requires k < |all|
    ensures multiset(Fronted(all, k)) == multiset(all)
  {
    assert all == all[..k] + [all[k]] + all[k + 1..];
  }

  lemma {:induction false} SelectedFront(p: Process, rest: seq<Process>, select: Process -> bool)
    requires select(p)
    ensures Selected([p] + rest, select) == [p] + Selected(rest, select)
  {
    if rest == [] {
      assert [p] + rest == [p] && [p][..0] == [];
      assert Selected([p], select) == [] + [p];
    } else {
      var init, last := rest[..|rest| - 1], rest[|rest| - 1];
      SelectedFront(p, init, select);
      assert ([p] + rest)[..|rest|] == [p] + init && ([p] + rest)[|rest|] == last;
    }
  }

  lemma {:induction false} BucketFront(p: Process, rest: seq<Process>, d: Dimension)
    ensures Bucket([p] + rest, d, KeyOf(p, d)) == [p] + Bucket(rest, d, KeyOf(p, d))
  {
    hide KeyOf;
    if rest == [] {
      assert [p] + rest == [p] && [p][..0] == [];
      assert Bucket([p], d, KeyOf(p, d)) == [] + [p];
    } else {
      var init, last := rest[..|rest| - 1], rest[|rest| - 1];
      BucketFront(p, init, d);
      assert ([p] + rest)[..|rest|] == [p] + init && ([p] + rest)[|rest|] == last;
    }
  }

  lemma {:induction false} PresentFront(p: Process, rest: seq<Process>, id: string)
    requires p.Metric(id).Get().Some?
    ensures Present([p] + rest, id) != [] && Present([p] + rest, id)[0] == p.Metric(id).Get().value
  {
    if rest == [] {
      assert [p] + rest == [p] && [p][..0] == [];
    } else {
      PresentFront(p, rest[..|rest| - 1], id);
      assert ([p] + rest)[..|rest|] == [p] + rest[..|rest| - 1];
    }
  }

  /** With values that disagree, some process shows another value than the first. */
  lemma Dissenter(procs: seq<Process>, id: string) returns (p: Process)
    requires !Uniform(Present(procs, id))
    ensures p in procs && p.Metric(id).Get().Some? && Present(procs, id) != []
    ensures p.Metric(id).Get().value != Present(procs, id)[0]
  {
    hide Present;
    var x :| x in Present(procs, id) && x != Present(procs, id)[0];
    PresentSeen(procs, id, x);
    p :| p in procs && p.Metric(id).Get() == Some(x);
  }

  lemma FrontChangesMixed(reg: Registry, procs: seq<Process>, p: Process, rest: seq<Process>, id: string, ids: seq<string>)
    requires id in ids && AggregationOf(reg, id).AggMixed? && p.Metric(id).Get().Some?
    requires Present(procs, id) != [] && Present(procs, id)[0] != p.Metric(id).Get().value
    ensures Aggregates(reg, procs, ids)[id] != Aggregates(reg, [p] + rest, ids)[id]
  {
    hide Present;
    PresentFront(p, rest, id);
  }

  /** When every row passes, filtering and sorting keep the heads. */
  lemma DoneHeads(rows: seq<Row>, pass: Head -> bool, keys: seq<SortKey>, h: Head)
    requires forall g: Head :: pass(g)
    ensures (exists r :: r in Done(rows, pass, keys) && r.head == h) <==> exists r :: r in rows && r.head == h
  {
    hide SortTree, ApplyHaving;
    var kept := ApplyHaving(rows, pass);
    if r :| r in Done(rows, pass, keys) && r.head == h {
      TreeElements(kept, keys, r);
      var k :| k in kept && r == Row(k.head, SortTree(k.sub, keys));
      HavingElements(rows, pass, k);
    }
    if r :| r in rows && r.head == h {
      var k := Row(r.head, ApplyHaving(r.sub, pass));
      HavingElements(rows, pass, k);
      TreeElements(kept, keys, Row(k.head, SortTree(k.sub, keys)));
    }
  }

  /** The row of a group is the only one with its key, so another head there is another result. */
  lemma OtherHeadShows(reg: Registry, a: seq<Process>, b: seq<Process>, dims: seq<Dimension>, leaf: string, ids: seq<string>,
                       pass: Head -> bool, keys: seq<SortKey>, key: string)
    requires dims != [] && key in Keys(a, dims[0]) && forall g: Head :: pass(g)
    requires GroupRow(reg, a, dims, leaf, ids, key).head != GroupRow(reg, b, dims, leaf, ids, key).head
    ensures Done(Group(reg, a, dims, leaf, ids), pass, keys) != Done(Group(reg, b, dims, leaf, ids), pass, keys)
  {
    hide Keys, Bucket, Done;
    var s, t := Group(reg, a, dims, leaf, ids), Group(reg, b, dims, leaf, ids);
    var h := GroupRow(reg, a, dims, leaf, ids, key).head;
    var i :| 0 <= i < |Keys(a, dims[0])| && Keys(a, dims[0])[i] == key;
    assert s[i] in s && s[i].head == h;
    DoneHeads(s, pass, keys, h);
    DoneHeads(t, pass, keys, h);
    forall r | r in t ensures r.head != h {
      var j :| 0 <= j < |t| && t[j] == r;
      assert r == GroupRow(reg, b, dims, leaf, ids, Keys(b, dims[0])[j]);
      assert r.head.key == Keys(b, dims[0])[j] && h.key == key;
    }
  }

  /** If two processes of a group disagree on a mixed metric, some arrangement shows another group row. */
  lemma GroupDisagrees(reg: Registry, all: seq<Process>, select: Process -> bool, dims: seq<Dimension>, leaf: string,
                       ids: seq<string>, pass: Head -> bool, keys: seq<SortKey>) returns (b: seq<Process>)
    requires dims != [] && !GroupsAgree(reg, Selected(all, select), dims, leaf, ids) && forall g: Head :: pass(g)
    ensures multiset(b) == multiset(all)
    ensures Done(Group(reg, Selected(b, select), dims, leaf, ids), pass, keys) !=
            Done(Group(reg, Selected(all, select), dims, leaf, ids), pass, keys)
  {
    hide Done, Present, Aggregates;
    var d, procs := dims[0], Selected(all, select);
    var key :| key in Keys(procs, d) && !ValuesAgree(reg, Bucket(procs, d, key), ids);
    var id :| id in ids && AggregationOf(reg, id).AggMixed? && !Uniform(Present(Bucket(procs, d, key), id));
    var p := Dissenter(Bucket(procs, d, key), id);
    BucketAmong(procs, d, key);
    BucketKey(procs, d, key);
    var k := SelectedFrom(all, select, p);
    b := Fronted(all, k);
    FrontedPermutes(all, k);
    var rest := all[..k] + all[k + 1..];
    SelectedFront(p, rest, select);
    BucketFront(p, Selected(rest, select), d);
    FrontChangesMixed(reg, Bucket(procs, d, key), p, Bucket(Selected(rest, select), d, key), id, ids);
    OtherHeadShows(reg, procs, Selected(b, select), dims, leaf, ids, pass, keys, key);
  }

  lemma SelectedFrom(all: seq<Process>, select: Process -> bool, p: Process) returns (k: nat)
    requires p in Selected(all, select)
    ensures k < |all| && all[k] == p && select(p)
  {
    SelectedCount(all, select, p);
    assert p in all;
    k :| 0 <= k < |all| && all[k] == p;
  }

  /** The same for the single host row. */
  lemma HostDisagrees(reg: Registry, all: seq<Process>, select: Process -> bool, ids: seq<string>,
                      pass: Head -> bool, keys: seq<SortKey>) returns (b: seq<Process>)
    requires !ValuesAgree(reg, Selected(all, select), ids) && forall g: Head :: pass(g)
    ensures multiset(b) == multiset(all)
    ensures Done([FilledRow(reg, HOST, "", "host", "HOST", [], Selected(b, select), ids)], pass, keys) !=
            Done([FilledRow(reg, HOST, "", "host", "HOST", [], Selected(all, select), ids)], pass, keys)
  {
    hide Done, Present, Aggregates;
    var procs := Selected(all, select);
    var id :| id in ids && AggregationOf(reg, id).AggMixed? && !Uniform(Present(procs, id));
    var p := Dissenter(procs, id);
    var k := SelectedFrom(all, select, p);
    b := Fronted(all, k);
    FrontedPermutes(all, k);
    var rest := all[..k] + all[k + 1..];
    SelectedFront(p, rest, select);
    FrontChangesMixed(reg, procs, p, Selected(rest, select), id, ids);
    var x, y := FilledRow(reg, HOST, "", "host", "HOST", [], procs, ids),
                FilledRow(reg, HOST, "", "host", "HOST", [], Selected(b, select), ids);
    assert x.head.metrics != y.head.metrics;
    assert x in [x] && x.head != y.head;
    DoneHeads([x], pass, keys, x.head);
    DoneHeads([y], pass, keys, x.head);
  }

  /** If selected processes of a group disagree on a mixed metric, some arrangement of the input gives another result. */
  lemma DisagreementShows(reg: Registry, a: seq<Process>, spec: Spec) returns (b: seq<Process>)
    requires !MixedAgree(reg, a, spec) && (forall g: Head :: spec.having(g)) && spec.limit <= 0
    ensures multiset(b) == multiset(a) && Build(reg, b, spec) != Build(reg, a, spec)
  {
    hide ResolveGroupBy, Group, FilledRow, Selected, SortTree, ApplyHaving, ValuesAgree;
    var dims := ResolveGroupBy(spec.groupBy).dims;
    if dims == [] {
      b := HostDisagrees(reg, a, spec.select, spec.metrics, spec.having, spec.sort);
    } else {
      b := GroupDisagrees(reg, a, spec.select, dims, spec.leaf, spec.metrics, spec.having, spec.sort);
    }
  }

  /**
   With distinct leaves and nothing filtered out or cut off, the result is the same for every arrangement of
   the input if and only if the processes of each top group agree on the mixed metrics asked for.
   */
  lemma OrderFreeExactly(reg: Registry, a: seq<Process>, spec: Spec)
    requires DistinctLeafKeys(Selected(a, spec.select), spec.leaf)
    requires (forall g: Head :: spec.having(g)) && spec.limit <= 0
    ensures (forall b :: multiset(b) == multiset(a) ==> Build(reg, b, spec) == Build(reg, a, spec)) <==> MixedAgree(reg, a, spec)
  {
    hide Build, MixedAgree, DistinctLeafKeys;
    if MixedAgree(reg, a, spec) {
      forall b | multiset(b) == multiset(a) ensures Build(reg, b, spec) == Build(reg, a, spec) {
        BuildOrderFree(reg, a, b, spec);
      }
    } else {
      var b := DisagreementShows(reg, a, spec);
    }
  }
}
