/** The engine's methods, each with its loops, against the functions of the pipeline. */
module QueryEngine {
  import opened Options
  import opened QueryModel
  import opened QuerySort
  import opened QueryBuild
  import opened Sequences

  method SelectProcesses(all: seq<Process>, select: Process -> bool) returns (out: seq<Process>)
    ensures out == Selected(all, select)
  {
    out := [];
    for i := 0 to |all|
      invariant out == Selected(all[..i], select)
    {
      Take(all, i);
      if select(all[i]) {
        out := out + [all[i]];
      }
    }
    assert all[..|all|] == all;
  }

  /** The keys in first-seen order, and the processes under each. */
  method BucketBy(procs: seq<Process>, d: Dimension) returns (order: seq<string>, buckets: map<string, seq<Process>>)
    ensures order == Keys(procs, d)
    ensures forall key :: key in buckets <==> key in order
    ensures forall key :: key in order ==> buckets[key] == Bucket(procs, d, key)
  {
    order, buckets := [], map[];
    for i := 0 to |procs|
      invariant order == Keys(procs[..i], d)
      invariant forall key :: key in buckets <==> key in order
      invariant forall key :: key in order ==> buckets[key] == Bucket(procs[..i], d, key)
      invariant forall key :: key !in order ==> Bucket(procs[..i], d, key) == []
    {
      Take(procs, i);
      var key := UNKNOWN;
      match (d.extract)(procs[i]) {
        case Some((k, _)) => key := k;
        case None =>
      }
      var before := if key in buckets then buckets[key] else [];
      if key !in buckets {
        order := order + [key];
      }
      buckets := buckets[key := before + [procs[i]]];
    }
    assert procs[..|procs|] == procs;
  }

  method PresentValues(procs: seq<Process>, id: string) returns (out: seq<real>)
    ensures out == Present(procs, id)
  {
    out := [];
    for i := 0 to |procs|
      invariant out == Present(procs[..i], id)
    {
      Take(procs, i);
      var v := procs[i].Metric(id).Get();
      if v.Some? {
        out := out + [v.value];
      }
    }
    assert procs[..|procs|] == procs;
  }

  method ReduceValues(vals: seq<real>, agg: Aggregation) returns (acc: real)
    requires vals != []
    ensures acc == Reduce(vals, agg)
  {
    acc := vals[0];
    for i := 1 to |vals|
      invariant acc == Reduce(vals[..i], agg)
    {
      Take(vals, i);
      acc := Op(agg)(acc, vals[i]);
    }
    assert vals[..|vals|] == vals;
  }

  method MixedOf(vals: seq<real>) returns (v: MetricValue)
    requires vals != []
    ensures v == MixedValue(vals)
  {
    var first := vals[0];
    for i := 1 to |vals|
      invariant forall k :: 0 <= k < i ==> vals[k] == first
    {
      if vals[i] != first {
        assert vals[i] in vals;
        return NewValue(first, Mixed, "aggregate");
      }
    }
    v := NewValue(first, Derived, "aggregate");
  }

  method AggregateValues(agg: Aggregation, id: string, procs: seq<Process>) returns (v: MetricValue)
    ensures v == AggregateOne(agg, id, procs)
  {
    var vals := PresentValues(procs, id);
    if |vals| == 0 {
      return Unavailable(Disabled, "aggregate");
    }
    if agg.AggMixed? {
      v := MixedOf(vals);
    } else {
      var x := ReduceValues(vals, agg);
      v := NewValue(x, Derived, "aggregate");
    }
  }

  method ProjectMetrics(src: Metrics, ids: seq<string>) returns (out: Metrics)
    ensures out == Project(src, ids)
  {
    out := map[];
    for i := 0 to |ids|
      invariant forall id :: id in out <==> id in ids[..i]
      invariant forall id :: id in out ==> id in ids && out[id] == Project(src, ids)[id]
    {
      Take(ids, i);
      if ids[i] in src {
        out := out[ids[i] := src[ids[i]]];
      } else {
        out := out[ids[i] := Unavailable(Disabled, "")];
      }
    }
    assert ids[..|ids|] == ids;
  }

  method ProcessLeaf(p: Process, ids: seq<string>) returns (row: Row)
    ensures row == ProcessRow(p, ids)
  {
    var metrics := ProjectMetrics(p.metrics, ids);
    row := Row(Head(PROCESS, "", p.id.Key(), LeafLabel(p), 0, 1, p.ThreadCount(), 1, metrics, Some(p), None), []);
  }

  method ThreadLeaf(th: Thread, ids: seq<string>) returns (row: Row)
    ensures row == ThreadRow(th, ids)
  {
    var metrics := ProjectMetrics(th.metrics, ids);
    row := Row(Head(THREAD, "", th.id.Key(), th.comm, 0, 0, 1, 1, metrics, None, Some(th)), []);
  }

  method ProcessLeaves(procs: seq<Process>, ids: seq<string>) returns (rows: seq<Row>)
    ensures rows == MakeLeaves(procs, "process", ids)
  {
    hide ProcessRow;
    rows := [];
    for i := 0 to |procs|
      invariant |rows| == i && forall k :: 0 <= k < i ==> rows[k] == ProcessRow(procs[k], ids)
    {
      var row := ProcessLeaf(procs[i], ids);
      rows := rows + [row];
    }
  }

  method ThreadLeaves(procs: seq<Process>, ids: seq<string>) returns (rows: seq<Row>)
    ensures rows == MakeLeaves(procs, "thread", ids)
  {
    hide ThreadRow;
    rows := [];
    for i := 0 to |procs|
      invariant rows == ThreadRows(ThreadsOf(procs[..i]), ids)
    {
      Take(procs, i);
      var ths := procs[i].threads;
      ghost var before := ThreadsOf(procs[..i]);
      assert before + ths[..0] == before;
      for k := 0 to |ths|
        invariant rows == ThreadRows(before + ths[..k], ids)
      {
        var row := ThreadLeaf(ths[k], ids);
        rows := rows + [row];
        assert before + ths[..k + 1] == (before + ths[..k]) + [ths[k]];
      }
      assert before + ths[..|ths|] == ThreadsOf(procs[..i + 1]);
    }
    assert procs[..|procs|] == procs;
  }

  ghost function ThreadRows(ths: seq<Thread>, ids: seq<string>): seq<Row> {
    seq(|ths|, i requires 0 <= i < |ths| => ThreadRow(ths[i], ids))
  }

  method LeafLevel(procs: seq<Process>, leaf: string, ids: seq<string>) returns (rows: seq<Row>)
    ensures rows == MakeLeaves(procs, leaf, ids)
  {
    if leaf == "none" {
      rows := [];
    } else if leaf == "thread" {
      rows := ThreadLeaves(procs, ids);
    } else {
      rows := ProcessLeaves(procs, ids);
    }
  }

  method CountRowLeaves(r: Row) returns (n: nat)
    ensures n == CountLeaves(r)
    decreases r
  {
    if r.head.kind == PROCESS || r.head.kind == THREAD {
      return 1;
    }
    n := 0;
    for i := 0 to |r.sub|
      invariant n == LeavesIn(r.sub[..i])
    {
      Take(r.sub, i);
      var c := CountRowLeaves(r.sub[i]);
      n := n + c;
    }
    assert r.sub[..|r.sub|] == r.sub;
  }

  /** A group survives when it passes or still has rows under it. */
  method HavingStage(rows: seq<Row>, pass: Head -> bool) returns (out: seq<Row>)
    ensures out == ApplyHaving(rows, pass)
    decreases rows
  {
    out := [];
    for i := 0 to |rows|
      invariant out == ApplyHaving(rows[..i], pass)
    {
      Take(rows, i);
      var r := rows[i];
      var sub := HavingStage(r.sub, pass);
      r := r.(sub := sub);
      var keep := pass(r.head);
      if keep || |r.sub| > 0 {
        out := out + [r];
      }
    }
    assert rows[..|rows|] == rows;
  }

  /** Siblings first, then every row's children. */
  method SortStage(rows: seq<Row>, keys: seq<SortKey>) returns (out: seq<Row>)
    ensures out == SortTree(rows, keys)
    decreases Depth(rows)
  {
    out := Sorted(rows, keys);
    ghost var s := out;
    SameElements(s, rows);
    hide Sorted, Depth, SortTree;
    for i := 0 to |out|
      invariant |out| == |s|
      invariant forall k :: 0 <= k < i ==> out[k] == Row(s[k].head, SortTree(s[k].sub, keys))
      invariant forall k :: i <= k < |s| ==> out[k] == s[k]
    {
      assert s[i] in rows;
      DepthBelow(rows, s[i]);
      var sub := SortStage(out[i].sub, keys);
      out := out[i := out[i].(sub := sub)];
    }
    SortedTree(rows, keys, out);
  }

  lemma SortedTree(rows: seq<Row>, keys: seq<SortKey>, out: seq<Row>)
    requires var s := Sorted(rows, keys);
             |out| == |s| && forall k :: 0 <= k < |s| ==> out[k] == Row(s[k].head, SortTree(s[k].sub, keys))
    ensures out == SortTree(rows, keys)
  {
    hide Sorted;
    assert |SortTree(rows, keys)| == |out|;
  }

  class Engine {
    const reg: Registry

    constructor (reg: Registry)
      ensures this.reg == reg
    {
      this.reg := reg;
    }

    method ResolveDimensions(ids: seq<string>) returns (r: Resolved)
      ensures r == ResolveGroupBy(ids)
    {
      if |ids| == 0 {
        return Dims([]);
      }
      if |ids| == 1 && ids[0] == "none" {
        return Dims([]);
      }
      var seen: set<string> := {};
      var dims := [];
      for i := 0 to |ids|
        invariant forall id :: id in seen <==> id in ids[..i]
        invariant ResolveGroupBy(ids) == Prefixed(dims, ResolveFrom(ids, i))
      {
        Take(ids, i);
        var id := ids[i];
        if id == "none" {
          return Refused(NoneMustBeAlone);
        }
        if id in seen {
          return Refused(DuplicateDimension);
        }
        seen := seen + {id};
        var d := GetDimension(id);
        if d.None? {
          return Refused(UnknownDimension);
        }
        PrefixedMore(dims, d.value, ResolveFrom(ids, i + 1));
        dims := dims + [d.value];
      }
      r := Dims(dims);
    }

    method AggregateMetrics(procs: seq<Process>, ids: seq<string>) returns (out: Metrics)
      ensures out == Aggregates(reg, procs, ids)
    {
      out := map[];
      for i := 0 to |ids|
        invariant forall id :: id in out <==> id in ids[..i]
        invariant forall id :: id in out ==> id in ids && out[id] == AggregateOne(AggregationOf(reg, id), id, procs)
      {
        Take(ids, i);
        var agg := AggSum;
        match reg(ids[i]) {
          case Some(a) => agg := a;
          case None =>
        }
        var v := AggregateValues(agg, ids[i], procs);
        out := out[ids[i] := v];
      }
      assert ids[..|ids|] == ids;
    }

    /** The row's counts and metrics, from its children and its processes. */
    method FillGroup(row: Row, procs: seq<Process>, ids: seq<string>) returns (filled: Row)
      requires row.head.kind != PROCESS && row.head.kind != THREAD
      requires row.head.process.None? && row.head.thread.None?
      ensures filled == FilledRow(reg, row.head.kind, row.head.dimension, row.head.key, row.head.title, row.sub, procs, ids)
    {
      filled := row;
      filled := filled.(head := filled.head.(children := |row.sub|));
      filled := filled.(head := filled.head.(procs := |procs|));
      var threads := 0;
      for i := 0 to |procs|
        invariant threads == ThreadTotal(procs[..i])
      {
        Take(procs, i);
        threads := threads + procs[i].ThreadCount();
      }
      assert procs[..|procs|] == procs;
      filled := filled.(head := filled.head.(threads := threads));
      var leaves := CountRowLeaves(filled);
      filled := filled.(head := filled.head.(leaves := leaves));
      var metrics := AggregateMetrics(procs, ids);
      filled := filled.(head := filled.head.(metrics := metrics));
    }

    method BuildLevel(procs: seq<Process>, dims: seq<Dimension>, leaf: string, ids: seq<string>) returns (rows: seq<Row>)
      ensures rows == Group(reg, procs, dims, leaf, ids)
      decreases |dims|
    {
      hide Bucket, Keys, KeyOf, BucketLabel, MakeLeaves, FilledRow;
      if |dims| == 0 {
        rows := LeafLevel(procs, leaf, ids);
        return;
      }
      var dim := dims[0];
      var order, buckets := BucketBy(procs, dim);
      rows := [];
      for i := 0 to |order|
        invariant |rows| == i
        invariant forall k :: 0 <= k < i ==> rows[k] == GroupRow(reg, procs, dims, leaf, ids, order[k])
      {
        var key := order[i];
        var bp := buckets[key];
        var row := Row(Head(GROUP, dim.id, key, BucketLabel(dim, bp, key), 0, 0, 0, 0, map[], None, None), []);
        var sub := BuildLevel(bp, dims[1..], leaf, ids);
        row := row.(sub := sub);
        row := FillGroup(row, bp, ids);
        rows := rows + [row];
      }
    }

    method HostTotal(procs: seq<Process>, ids: seq<string>) returns (row: Row)
      ensures row == FilledRow(reg, HOST, "", "host", "HOST", [], procs, ids)
    {
      row := Row(Head(HOST, "", "host", "HOST", 0, 0, 0, 0, map[], None, None), []);
      row := FillGroup(row, procs, ids);
    }

    method BuildResult(all: seq<Process>, spec: Spec) returns (r: Built)
      ensures r == Build(reg, all, spec)
    {
      var dims := ResolveDimensions(spec.groupBy);
      if dims.Refused? {
        return Failed(dims.why);
      }
      var procs := SelectProcesses(all, spec.select);
      var rows;
      if |dims.dims| == 0 && spec.leaf == "none" {
        var row := HostTotal(procs, spec.metrics);
        rows := [row];
      } else {
        rows := BuildLevel(procs, dims.dims, spec.leaf, spec.metrics);
      }
      rows := HavingStage(rows, spec.having);
      rows := SortStage(rows, spec.sort);
      if spec.limit > 0 && |rows| > spec.limit {
        rows := rows[..spec.limit];
      }
      r := Rows(rows);
    }
  }

  ghost function Prefixed(before: seq<Dimension>, rest: Resolved): Resolved {
    match rest
    case Dims(ds) => Dims(before + ds)
    case Refused(why) => Refused(why)
  }

  lemma PrefixedMore(before: seq<Dimension>, d: Dimension, rest: Resolved)
    ensures Prefixed(before + [d], rest) == Prefixed(before, Prefixed([d], rest))
  {
    if rest.Dims? {
      assert before + [d] + rest.dims == before + ([d] + rest.dims);
    }
  }
}
