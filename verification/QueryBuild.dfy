/** The query pipeline as functions: select, group, aggregate, filter, sort, cut. */
module QueryBuild {
  import opened Options
  import opened QueryModel
  import opened QuerySort
  import Identity

  datatype QueryError = NoneMustBeAlone | DuplicateDimension | UnknownDimension

  datatype Resolved = Dims(dims: seq<Dimension>) | Refused(why: QueryError)

  // ---- Group-by ----

  function ResolveFrom(ids: seq<string>, k: nat): (r: Resolved)
    requires k <= |ids|
    ensures r.Dims? ==> |r.dims| == |ids| - k
    decreases |ids| - k
  {
    if k == |ids| then Dims([])
    else if ids[k] == "none" then Refused(NoneMustBeAlone)
    else if ids[k] in ids[..k] then Refused(DuplicateDimension)
    else if GetDimension(ids[k]).None? then Refused(UnknownDimension)
    else
      match ResolveFrom(ids, k + 1)
      case Refused(why) => Refused(why)
      case Dims(ds) => Dims([GetDimension(ids[k]).value] + ds)
  }

  function ResolveGroupBy(ids: seq<string>): Resolved {
    if ids == [] || ids == ["none"] then Dims([]) else ResolveFrom(ids, 0)
  }

  // ---- Buckets ----

  const UNKNOWN := "\0unknown"

  function KeyOf(p: Process, d: Dimension): string {
    match (d.extract)(p)
    case None => UNKNOWN
    case Some((key, _)) => key
  }

  /** The keys in first-seen order. */
  function Keys(procs: seq<Process>, d: Dimension): seq<string> {
    if procs == [] then []
    else
      var before := Keys(procs[..|procs| - 1], d);
      var key := KeyOf(procs[|procs| - 1], d);
      if key in before then before else before + [key]
  }

  function Bucket(procs: seq<Process>, d: Dimension, key: string): seq<Process> {
    if procs == [] then []
    else
      var p := procs[|procs| - 1];
      Bucket(procs[..|procs| - 1], d, key) + (if KeyOf(p, d) == key then [p] else [])
  }

  function BucketLabel(d: Dimension, procs: seq<Process>, key: string): string {
    if key == UNKNOWN then d.id + ":?"
    else if procs != [] && (d.extract)(procs[0]).Some? then (d.extract)(procs[0]).value.1
    else key
  }

  // ---- Aggregation ----

  function Present(procs: seq<Process>, id: string): seq<real> {
    if procs == [] then []
    else
      Present(procs[..|procs| - 1], id) +
      (match procs[|procs| - 1].Metric(id).Get() case Some(x) => [x] case None => [])
  }

  function Op(agg: Aggregation): (real, real) -> real {
    match agg
    case AggMin => (a: real, b: real) => if b < a then b else a
    case AggMax => (a: real, b: real) => if b > a then b else a
    case _ => (a: real, b: real) => a + b
  }

  /** From the left, starting at the first value. */
  function Reduce(vals: seq<real>, agg: Aggregation): real
    requires vals != []
  {
    if |vals| == 1 then vals[0] else Op(agg)(Reduce(vals[..|vals| - 1], agg), vals[|vals| - 1])
  }

  predicate Uniform(vals: seq<real>) { forall x :: x in vals ==> x == vals[0] }

  function MixedValue(vals: seq<real>): MetricValue
    requires vals != []
  {
    if Uniform(vals) then NewValue(vals[0], Derived, "aggregate") else NewValue(vals[0], Mixed, "aggregate")
  }

  function AggregateOne(agg: Aggregation, id: string, procs: seq<Process>): MetricValue {
    var vals := Present(procs, id);
    if vals == [] then Unavailable(Disabled, "aggregate")
    else if agg.AggMixed? then MixedValue(vals)
    else NewValue(Reduce(vals, agg), Derived, "aggregate")
  }

  function Aggregates(reg: Registry, procs: seq<Process>, ids: seq<string>): Metrics {
    map id | id in ids :: AggregateOne(AggregationOf(reg, id), id, procs)
  }

  function Project(src: Metrics, ids: seq<string>): Metrics {
    map id | id in ids :: if id in src then src[id] else Unavailable(Disabled, "")
  }

  // ---- Rows ----

  function LeafLabel(p: Process): string {
    if p.name != "" then p.name else "pid:" + Identity.SignedDecimal(p.pid)
  }

  function ProcessRow(p: Process, ids: seq<string>): Row {
    Row(Head(PROCESS, "", p.id.Key(), LeafLabel(p), 0, 1, p.ThreadCount(), 1, Project(p.metrics, ids), Some(p), None), [])
  }

  function ThreadRow(th: Thread, ids: seq<string>): Row {
    Row(Head(THREAD, "", th.id.Key(), th.comm, 0, 0, 1, 1, Project(th.metrics, ids), None, Some(th)), [])
  }

  function ThreadsOf(procs: seq<Process>): seq<Thread> {
    if procs == [] then [] else ThreadsOf(procs[..|procs| - 1]) + procs[|procs| - 1].threads
  }

  function MakeLeaves(procs: seq<Process>, leaf: string, ids: seq<string>): seq<Row> {
    if leaf == "none" then []
    else if leaf == "thread" then
      var ths := ThreadsOf(procs);
      seq(|ths|, i requires 0 <= i < |ths| => ThreadRow(ths[i], ids))
    else seq(|procs|, i requires 0 <= i < |procs| => ProcessRow(procs[i], ids))
  }

  function ThreadTotal(procs: seq<Process>): int {
    if procs == [] then 0 else ThreadTotal(procs[..|procs| - 1]) + procs[|procs| - 1].ThreadCount()
  }

  function CountLeaves(r: Row): nat {
    if r.head.kind == PROCESS || r.head.kind == THREAD then 1 else LeavesIn(r.sub)
  }

  function LeavesIn(rows: seq<Row>): nat {
    if rows == [] then 0 else LeavesIn(rows[..|rows| - 1]) + CountLeaves(rows[|rows| - 1])
  }

  /** A group or host row over its children and the processes under it. */
  function FilledRow(reg: Registry, kind: string, dim: string, key: string, title: string,
                     sub: seq<Row>, procs: seq<Process>, ids: seq<string>): Row {
    Row(Head(kind, dim, key, title, |sub|, |procs|, ThreadTotal(procs), LeavesIn(sub),
             Aggregates(reg, procs, ids), None, None), sub)
  }

  function Group(reg: Registry, procs: seq<Process>, dims: seq<Dimension>, leaf: string, ids: seq<string>): (rows: seq<Row>)
    ensures dims != [] ==> |rows| == |Keys(procs, dims[0])|
    decreases |dims|
  {
    if dims == [] then MakeLeaves(procs, leaf, ids)
    else
      var keys := Keys(procs, dims[0]);
      seq(|keys|, i requires 0 <= i < |keys| => GroupRow(reg, procs, dims, leaf, ids, keys[i]))
  }

  function GroupRow(reg: Registry, procs: seq<Process>, dims: seq<Dimension>, leaf: string, ids: seq<string>, key: string): Row
    requires dims != []
    decreases |dims|, 0
  {
    var bp := Bucket(procs, dims[0], key);
    FilledRow(reg, GROUP, dims[0].id, key, BucketLabel(dims[0], bp, key),
              Group(reg, bp, dims[1..], leaf, ids), bp, ids)
  }

  // ---- Having, sort, limit ----

  /** A row stays if it passes or if a row under it stays. */
  function ApplyHaving(rows: seq<Row>, pass: Head -> bool): seq<Row> {
    if rows == [] then []
    else
      var r := rows[|rows| - 1];
      var sub := ApplyHaving(r.sub, pass);
      ApplyHaving(rows[..|rows| - 1], pass) + (if pass(r.head) || |sub| > 0 then [Row(r.head, sub)] else [])
  }

  function Depth(rows: seq<Row>): nat {
    if rows == [] then 0
    else
      var d, e := Depth(rows[|rows| - 1].sub) + 1, Depth(rows[..|rows| - 1]);
      if d > e then d else e
  }

  lemma {:induction false} DepthBelow(rows: seq<Row>, r: Row)
    requires r in rows
    ensures Depth(r.sub) < Depth(rows)
  {
    if r != rows[|rows| - 1] {
      DepthBelow(rows[..|rows| - 1], r);
    }
  }

  /** Siblings are sorted first, then the children of each. */
  function SortTree(rows: seq<Row>, keys: seq<SortKey>): (t: seq<Row>)
    ensures |t| == |rows|
    decreases Depth(rows)
  {
    var s := Sorted(rows, keys);
    SameElements(s, rows);
    seq(|s|, i requires 0 <= i < |s| => DepthBelow(rows, s[i]); Row(s[i].head, SortTree(s[i].sub, keys)))
  }

  function Selected(all: seq<Process>, select: Process -> bool): seq<Process> {
    if all == [] then []
    else Selected(all[..|all| - 1], select) + (if select(all[|all| - 1]) then [all[|all| - 1]] else [])
  }

  function Tree(reg: Registry, procs: seq<Process>, dims: seq<Dimension>, spec: Spec): seq<Row> {
    if dims == [] && spec.leaf == "none" then
      [FilledRow(reg, HOST, "", "host", "HOST", [], procs, spec.metrics)]
    else Group(reg, procs, dims, spec.leaf, spec.metrics)
  }

  function Cut(rows: seq<Row>, limit: int): seq<Row> { if 0 < limit < |rows| then rows[..limit] else rows }

  datatype Built = Rows(rows: seq<Row>) | Failed(why: QueryError)

  function Build(reg: Registry, all: seq<Process>, spec: Spec): Built {
    match ResolveGroupBy(spec.groupBy)
    case Refused(why) => Failed(why)
    case Dims(dims) =>
      var rows := Tree(reg, Selected(all, spec.select), dims, spec);
      Rows(Cut(SortTree(ApplyHaving(rows, spec.having), spec.sort), spec.limit))
  }

  // ---- What resolution accepts ----

  lemma {:induction false} ResolveFromExact(ids: seq<string>, k: nat)
    requires k <= |ids|
    ensures ResolveFrom(ids, k).Dims? <==>
            forall i :: k <= i < |ids| ==> ids[i] != "none" && GetDimension(ids[i]).Some? && ids[i] !in ids[..i]
    ensures ResolveFrom(ids, k).Dims? ==> forall i :: k <= i < |ids| ==>
              GetDimension(ids[i]) == Some(ResolveFrom(ids, k).dims[i - k])
    decreases |ids| - k
  {
    hide GetDimension;
    if k < |ids| {
      ResolveFromExact(ids, k + 1);
    }
  }

  lemma AllDifferent<T>(s: seq<T>)
    ensures (forall i :: 0 <= i < |s| ==> s[i] !in s[..i]) <==> (forall i, j :: 0 <= i < j < |s| ==> s[i] != s[j])
  {
    if forall i :: 0 <= i < |s| ==> s[i] !in s[..i] {
      forall i, j | 0 <= i < j < |s| ensures s[i] != s[j] {
        assert s[..j][i] == s[i];
      }
    }
  }

  /** Group-by ids are accepted exactly when they are known and all different, or are "none" alone. */
  lemma ResolveGroupByExact(ids: seq<string>)
    ensures ResolveGroupBy(ids).Dims? <==>
            ids == ["none"] || ((forall i :: 0 <= i < |ids| ==> GetDimension(ids[i]).Some?) &&
                                forall i, j :: 0 <= i < j < |ids| ==> ids[i] != ids[j])
    ensures ResolveGroupBy(ids).Dims? && ids != ["none"] ==>
              |ResolveGroupBy(ids).dims| == |ids| &&
              forall i :: 0 <= i < |ids| ==> GetDimension(ids[i]) == Some(ResolveGroupBy(ids).dims[i])
  {
    if ids != [] && ids != ["none"] {
      hide GetDimension;
      ResolveFromExact(ids, 0);
      NoneIsNoDimension();
      AllDifferent(ids);
    }
  }

  lemma NoneIsNoDimension()
    ensures GetDimension("none").None?
  {
  }
}
