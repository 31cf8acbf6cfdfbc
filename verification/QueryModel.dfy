/** What the query engine reads and produces: processes, metric values, dimensions, rows. */
module QueryModel {
  import opened Options
  import opened Identity

  datatype Availability =
    | Available | WarmingUp | Disabled | Unsupported | PermissionDenied | Vanished | ReadError

  datatype Quality = Unrated | Exact | Sampled | Estimated | Derived | Mixed

  datatype MetricValue = MetricValue(v: real, avail: Availability, quality: Quality, source: string)
  {
    /** The payload counts only when the value is available. */
    function Get(): Option<real> { if avail.Available? then Some(v) else None }
  }

  function NewValue(v: real, quality: Quality, source: string): MetricValue {
    MetricValue(v, Available, quality, source)
  }

  function Unavailable(reason: Availability, source: string): MetricValue {
    MetricValue(0.0, reason, Unrated, source)
  }

  type Metrics = map<string, MetricValue>

  datatype Thread = Thread(id: ThreadId, comm: string, state: string, metrics: Metrics)

  datatype Process = Process(
    id: ProcessId, pid: int, ppid: int, pgid: int, sid: int, uid: nat,
    comm: string, name: string, user: string, exe: string, app: string, cgroup: string,
    unit: string, container: string, pod: string, pstate: string, wchan: string, hostname: string,
    namespaces: map<string, nat>, nsKey: string, numThreads: int, metrics: Metrics, threads: seq<Thread>)
  {
    function Metric(id: string): MetricValue {
      if id in metrics then metrics[id] else Unavailable(Disabled, "")
    }

    /** Enumerated threads when there are any, the kernel's count otherwise. */
    function ThreadCount(): int { if |threads| > 0 then |threads| else numThreads }
  }

  // ---- Dimensions ----

  type Extract = Process -> Option<(string, string)>

  datatype Dimension = Dimension(id: string, extract: Extract)

  function StrField(get: Process -> string): Extract {
    p => var v := get(p); if v == "" then None else Some((v, v))
  }

  function IntField(get: Process -> int): Extract {
    p => var s := SignedDecimal(get(p)); Some((s, s))
  }

  function NsField(t: string): Extract {
    (p: Process) => if t in p.namespaces then
        Some((Decimal(p.namespaces[t]), t + ":" + Decimal(p.namespaces[t])))
      else None
  }

  function ExtractOf(id: string): Option<Extract> {
    if id == "host" then Some(p => Some(("host", "HOST")))
    else if id == "comm" then Some(StrField((p: Process) => p.comm))
    else if id == "name" then Some(StrField((p: Process) => p.name))
    else if id == "user" then Some(StrField((p: Process) => p.user))
    else if id == "exe" then Some(StrField((p: Process) => p.exe))
    else if id == "app" then Some(StrField((p: Process) => p.app))
    else if id == "cgroup" then Some(StrField((p: Process) => p.cgroup))
    else if id == "pstate" then Some(StrField((p: Process) => p.pstate))
    else if id == "wchan" then Some(StrField((p: Process) => p.wchan))
    else if id == "hostname" then Some(StrField((p: Process) => p.hostname))
    else if id == "systemd-unit" then Some(StrField((p: Process) => p.unit))
    else if id == "container" then Some(StrField((p: Process) => p.container))
    else if id == "pod" then Some(StrField((p: Process) => p.pod))
    else if id == "pid" then Some(IntField((p: Process) => p.pid))
    else if id == "ppid" then Some(IntField((p: Process) => p.ppid))
    else if id == "session" then Some(IntField((p: Process) => p.sid))
    else if id == "process-group" then Some(IntField((p: Process) => p.pgid))
    else if id == "uid" then Some(IntField((p: Process) => p.uid))
    else if id == "pidns" then Some(NsField("pid"))
    else if id == "netns" then Some(NsField("net"))
    else if id == "mntns" then Some(NsField("mnt"))
    else if id == "userns" then Some(NsField("user"))
    else if id == "cgroupns" then Some(NsField("cgroup"))
    else if id == "namespace-set" then Some(StrField((p: Process) => p.nsKey))
    else None
  }

  function GetDimension(id: string): Option<Dimension> {
    match ExtractOf(id)
    case None => None
    case Some(e) => Some(Dimension(id, e))
  }

  /** The label a dimension shows is settled by the key it groups under. */
  ghost predicate LabelByKey(e: Extract) {
    forall p, q :: e(p).Some? && e(q).Some? && e(p).value.0 == e(q).value.0 ==> e(p).value.1 == e(q).value.1
  }

  lemma NsLabel(t: string)
    ensures LabelByKey(NsField(t))
  {
    var e := NsField(t);
    forall p, q | e(p).Some? && e(q).Some? && e(p).value.0 == e(q).value.0
      ensures e(p).value.1 == e(q).value.1
    {
      DecimalInjective(p.namespaces[t], q.namespaces[t]);
    }
  }

  /** True of every registered dimension. */
  lemma RegisteredLabelByKey(id: string)
    requires ExtractOf(id).Some?
    ensures LabelByKey(ExtractOf(id).value)
  {
    NsLabel("pid");
    NsLabel("net");
    NsLabel("mnt");
    NsLabel("user");
    NsLabel("cgroup");
  }

  // ---- Rows ----

  const HOST := "host"
  const GROUP := "group"
  const PROCESS := "process"
  const THREAD := "thread"

  /** A row without its children. */
  datatype Head = Head(
    kind: string, dimension: string, key: string, title: string,
    children: int, procs: int, threads: int, leaves: int,
    metrics: Metrics, process: Option<Process>, thread: Option<Thread>)

  datatype Row = Row(head: Head, sub: seq<Row>)

  datatype SortKey = SortKey(field: string, descending: bool)

  datatype Aggregation = AggSum | AggSumOncePerProc | AggMin | AggMax | AggMixed | AggNone

  /** The metric registry: the declared aggregation of each known metric. */
  type Registry = string -> Option<Aggregation>

  function AggregationOf(reg: Registry, id: string): Aggregation {
    match reg(id)
    case None => AggSum
    case Some(a) => a
  }

  /** Absent predicates pass everything, so both stages take a total one. */
  datatype Spec = Spec(
    metrics: seq<string>, select: Process -> bool, groupBy: seq<string>, leaf: string,
    having: Head -> bool, sort: seq<SortKey>, limit: int)
}
