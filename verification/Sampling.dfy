/**
 Rates from successive readings. A rate is there exactly when the same instance was in the sample before,
 time has passed, both counters could be read and the counter did not fall; and over a stretch of rates
 that are all there, rate times elapsed time adds up to the growth of the counter.
 */
module Sampling {
  import opened Options
  import opened Identity
  import opened QueryModel

  // ---- What is read ----

  const WORD := 0x1_0000_0000_0000_0000

  /** A counter as the kernel gives it; sums of two wrap at 64 bits. */
  type Counter = nat

  datatype Io = Io(readBytes: Counter, writeBytes: Counter, rchar: Counter, wchar: Counter, syscr: Counter, syscw: Counter)

  datatype ThreadStat = ThreadStat(tid: int, start: nat, comm: string, state: string, utime: Counter, stime: Counter)

  /** `blkio` is none when the kernel says nothing about delay accounting. `gauges` need no earlier sample. */
  datatype Stat = Stat(
    id: ProcessId, utime: Counter, stime: Counter, minFlt: Counter, majFlt: Counter, volCtxt: Counter, involCtxt: Counter,
    io: Io, ioAvail: Availability, blkioTicks: Counter, blkio: Option<Availability>,
    gauges: map<string, MetricValue>, threads: seq<ThreadStat>)

  /** What one sample has read of the system: clock ticks per second, processors, boot and wall time in seconds. */
  datatype Sys = Sys(hz: int, cpus: int, bootUnix: int, wallNow: real)

  datatype Reading = Reading(v: Counter, avail: Availability)

  /** The sum of two counters in a 64-bit word. */
  function Add(a: Counter, b: Counter): Counter { (a + b) % WORD }

  function IoReading(p: Stat, v: Counter): Reading {
    if p.ioAvail.Available? then Reading(v, Available) else Reading(0, p.ioAvail)
  }

  /** The counter behind a rate metric, none when the metric is not a rate. */
  function RateReading(m: string, p: Stat): Option<Reading> {
    if m == "cpu" || m == "cpu-normalized" then Some(Reading(Add(p.utime, p.stime), Available))
    else if m == "cpu-user" then Some(Reading(p.utime, Available))
    else if m == "cpu-system" then Some(Reading(p.stime, Available))
    else if m == "minor-faults" then Some(Reading(p.minFlt, Available))
    else if m == "major-faults" then Some(Reading(p.majFlt, Available))
    else if m == "ctxsw-voluntary" then Some(Reading(p.volCtxt, Available))
    else if m == "ctxsw-involuntary" then Some(Reading(p.involCtxt, Available))
    else if m == "disk-rbps" then Some(IoReading(p, p.io.readBytes))
    else if m == "disk-wbps" then Some(IoReading(p, p.io.writeBytes))
    else if m == "io-rchar" then Some(IoReading(p, p.io.rchar))
    else if m == "io-wchar" then Some(IoReading(p, p.io.wchar))
    else if m == "read-syscalls" then Some(IoReading(p, p.io.syscr))
    else if m == "write-syscalls" then Some(IoReading(p, p.io.syscw))
    else if m == "blkio-delay" then
      Some(if p.blkio.Some? && p.blkio != Some(Available) then Reading(0, p.blkio.value) else Reading(p.blkioTicks, Available))
    else None
  }

  predicate IsRate(m: string) {
    m in ["cpu", "cpu-normalized", "cpu-user", "cpu-system", "minor-faults", "major-faults", "ctxsw-voluntary",
          "ctxsw-involuntary", "disk-rbps", "disk-wbps", "io-rchar", "io-wchar", "read-syscalls", "write-syscalls",
          "blkio-delay"]
  }

  predicate InTicks(m: string) { m in ["cpu", "cpu-normalized", "cpu-user", "cpu-system", "blkio-delay"] }

  function CpuConv(perSec: real, sc: Sys): real { if sc.hz == 0 then 0.0 else perSec / sc.hz as real * 100.0 }

  /** From the growth per second to the unit shown. */
  function Conv(m: string, perSec: real, sc: Sys): real {
    if m == "cpu-normalized" then
      var v := CpuConv(perSec, sc);
      if sc.cpus > 0 then v / sc.cpus as real else v
    else if InTicks(m) then CpuConv(perSec, sc)
    else perSec
  }

  function Seconds(ns: int): real { ns as real / 1000000000.0 }

  function ComputeRate(m: string, cur: Stat, prev: Option<Stat>, elapsed: real, sc: Sys): MetricValue
    requires RateReading(m, cur).Some?
  {
    var c := RateReading(m, cur).value;
    if !c.avail.Available? then Unavailable(c.avail, "proc")
    else if prev.None? || elapsed <= 0.0 then Unavailable(WarmingUp, "proc")
    else match RateReading(m, prev.value)
      case None => Unavailable(WarmingUp, "proc")
      case Some(p) =>
        if !p.avail.Available? || c.v < p.v then Unavailable(WarmingUp, "proc")
        else NewValue(Conv(m, (c.v - p.v) as real / elapsed, sc), Derived, "proc")
  }

  function ComputeMetric(m: string, cur: Stat, prev: Option<Stat>, elapsed: real, sc: Sys): MetricValue {
    if RateReading(m, cur).Some? then ComputeRate(m, cur, prev, elapsed, sc)
    else if m in cur.gauges then
      if cur.gauges[m].avail.Available? then NewValue(cur.gauges[m].v, cur.gauges[m].quality, "proc")
      else Unavailable(cur.gauges[m].avail, "proc")
    else Unavailable(Disabled, "proc")
  }

  function ThreadCounter(m: string, t: ThreadStat): Option<Counter> {
    if m == "cpu" then Some(Add(t.utime, t.stime)) else if m == "cpu-user" then Some(t.utime)
    else if m == "cpu-system" then Some(t.stime) else None
  }

  /** A real cut to an integer, toward zero. */
  function Truncate(x: real): int { if x < 0.0 then -(-x).Floor else x.Floor }

  function CpuTime(ticks: Counter, sc: Sys): Option<real> { if sc.hz == 0 then None else Some(ticks as real / sc.hz as real) }

  /** The start is cut to whole seconds, and an age is never negative. */
  function Age(start: nat, sc: Sys): Option<real> {
    if sc.bootUnix == 0 || sc.hz == 0 then None
    else
      var age := sc.wallNow - Truncate(sc.bootUnix as real + start as real / sc.hz as real) as real;
      Some(if age < 0.0 then 0.0 else age)
  }

  function GaugeValue(v: Option<real>, quality: Quality): MetricValue {
    match v
    case None => Unavailable(Unsupported, "thread")
    case Some(x) => NewValue(x, quality, "thread")
  }

  /** A thread has two absolute values and three rates. */
  function ThreadMetric(m: string, cur: ThreadStat, prev: Option<ThreadStat>, elapsed: real, sc: Sys): MetricValue {
    if m == "cpu-time" then GaugeValue(CpuTime(Add(cur.utime, cur.stime), sc), Exact)
    else if m == "age" then GaugeValue(Age(cur.start, sc), Derived)
    else match ThreadCounter(m, cur)
      case None => Unavailable(Disabled, "thread")
      case Some(c) =>
        if prev.None? || elapsed <= 0.0 then Unavailable(WarmingUp, "thread")
        else
          var p := ThreadCounter(m, prev.value).value;
          if c < p then Unavailable(WarmingUp, "thread")
          else NewValue(CpuConv((c - p) as real / elapsed, sc), Derived, "thread")
  }

  // ---- The sampler ----

  datatype State = State(prev: map<string, Stat>, prevThreads: map<string, ThreadStat>, prevMono: int, hasPrev: bool, gen: nat)

  datatype SampledThread = SampledThread(id: ThreadId, stat: ThreadStat, metrics: Metrics)

  datatype SampledProcess = SampledProcess(stat: Stat, metrics: Metrics, threads: seq<SampledThread>)

  datatype Snapshot = Snapshot(generation: nat, elapsed: int, processes: seq<SampledProcess>)

  /** One call: the list failed, or gave these stats at this reading of the clock. */
  datatype Event = ListFailed | Listed(stats: seq<Stat>, now: int)

  function Lookup<V>(m: map<string, V>, key: string): Option<V> { if key in m then Some(m[key]) else None }

  function ByKey(stats: seq<Stat>): map<string, Stat> {
    if stats == [] then map[] else ByKey(stats[..|stats| - 1])[stats[|stats| - 1].id.Key() := stats[|stats| - 1]]
  }

  function ThreadKey(p: Stat, t: ThreadStat): ThreadId { ThreadId(p.id, t.tid, t.start) }

  /** Every enumerated thread with its identity, in list order. */
  function ThreadsIn(p: Stat): seq<(ThreadId, ThreadStat)> {
    seq(|p.threads|, i requires 0 <= i < |p.threads| => (ThreadKey(p, p.threads[i]), p.threads[i]))
  }

  function AllThreads(stats: seq<Stat>): seq<(ThreadId, ThreadStat)> {
    if stats == [] then [] else AllThreads(stats[..|stats| - 1]) + ThreadsIn(stats[|stats| - 1])
  }

  function ByThreadKey(ts: seq<(ThreadId, ThreadStat)>): map<string, ThreadStat> {
    if ts == [] then map[] else ByThreadKey(ts[..|ts| - 1])[ts[|ts| - 1].0.Key() := ts[|ts| - 1].1]
  }

  function ThreadsByKey(stats: seq<Stat>): map<string, ThreadStat> { ByThreadKey(AllThreads(stats)) }

  function Elapsed(s: State, now: int): int { if s.hasPrev then now - s.prevMono else 0 }

  function SampleThread(s: State, p: Stat, t: ThreadStat, now: int, sc: Sys, want: seq<string>): SampledThread {
    var id := ThreadKey(p, t);
    SampledThread(id, t, map m | m in want :: ThreadMetric(m, t, Lookup(s.prevThreads, id.Key()), Seconds(Elapsed(s, now)), sc))
  }

  function SampleProcess(s: State, p: Stat, now: int, sc: Sys, want: seq<string>): SampledProcess {
    SampledProcess(p, map m | m in want :: ComputeMetric(m, p, Lookup(s.prev, p.id.Key()), Seconds(Elapsed(s, now)), sc),
      seq(|p.threads|, i requires 0 <= i < |p.threads| => SampleThread(s, p, p.threads[i], now, sc, want)))
  }

  /** A failed list leaves everything as it was, so the next sample is compared with the last good one. */
  function Next(s: State, e: Event): State {
    match e
    case ListFailed => s
    case Listed(stats, now) => State(ByKey(stats), ThreadsByKey(stats), now, true, s.gen + 1)
  }

  function Snap(s: State, stats: seq<Stat>, now: int, sc: Sys, want: seq<string>): Snapshot {
    Snapshot(s.gen + 1, Elapsed(s, now), seq(|stats|, i requires 0 <= i < |stats| => SampleProcess(s, stats[i], now, sc, want)))
  }

  function Run(s: State, es: seq<Event>): State { if es == [] then s else Next(Run(s, es[..|es| - 1]), es[|es| - 1]) }

  function Fresh(): State { State(map[], map[], 0, false, 0) }

  // ---- When a rate is there ----

  datatype LastList = Never | Last(stats: seq<Stat>, now: int)

  /** The last list that succeeded, if any. */
  function LastListed(es: seq<Event>): LastList {
    if es == [] then Never
    else match es[|es| - 1]
      case Listed(stats, now) => Last(stats, now)
      case ListFailed => LastListed(es[..|es| - 1])
  }

  lemma {:induction false} StateIsLastListed(es: seq<Event>)
    ensures var s := Run(Fresh(), es);
            match LastListed(es)
            case Never => !s.hasPrev && s.prev == map[] && s.prevThreads == map[]
            case Last(stats, now) =>
              s.hasPrev && s.prevMono == now && s.prev == ByKey(stats) && s.prevThreads == ThreadsByKey(stats)
  {
    if es != [] {
      StateIsLastListed(es[..|es| - 1]);
    }
  }

  /** The last stat of a list whose instance is `id`. */
  function Latest(stats: seq<Stat>, id: ProcessId): Option<Stat> {
    if stats == [] then None
    else if stats[|stats| - 1].id == id then Some(stats[|stats| - 1])
    else Latest(stats[..|stats| - 1], id)
  }

  /** Looking up by key is looking up by instance. */
  lemma {:induction false} ByKeyIsLatest(stats: seq<Stat>, id: ProcessId)
    ensures Lookup(ByKey(stats), id.Key()) == Latest(stats, id)
  {
    if stats != [] {
      ByKeyIsLatest(stats[..|stats| - 1], id);
      KeyInjective(stats[|stats| - 1].id, id);
    }
  }

  lemma RateIsRate(m: string, p: Stat)
    ensures RateReading(m, p).Some? <==> IsRate(m)
  {
  }

  /** The growth of a counter between two stats of one instance, when both can be read and it did not fall. */
  function Growth(m: string, p: Stat, q: Stat): Option<nat> {
    match (RateReading(m, p), RateReading(m, q))
    case (Some(c), Some(b)) => if c.avail.Available? && b.avail.Available? && b.v <= c.v then Some(c.v - b.v) else None
    case _ => None
  }

  lemma RateExactly(m: string, p: Stat, prev: Option<Stat>, elapsed: real, sc: Sys)
    requires IsRate(m)
    ensures ComputeMetric(m, p, prev, elapsed, sc).Get() ==
            if prev.Some? && elapsed > 0.0 && Growth(m, p, prev.value).Some?
            then Some(Conv(m, Growth(m, p, prev.value).value as real / elapsed, sc)) else None
  {
    hide RateReading, IsRate, Conv;
    RateIsRate(m, p);
    if prev.Some? {
      RateIsRate(m, prev.value);
    }
  }

  /** What a run should show: nothing without a last list that has the instance, earlier on the clock. */
  function Expected(es: seq<Event>, p: Stat, now: int, m: string, sc: Sys): Option<real> {
    match LastListed(es)
    case Never => None
    case Last(stats, before) =>
      match Latest(stats, p.id)
      case None => None
      case Some(q) =>
        if now > before && Growth(m, p, q).Some?
        then Some(Conv(m, Growth(m, p, q).value as real / Seconds(now - before), sc)) else None
  }

  /**
   In any run, a process's rate is there exactly when its instance was in the last successful list, time
   has passed since, both readings are available and the counter did not fall. The value is its growth
   per second, converted.
   */
  lemma {:induction false} RatePresentExactly(es: seq<Event>, p: Stat, now: int, sc: Sys, want: seq<string>, m: string)
    requires IsRate(m) && m in want
    ensures SampleProcess(Run(Fresh(), es), p, now, sc, want).metrics[m].Get() == Expected(es, p, now, m, sc)
  {
    var s := Run(Fresh(), es);
    StateIsLastListed(es);
    RateExactly(m, p, Lookup(s.prev, p.id.Key()), Seconds(Elapsed(s, now)), sc);
    hide Growth, Conv, ComputeMetric, IsRate, Run, LastListed;
    match LastListed(es)
    case Never =>
    case Last(stats, before) =>
      ByKeyIsLatest(stats, p.id);
      SecondsPositive(now - before);
  }

  function LatestThread(ts: seq<(ThreadId, ThreadStat)>, id: ThreadId): Option<ThreadStat> {
    if ts == [] then None
    else if ts[|ts| - 1].0 == id then Some(ts[|ts| - 1].1)
    else LatestThread(ts[..|ts| - 1], id)
  }

  lemma {:induction false} ByThreadKeyIsLatest(ts: seq<(ThreadId, ThreadStat)>, id: ThreadId)
    ensures Lookup(ByThreadKey(ts), id.Key()) == LatestThread(ts, id)
  {
    if ts != [] {
      ByThreadKeyIsLatest(ts[..|ts| - 1], id);
      ThreadKeyInjective(ts[|ts| - 1].0, id);
    }
  }

  /** The growth of a thread's counter, none when it fell. */
  function ThreadGrowth(m: string, t: ThreadStat, q: ThreadStat): Option<Counter>
    requires ThreadCounter(m, t).Some?
  {
    if ThreadCounter(m, q).value <= ThreadCounter(m, t).value
    then Some(ThreadCounter(m, t).value - ThreadCounter(m, q).value) else None
  }

  function ExpectedThread(es: seq<Event>, id: ThreadId, t: ThreadStat, now: int, m: string, sc: Sys): Option<real>
    requires ThreadCounter(m, t).Some?
  {
    match LastListed(es)
    case Never => None
    case Last(stats, before) =>
      match LatestThread(AllThreads(stats), id)
      case None => None
      case Some(q) =>
        if now > before && ThreadGrowth(m, t, q).Some?
        then Some(CpuConv(ThreadGrowth(m, t, q).value as real / Seconds(now - before), sc)) else None
  }

  lemma ThreadRateExactly(m: string, t: ThreadStat, prev: Option<ThreadStat>, elapsed: real, sc: Sys)
    requires ThreadCounter(m, t).Some?
    ensures ThreadMetric(m, t, prev, elapsed, sc).Get() ==
            if prev.Some? && elapsed > 0.0 && ThreadGrowth(m, t, prev.value).Some?
            then Some(CpuConv(ThreadGrowth(m, t, prev.value).value as real / elapsed, sc)) else None
  {
    hide CpuConv, Age, CpuTime, Add;
  }

  /** The same for the CPU rates of threads, by the identity of the thread within its process. */
  lemma {:induction false} ThreadRatePresentExactly(es: seq<Event>, p: Stat, t: ThreadStat, now: int, sc: Sys, want: seq<string>, m: string)
    requires m in want && ThreadCounter(m, t).Some?
    ensures SampleThread(Run(Fresh(), es), p, t, now, sc, want).metrics[m].Get() ==
            ExpectedThread(es, ThreadKey(p, t), t, now, m, sc)
  {
    var s := Run(Fresh(), es);
    StateIsLastListed(es);
    hide CpuConv, Run, LastListed, AllThreads, ByThreadKey, LatestThread, ThreadMetric, ThreadGrowth, ThreadCounter;
    ThreadRateExactly(m, t, Lookup(s.prevThreads, ThreadKey(p, t).Key()), Seconds(Elapsed(s, now)), sc);
    match LastListed(es)
    case Never =>
    case Last(stats, before) =>
      ByThreadKeyIsLatest(AllThreads(stats), ThreadKey(p, t));
      SecondsPositive(now - before);
  }

  /**
   The other metrics of a thread depend on no earlier sample: CPU time is there exactly when the clock rate is
   known, age exactly when the boot time is too, and nothing else ever is.
   */
  lemma ThreadGaugesNeedNoSample(s: State, p: Stat, t: ThreadStat, now: int, sc: Sys, want: seq<string>, m: string)
    requires m in want && ThreadCounter(m, t).None?
    ensures var v := SampleThread(s, p, t, now, sc, want).metrics[m];
            && v == SampleThread(Fresh(), p, t, now, sc, want).metrics[m]
            && (v.Get().Some? <==> sc.hz != 0 && (m == "cpu-time" || (m == "age" && sc.bootUnix != 0)))
            && (v.Get().Some? && m == "age" ==> v.Get().value >= 0.0)
            && (v.Get().Some? && m == "cpu-time" ==> v.Get().value * sc.hz as real == Add(t.utime, t.stime) as real)
  {
    hide Add, Age, CpuTime, ThreadMetric, Seconds, Elapsed, Lookup;
    var id := ThreadKey(p, t);
    GaugeMetric(m, t, Lookup(s.prevThreads, id.Key()), Seconds(Elapsed(s, now)), sc);
    GaugeMetric(m, t, Lookup(Fresh().prevThreads, id.Key()), Seconds(Elapsed(Fresh(), now)), sc);
    CpuTimeScales(Add(t.utime, t.stime), sc);
    AgeNotNegative(t.start, sc);
  }

  lemma GaugeMetric(m: string, t: ThreadStat, prev: Option<ThreadStat>, elapsed: real, sc: Sys)
    requires ThreadCounter(m, t).None?
    ensures ThreadMetric(m, t, prev, elapsed, sc) ==
            if m == "cpu-time" then GaugeValue(CpuTime(Add(t.utime, t.stime), sc), Exact)
            else if m == "age" then GaugeValue(Age(t.start, sc), Derived)
            else Unavailable(Disabled, "thread")
  {
    hide Add, Age, CpuTime;
  }

  lemma CpuTimeScales(ticks: Counter, sc: Sys)
    ensures CpuTime(ticks, sc).Some? <==> sc.hz != 0
    ensures sc.hz != 0 ==> CpuTime(ticks, sc).value * sc.hz as real == ticks as real
  {
    if sc.hz != 0 {
      QuotientBack(ticks as real, sc.hz as real);
    }
  }

  lemma AgeNotNegative(start: nat, sc: Sys)
    ensures Age(start, sc).Some? <==> sc.hz != 0 && sc.bootUnix != 0
    ensures Age(start, sc).Some? ==> Age(start, sc).value >= 0.0
  {
    hide Truncate;
  }

  lemma QuotientBack(x: real, y: real)
    requires y != 0.0
    ensures x / y * y == x
  {
  }

  lemma SecondsPositive(ns: int)
    ensures Seconds(ns) > 0.0 <==> ns > 0
  {
  }

  // ---- Rates add up ----

  /** The factor of the conversion, which does not depend on the rate. */
  function Scale(m: string, sc: Sys): real { Conv(m, 1.0, sc) }

  lemma ConvScales(m: string, x: real, sc: Sys)
    ensures Conv(m, x, sc) == x * Scale(m, sc)
  {
    if sc.hz != 0 {
      QuotientScales(x, sc.hz as real, 100.0);
      if sc.cpus > 0 {
        QuotientScales(x * (1.0 / sc.hz as real * 100.0), sc.cpus as real, 1.0);
        var u := 1.0 / sc.hz as real * 100.0;
        assert x * u / sc.cpus as real == x * (u / sc.cpus as real) by { DivideProduct(x, u, sc.cpus as real); }
      }
    }
  }

  lemma QuotientScales(x: real, d: real, c: real)
    requires d != 0.0
    ensures x / d * c == x * (1.0 / d * c)
  {
    DivideProduct(x, 1.0, d);
    assert x / d == x * (1.0 / d);
  }

  lemma DivideProduct(x: real, u: real, d: real)
    requires d != 0.0
    ensures x * u / d == x * (u / d)
  {
    var q := u / d;
    assert u == q * d;
    assert x * u == (x * q) * d;
  }

  /** What the metric of one instance shows at an event, if it is listed there and the rate is there. */
  function Shown(s: State, e: Event, id: ProcessId, m: string, sc: Sys): Option<real> {
    if e.Listed? && id.Key() in ByKey(e.stats) then
      ComputeMetric(m, ByKey(e.stats)[id.Key()], Lookup(s.prev, id.Key()), Seconds(Elapsed(s, e.now)), sc).Get()
    else None
  }

  /** At every list that succeeds, the rate is there. */
  predicate AlwaysShown(s: State, es: seq<Event>, id: ProcessId, m: string, sc: Sys)
    decreases |es|
  {
    es == [] || ((es[0].Listed? ==> Shown(s, es[0], id, m, sc).Some?) && AlwaysShown(Next(s, es[0]), es[1..], id, m, sc))
  }

  /** Rate times elapsed seconds, summed over the lists that succeed. */
  function Area(s: State, es: seq<Event>, id: ProcessId, m: string, sc: Sys): real
    requires AlwaysShown(s, es, id, m, sc)
    decreases |es|
  {
    if es == [] then 0.0
    else
      (if es[0].Listed? then Shown(s, es[0], id, m, sc).value * Seconds(Elapsed(s, es[0].now)) else 0.0) +
      Area(Next(s, es[0]), es[1..], id, m, sc)
  }

  function End(s: State, es: seq<Event>): State
    decreases |es|
  {
    if es == [] then s else End(Next(s, es[0]), es[1..])
  }

  /** The counter of an instance as the sampler last read it. */
  function LastCounter(s: State, id: ProcessId, m: string): int {
    if id.Key() in s.prev && RateReading(m, s.prev[id.Key()]).Some? then RateReading(m, s.prev[id.Key()]).value.v else 0
  }

  lemma OneStep(s: State, e: Event, id: ProcessId, m: string, sc: Sys)
    requires IsRate(m) && e.Listed? && Shown(s, e, id, m, sc).Some?
    ensures Shown(s, e, id, m, sc).value * Seconds(Elapsed(s, e.now)) ==
            Scale(m, sc) * (LastCounter(Next(s, e), id, m) - LastCounter(s, id, m)) as real
  {
    hide RateReading, IsRate, Conv, Scale, ByKey, ThreadsByKey, ComputeMetric;
    var cur := ByKey(e.stats)[id.Key()];
    RateExactly(m, cur, Lookup(s.prev, id.Key()), Seconds(Elapsed(s, e.now)), sc);
    var t := Seconds(Elapsed(s, e.now));
    var grown := (LastCounter(Next(s, e), id, m) - LastCounter(s, id, m)) as real;
    assert Shown(s, e, id, m, sc).value == Conv(m, grown / t, sc) && t > 0.0;
    ConvScales(m, grown / t, sc);
    QuotientTimes(grown, t, Scale(m, sc));
  }

  lemma QuotientTimes(x: real, t: real, k: real)
    requires t != 0.0
    ensures x / t * k * t == k * x
  {
    var q := x / t;
    assert x == q * t;
    assert q * k * t == k * (q * t);
  }

  /** Over any stretch of rates that are all there, failed lists included, the areas add up to the growth. */
  lemma {:induction false} RatesTelescope(s: State, es: seq<Event>, id: ProcessId, m: string, sc: Sys)
    requires IsRate(m) && AlwaysShown(s, es, id, m, sc)
    ensures Area(s, es, id, m, sc) == Scale(m, sc) * (LastCounter(End(s, es), id, m) - LastCounter(s, id, m)) as real
    decreases |es|
  {
    hide IsRate, Scale, LastCounter, Shown, ByKey, ThreadsByKey, Seconds, Conv, RateReading;
    if es != [] {
      var r := Next(s, es[0]);
      RatesTelescope(r, es[1..], id, m, sc);
      if es[0].Listed? {
        OneStep(s, es[0], id, m, sc);
        SplitGrowth(Scale(m, sc), LastCounter(End(s, es), id, m), LastCounter(r, id, m), LastCounter(s, id, m));
      }
    }
  }

  lemma SplitGrowth(k: real, c: int, b: int, a: int)
    ensures k * (b - a) as real + k * (c - b) as real == k * (c - a) as real
  {
    assert (c - a) as real == (b - a) as real + (c - b) as real;
  }
}
