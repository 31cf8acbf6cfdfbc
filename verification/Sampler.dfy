/** The sampler object: the last good sample, replaced by each call that lists successfully. */
module Sampler {
  import opened Options
  import opened Identity
  import opened QueryModel
  import opened Sampling
  import opened Sequences

  lemma OneMore(stats: seq<Stat>, i: nat)
    requires i < |stats|
    ensures ByKey(stats[..i + 1]) == ByKey(stats[..i])[stats[i].id.Key() := stats[i]]
    ensures ThreadsByKey(stats[..i]) == ByThreadKey(AllThreads(stats[..i]))
    ensures ThreadsByKey(stats[..i + 1]) == ByThreadKey(AllThreads(stats[..i]) + Sampling.ThreadsIn(stats[i]))
  {
    Take(stats, i);
  }

  lemma NoneListed(stats: seq<Stat>)
    ensures ByKey(stats[..0]) == map[] && ThreadsByKey(stats[..0]) == map[]
  {
  }

  lemma ThreadsInSize(p: Stat)
    ensures |Sampling.ThreadsIn(p)| == |p.threads|
  {
  }

  lemma OneMoreThread(listed: seq<(ThreadId, ThreadStat)>, p: Stat, i: nat)
    requires i < |p.threads| == |Sampling.ThreadsIn(p)|
    ensures ByThreadKey(listed + Sampling.ThreadsIn(p)[..i + 1]) ==
            ByThreadKey(listed + Sampling.ThreadsIn(p)[..i])[ThreadKey(p, p.threads[i]).Key() := p.threads[i]]
  {
    var all := Sampling.ThreadsIn(p);
    var more := listed + all[..i + 1];
    assert more[..|more| - 1] == listed + all[..i] && more[|more| - 1] == all[i];
  }

  lemma SnapOf(s: State, stats: seq<Stat>, now: int, sc: Sys, want: seq<string>, procs: seq<SampledProcess>)
    requires |procs| == |stats| && forall k :: 0 <= k < |procs| ==> procs[k] == SampleProcess(s, stats[k], now, sc, want)
    ensures Snap(s, stats, now, sc, want) == Snapshot(s.gen + 1, Elapsed(s, now), procs)
  {
    hide SampleProcess;
    assert Snap(s, stats, now, sc, want).processes == procs;
  }

  class Sampler {
    var prev: map<string, Stat>
    var prevThreads: map<string, ThreadStat>
    var prevMono: int
    var hasPrev: bool
    var gen: nat

    ghost function Abs(): State
      reads this
    {
      State(prev, prevThreads, prevMono, hasPrev, gen)
    }

    constructor ()
      ensures Abs() == Fresh()
    {
      prev, prevThreads, prevMono, hasPrev, gen := map[], map[], 0, false, 0;
    }

    /** One source read and one clock read; nothing changes when the list fails. */
    method Sample(event: Event, sc: Sys, want: seq<string>) returns (r: Option<Snapshot>)
      modifies this
      ensures Abs() == Next(old(Abs()), event)
      ensures match event
              case ListFailed => r == None
              case Listed(stats, now) => r == Some(Snap(old(Abs()), stats, now, sc, want))
    {
      hide SampleProcess, ByKey, ThreadsByKey, Seconds, Snap;
      ghost var s := Abs();
      match event {
        case ListFailed =>
          return None;
        case Listed(stats, now) =>
          var elapsed := Seconds(if hasPrev then now - prevMono else 0);
          var procs, next, nextThreads := BuildAll(stats, now, elapsed, sc, want);
          SnapOf(s, stats, now, sc, want, procs);
          prevThreads := nextThreads;
          gen := gen + 1;
          var gap := 0;
          if hasPrev {
            gap := now - prevMono;
          }
          r := Some(Snapshot(gen, gap, procs));
          prev := next;
          prevMono := now;
          hasPrev := true;
      }
    }

    method BuildAll(stats: seq<Stat>, ghost now: int, elapsed: real, sc: Sys, want: seq<string>)
        returns (procs: seq<SampledProcess>, next: map<string, Stat>, nextThreads: map<string, ThreadStat>)
      requires elapsed == Seconds(Elapsed(Abs(), now))
      ensures |procs| == |stats|
      ensures forall k :: 0 <= k < |procs| ==> procs[k] == SampleProcess(Abs(), stats[k], now, sc, want)
      ensures next == ByKey(stats) && nextThreads == ThreadsByKey(stats)
    {
      hide *;
      ghost var s := Abs();
      procs, next, nextThreads := [], map[], map[];
      NoneListed(stats);
      for i := 0 to |stats|
        invariant Abs() == s && |procs| == i
        invariant forall k :: 0 <= k < i ==> procs[k] == SampleProcess(s, stats[k], now, sc, want)
        invariant next == ByKey(stats[..i]) && nextThreads == ThreadsByKey(stats[..i])
      {
        OneMore(stats, i);
        next := next[stats[i].id.Key() := stats[i]];
        var p;
        p, nextThreads := BuildProcess(stats[i], now, elapsed, sc, want, AllThreads(stats[..i]), nextThreads);
        procs := procs + [p];
      }
      assert stats[..|stats|] == stats;
    }

    method BuildProcess(st: Stat, ghost now: int, elapsed: real, sc: Sys, want: seq<string>,
                        ghost listed: seq<(ThreadId, ThreadStat)>, nextThreads: map<string, ThreadStat>)
        returns (p: SampledProcess, filled: map<string, ThreadStat>)
      requires elapsed == Seconds(Elapsed(Abs(), now)) && nextThreads == ByThreadKey(listed)
      ensures p == SampleProcess(Abs(), st, now, sc, want)
      ensures filled == ByThreadKey(listed + Sampling.ThreadsIn(st))
    {
      hide ComputeMetric, SampleThread, ByThreadKey, Seconds;
      var key := st.id.Key();
      var before := if key in prev then Some(prev[key]) else None;
      var metrics := BuildMetrics(st, before, elapsed, sc, want);
      var threads;
      threads, filled := BuildThreads(st, now, elapsed, sc, want, listed, nextThreads);
      p := SampledProcess(st, metrics, threads);
    }

    method BuildMetrics(st: Stat, before: Option<Stat>, elapsed: real, sc: Sys, want: seq<string>) returns (out: Metrics)
      ensures out == map m | m in want :: ComputeMetric(m, st, before, elapsed, sc)
    {
      hide ComputeMetric;
      out := map[];
      for i := 0 to |want|
        invariant forall m :: m in out <==> m in want[..i]
        invariant forall m :: m in out ==> m in want && out[m] == ComputeMetric(m, st, before, elapsed, sc)
      {
        Take(want, i);
        out := out[want[i] := ComputeMetric(want[i], st, before, elapsed, sc)];
      }
      assert want[..|want|] == want;
    }

    method BuildThread(st: Stat, ts: ThreadStat, ghost now: int, elapsed: real, sc: Sys, want: seq<string>)
        returns (thread: SampledThread)
      requires elapsed == Seconds(Elapsed(Abs(), now))
      ensures thread == SampleThread(Abs(), st, ts, now, sc, want)
    {
      hide ThreadMetric, Seconds;
      var id := ThreadKey(st, ts);
      var before := if id.Key() in prevThreads then Some(prevThreads[id.Key()]) else None;
      var metrics: Metrics := map[];
      for j := 0 to |want|
        invariant forall m :: m in metrics <==> m in want[..j]
        invariant forall m :: m in metrics ==> m in want && metrics[m] == ThreadMetric(m, ts, before, elapsed, sc)
      {
        Take(want, j);
        metrics := metrics[want[j] := ThreadMetric(want[j], ts, before, elapsed, sc)];
      }
      assert want[..|want|] == want;
      thread := SampledThread(id, ts, metrics);
    }

    method BuildThreads(st: Stat, ghost now: int, elapsed: real, sc: Sys, want: seq<string>,
                        ghost listed: seq<(ThreadId, ThreadStat)>, nextThreads: map<string, ThreadStat>)
        returns (threads: seq<SampledThread>, filled: map<string, ThreadStat>)
      requires elapsed == Seconds(Elapsed(Abs(), now)) && nextThreads == ByThreadKey(listed)
      ensures filled == ByThreadKey(listed + Sampling.ThreadsIn(st))
      ensures |threads| == |st.threads|
      ensures forall k :: 0 <= k < |threads| ==> threads[k] == SampleThread(Abs(), st, st.threads[k], now, sc, want)
    {
      hide *;
      ghost var s, all := Abs(), Sampling.ThreadsIn(st);
      ThreadsInSize(st);
      threads, filled := [], nextThreads;
      assert listed + all[..0] == listed;
      for i := 0 to |st.threads|
        invariant Abs() == s && |threads| == i && filled == ByThreadKey(listed + all[..i])
        invariant forall k :: 0 <= k < i ==> threads[k] == SampleThread(s, st, st.threads[k], now, sc, want)
      {
        OneMoreThread(listed, st, i);
        var ts := st.threads[i];
        filled := filled[ThreadKey(st, ts).Key() := ts];
        var thread := BuildThread(st, ts, now, elapsed, sc, want);
        threads := threads + [thread];
      }
      assert all[..|st.threads|] == all;
    }
  }
}
