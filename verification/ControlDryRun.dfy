/**
 Dry runs: a preview changes nothing, and predicts the real call binding by binding.
 Where records matter, the prediction needs the target to list each process once.
 */
module ControlDryRun {
  import opened Options
  import opened Identity
  import opened Kernel
  import opened Control
  import opened Operations
  import opened ControlFrame
  import opened ControlSafety
  import opened ControlRuns

  function Dry(d: Deed): Deed {
    match d
    case DoNice(desired, _) => DoNice(desired, true)
    case DoRestoreNice(_) => DoRestoreNice(true)
    case DoRestore(force, _) => DoRestore(force, true)
    case DoStop(stop, _) => DoStop(stop, true)
    case DoFreeze(freeze, force, _) => DoFreeze(freeze, force, true)
    case DoReconcile(_, _) => d
  }

  function Real(d: Deed): Deed {
    match d
    case DoNice(desired, _) => DoNice(desired, false)
    case DoRestoreNice(_) => DoRestoreNice(false)
    case DoRestore(force, _) => DoRestore(force, false)
    case DoStop(stop, _) => DoStop(stop, false)
    case DoFreeze(freeze, force, _) => DoFreeze(freeze, force, false)
    case DoReconcile(_, _) => d
  }

  predicate Previewable(d: Deed) { !d.DoReconcile? && !d.DoNice? }

  /** "Would act" becomes an outcome of acting; every other entry keeps its status. */
  predicate TwinResult(dry: Result, live: Result) {
    && dry.pid == live.pid
    && if dry.why == WouldAct
       then dry.status == Unchanged && live.status in {Applied, Restored, Denied, Failed}
       else live.status == dry.status
  }

  predicate Twins(dry: seq<Result>, live: seq<Result>) {
    && |dry| == |live|
    && forall i :: 0 <= i < |dry| ==> TwinResult(dry[i], live[i])
  }

  lemma PerformTwin(sg: Safeguards, s0: Sys, s: Sys, handled: set<string>, d: Deed, b: Binding)
    requires SameView(sg, s0, s, b) && Previewable(d)
    ensures var dry := Perform(sg, s0, handled, Dry(d), b);
            var live := Perform(sg, s, handled, Real(d), b);
            dry.sys == s0 && dry.binding == b && Twins(dry.results, live.results)
    ensures NextHandled(sg, s0.world, handled, Dry(d), b) == NextHandled(sg, s.world, handled, Real(d), b)
  {
    match d
    case DoRestore(force, _) => RestoreBothTwin(sg, s0, s, b, force);
    case DoRestoreNice(_) =>
      RestoreNiceTwin(s0, s, b, false, sg);
    case DoStop(stop, _) => StopTwin(sg, s0, s, b, stop);
    case DoFreeze(freeze, force, _) => FreezeTwin(sg, s0, s, b, freeze, force, handled);
  }

  lemma RestoreBothTwin(sg: Safeguards, s0: Sys, s: Sys, b: Binding, force: bool)
    requires SameView(sg, s0, s, b)
    ensures var dry := Perform(sg, s0, {}, DoRestore(force, true), b);
            var live := Perform(sg, s, {}, DoRestore(force, false), b);
            dry.sys == s0 && dry.binding == b && Twins(dry.results, live.results)
  {
    RestoreNiceTwin(s0, s, b, force, sg);
    RestoreNiceKeepsStop(s, b, force);
    var n0, n := RestoreNice(s0, b, force, true), RestoreNice(s, b, force, false);
    RestoreStopTwin(s0, n.sys, b);
    var t0, t := RestoreStop(s0, b, true), RestoreStop(n.sys, b, false);
    hide SameView, RestoreNice, RestoreStop;
    TwinsAppend(n0.results, n.results, t0.results, t.results);
  }

  /** Whether the record matters is a question of continuing only. */
  lemma StopTwin(sg: Safeguards, s0: Sys, s: Sys, b: Binding, stop: bool)
    requires SameLookup(sg, s0, s, b) && (stop || SameView(sg, s0, s, b))
    ensures var dry, live := ApplyStop(sg, s0, b, stop, true), ApplyStop(sg, s, b, stop, false);
            dry.sys == s0 && dry.binding == b && Twins(dry.results, live.results)
  {
  }

  /** The process and procfit's own cgroup look the same. */
  ghost predicate SameLookup(sg: Safeguards, s0: Sys, s: Sys, b: Binding) {
    SameProc(s0.world, s.world, b.pid) && s0.world.ReadCgroupOf(sg.selfPid) == s.world.ReadCgroupOf(sg.selfPid)
  }

  lemma FreezeTwin(sg: Safeguards, s0: Sys, s: Sys, b: Binding, freeze: bool, force: bool, handled: set<string>)
    requires SameLookup(sg, s0, s, b)
    ensures var dry := ApplyFreeze(sg, s0, b, freeze, force, true, handled);
            var live := ApplyFreeze(sg, s, b, freeze, force, false, handled);
            dry.sys == s0 && dry.binding == b && Twins(dry.results, live.results)
    ensures HandledAfter(sg, s0.world, b, handled) == HandledAfter(sg, s.world, b, handled)
  {
  }

  lemma RestoreNiceTwin(s0: Sys, s: Sys, b: Binding, force: bool, sg: Safeguards)
    requires SameView(sg, s0, s, b)
    ensures var dry, live := RestoreNice(s0, b, force, true), RestoreNice(s, b, force, false);
            dry.sys == s0 && dry.binding == b && live.binding == b && Twins(dry.results, live.results)
  {
  }

  lemma RestoreNiceKeepsStop(s: Sys, b: Binding, force: bool)
    ensures b.stop.Some? ==> RestoreNice(s, b, force, false).sys.Stop(b.stop.value) == s.Stop(b.stop.value)
    ensures Revalidate(RestoreNice(s, b, force, false).sys.world, b) == Revalidate(s.world, b)
  {
  }

  lemma RestoreStopTwin(s0: Sys, s: Sys, b: Binding)
    requires Revalidate(s0.world, b) == Revalidate(s.world, b)
    requires b.stop.Some? ==> s0.Stop(b.stop.value) == s.Stop(b.stop.value)
    ensures var dry, live := RestoreStop(s0, b, true), RestoreStop(s, b, false);
            dry.sys == s0 && dry.binding == b && Twins(dry.results, live.results)
  {
  }

  lemma {:induction false} EachTwin(sg: Safeguards, s0: Sys, s: Sys, d: Deed, bs: seq<Binding>)
    requires Previewable(d) && Apart(s, bs)
    requires forall b :: b in bs ==> SameView(sg, s0, s, b)
    ensures var dry, live := Each(sg, s0, Dry(d), bs), Each(sg, s, Real(d), bs);
            dry.sys == s0 && dry.bindings == bs && dry.handled == live.handled && Twins(dry.results, live.results)
  {
    NothingDone(sg, s, []);
    hide Perform, NextHandled, SameView, Twins, Apart, Dry, Real, Previewable;
    if bs != [] {
      var front, last := bs[..|bs| - 1], bs[|bs| - 1];
      assert bs == front + [last];
      ApartFront(s, bs);
      EachTwin(sg, s0, s, d, front);
      EachKeepsView(sg, s0, s, Real(d), front, last);
      var dry, live := Each(sg, s0, Dry(d), front), Each(sg, s, Real(d), front);
      PerformTwin(sg, s0, live.sys, live.handled, d, last);
      TwinsAppend(dry.results, live.results, Perform(sg, s0, dry.handled, Dry(d), last).results,
                  Perform(sg, live.sys, live.handled, Real(d), last).results);
    }
  }

  // ---- Deeds that look at no record ----

  /** Stopping and freezing look at processes and cgroups alone, so acting on one binding does not matter to the next. */
  predicate Steady(d: Deed) { d.DoFreeze? || (d.DoStop? && d.stop) }

  lemma SteadyTwin(sg: Safeguards, s0: Sys, s: Sys, handled: set<string>, d: Deed, b: Binding)
    requires Steady(d) && s.world.procs == s0.world.procs
    ensures var dry := Perform(sg, s0, handled, Dry(d), b);
            var live := Perform(sg, s, handled, Real(d), b);
            && dry.sys == s0 && dry.binding == b && Twins(dry.results, live.results)
            && live.sys.world.procs == s0.world.procs
    ensures NextHandled(sg, s0.world, handled, Dry(d), b) == NextHandled(sg, s.world, handled, Real(d), b)
  {
    hide Twins;
    match d
    case DoStop(stop, _) => StopTwin(sg, s0, s, b, stop);
    case DoFreeze(freeze, force, _) => FreezeTwin(sg, s0, s, b, freeze, force, handled);
  }

  lemma {:induction false} EachSteady(sg: Safeguards, s0: Sys, s: Sys, d: Deed, bs: seq<Binding>)
    requires Steady(d) && s.world.procs == s0.world.procs
    ensures var dry, live := Each(sg, s0, Dry(d), bs), Each(sg, s, Real(d), bs);
            && dry.sys == s0 && dry.bindings == bs && dry.handled == live.handled && Twins(dry.results, live.results)
            && live.sys.world.procs == s0.world.procs
  {
    hide Perform, NextHandled, Twins, Dry, Real, Steady;
    NothingTwins();
    if bs != [] {
      var front, last := bs[..|bs| - 1], bs[|bs| - 1];
      assert bs == front + [last];
      EachSteady(sg, s0, s, d, front);
      var dry, live := Each(sg, s0, Dry(d), front), Each(sg, s, Real(d), front);
      SteadyTwin(sg, s0, live.sys, live.handled, d, last);
      TwinsAppend(dry.results, live.results, Perform(sg, s0, dry.handled, Dry(d), last).results,
                  Perform(sg, live.sys, live.handled, Real(d), last).results);
    }
  }

  lemma NothingTwins()
    ensures Twins([], [])
  {
  }

  // ---- The operations ----

  predicate HasPreview(op: Op) {
    op.OpSetStop? || op.OpSetFreeze? || op.OpRestore? || op.OpRestoreNice? || op.OpSignal?
  }

  function WithDry(op: Op, dryRun: bool): Op
    requires HasPreview(op)
  {
    op.(dryRun := dryRun)
  }

  lemma TwinsAppend(a: seq<Result>, b: seq<Result>, c: seq<Result>, d: seq<Result>)
    requires Twins(a, b) && Twins(c, d)
    ensures Twins(a + c, b + d)
  {
  }

  lemma OnTargetTwin(sg: Safeguards, st: State, st': State, i: nat, d: Deed)
    requires i < |st.targets| && Previewable(d) && Apart(st.sys, st.targets[i].bindings)
    requires st' == st.(targets := st'.targets) && |st'.targets| == |st.targets|
    requires st'.targets[i].bindings == st.targets[i].bindings
    ensures var (dryState, dry) := OnTarget(sg, st, i, Dry(d));
            dryState == st && Twins(dry, OnTarget(sg, st', i, Real(d)).1)
  {
    var bs := st.targets[i].bindings;
    forall b | b in bs ensures SameView(sg, st.sys, st.sys, b) { SelfView(sg, st.sys, b); }
    EachTwin(sg, st.sys, st.sys, d, bs);
    assert st.targets[i := st.targets[i].(bindings := bs)] == st.targets;
  }

  lemma OnTargetSteady(sg: Safeguards, st: State, st': State, i: nat, d: Deed)
    requires i < |st.targets| && Steady(d)
    requires st' == st.(targets := st'.targets) && |st'.targets| == |st.targets|
    requires st'.targets[i].bindings == st.targets[i].bindings
    ensures var (dryState, dry) := OnTarget(sg, st, i, Dry(d));
            dryState == st && Twins(dry, OnTarget(sg, st', i, Real(d)).1)
  {
    hide Each, Twins;
    var bs := st.targets[i].bindings;
    EachSteady(sg, st.sys, st.sys, d, bs);
    assert st.targets[i := st.targets[i].(bindings := bs)] == st.targets;
  }

  lemma ThawTwin(sg: Safeguards, st: State, i: nat)
    requires i < |st.targets| && Apart(st.sys, st.targets[i].bindings)
    ensures var (dry, r) := ThawFirst(sg, st, i, true);
            var (live, q) := ThawFirst(sg, st, i, false);
            && dry == st && Twins(r, q)
            && |live.targets| == |st.targets| && live.targets[i].bindings == st.targets[i].bindings
            && Apart(live.sys, st.targets[i].bindings)
            && forall b :: b in st.targets[i].bindings ==> SameView(sg, st.sys, live.sys, b)
  {
    hide Each, Twins, Apart, SameView, SameProcesses;
    var d, bs := DoFreeze(false, false, false), st.targets[i].bindings;
    OnTargetTwin(sg, st, st, i, d);
    FreezeTouchesCgroupsOnly(sg, st.sys, d, bs);
    SameProcessesSameView(sg, st.sys, Each(sg, st.sys, d, bs).sys, bs);
    NothingDone(sg, st.sys, bs);
  }

  lemma NothingDone(sg: Safeguards, s: Sys, bs: seq<Binding>)
    ensures forall b :: b in bs ==> SameView(sg, s, s, b)
    ensures Twins([], [])
  {
  }

  lemma RestoreTwin(sg: Safeguards, st: State, i: nat, force: bool)
    requires i < |st.targets| && Apart(st.sys, st.targets[i].bindings)
    ensures var (dry1, r1) := ThawFirst(sg, st, i, true);
            var (dry2, r2) := OnTarget(sg, dry1, i, DoRestore(force, true));
            var (live1, q1) := ThawFirst(sg, st, i, false);
            var (live2, q2) := OnTarget(sg, live1, i, DoRestore(force, false));
            dry2 == st && Twins(r1 + r2, q1 + q2)
  {
    hide Twins, Apart, SameView, ThawFirst, Each;
    var bs := st.targets[i].bindings;
    ThawTwin(sg, st, i);
    var (live1, q1) := ThawFirst(sg, st, i, false);
    EachTwin(sg, st.sys, live1.sys, DoRestore(force, true), bs);
    assert st.targets[i := st.targets[i].(bindings := bs)] == st.targets;
    TwinsAppend(ThawFirst(sg, st, i, true).1, q1,
                OnTarget(sg, st, i, DoRestore(force, true)).1, OnTarget(sg, live1, i, DoRestore(force, false)).1);
  }

  lemma {:induction false} SignalTwin(sg: Safeguards, s0: Sys, s: Sys, insts: seq<Instance>, sig: Signal)
    requires s.world == s0.world
    ensures var (dry, r) := SignalAll(sg, s0, insts, sig, true);
            var (live, q) := SignalAll(sg, s, insts, sig, false);
            dry == s0 && live.world == s0.world && Twins(r, q)
  {
    if insts != [] {
      SignalTwin(sg, s0, s, insts[..|insts| - 1], sig);
    }
  }

  /** The bindings that a call acts on, none for a signal or an unknown target. */
  function Addressed(st: State, op: Op): seq<Binding>
    requires HasPreview(op)
  {
    if op.OpSignal? || Find(st.targets, op.target).None? then []
    else st.targets[Find(st.targets, op.target).value].bindings
  }

  /** Continuing and restoring look at records, which acting on an earlier entry of the same process can change. */
  predicate LooksAtRecords(op: Op) { op.OpRestore? || op.OpRestoreNice? || (op.OpSetStop? && !op.stop) }

  lemma DryRunPredictsApart(sg: Safeguards, st: State, op: Op)
    requires HasPreview(op) && (LooksAtRecords(op) ==> Apart(st.sys, Addressed(st, op)))
    ensures Predicted(sg, st, op)
  {
    hide Twins, Apart, ThawFirst, Each, SignalAll;
    match op
    case OpSetStop(target, stop, _) =>
      match Find(st.targets, target) {
        case None =>
        case Some(i) =>
          var st' := WithTarget(st, i, st.targets[i].(desiredStop := Some(stop)));
          if stop { OnTargetSteady(sg, st, st', i, DoStop(true, true)); } else { OnTargetTwin(sg, st, st', i, DoStop(false, true)); }
      }
    case OpSetFreeze(target, freeze, force, _) =>
      match Find(st.targets, target) {
        case None =>
        case Some(i) =>
          OnTargetSteady(sg, st, WithTarget(st, i, st.targets[i].(desiredFreeze := Some(freeze))), i, DoFreeze(freeze, force, true));
      }
    case OpRestoreNice(target, _) =>
      match Find(st.targets, target) {
        case None =>
        case Some(i) => OnTargetTwin(sg, st, st, i, DoRestoreNice(true));
      }
    case OpRestore(target, force, _) =>
      match Find(st.targets, target) {
        case None =>
        case Some(i) => RestoreTwin(sg, st, i, force);
      }
    case OpSignal(insts, sig, _) => SignalTwin(sg, st.sys, st.sys, insts, sig);
  }

  ghost predicate Predicted(sg: Safeguards, st: State, op: Op)
    requires HasPreview(op)
  {
    var (dryState, dry) := Apply(sg, st, WithDry(op, true));
    var (_, live) := Apply(sg, st, WithDry(op, false));
    && dryState == st
    && (dry.NotFound? <==> live.NotFound?)
    && (dry.Ran? ==> Twins(dry.results, live.results))
  }

  /**
   After any run, a dry run of stop, freeze or signal, and if the target lists each process once one of continue,
   restore or restore-nice, leaves records, intents, trace and kernel exactly as they were, and its
   result list is the real call's: the same pids in the same order, every refusal with the same
   status, and each "would act" entry an attempt.
   */
  lemma DryRunPredicts(sg: Safeguards, w: World, ops: seq<Op>, op: Op)
    requires w.Valid() && RealWorlds(ops) && HasPreview(op)
    requires LooksAtRecords(op) ==> EachOnce(Addressed(Run(sg, Fresh(w), ops), op))
    ensures Predicted(sg, Run(sg, Fresh(w), ops), op)
  {
    hide Predicted, Apart, EachOnce, Addressed, Run, Inv, BindingsInv, TargetsInv;
    FreshInv(sg, w);
    RunKeeps(sg, Fresh(w), ops);
    var st := Run(sg, Fresh(w), ops);
    AddressedInv(sg, st, op);
    if LooksAtRecords(op) {
      OnceIsApart(sg, st.sys, Addressed(st, op));
    }
    DryRunPredictsApart(sg, st, op);
  }

  lemma AddressedInv(sg: Safeguards, st: State, op: Op)
    requires StateInv(sg, st) && HasPreview(op)
    ensures BindingsInv(sg, st.sys, Addressed(st, op))
  {
    hide Inv, BindingInv;
  }

  /** A previewed nice change touches the recorded intent and nothing else. */
  lemma DryNiceSetsIntentOnly(sg: Safeguards, st: State, target: string, nice: int)
    ensures var (st', out) := SetNice(sg, st, target, nice, true);
            match Find(st.targets, target)
            case None => st' == st && out == NotFound
            case Some(i) => st' == WithTarget(st, i, st.targets[i].(desiredNice := Some(nice)))
  {
    match Find(st.targets, target)
    case None =>
    case Some(i) =>
      var t := st.targets[i].(desiredNice := Some(nice));
      DryNicePass(sg, st.sys, nice, t.bindings);
      assert st.targets[i := t][i := t] == st.targets[i := t];
  }

  lemma {:induction false} DryNicePass(sg: Safeguards, s: Sys, nice: int, bs: seq<Binding>)
    ensures Each(sg, s, DoNice(nice, true), bs).sys == s && Each(sg, s, DoNice(nice, true), bs).bindings == bs
  {
    if bs != [] {
      DryNicePass(sg, s, nice, bs[..|bs| - 1]);
    }
  }
}
