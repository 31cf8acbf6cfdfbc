/** The invariant lifted to operations and to every run from a fresh manager. */
module ControlRuns {
  import opened Options
  import opened Identity
  import opened Kernel
  import opened Control
  import opened Operations
  import opened ControlSafety
  import FreezeGuard

  ghost predicate TargetsInv(sg: Safeguards, s: Sys, ts: seq<Target>) {
    forall t :: t in ts ==> BindingsInv(sg, s, t.bindings)
  }

  ghost predicate StateInv(sg: Safeguards, st: State) {
    Inv(sg, st.sys) && TargetsInv(sg, st.sys, st.targets)
  }

  ghost predicate Advances(sg: Safeguards, st: State, st': State) {
    StateInv(sg, st') && Grows(st.sys, st'.sys)
  }

  lemma TargetsKept(sg: Safeguards, s: Sys, s': Sys, ts: seq<Target>)
    requires TargetsInv(sg, s, ts) && Grows(s, s')
    ensures TargetsInv(sg, s', ts)
  {
    forall t, b | t in ts && b in t.bindings ensures BindingInv(sg, s', b) {
      BindingKept(sg, s, s', b);
    }
  }

  lemma PutTarget(sg: Safeguards, s: Sys, ts: seq<Target>, i: nat, t: Target)
    requires i < |ts| && TargetsInv(sg, s, ts) && BindingsInv(sg, s, t.bindings)
    ensures TargetsInv(sg, s, ts[i := t])
  {
  }

  lemma {:induction false} ByKeyHolds(bs: seq<Binding>, key: string)
    requires key in ByKey(bs)
    ensures ByKey(bs)[key] in bs && ByKey(bs)[key].id.Key() == key
  {
    var last := bs[|bs| - 1];
    if last.id.Key() != key {
      ByKeyHolds(bs[..|bs| - 1], key);
    }
  }

  /** Records move to a new binding only under an equal key, so only to the same process. */
  lemma BoundKeeps(sg: Safeguards, s: Sys, t: Target, insts: seq<Instance>)
    requires BindingsInv(sg, s, t.bindings)
    ensures BindingsInv(sg, s, Bound(t, insts).bindings)
  {
    var prev := ByKey(t.bindings);
    forall b | b in Bound(t, insts).bindings ensures BindingInv(sg, s, b) {
      var i :| 0 <= i < |insts| && b == BindOne(prev, insts[i]);
      var key := insts[i].id.Key();
      if key in prev {
        ByKeyHolds(t.bindings, key);
        KeyInjective(prev[key].id, insts[i].id);
        assert BindingInv(sg, s, prev[key]);
      }
    }
  }

  lemma BindInstancesKeeps(sg: Safeguards, st: State, i: nat, insts: seq<Instance>)
    requires i < |st.targets| && StateInv(sg, st)
    ensures Advances(sg, st, BindInstances(st, i, insts))
  {
    hide Inv, Grows, BindingsInv;
    GrowsReflexive(st.sys);
    BoundKeeps(sg, st.sys, st.targets[i], insts);
    PutTarget(sg, st.sys, st.targets, i, Bound(st.targets[i], insts));
  }

  lemma ManageAtKeeps(sg: Safeguards, st: State, i: nat, mode: Mode, insts: seq<Instance>)
    requires i < |st.targets| && StateInv(sg, st)
    ensures Advances(sg, st, ManageAt(st, i, mode, insts))
  {
    hide Inv, Grows, BindingsInv;
    var t := st.targets[i].(mode := mode);
    var t' := if mode == Snapshot then t.(snapshotIds := Ids(insts)) else t;
    PutTarget(sg, st.sys, st.targets, i, t');
    BindInstancesKeeps(sg, st.(targets := st.targets[i := t']), i, insts);
  }

  lemma NoBindings(sg: Safeguards, s: Sys)
    ensures BindingsInv(sg, s, [])
  {
  }

  lemma ManageKeeps(sg: Safeguards, st: State, name: string, mode: Mode, selector: string, insts: seq<Instance>)
    requires StateInv(sg, st)
    ensures Advances(sg, st, Manage(st, name, mode, selector, insts))
  {
    hide Inv, Grows, BindingsInv;
    NoBindings(sg, st.sys);
    match Find(st.targets, name)
    case Some(i) => ManageAtKeeps(sg, st, i, mode, insts);
    case None =>
      ManageAtKeeps(sg, st.(targets := st.targets + [NewTarget(name, mode, selector)]), |st.targets|, mode, insts);
  }

  lemma OnTargetKeeps(sg: Safeguards, st: State, i: nat, d: Deed)
    requires i < |st.targets| && StateInv(sg, st)
    ensures Advances(sg, st, OnTarget(sg, st, i, d).0)
  {
    hide Inv, Grows, BindingsInv;
    var t := st.targets[i];
    EachKeeps(sg, st.sys, d, t.bindings);
    var p := Each(sg, st.sys, d, t.bindings);
    TargetsKept(sg, st.sys, p.sys, st.targets);
    PutTarget(sg, p.sys, st.targets, i, t.(bindings := p.bindings));
  }

  lemma WithTargetKeeps(sg: Safeguards, st: State, i: nat, t: Target)
    requires i < |st.targets| && StateInv(sg, st) && t.bindings == st.targets[i].bindings
    ensures Advances(sg, st, WithTarget(st, i, t))
  {
    hide Inv, Grows, BindingsInv;
    GrowsReflexive(st.sys);
    PutTarget(sg, st.sys, st.targets, i, t);
  }

  lemma AdvancesTransitive(sg: Safeguards, a: State, b: State, c: State)
    requires Advances(sg, a, b) && Advances(sg, b, c)
    ensures Advances(sg, a, c)
  {
    GrowsTransitive(a.sys, b.sys, c.sys);
  }

  lemma AdvancesReflexive(sg: Safeguards, st: State)
    requires StateInv(sg, st)
    ensures Advances(sg, st, st)
  {
    GrowsReflexive(st.sys);
  }

  /** Set an intent, then perform a deed. */
  lemma IntendAndDo(sg: Safeguards, st: State, i: nat, t: Target, d: Deed)
    requires i < |st.targets| && StateInv(sg, st) && t.bindings == st.targets[i].bindings
    ensures Advances(sg, st, OnTarget(sg, WithTarget(st, i, t), i, d).0)
  {
    hide Advances, StateInv;
    var st1 := WithTarget(st, i, t);
    WithTargetKeeps(sg, st, i, t);
    AdvancesInv(sg, st, st1);
    OnTargetKeeps(sg, st1, i, d);
    AdvancesTransitive(sg, st, st1, OnTarget(sg, st1, i, d).0);
  }

  lemma AdvancesInv(sg: Safeguards, st: State, st': State)
    requires Advances(sg, st, st')
    ensures StateInv(sg, st')
  {
  }

  lemma RestoreKeeps(sg: Safeguards, st: State, target: string, force: bool, dryRun: bool)
    requires StateInv(sg, st)
    ensures Advances(sg, st, Restore(sg, st, target, force, dryRun).0)
  {
    hide Advances, StateInv;
    AdvancesReflexive(sg, st);
    match Find(st.targets, target)
    case None =>
    case Some(i) =>
      var st1 := ThawFirst(sg, st, i, dryRun).0;
      OnTargetKeeps(sg, st, i, DoFreeze(false, false, dryRun));
      AdvancesInv(sg, st, st1);
      var st2 := OnTarget(sg, st1, i, DoRestore(force, dryRun)).0;
      OnTargetKeeps(sg, st1, i, DoRestore(force, dryRun));
      AdvancesInv(sg, st1, st2);
      AdvancesTransitive(sg, st, st1, st2);
      var t := st2.targets[i].(desiredNice := None, desiredStop := None, desiredFreeze := None);
      WithTargetKeeps(sg, st2, i, t);
      AdvancesTransitive(sg, st, st2, WithTarget(st2, i, t));
  }

  lemma RestoreNiceOfKeeps(sg: Safeguards, st: State, target: string, dryRun: bool)
    requires StateInv(sg, st)
    ensures Advances(sg, st, RestoreNiceOf(sg, st, target, dryRun).0)
  {
    hide Advances, StateInv;
    AdvancesReflexive(sg, st);
    match Find(st.targets, target)
    case None =>
    case Some(i) =>
      var st1 := OnTarget(sg, st, i, DoRestoreNice(dryRun)).0;
      OnTargetKeeps(sg, st, i, DoRestoreNice(dryRun));
      AdvancesInv(sg, st, st1);
      WithTargetKeeps(sg, st1, i, st1.targets[i].(desiredNice := None));
      AdvancesTransitive(sg, st, st1, WithTarget(st1, i, st1.targets[i].(desiredNice := None)));
  }

  lemma {:induction false} SignalAllKeeps(sg: Safeguards, s: Sys, insts: seq<Instance>, sig: Signal, dryRun: bool)
    requires Inv(sg, s)
    ensures Inv(sg, SignalAll(sg, s, insts, sig, dryRun).0) && Grows(s, SignalAll(sg, s, insts, sig, dryRun).0)
  {
    hide Inv, Grows;
    GrowsReflexive(s);
    if insts != [] {
      var front, last := insts[..|insts| - 1], insts[|insts| - 1];
      SignalAllKeeps(sg, s, front, sig, dryRun);
      var s1 := SignalAll(sg, s, front, sig, dryRun).0;
      var b := Binding(last.id, last.pid, last.name, None, None);
      if sg.CheckPID(last.pid) && Revalidate(s1.world, b) && !dryRun {
        SignalNoCell(sg, s1, b, sig);
        GrowsTransitive(s, s1, SendSignal(s1, b, None, sig));
      }
    }
  }

  lemma SignalKeeps(sg: Safeguards, st: State, insts: seq<Instance>, sig: Signal, dryRun: bool)
    requires StateInv(sg, st)
    ensures Advances(sg, st, SignalInstances(sg, st, insts, sig, dryRun).0)
  {
    hide Inv, Grows, BindingsInv;
    SignalAllKeeps(sg, st.sys, insts, sig, dryRun);
    TargetsKept(sg, st.sys, SignalAll(sg, st.sys, insts, sig, dryRun).0, st.targets);
  }

  lemma {:induction false} ConfigByNameHolds(ts: seq<Target>, name: string)
    requires name in ConfigByName(ts)
    ensures ConfigByName(ts)[name] in ts && ConfigByName(ts)[name].name == name && ConfigByName(ts)[name].origin == Config
  {
    var last := ts[|ts| - 1];
    if last.origin != Config || last.name != name {
      ConfigByNameHolds(ts[..|ts| - 1], name);
    }
  }

  lemma {:induction false} RuntimeOnlyHolds(ts: seq<Target>, t: Target)
    ensures t in RuntimeOnly(ts) <==> t in ts && t.origin != Config
  {
    if ts != [] {
      RuntimeOnlyHolds(ts[..|ts| - 1], t);
      assert ts == ts[..|ts| - 1] + [ts[|ts| - 1]];
    }
  }

  lemma SetPoliciesKeeps(sg: Safeguards, st: State, ps: seq<Policy>)
    requires StateInv(sg, st)
    ensures Advances(sg, st, SetPolicies(st, ps))
  {
    hide Inv, Grows, BindingsInv;
    GrowsReflexive(st.sys);
    NoBindings(sg, st.sys);
    var prev := ConfigByName(st.targets);
    forall t | t in SetPolicies(st, ps).targets ensures BindingsInv(sg, st.sys, t.bindings) {
      if t in RuntimeOnly(st.targets) {
        RuntimeOnlyHolds(st.targets, t);
      } else {
        var i :| 0 <= i < |ps| && t == PolicyTarget(prev, ps[i]);
        if ps[i].name in prev {
          ConfigByNameHolds(st.targets, ps[i].name);
        }
      }
    }
  }

  lemma ReconcileOneKeeps(sg: Safeguards, st: State, i: nat, resolve: Resolver)
    requires i < |st.targets| && StateInv(sg, st)
    ensures Advances(sg, st, ReconcileOne(sg, st, i, resolve))
  {
    hide Advances, StateInv;
    AdvancesReflexive(sg, st);
    var t := st.targets[i];
    if t.origin == Config && t.selector in resolve {
      var st1 := BindInstances(st, i, resolve[t.selector]);
      BindInstancesKeeps(sg, st, i, resolve[t.selector]);
      AdvancesInv(sg, st, st1);
      if t.desiredNice.Some? {
        var d := DoReconcile(t.desiredNice.value, t.onDrift);
        OnTargetKeeps(sg, st1, i, d);
        AdvancesTransitive(sg, st, st1, OnTarget(sg, st1, i, d).0);
      }
    }
  }

  lemma {:induction false} ReconcileKeeps(sg: Safeguards, st: State, n: nat, resolve: Resolver)
    requires n <= |st.targets| && StateInv(sg, st)
    ensures Advances(sg, st, ReconcileUpTo(sg, st, n, resolve))
  {
    hide Advances, StateInv;
    AdvancesReflexive(sg, st);
    if n > 0 {
      ReconcileKeeps(sg, st, n - 1, resolve);
      var st1 := ReconcileUpTo(sg, st, n - 1, resolve);
      AdvancesInv(sg, st, st1);
      ReconcileOneKeeps(sg, st1, n - 1, resolve);
      AdvancesTransitive(sg, st, st1, ReconcileOne(sg, st1, n - 1, resolve));
    }
  }

  lemma OtherOpsKeep(sg: Safeguards, st: State, op: Op)
    requires StateInv(sg, st)
    requires op.OpUnmanage? || op.OpAdoptOldBoot? || (op.Environment? && op.world.Valid())
    ensures Advances(sg, st, Apply(sg, st, op).0)
  {
    hide NiceCellsOk, StopCellsOk;
    var st' := Apply(sg, st, op).0;
    SameRecords(st.sys, st'.sys);
    assert Grows(st.sys, st'.sys);
    TargetsKept(sg, st.sys, st'.sys, st.targets);
    NoBindings(sg, st'.sys);
    hide BindingsInv;
  }

  lemma ApplyKeeps(sg: Safeguards, st: State, op: Op)
    requires StateInv(sg, st)
    requires op.Environment? ==> op.world.Valid()
    ensures Advances(sg, st, Apply(sg, st, op).0)
  {
    hide Advances, StateInv;
    AdvancesReflexive(sg, st);
    match op
    case OpManage(name, mode, selector, insts) => ManageKeeps(sg, st, name, mode, selector, insts);
    case OpRebind(target, insts) =>
      match Find(st.targets, target) {
        case None =>
        case Some(i) => BindInstancesKeeps(sg, st, i, insts);
      }
    case OpUnmanage(_) => OtherOpsKeep(sg, st, op);
    case OpSetNice(target, nice, dryRun) =>
      match Find(st.targets, target) {
        case None =>
        case Some(i) => IntendAndDo(sg, st, i, st.targets[i].(desiredNice := Some(nice)), DoNice(nice, dryRun));
      }
    case OpSetStop(target, stop, dryRun) =>
      match Find(st.targets, target) {
        case None =>
        case Some(i) =>
          IntendAndDo(sg, st, i, st.targets[i].(desiredStop := Some(stop)), DoStop(stop, dryRun));
          OnTargetKeeps(sg, st, i, DoStop(stop, dryRun));
      }
    case OpSetFreeze(target, freeze, force, dryRun) =>
      match Find(st.targets, target) {
        case None =>
        case Some(i) =>
          IntendAndDo(sg, st, i, st.targets[i].(desiredFreeze := Some(freeze)), DoFreeze(freeze, force, dryRun));
          OnTargetKeeps(sg, st, i, DoFreeze(freeze, force, dryRun));
      }
    case OpRestoreNice(target, dryRun) => RestoreNiceOfKeeps(sg, st, target, dryRun);
    case OpRestore(target, force, dryRun) => RestoreKeeps(sg, st, target, force, dryRun);
    case OpSignal(insts, sig, dryRun) => SignalKeeps(sg, st, insts, sig, dryRun);
    case OpSetPolicies(policies) => SetPoliciesKeeps(sg, st, policies);
    case OpReconcile(resolve) => ReconcileKeeps(sg, st, |st.targets|, resolve);
    case OpAdoptOldBoot(_, _) => OtherOpsKeep(sg, st, op);
    case Environment(_) => OtherOpsKeep(sg, st, op);
  }

  lemma {:induction false} RunKeeps(sg: Safeguards, st: State, ops: seq<Op>)
    requires StateInv(sg, st) && RealWorlds(ops)
    ensures Advances(sg, st, Run(sg, st, ops))
  {
    hide Advances, StateInv;
    AdvancesReflexive(sg, st);
    if ops != [] {
      var front := ops[..|ops| - 1];
      RunKeeps(sg, st, front);
      var st1 := Run(sg, st, front);
      AdvancesInv(sg, st, st1);
      ApplyKeeps(sg, st1, ops[|ops| - 1]);
      AdvancesTransitive(sg, st, st1, Apply(sg, st1, ops[|ops| - 1]).0);
    }
  }

  lemma FreshInv(sg: Safeguards, w: World)
    requires w.Valid()
    ensures StateInv(sg, Fresh(w))
  {
  }

  // ---- Main results over runs ----

  /**
   Whatever the manager is asked to do and however processes come, go and reuse pids between
   the requests, restore and reconcile included: every nice and signal call it has made went
   to a pid above 1 that is neither procfit nor its parent, and that at the call was held by
   the very process the binding or instance named.
   */
  lemma {:induction false} NobodyElseIsTouched(sg: Safeguards, w: World, ops: seq<Op>, e: Event)
    requires w.Valid() && RealWorlds(ops) && e in Run(sg, Fresh(w), ops).sys.trace
    requires e.Niced? || e.Signalled?
    ensures e.pid > 1 && e.pid != sg.selfPid && (sg.selfPpid == 0 || e.pid != sg.selfPpid)
    ensures e.holder.Some? && e.holder.value.pid == e.owner.pid && e.holder.value.start == e.owner.start
    ensures e.holder.value.SameProcess(e.owner)
  {
    FreshInv(sg, w);
    RunKeeps(sg, Fresh(w), ops);
    assert Lawful(sg, e);
  }

  /** No unforced freeze in any run hits procfit's own cgroup, an ancestor of it, the root or a login unit. */
  lemma NoSelfFreeze(sg: Safeguards, w: World, ops: seq<Op>, e: Event, cg: seq<string>, self: seq<string>)
    requires w.Valid() && RealWorlds(ops) && e in Run(sg, Fresh(w), ops).sys.trace
    requires e.Froze? && e.freeze && !e.forced
    requires FreezeGuard.Components(cg) && FreezeGuard.Components(self)
    requires e.cgroup == FreezeGuard.Path(cg) && e.selfCgroup == Some(FreezeGuard.Path(self))
    ensures cg != [] && !(cg <= self) && !FreezeGuard.LoginUnit(cg[|cg| - 1])
  {
    FreshInv(sg, w);
    RunKeeps(sg, Fresh(w), ops);
    assert Lawful(sg, e);
    FreezeGuard.FreezeGuardExact(cg, self);
  }

  /**
   Every nice call goes through a record captured earlier in the trace, for the same process and
   pid, and never captured again; the record's original is still the value read at that capture.
   */
  lemma {:induction false} OriginalIsFirstReading(sg: Safeguards, w: World, ops: seq<Op>, j: nat)
    requires w.Valid() && RealWorlds(ops)
    requires j < |Run(sg, Fresh(w), ops).sys.trace| && Run(sg, Fresh(w), ops).sys.trace[j].Niced?
    ensures var s := Run(sg, Fresh(w), ops).sys;
            var e := s.trace[j];
            && e.cell < |s.nices| && e.cell < |s.births|
            && var i := s.births[e.cell];
               && i < j
               && s.trace[i] == Captured(e.cell, e.pid, e.owner, s.nices[e.cell].original)
               && forall k :: 0 <= k < |s.trace| && k != i && s.trace[k].Captured? ==> s.trace[k].cell != e.cell
  {
    FreshInv(sg, w);
    RunKeeps(sg, Fresh(w), ops);
  }

  /** No operation and no further run ever changes a captured original. */
  lemma OriginalsNeverChange(sg: Safeguards, w: World, ops: seq<Op>, more: seq<Op>, c: nat)
    requires w.Valid() && RealWorlds(ops) && RealWorlds(more)
    requires c < |Run(sg, Fresh(w), ops).sys.nices|
    ensures var s, s' := Run(sg, Fresh(w), ops).sys, Run(sg, Run(sg, Fresh(w), ops), more).sys;
            c < |s'.nices| && s'.nices[c].original == s.nices[c].original
  {
    FreshInv(sg, w);
    RunKeeps(sg, Fresh(w), ops);
    RunKeeps(sg, Run(sg, Fresh(w), ops), more);
  }

  lemma {:induction false} ContinuesOwnedAt(trace: seq<Event>, j: nat)
    requires ContinuesOwned(trace) && j < |trace|
    requires trace[j].Signalled? && trace[j].stopCell.Some? && trace[j].sig == SigCont
    ensures LastSignal(trace[..j], trace[j].stopCell.value) == Some(SigStop)
  {
    if j < |trace| - 1 {
      var before := trace[..|trace| - 1];
      ContinuesOwnedAt(before, j);
      assert before[..j] == trace[..j];
    }
  }

  /**
   In every run, rebinding and policy reloads included: a continue goes out only while a stop of
   ours through the same record is in force, for the same process, and a record's flag is up
   exactly when the last signal delivered through it was the stop.
   */
  lemma {:induction false} StopsAreOwned(sg: Safeguards, w: World, ops: seq<Op>, j: nat, c: nat)
    requires w.Valid() && RealWorlds(ops)
    requires c < |Run(sg, Fresh(w), ops).sys.stops|
    ensures var s := Run(sg, Fresh(w), ops).sys;
            && (s.stops[c].desiredStop <==> LastSignal(s.trace, c) == Some(SigStop))
            && (j < |s.trace| && s.trace[j].Signalled? && s.trace[j].stopCell == Some(c) ==>
                 && (s.trace[j].sig == SigCont ==> LastSignal(s.trace[..j], c) == Some(SigStop))
                 && c < |s.stopBirths| && s.stopBirths[c] < |s.trace|
                 && var first := s.trace[s.stopBirths[c]];
                    first.Signalled? && first.owner == s.trace[j].owner && first.pid == s.trace[j].pid)
  {
    FreshInv(sg, w);
    RunKeeps(sg, Fresh(w), ops);
    var s := Run(sg, Fresh(w), ops).sys;
    if j < |s.trace| && s.trace[j].Signalled? && s.trace[j].stopCell == Some(c) && s.trace[j].sig == SigCont {
      ContinuesOwnedAt(s.trace, j);
    }
  }
}
