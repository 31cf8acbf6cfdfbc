/**
 The manager object. Its methods read and update their fields and the kernel step by step; each is
 proved to be the operation of the same name on the whole state, and to keep the invariant.
 */
module Manager {
  import opened Options
  import opened Identity
  import opened Kernel
  import opened Control
  import opened Operations
  import opened ControlSafety
  import opened ControlRuns
  import opened ControlRestore
  import FreezeGuard

  lemma EachNext(sg: Safeguards, s: Sys, d: Deed, bs: seq<Binding>, k: nat)
    requires k < |bs|
    ensures Each(sg, s, d, bs[..k + 1]) == Then(sg, Each(sg, s, d, bs[..k]), d, bs[k])
  {
    assert bs[..k + 1][..k] == bs[..k];
  }

  /** The targets after the first `k` bindings of target `i` have been acted on. */
  ghost function Halfway(ts: seq<Target>, i: nat, p: Pass, k: nat): seq<Target>
    requires i < |ts| && k <= |ts[i].bindings|
  {
    ts[i := ts[i].(bindings := p.bindings + ts[i].bindings[k..])]
  }

  lemma RefsInRange(sg: Safeguards, st: State, i: nat, k: nat)
    requires StateInv(sg, st) && i < |st.targets| && k < |st.targets[i].bindings|
    ensures InRange(st.sys, st.targets[i].bindings[k])
  {
    assert BindingInv(sg, st.sys, st.targets[i].bindings[k]);
  }

  lemma AllInRange(sg: Safeguards, st: State, i: nat)
    requires StateInv(sg, st) && i < |st.targets|
    ensures forall k :: 0 <= k < |st.targets[i].bindings| ==> InRange(st.sys, st.targets[i].bindings[k])
  {
    forall k | 0 <= k < |st.targets[i].bindings| ensures InRange(st.sys, st.targets[i].bindings[k]) {
      RefsInRange(sg, st, i, k);
    }
  }

  lemma ThawKeeps(sg: Safeguards, st: State, i: nat, dryRun: bool)
    requires StateInv(sg, st) && i < |st.targets|
    ensures StateInv(sg, ThawFirst(sg, st, i, dryRun).0)
  {
    hide StateInv;
    OnTargetKeeps(sg, st, i, DoFreeze(false, false, dryRun));
    AdvancesInv(sg, st, OnTarget(sg, st, i, DoFreeze(false, false, dryRun)).0);
  }

  lemma OnTargetShape(sg: Safeguards, st: State, i: nat, d: Deed)
    requires i < |st.targets|
    ensures |OnTarget(sg, st, i, d).0.targets| == |st.targets|
  {
  }

  class Manager {
    const ctrl: Controller
    const sg: Safeguards
    var targets: seq<Target>
    var generation: nat
    var nices: seq<NiceField>
    var stops: seq<StopField>
    ghost var births: seq<nat>
    ghost var stopBirths: seq<nat>
    ghost var trace: seq<Event>

    ghost function Cells(): Sys
      reads this, ctrl
    {
      Sys(ctrl.world, nices, stops, births, stopBirths, trace)
    }

    ghost function Abs(): State
      reads this, ctrl
    {
      State(targets, generation, Cells())
    }

    ghost predicate Valid()
      reads this, ctrl
    {
      StateInv(sg, Abs())
    }

    constructor (ctrl: Controller, sg: Safeguards)
      requires ctrl.world.Valid()
      ensures this.ctrl == ctrl && this.sg == sg
      ensures Abs() == Fresh(ctrl.world) && Valid()
    {
      this.ctrl, this.sg := ctrl, sg;
      targets, generation, nices, stops := [], 0, [], [];
      births, stopBirths, trace := [], [], [];
      new;
      FreshInv(sg, ctrl.world);
    }

    method Find(idOrName: string) returns (r: Option<nat>)
      ensures r == Operations.Find(targets, idOrName)
    {
      var i := 0;
      while i < |targets|
        invariant 0 <= i <= |targets|
        invariant Operations.Find(targets, idOrName) == FindFrom(targets, idOrName, i)
      {
        if targets[i].id == idOrName || targets[i].name == idOrName {
          return Some(i);
        }
        i := i + 1;
      }
      return None;
    }

    // ---- Per binding ----

    method Revalidate(b: Binding) returns (same: bool)
      ensures same == Control.Revalidate(ctrl.world, b)
    {
      var id := ctrl.ReadIdentity(b.pid);
      same := id.Some? && id.value.SameProcess(b.id);
    }

    method ObserveNice(pid: int, c: nat)
      requires c < |nices|
      modifies this`nices
      ensures Cells() == Control.Observe(old(Cells()), pid, c)
    {
      var obs := ctrl.GetNice(pid);
      match obs
      case None =>
        nices := nices[c := nices[c].(status := Vanished, error := Gone)];
      case Some(value) =>
        nices := nices[c := nices[c].(observed := value)];
        if value == nices[c].desired {
          nices := nices[c := nices[c].(status := Applied, error := Plain)];
        } else {
          nices := nices[c := nices[c].(status := Drifted)];
        }
    }

    method WriteNice(b: Binding, c: nat, value: int) returns (ok: bool)
      modifies ctrl, this`trace
      ensures ok == old(ctrl.world).NiceAllowed(b.pid, value)
      ensures Cells() == Control.WriteNice(old(Cells()), b, c, value)
    {
      ghost var before := ctrl.world;
      ok := ctrl.SetNice(b.pid, value);
      trace := trace + [Niced(c, b.pid, b.id, before.ReadIdentity(b.pid), value, ok)];
    }

    method ApplyNiceBinding(b: Binding, desired: int, dryRun: bool) returns (b': Binding, rs: seq<Result>)
      requires InRange(Cells(), b)
      modifies ctrl, this`nices, this`births, this`trace
      ensures Done(Cells(), b', rs) == ApplyNice(sg, old(Cells()), b, desired, dryRun)
    {
      b' := b;
      if !sg.CheckPID(b.pid) {
        return b', [Result(b.pid, Skipped, Protected)];
      }
      var same := Revalidate(b);
      if !same {
        return b', [Result(b.pid, Stale, IdentityChanged)];
      }
      if dryRun {
        return b', [Result(b.pid, Unchanged, WouldAct)];
      }
      if b'.nice.None? {
        var orig := ctrl.GetNice(b.pid);
        if orig.None? {
          return b', [Result(b.pid, Failed, Gone)];
        }
        births := births + [|trace|];
        trace := trace + [Captured(|nices|, b.pid, b.id, orig.value)];
        b' := b'.(nice := Some(|nices|));
        nices := nices + [NiceField(orig.value, 0, 0, Unset, Plain)];
      }
      var c := b'.nice.value;
      nices := nices[c := nices[c].(desired := desired)];
      var ok := WriteNice(b', c, desired);
      if !ok {
        nices := nices[c := nices[c].(status := Denied, error := KernelRefused)];
        return b', [Result(b.pid, Denied, KernelRefused)];
      }
      ObserveNice(b.pid, c);
      rs := [Result(b.pid, nices[c].status, nices[c].error)];
    }

    method RestoreNiceBinding(b: Binding, force: bool, dryRun: bool) returns (rs: seq<Result>)
      requires InRange(Cells(), b)
      modifies ctrl, this`nices, this`trace
      ensures Done(Cells(), b, rs) == Control.RestoreNice(old(Cells()), b, force, dryRun)
    {
      if b.nice.None? {
        return [];
      }
      var c := b.nice.value;
      var same := Revalidate(b);
      if !same {
        return [Result(b.pid, Stale, IdentityChanged)];
      }
      var obs := ctrl.GetNice(b.pid);
      if obs.None? {
        return [Result(b.pid, Vanished, Gone)];
      }
      if obs.value != nices[c].desired && !force {
        if !dryRun {
          nices := nices[c := nices[c].(observed := obs.value, status := Drifted)];
        }
        return [Result(b.pid, Drifted, DriftKept)];
      }
      if dryRun {
        return [Result(b.pid, Unchanged, WouldAct)];
      }
      var ok := WriteNice(b, c, nices[c].original);
      if !ok {
        return [Result(b.pid, Denied, KernelRefused)];
      }
      nices := nices[c := nices[c].(desired := nices[c].original)];
      ObserveNice(b.pid, c);
      nices := nices[c := nices[c].(status := Restored)];
      rs := [Result(b.pid, Restored, Plain)];
    }

    method SendSignal(b: Binding, cell: Option<nat>, sig: Signal) returns (ok: bool)
      modifies this`trace
      ensures ok == ctrl.world.SignalAllowed(b.pid, sig)
      ensures Cells() == Control.SendSignal(old(Cells()), b, cell, sig)
    {
      ok := ctrl.SendSignal(b.pid, sig);
      trace := trace + [Signalled(cell, b.pid, b.id, ctrl.world.ReadIdentity(b.pid), sig, ok)];
    }

    method RestoreStopBinding(b: Binding, dryRun: bool) returns (rs: seq<Result>)
      requires InRange(Cells(), b)
      modifies this`stops, this`trace
      ensures Done(Cells(), b, rs) == RestoreStop(old(Cells()), b, dryRun)
    {
      if b.stop.None? || !stops[b.stop.value].desiredStop {
        return [];
      }
      var same := Revalidate(b);
      if !same {
        return [Result(b.pid, Stale, IdentityChanged)];
      }
      if dryRun {
        return [Result(b.pid, Unchanged, WouldAct)];
      }
      var ok := SendSignal(b, b.stop, SigCont);
      if !ok {
        return [Result(b.pid, Denied, KernelRefused)];
      }
      var c := b.stop.value;
      stops := stops[c := stops[c].(desiredStop := false)];
      stops := stops[c := stops[c].(status := Restored)];
      rs := [Result(b.pid, Restored, Plain)];
    }

    method ApplyStopBinding(b: Binding, stop: bool, sig: Signal, dryRun: bool) returns (b': Binding, rs: seq<Result>)
      requires InRange(Cells(), b) && sig == if stop then SigStop else SigCont
      modifies this`stops, this`stopBirths, this`trace
      ensures Done(Cells(), b', rs) == ApplyStop(sg, old(Cells()), b, stop, dryRun)
    {
      b' := b;
      if !sg.CheckPID(b.pid) {
        return b', [Result(b.pid, Skipped, Protected)];
      }
      var same := Revalidate(b);
      if !same {
        return b', [Result(b.pid, Stale, IdentityChanged)];
      }
      if !stop && (b.stop.None? || !stops[b.stop.value].desiredStop) {
        return b', [Result(b.pid, Skipped, NotOurStop)];
      }
      if dryRun {
        return b', [Result(b.pid, Unchanged, WouldAct)];
      }
      var ok := ctrl.SendSignal(b.pid, sig);
      ghost var cell := if ok && b.stop.None? then Some(|stops|) else b.stop;
      trace := trace + [Signalled(cell, b.pid, b.id, ctrl.world.ReadIdentity(b.pid), sig, ok)];
      if !ok {
        return b', [Result(b.pid, Failed, KernelRefused)];
      }
      if b'.stop.None? {
        b' := b'.(stop := Some(|stops|));
        stops := stops + [StopField(false, Unset)];
        stopBirths := stopBirths + [|trace| - 1];
      }
      var c := b'.stop.value;
      stops := stops[c := stops[c].(desiredStop := stop)];
      stops := stops[c := stops[c].(status := Applied)];
      rs := [Result(b.pid, Applied, Plain)];
    }

    method FreezeAllowed(cg: string) returns (allowed: bool)
      ensures allowed == FreezeGuard.FreezeSafety(cg, SelfCgroup(sg, ctrl.world))
    {
      var self := ctrl.ReadCgroupOf(sg.selfPid);
      allowed := FreezeGuard.FreezeSafety(cg, if self.Some? then self.value else "");
    }

    method FreezeBinding(b: Binding, freeze: bool, force: bool, dryRun: bool, handled: set<string>)
      returns (handled': set<string>, rs: seq<Result>)
      modifies ctrl, this`trace
      ensures Done(Cells(), b, rs) == ApplyFreeze(sg, old(Cells()), b, freeze, force, dryRun, handled)
      ensures handled' == HandledAfter(sg, old(ctrl.world), b, handled)
    {
      handled' := handled;
      if !sg.CheckPID(b.pid) {
        return handled', [Result(b.pid, Skipped, Protected)];
      }
      var cg := ctrl.ReadCgroupOf(b.pid);
      if cg.None? || cg.value == "" {
        return handled', [Result(b.pid, Unavailable, NoCgroup)];
      }
      if cg.value in handled' {
        assert handled + {cg.value} == handled;
        return handled', [Result(b.pid, Unchanged, AlreadyHandled)];
      }
      handled' := handled' + {cg.value};
      if freeze && !force {
        var allowed := FreezeAllowed(cg.value);
        if !allowed {
          return handled', [Result(b.pid, Skipped, UnsafeFreeze)];
        }
      }
      if dryRun {
        return handled', [Result(b.pid, Unchanged, WouldAct)];
      }
      ghost var self := ctrl.world.ReadCgroupOf(sg.selfPid);
      var ok := ctrl.FreezeCgroup(cg.value, freeze);
      trace := trace + [Froze(cg.value, freeze, force, self, ok)];
      if !ok {
        return handled', [Result(b.pid, Failed, KernelRefused)];
      }
      rs := [Result(b.pid, Applied, Plain)];
    }

    method ReconcileDriftBinding(b: Binding, desired: int, mode: DriftMode)
      requires InRange(Cells(), b) && b.nice.Some?
      modifies ctrl, this`nices, this`trace
      ensures Cells() == ReconcileDrift(old(Cells()), b, b.nice.value, desired, mode)
    {
      var c := b.nice.value;
      var same := Revalidate(b);
      if !same {
        nices := nices[c := nices[c].(status := Stale)];
        return;
      }
      var obs := ctrl.GetNice(b.pid);
      if obs.None? {
        nices := nices[c := nices[c].(status := Vanished)];
        return;
      }
      nices := nices[c := nices[c].(observed := obs.value)];
      if obs.value == desired {
        nices := nices[c := nices[c].(status := Applied)];
        return;
      }
      match mode
      case Reapply =>
        var ok := WriteNice(b, c, desired);
        if ok {
          nices := nices[c := nices[c].(desired := desired)];
          ObserveNice(b.pid, c);
        }
      case Adopt =>
        nices := nices[c := nices[c].(desired := obs.value)];
        nices := nices[c := nices[c].(status := Applied)];
      case Ignore =>
        nices := nices[c := nices[c].(status := Applied)];
      case ReportDrift =>
        nices := nices[c := nices[c].(status := Drifted)];
    }

    // ---- Loops over a target's bindings ----

    method PutBinding(i: nat, k: nat, b: Binding)
      requires i < |targets| && k < |targets[i].bindings|
      modifies this`targets
      ensures targets == old(targets)[i := old(targets)[i].(bindings := old(targets)[i].bindings[k := b])]
    {
      targets := targets[i := targets[i].(bindings := targets[i].bindings[k := b])];
    }

    /** Loop state: the first `k` bindings of target `i` are done, as a pass over them says. */
    ghost predicate At(ts: seq<Target>, s: Sys, d: Deed, i: nat, k: nat)
      reads this, ctrl
    {
      && i < |ts| && k <= |ts[i].bindings|
      && |Each(sg, s, d, ts[i].bindings[..k]).bindings| == k
      && targets == Halfway(ts, i, Each(sg, s, d, ts[i].bindings[..k]), k)
      && Cells() == Each(sg, s, d, ts[i].bindings[..k]).sys
    }

    lemma AtStart(ts: seq<Target>, s: Sys, d: Deed, i: nat)
      requires i < |ts| && targets == ts && Cells() == s
      ensures At(ts, s, d, i, 0) && Each(sg, s, d, ts[i].bindings[..0]) == Pass(s, {}, [], [])
    {
      assert ts[i].bindings[..0] == [];
      assert [] + ts[i].bindings[0..] == ts[i].bindings;
      assert ts[i := ts[i].(bindings := ts[i].bindings)] == ts;
    }

    lemma AtHere(ts: seq<Target>, s: Sys, d: Deed, i: nat, k: nat)
      requires At(ts, s, d, i, k) && k < |ts[i].bindings|
      ensures i < |targets| && |targets[i].bindings| == |ts[i].bindings| && targets[i].bindings[k] == ts[i].bindings[k]
      ensures InRange(s, ts[i].bindings[k]) ==> InRange(Cells(), ts[i].bindings[k])
    {
      EachDenied(sg, s, d, ts[i].bindings[..k]);
    }

    /** One more binding: its deed has been done and the binding stored. */
    lemma AtNext(ts: seq<Target>, s: Sys, d: Deed, i: nat, k: nat, was: seq<Target>, r: Done)
      requires i < |ts| && k < |ts[i].bindings|
      requires var p := Each(sg, s, d, ts[i].bindings[..k]);
               && |p.bindings| == k && was == Halfway(ts, i, p, k)
               && r == Perform(sg, p.sys, p.handled, d, ts[i].bindings[k])
      requires Cells() == r.sys
      requires i < |was| && k < |was[i].bindings|
      requires targets == was[i := was[i].(bindings := was[i].bindings[k := r.binding])]
      ensures At(ts, s, d, i, k + 1)
    {
      EachNext(sg, s, d, ts[i].bindings, k);
      var p := Each(sg, s, d, ts[i].bindings[..k]);
      hide Perform, Each;
      assert (p.bindings + ts[i].bindings[k..])[k := r.binding] == (p.bindings + [r.binding]) + ts[i].bindings[k + 1..];
    }

    lemma AtEnd(ts: seq<Target>, s: Sys, d: Deed, i: nat, results: seq<Result>)
      requires i < |ts| && At(ts, s, d, i, |ts[i].bindings|)
      requires results == Each(sg, s, d, ts[i].bindings[..|ts[i].bindings|]).results
      ensures (Abs(), results) == OnTarget(sg, State(ts, generation, s), i, d)
    {
      var bs := ts[i].bindings;
      hide Each;
      assert bs[..|bs|] == bs && bs[|bs|..] == [];
      var p := Each(sg, s, d, bs);
      assert p.bindings + [] == p.bindings;
    }

    /** A binding whose pointers stay needs no storing. */
    lemma Stays(ts: seq<Target>, i: nat, k: nat)
      requires i < |ts| && k < |ts[i].bindings|
      ensures ts == ts[i := ts[i].(bindings := ts[i].bindings[k := ts[i].bindings[k]])]
    {
      assert ts[i].bindings == ts[i].bindings[k := ts[i].bindings[k]];
    }

    /** Apply a nice value to every binding of target `i`. */
    method NiceAll(i: nat, nice: int, dryRun: bool) returns (results: seq<Result>)
      requires Valid() && i < |targets|
      modifies this, ctrl
      ensures (Abs(), results) == OnTarget(sg, old(Abs()), i, DoNice(nice, dryRun))
    {
      hide Each, StateInv, InRange, OnTarget, Halfway;
      ghost var ts, s, gen, d := targets, Cells(), generation, DoNice(nice, dryRun);
      AllInRange(sg, Abs(), i);
      results := [];
      AtStart(ts, s, d, i);
      var k := 0;
      while k < |targets[i].bindings|
        invariant i < |targets| && k <= |ts[i].bindings| == |targets[i].bindings|
        invariant At(ts, s, d, i, k) && generation == gen
        invariant results == Each(sg, s, d, ts[i].bindings[..k]).results
      {
        AtHere(ts, s, d, i, k);
        EachNext(sg, s, d, ts[i].bindings, k);
        ghost var was := targets;
        var b, rs := ApplyNiceBinding(targets[i].bindings[k], nice, dryRun);
        PutBinding(i, k, b);
        AtNext(ts, s, d, i, k, was, Done(Cells(), b, rs));
        results := results + rs;
        k := k + 1;
      }
      AtEnd(ts, s, d, i, results);
    }

    method SetNice(target: string, nice: int, dryRun: bool) returns (out: Outcome)
      requires Valid()
      modifies this, ctrl
      ensures Valid() && (Abs(), out) == Operations.SetNice(sg, old(Abs()), target, nice, dryRun)
    {
      hide StateInv, OnTarget;
      ghost var st := Abs();
      ApplyKeeps(sg, st, OpSetNice(target, nice, dryRun));
      var found := Find(target);
      if found.None? {
        return NotFound;
      }
      var i := found.value;
      targets := targets[i := targets[i].(desiredNice := Some(nice))];
      WithTargetKeeps(sg, st, i, st.targets[i].(desiredNice := Some(nice)));
      AdvancesInv(sg, st, Abs());
      var results := NiceAll(i, nice, dryRun);
      out := Ran(results);
    }

    /** Deliver the stop or continue to every binding of target `i`. */
    method StopAll(i: nat, stop: bool, sig: Signal, dryRun: bool) returns (results: seq<Result>)
      requires Valid() && i < |targets| && sig == if stop then SigStop else SigCont
      modifies this, ctrl
      ensures (Abs(), results) == OnTarget(sg, old(Abs()), i, DoStop(stop, dryRun))
    {
      hide Each, StateInv, InRange, OnTarget, Halfway;
      ghost var ts, s, gen, d := targets, Cells(), generation, DoStop(stop, dryRun);
      AllInRange(sg, Abs(), i);
      results := [];
      AtStart(ts, s, d, i);
      var k := 0;
      while k < |targets[i].bindings|
        invariant i < |targets| && k <= |ts[i].bindings| == |targets[i].bindings|
        invariant At(ts, s, d, i, k) && generation == gen
        invariant results == Each(sg, s, d, ts[i].bindings[..k]).results
      {
        AtHere(ts, s, d, i, k);
        EachNext(sg, s, d, ts[i].bindings, k);
        ghost var was := targets;
        var b, rs := ApplyStopBinding(targets[i].bindings[k], stop, sig, dryRun);
        PutBinding(i, k, b);
        AtNext(ts, s, d, i, k, was, Done(Cells(), b, rs));
        results := results + rs;
        k := k + 1;
      }
      AtEnd(ts, s, d, i, results);
    }

    method SetStop(target: string, stop: bool, dryRun: bool) returns (out: Outcome)
      requires Valid()
      modifies this, ctrl
      ensures Valid() && (Abs(), out) == Operations.SetStop(sg, old(Abs()), target, stop, dryRun)
    {
      hide StateInv, OnTarget;
      ghost var st := Abs();
      ApplyKeeps(sg, st, OpSetStop(target, stop, dryRun));
      var found := Find(target);
      if found.None? {
        return NotFound;
      }
      var i := found.value;
      if !dryRun {
        targets := targets[i := targets[i].(desiredStop := Some(stop))];
        WithTargetKeeps(sg, st, i, st.targets[i].(desiredStop := Some(stop)));
        AdvancesInv(sg, st, Abs());
      }
      var sig := if stop then SigStop else SigCont;
      var results := StopAll(i, stop, sig, dryRun);
      out := Ran(results);
    }

    /** Freeze or thaw the cgroups behind target `i`, each once. */
    method FreezeAll(i: nat, freeze: bool, force: bool, dryRun: bool) returns (results: seq<Result>)
      requires i < |targets|
      modifies this, ctrl
      ensures (Abs(), results) == OnTarget(sg, old(Abs()), i, DoFreeze(freeze, force, dryRun))
    {
      hide Each, StateInv, InRange, OnTarget, Halfway;
      ghost var ts, s, gen, d := targets, Cells(), generation, DoFreeze(freeze, force, dryRun);
      results := [];
      var handled: set<string> := {};
      AtStart(ts, s, d, i);
      var k := 0;
      while k < |targets[i].bindings|
        invariant i < |targets| && k <= |ts[i].bindings| == |targets[i].bindings|
        invariant At(ts, s, d, i, k) && generation == gen
        invariant results == Each(sg, s, d, ts[i].bindings[..k]).results
        invariant handled == Each(sg, s, d, ts[i].bindings[..k]).handled
      {
        AtHere(ts, s, d, i, k);
        EachNext(sg, s, d, ts[i].bindings, k);
        ghost var was := targets;
        var h, rs := FreezeBinding(targets[i].bindings[k], freeze, force, dryRun, handled);
        handled := h;
        Stays(was, i, k);
        AtNext(ts, s, d, i, k, was, Done(Cells(), ts[i].bindings[k], rs));
        results := results + rs;
        k := k + 1;
      }
      AtEnd(ts, s, d, i, results);
    }

    method SetFreeze(target: string, freeze: bool, force: bool, dryRun: bool) returns (out: Outcome)
      requires Valid()
      modifies this, ctrl
      ensures Valid() && (Abs(), out) == Operations.SetFreeze(sg, old(Abs()), target, freeze, force, dryRun)
    {
      hide StateInv, OnTarget;
      ghost var st := Abs();
      ApplyKeeps(sg, st, OpSetFreeze(target, freeze, force, dryRun));
      var found := Find(target);
      if found.None? {
        return NotFound;
      }
      var i := found.value;
      if !dryRun {
        targets := targets[i := targets[i].(desiredFreeze := Some(freeze))];
      }
      var results := FreezeAll(i, freeze, force, dryRun);
      out := Ran(results);
    }

    /** Put the captured nice value back on every binding of target `i`. */
    method RestoreNiceAll(i: nat, dryRun: bool) returns (results: seq<Result>)
      requires Valid() && i < |targets|
      modifies this, ctrl
      ensures (Abs(), results) == OnTarget(sg, old(Abs()), i, DoRestoreNice(dryRun))
    {
      hide Each, StateInv, InRange, OnTarget, Halfway;
      ghost var ts, s, gen, d := targets, Cells(), generation, DoRestoreNice(dryRun);
      AllInRange(sg, Abs(), i);
      results := [];
      AtStart(ts, s, d, i);
      var k := 0;
      while k < |targets[i].bindings|
        invariant i < |targets| && k <= |ts[i].bindings| == |targets[i].bindings|
        invariant At(ts, s, d, i, k) && generation == gen
        invariant results == Each(sg, s, d, ts[i].bindings[..k]).results
      {
        AtHere(ts, s, d, i, k);
        EachNext(sg, s, d, ts[i].bindings, k);
        ghost var was := targets;
        var rs := RestoreNiceBinding(targets[i].bindings[k], false, dryRun);
        Stays(was, i, k);
        AtNext(ts, s, d, i, k, was, Done(Cells(), ts[i].bindings[k], rs));
        results := results + rs;
        k := k + 1;
      }
      AtEnd(ts, s, d, i, results);
    }

    method RestoreNice(target: string, dryRun: bool) returns (out: Outcome)
      requires Valid()
      modifies this, ctrl
      ensures Valid() && (Abs(), out) == Operations.RestoreNiceOf(sg, old(Abs()), target, dryRun)
    {
      hide StateInv, OnTarget;
      ghost var st := Abs();
      ApplyKeeps(sg, st, OpRestoreNice(target, dryRun));
      var found := Find(target);
      if found.None? {
        return NotFound;
      }
      var i := found.value;
      var results := RestoreNiceAll(i, dryRun);
      OnTargetShape(sg, st, i, DoRestoreNice(dryRun));
      if !dryRun {
        targets := targets[i := targets[i].(desiredNice := None)];
      }
      out := Ran(results);
    }

    /** Nice, then stop, of every binding of target `i`. */
    method RestoreAll(i: nat, force: bool, dryRun: bool) returns (results: seq<Result>)
      requires Valid() && i < |targets|
      modifies this, ctrl
      ensures (Abs(), results) == OnTarget(sg, old(Abs()), i, DoRestore(force, dryRun))
    {
      hide Each, StateInv, InRange, OnTarget, Halfway;
      ghost var ts, s, gen, d := targets, Cells(), generation, DoRestore(force, dryRun);
      AllInRange(sg, Abs(), i);
      results := [];
      AtStart(ts, s, d, i);
      var k := 0;
      while k < |targets[i].bindings|
        invariant i < |targets| && k <= |ts[i].bindings| == |targets[i].bindings|
        invariant At(ts, s, d, i, k) && generation == gen
        invariant results == Each(sg, s, d, ts[i].bindings[..k]).results
      {
        AtHere(ts, s, d, i, k);
        EachNext(sg, s, d, ts[i].bindings, k);
        ghost var was, here := targets, Cells();
        var b := targets[i].bindings[k];
        var rs := RestoreNiceBinding(b, force, dryRun);
        PerformInRange(sg, here, {}, DoRestoreNice(dryRun), b);
        NiceKeepsStop(here, b, force, dryRun);
        var rs' := RestoreStopBinding(b, dryRun);
        Stays(was, i, k);
        AtNext(ts, s, d, i, k, was, Done(Cells(), b, rs + rs'));
        results := results + (rs + rs');
        k := k + 1;
      }
      AtEnd(ts, s, d, i, results);
    }

    lemma NiceKeepsStop(s: Sys, b: Binding, force: bool, dryRun: bool)
      requires InRange(s, b)
      ensures InRange(Control.RestoreNice(s, b, force, dryRun).sys, b)
    {
    }

    method Restore(target: string, force: bool, dryRun: bool) returns (out: Outcome)
      requires Valid()
      modifies this, ctrl
      ensures Valid() && (Abs(), out) == Operations.Restore(sg, old(Abs()), target, force, dryRun)
    {
      hide StateInv, OnTarget;
      ghost var st := Abs();
      var found := Find(target);
      if found.None? {
        return NotFound;
      }
      var i := found.value;
      var results := [];
      if targets[i].desiredFreeze.Some? && targets[i].desiredFreeze.value {
        results := FreezeAll(i, false, false, dryRun);
      }
      ThawKeeps(sg, st, i, dryRun);
      assert (Abs(), results) == ThawFirst(sg, st, i, dryRun);
      var rs := RestoreAll(i, force, dryRun);
      results := results + rs;
      OnTargetShape(sg, ThawFirst(sg, st, i, dryRun).0, i, DoRestore(force, dryRun));
      if !dryRun {
        targets := targets[i := targets[i].(desiredNice := None, desiredStop := None, desiredFreeze := None)];
      }
      ApplyKeeps(sg, st, OpRestore(target, force, dryRun));
      out := Ran(results);
    }

    method Signal(instances: seq<Instance>, sig: Signal, dryRun: bool) returns (out: Outcome)
      requires Valid()
      modifies this`trace
      ensures Valid() && (Abs(), out) == SignalInstances(sg, old(Abs()), instances, sig, dryRun)
    {
      hide StateInv;
      ghost var st, s := Abs(), Cells();
      var results := [];
      var k := 0;
      while k < |instances|
        invariant k <= |instances|
        invariant (Cells(), results) == SignalAll(sg, s, instances[..k], sig, dryRun)
      {
        assert instances[..k + 1][..k] == instances[..k];
        var inst := instances[k];
        k := k + 1;
        if !sg.CheckPID(inst.pid) {
          results := results + [Result(inst.pid, Skipped, Protected)];
          continue;
        }
        var b := Binding(inst.id, inst.pid, inst.name, None, None);
        var id := ctrl.ReadIdentity(inst.pid);
        if id.None? || !id.value.SameProcess(inst.id) {
          results := results + [Result(inst.pid, Stale, IdentityChanged)];
          continue;
        }
        if dryRun {
          results := results + [Result(inst.pid, Unchanged, WouldAct)];
          continue;
        }
        var ok := SendSignal(b, None, sig);
        if !ok {
          results := results + [Result(inst.pid, Failed, KernelRefused)];
          continue;
        }
        results := results + [Result(inst.pid, Applied, Plain)];
      }
      assert instances[..k] == instances;
      ApplyKeeps(sg, st, OpSignal(instances, sig, dryRun));
      out := Ran(results);
    }

    // ---- Membership ----

    method IndexByKey(bs: seq<Binding>) returns (prev: map<string, Binding>)
      ensures prev == ByKey(bs)
    {
      prev := map[];
      var k := 0;
      while k < |bs|
        invariant k <= |bs| && prev == ByKey(bs[..k])
      {
        assert bs[..k + 1][..k] == bs[..k];
        prev := prev[bs[k].id.Key() := bs[k]];
        k := k + 1;
      }
      assert bs[..k] == bs;
    }

    method BindNext(prev: map<string, Binding>, instances: seq<Instance>) returns (next: seq<Binding>)
      ensures next == BindAll(prev, instances)
    {
      next := [];
      var k := 0;
      while k < |instances|
        invariant k <= |instances| && |next| == k
        invariant forall j :: 0 <= j < k ==> next[j] == BindOne(prev, instances[j])
      {
        var inst := instances[k];
        var b := Binding(inst.id, inst.pid, inst.name, None, None);
        var key := inst.id.Key();
        if key in prev {
          b := b.(nice := prev[key].nice, stop := prev[key].stop);
          if b.name == "" {
            b := b.(name := prev[key].name);
          }
        }
        next := next + [b];
        k := k + 1;
      }
    }

    method BindInstances(i: nat, instances: seq<Instance>)
      requires i < |targets|
      modifies this`targets, this`generation
      ensures Abs() == Operations.BindInstances(old(Abs()), i, instances)
    {
      hide ByKey, BindAll;
      var prev := IndexByKey(targets[i].bindings);
      var next := BindNext(prev, instances);
      targets := targets[i := targets[i].(bindings := next, active := |next| > 0)];
      generation := generation + 1;
    }

    method SnapshotIds(instances: seq<Instance>) returns (ids: seq<ProcessId>)
      ensures ids == Ids(instances)
    {
      ids := [];
      var k := 0;
      while k < |instances|
        invariant k <= |instances| && |ids| == k
        invariant forall j :: 0 <= j < k ==> ids[j] == instances[j].id
      {
        ids := ids + [instances[k].id];
        k := k + 1;
      }
    }

    method Manage(name: string, mode: Mode, selector: string, instances: seq<Instance>)
      requires Valid()
      modifies this`targets, this`generation
      ensures Valid() && Abs() == Operations.Manage(old(Abs()), name, mode, selector, instances)
    {
      hide StateInv, Bound, Ids;
      ghost var st := Abs();
      ApplyKeeps(sg, st, OpManage(name, mode, selector, instances));
      var found := Find(name);
      var i := |targets|;
      match found {
        case Some(at) => i := at;
        case None => targets := targets + [NewTarget(name, mode, selector)];
      }
      ghost var before := Abs();
      targets := targets[i := targets[i].(mode := mode)];
      if mode == Snapshot {
        var ids := SnapshotIds(instances);
        targets := targets[i := targets[i].(snapshotIds := ids)];
      }
      BindInstances(i, instances);
      assert Abs() == ManageAt(before, i, mode, instances);
    }

    method Rebind(target: string, instances: seq<Instance>) returns (out: Outcome)
      requires Valid()
      modifies this`targets, this`generation
      ensures Valid() && (Abs(), out) == Operations.Rebind(old(Abs()), target, instances)
    {
      hide StateInv;
      ghost var st := Abs();
      ApplyKeeps(sg, st, OpRebind(target, instances));
      var found := Find(target);
      if found.None? {
        return NotFound;
      }
      if targets[found.value].mode == Snapshot {
        return Ran([]);
      }
      BindInstances(found.value, instances);
      out := Ran([]);
    }

    method Unmanage(target: string) returns (out: Outcome)
      requires Valid()
      modifies this`targets
      ensures Valid() && (Abs(), out) == Operations.Unmanage(old(Abs()), target)
    {
      hide StateInv;
      ghost var st := Abs();
      ApplyKeeps(sg, st, OpUnmanage(target));
      var i := 0;
      while i < |targets|
        invariant 0 <= i <= |targets| && Abs() == st
        invariant Operations.Find(targets, target) == FindFrom(targets, target, i)
      {
        if targets[i].id == target || targets[i].name == target {
          targets := targets[..i] + targets[i + 1..];
          return Ran([]);
        }
        i := i + 1;
      }
      return NotFound;
    }

    // ---- Policies ----

    method SetPolicies(policies: seq<Policy>)
      requires Valid()
      modifies this`targets
      ensures Valid() && Abs() == Operations.SetPolicies(old(Abs()), policies)
    {
      hide StateInv;
      ghost var st := Abs();
      var prev: map<string, Target> := map[];
      var kept: seq<Target> := [];
      var k := 0;
      while k < |targets|
        invariant k <= |targets| && prev == ConfigByName(targets[..k]) && kept == RuntimeOnly(targets[..k])
      {
        assert targets[..k + 1][..k] == targets[..k];
        var t := targets[k];
        k := k + 1;
        if t.origin == Config {
          prev := prev[t.name := t];
          continue;
        }
        kept := kept + [t];
      }
      assert targets[..k] == targets;
      ghost var runtime := kept;
      k := 0;
      while k < |policies|
        invariant k <= |policies| && kept == runtime + PolicyTargets(prev, policies[..k])
      {
        var p := policies[k];
        var t := Target("config:" + p.name, p.name, Config, Follow, p.selector, [],
                        p.nice, p.stop, None, NormalizeDrift(p.onDrift), [], false);
        if p.name in prev {
          t := t.(bindings := prev[p.name].bindings);
        }
        assert PolicyTargets(prev, policies[..k + 1]) == PolicyTargets(prev, policies[..k]) + [t];
        kept := kept + [t];
        k := k + 1;
      }
      assert policies[..k] == policies;
      targets := kept;
      ApplyKeeps(sg, st, OpSetPolicies(policies));
    }

    method ReconcileNice(i: nat, desired: int, mode: DriftMode)
      requires Valid() && i < |targets|
      modifies this, ctrl
      ensures Abs() == OnTarget(sg, old(Abs()), i, DoReconcile(desired, mode)).0
    {
      hide Each, StateInv, InRange, OnTarget, Halfway;
      ghost var ts, s, gen, d := targets, Cells(), generation, DoReconcile(desired, mode);
      AllInRange(sg, Abs(), i);
      ghost var results := [];
      AtStart(ts, s, d, i);
      var k := 0;
      while k < |targets[i].bindings|
        invariant i < |targets| && k <= |ts[i].bindings| == |targets[i].bindings|
        invariant At(ts, s, d, i, k) && generation == gen
        invariant results == Each(sg, s, d, ts[i].bindings[..k]).results
      {
        AtHere(ts, s, d, i, k);
        EachNext(sg, s, d, ts[i].bindings, k);
        ghost var was := targets;
        var b := targets[i].bindings[k];
        if b.nice.None? {
          var b', rs := ApplyNiceBinding(b, desired, false);
          PutBinding(i, k, b');
          AtNext(ts, s, d, i, k, was, Done(Cells(), b', rs));
          results := results + rs;
        } else {
          ReconcileDriftBinding(b, desired, mode);
          Stays(was, i, k);
          AtNext(ts, s, d, i, k, was, Done(Cells(), b, []));
        }
        k := k + 1;
      }
      AtEnd(ts, s, d, i, results);
    }

    method Reconcile(resolve: Resolver)
      requires Valid()
      modifies this, ctrl
      ensures Valid() && Abs() == Operations.Reconcile(sg, old(Abs()), resolve)
    {
      hide StateInv, OnTarget;
      ghost var st := Abs();
      var i := 0;
      while i < |targets|
        invariant Valid() && i <= |targets| == |st.targets| && Abs() == ReconcileUpTo(sg, st, i, resolve)
      {
        ghost var here := Abs();
        ReconcileOneKeeps(sg, here, i, resolve);
        AdvancesInv(sg, here, ReconcileOne(sg, here, i, resolve));
        var t := targets[i];
        i := i + 1;
        if t.origin != Config {
          continue;
        }
        if t.selector !in resolve {
          continue;
        }
        BindInstancesKeeps(sg, here, i - 1, resolve[t.selector]);
        AdvancesInv(sg, here, Operations.BindInstances(here, i - 1, resolve[t.selector]));
        BindInstances(i - 1, resolve[t.selector]);
        if targets[i - 1].desiredNice.Some? {
          ReconcileNice(i - 1, targets[i - 1].desiredNice.value, targets[i - 1].onDrift);
        }
      }
    }

    /** State saved under another boot: the targets survive, their bindings do not. */
    method LoadOldBoot(saved: seq<Target>, savedGeneration: nat)
      requires Valid()
      modifies this`targets, this`generation
      ensures Valid() && Abs() == AdoptOldBoot(old(Abs()), saved, savedGeneration)
    {
      hide StateInv;
      ghost var st := Abs();
      var ts := saved;
      var k := 0;
      while k < |ts|
        invariant k <= |ts| == |saved|
        invariant forall j :: 0 <= j < k ==> ts[j] == saved[j].(bindings := [], active := false)
        invariant forall j :: k <= j < |saved| ==> ts[j] == saved[j]
      {
        ts := ts[k := ts[k].(bindings := [], active := false)];
        k := k + 1;
      }
      assert ts == Unbound(saved);
      targets, generation := ts, savedGeneration;
      ApplyKeeps(sg, st, OpAdoptOldBoot(saved, savedGeneration));
    }
  }
}
