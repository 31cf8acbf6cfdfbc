/**
 What renicing and restoring do to processes: the exact effect on every binding of a target, and
 the round trip of the two.
 */
module ControlRestore {
  import opened Options
  import opened Identity
  import opened Kernel
  import opened Control
  import opened Operations
  import opened ControlSafety
  import opened ControlRuns
  import opened ControlFrame

  function NiceOf(w: World, pid: int): Option<int> {
    if pid in w.procs then Some(w.procs[pid].nice) else None
  }

  // ---- One binding inside a pass ----

  ghost predicate InRange(s: Sys, b: Binding) {
    (b.nice.Some? ==> b.nice.value < |s.nices|) && (b.stop.Some? ==> b.stop.value < |s.stops|)
  }

  lemma PerformInRange(sg: Safeguards, s: Sys, handled: set<string>, d: Deed, b: Binding)
    requires InRange(s, b)
    ensures var r := Perform(sg, s, handled, d, b);
            InRange(r.sys, r.binding) && |s.nices| <= |r.sys.nices| && |s.stops| <= |r.sys.stops|
  {
    hide Perform;
    PerformFramed(sg, s, handled, d, b);
    PerformBinding(sg, s, handled, d, b);
  }

  /** A deed keeps the records a binding has and can only add new ones. */
  lemma PerformBinding(sg: Safeguards, s: Sys, handled: set<string>, d: Deed, b: Binding)
    ensures var r := Perform(sg, s, handled, d, b);
            && r.binding.id == b.id && r.binding.pid == b.pid
            && (r.binding.nice == b.nice || (b.nice.None? && r.binding.nice == Some(|s.nices|) && |s.nices| < |r.sys.nices|))
            && (r.binding.stop == b.stop || (b.stop.None? && r.binding.stop == Some(|s.stops|) && |s.stops| < |r.sys.stops|))
  {
    match d
    case DoNice(desired, dryRun) => ApplyNiceFramed(sg, s, b, desired, dryRun); NewRecord(sg, s, b, desired, dryRun);
    case DoRestoreNice(_) =>
    case DoRestore(_, _) =>
    case DoStop(_, _) =>
    case DoFreeze(_, _, _) =>
    case DoReconcile(desired, _) => NewRecord(sg, s, b, desired, false);
  }

  lemma NewRecord(sg: Safeguards, s: Sys, b: Binding, desired: int, dryRun: bool)
    ensures var r := ApplyNice(sg, s, b, desired, dryRun);
            && r.binding.stop == b.stop && r.binding.pid == b.pid && r.binding.id == b.id
            && (r.binding.nice == b.nice || (b.nice.None? && r.binding.nice == Some(|s.nices|) && |s.nices| < |r.sys.nices|))
  {
  }

  /** The same processes, under the same identities; only nice values may differ. */
  ghost predicate OnlyNices(w: World, w': World) {
    && w'.procs.Keys == w.procs.Keys
    && forall p :: p in w.procs ==> w'.procs[p] == w.procs[p].(nice := w'.procs[p].nice)
  }

  lemma {:induction false} EachDenied(sg: Safeguards, s: Sys, d: Deed, bs: seq<Binding>)
    ensures Each(sg, s, d, bs).sys.world.denied == s.world.denied
    ensures OnlyNices(s.world, Each(sg, s, d, bs).sys.world)
    ensures |s.nices| <= |Each(sg, s, d, bs).sys.nices| && |s.stops| <= |Each(sg, s, d, bs).sys.stops|
  {
    hide Perform, NextHandled;
    if bs != [] {
      var front := bs[..|bs| - 1];
      EachDenied(sg, s, d, front);
      var p := Each(sg, s, d, front);
      PerformFramed(sg, p.sys, p.handled, d, bs[|bs| - 1]);
    }
  }

  /** Binding `k` is acted on as if it were alone: nothing before it changes its view, nothing after it its outcome. */
  ghost predicate Alone(sg: Safeguards, s: Sys, d: Deed, bs: seq<Binding>, k: nat)
    requires k < |bs|
  {
    var before := Each(sg, s, d, bs[..k]);
    var r := Perform(sg, before.sys, before.handled, d, bs[k]);
    var after := Each(sg, s, d, bs);
    && SameView(sg, s, before.sys, bs[k])
    && before.sys.world.denied == s.world.denied
    && |s.nices| <= |before.sys.nices| && |s.stops| <= |before.sys.stops|
    && |after.bindings| == |bs| && after.bindings[k] == r.binding
    && SameView(sg, r.sys, after.sys, r.binding)
    && InRange(r.sys, r.binding) && InRange(after.sys, r.binding)
  }

  lemma AloneLast(sg: Safeguards, s: Sys, d: Deed, bs: seq<Binding>)
    requires Apart(s, bs) && bs != []
    ensures Alone(sg, s, d, bs, |bs| - 1)
  {
    var front, last := bs[..|bs| - 1], bs[|bs| - 1];
    assert bs == front + [last];
    assert InRange(s, last);
    hide Perform, NextHandled, SameView, Apart;
    SelfView(sg, s, last);
    EachLength(sg, s, d, front);
    EachKeepsView(sg, s, s, d, front, last);
    EachDenied(sg, s, d, front);
    var p := Each(sg, s, d, front);
    PerformInRange(sg, p.sys, p.handled, d, last);
    var r := Perform(sg, p.sys, p.handled, d, last);
    SelfView(sg, r.sys, r.binding);
  }

  lemma AloneThen(sg: Safeguards, s: Sys, d: Deed, bs: seq<Binding>, k: nat)
    requires Apart(s, bs) && k < |bs| - 1 && Alone(sg, s, d, bs[..|bs| - 1], k)
    ensures Alone(sg, s, d, bs, k)
  {
    var front, last := bs[..|bs| - 1], bs[|bs| - 1];
    assert front[..k] == bs[..k] && front[k] == bs[k];
    var before := Each(sg, s, d, bs[..k]);
    var r := Perform(sg, before.sys, before.handled, d, bs[k]);
    var p := Each(sg, s, d, front);
    assert last.pid != bs[k].pid && InRange(s, last);
    assert (bs[k].nice.Some? ==> bs[k].nice != last.nice) && (bs[k].stop.Some? ==> bs[k].stop != last.stop);
    hide Perform, NextHandled, SameView, Apart;
    PerformBinding(sg, before.sys, before.handled, d, bs[k]);
    PerformFramed(sg, p.sys, p.handled, d, last);
    FrameKeepsView(sg, r.sys, p.sys, Perform(sg, p.sys, p.handled, d, last).sys, last, r.binding);
  }

  lemma {:induction false} EachAlone(sg: Safeguards, s: Sys, d: Deed, bs: seq<Binding>, k: nat)
    requires Apart(s, bs) && k < |bs|
    ensures Alone(sg, s, d, bs, k)
  {
    if k == |bs| - 1 {
      AloneLast(sg, s, d, bs);
    } else {
      ApartFront(s, bs);
      EachAlone(sg, s, d, bs[..|bs| - 1], k);
      AloneThen(sg, s, d, bs, k);
    }
    hide Alone, Apart;
  }

  lemma {:induction false} EachLength(sg: Safeguards, s: Sys, d: Deed, bs: seq<Binding>)
    ensures |Each(sg, s, d, bs).bindings| == |bs|
  {
    hide Perform, NextHandled;
    if bs != [] {
      EachLength(sg, s, d, bs[..|bs| - 1]);
    }
  }

  // ---- Restoring ----

  /** The restore will write: same process, readable, not drifted or forced, and the kernel permits it. */
  predicate WillRestore(s: Sys, b: Binding, force: bool) {
    && b.nice.Some? && Revalidate(s.world, b)
    && var obs := s.world.GetNice(b.pid);
       && obs.Some? && (force || obs.value == s.Nice(b.nice.value).desired)
       && s.world.NiceAllowed(b.pid, s.Nice(b.nice.value).original)
  }

  function NiceAfterRestore(s: Sys, b: Binding, force: bool): Option<int> {
    if WillRestore(s, b, force) then Some(Clamp(s.Nice(b.nice.value).original)) else NiceOf(s.world, b.pid)
  }

  lemma PutBackNice(s: Sys, b: Binding, c: nat)
    requires s.world.NiceAllowed(b.pid, s.Nice(c).original)
    ensures NiceOf(PutBack(s, b, c).sys.world, b.pid) == Some(Clamp(s.Nice(c).original))
  {
  }

  lemma RestoreOne(sg: Safeguards, s: Sys, handled: set<string>, b: Binding, force: bool)
    ensures NiceOf(Perform(sg, s, handled, DoRestore(force, false), b).sys.world, b.pid) == NiceAfterRestore(s, b, force)
  {
    var n := RestoreNice(s, b, force, false);
    assert RestoreStop(n.sys, n.binding, false).sys.world == n.sys.world;
    if WillRestore(s, b, force) {
      PutBackNice(s, b, b.nice.value);
    }
  }

  lemma SameViewSameRestore(sg: Safeguards, s0: Sys, s: Sys, b: Binding, force: bool)
    requires SameView(sg, s0, s, b) && s.world.denied == s0.world.denied
    ensures NiceAfterRestore(s, b, force) == NiceAfterRestore(s0, b, force)
  {
  }

  lemma SameProcSameNice(sg: Safeguards, s0: Sys, s: Sys, b: Binding)
    requires SameView(sg, s0, s, b)
    ensures NiceOf(s0.world, b.pid) == NiceOf(s.world, b.pid)
  {
  }

  lemma RestorePass(sg: Safeguards, s: Sys, force: bool, bs: seq<Binding>, k: nat)
    requires Apart(s, bs) && k < |bs|
    ensures NiceOf(Each(sg, s, DoRestore(force, false), bs).sys.world, bs[k].pid) == NiceAfterRestore(s, bs[k], force)
  {
    hide Perform, Apart, SameView, Each, NiceAfterRestore, NiceOf;
    var d := DoRestore(force, false);
    EachAlone(sg, s, d, bs, k);
    var before := Each(sg, s, d, bs[..k]);
    var r := Perform(sg, before.sys, before.handled, d, bs[k]);
    PerformBinding(sg, before.sys, before.handled, d, bs[k]);
    RestoreOne(sg, before.sys, before.handled, bs[k], force);
    SameViewSameRestore(sg, s, before.sys, bs[k], force);
    SameProcSameNice(sg, r.sys, Each(sg, s, d, bs).sys, r.binding);
  }

  lemma ThawKeepsProcesses(sg: Safeguards, st: State, i: nat)
    requires i < |st.targets|
    ensures var st1 := ThawFirst(sg, st, i, false).0;
            SameProcesses(st.sys, st1.sys) && st1.targets[i].bindings == st.targets[i].bindings
  {
    FreezeTouchesCgroupsOnly(sg, st.sys, DoFreeze(false, false, false), st.targets[i].bindings);
    hide Each;
  }

  /**
   A real restore of a target, binding by binding: the process ends at the captured original exactly
   when the guards and the kernel let the write through, and otherwise keeps the nice value it had.
   */
  lemma RestoreEffect(sg: Safeguards, st: State, target: string, force: bool, i: nat, k: nat)
    requires StateInv(sg, st) && Find(st.targets, target) == Some(i) && i < |st.targets|
    requires EachOnce(st.targets[i].bindings) && k < |st.targets[i].bindings|
    ensures var b := st.targets[i].bindings[k];
            NiceOf(Restore(sg, st, target, force, false).0.sys.world, b.pid) ==
            if WillRestore(st.sys, b, force) then Some(st.sys.Nice(b.nice.value).original) else NiceOf(st.sys.world, b.pid)
  {
    var bs := st.targets[i].bindings;
    OnceIsApart(sg, st.sys, bs);
    assert BindingInv(sg, st.sys, bs[k]);
    OriginalNotClamped(sg, st.sys, bs[k]);
    hide StateInv, Each, Apart, SameView;
    ThawKeepsProcesses(sg, st, i);
    var st1 := ThawFirst(sg, st, i, false).0;
    SameProcessesSameView(sg, st.sys, st1.sys, bs);
    SameViewSameRestore(sg, st.sys, st1.sys, bs[k], force);
    hide ThawFirst;
    RestorePass(sg, st1.sys, force, bs, k);
  }

  lemma OriginalNotClamped(sg: Safeguards, s: Sys, b: Binding)
    requires Inv(sg, s) && BindingInv(sg, s, b)
    ensures b.nice.Some? ==> Clamp(s.Nice(b.nice.value).original) == s.Nice(b.nice.value).original
  {
  }

  // ---- Renicing, and the round trip ----

  function OldNice(w: World, pid: int): int {
    match w.GetNice(pid)
    case Some(n) => n
    case None => 0
  }

  predicate WillTry(sg: Safeguards, s: Sys, b: Binding) {
    sg.CheckPID(b.pid) && Revalidate(s.world, b) && (b.nice.Some? || s.world.GetNice(b.pid).Some?)
  }

  /** What renicing an uncaptured binding leaves: the kernel's value and the new record. */
  lemma ReniceOne(sg: Safeguards, s: Sys, handled: set<string>, b: Binding, n: int)
    requires b.nice.None?
    ensures var r := Perform(sg, s, handled, DoNice(n, false), b);
            if WillTry(sg, s, b) then
              && r.binding.nice == Some(|s.nices|) && |s.nices| < |r.sys.nices|
              && r.sys.nices[|s.nices|].original == OldNice(s.world, b.pid)
              && r.sys.nices[|s.nices|].desired == n
              && NiceOf(r.sys.world, b.pid) ==
                 if s.world.NiceAllowed(b.pid, n) then Some(Clamp(n)) else NiceOf(s.world, b.pid)
            else
              r.binding.nice.None? && NiceOf(r.sys.world, b.pid) == NiceOf(s.world, b.pid)
  {
    if WillTry(sg, s, b) {
      var orig := s.world.GetNice(b.pid).value;
      PushOutcome(Capture(s, b, orig), b.(nice := Some(|s.nices|)), |s.nices|, n);
    }
  }

  lemma PushOutcome(s: Sys, b: Binding, c: nat, n: int)
    requires c < |s.nices|
    ensures var r := PushNice(s, b, c, n).sys;
            && |r.nices| == |s.nices| && r.nices[c].original == s.nices[c].original && r.nices[c].desired == n
            && NiceOf(r.world, b.pid) == if s.world.NiceAllowed(b.pid, n) then Some(Clamp(n)) else NiceOf(s.world, b.pid)
  {
  }

  lemma SameViewSameTry(sg: Safeguards, s0: Sys, s: Sys, b: Binding, n: int)
    requires SameView(sg, s0, s, b) && s.world.denied == s0.world.denied
    ensures WillTry(sg, s, b) == WillTry(sg, s0, b) && Revalidate(s.world, b) == Revalidate(s0.world, b)
    ensures s.world.NiceAllowed(b.pid, n) == s0.world.NiceAllowed(b.pid, n)
    ensures s.world.GetNice(b.pid) == s0.world.GetNice(b.pid)
  {
  }

  /** What a renice of an uncaptured binding leaves. */
  ghost predicate Reniced(sg: Safeguards, s: Sys, s': Sys, b: Binding, b': Binding, n: int) {
    && b'.pid == b.pid && b'.id == b.id
    && s'.world.denied == s.world.denied && OnlyNices(s.world, s'.world)
    && NiceOf(s'.world, b.pid) ==
       (if WillTry(sg, s, b) && s.world.NiceAllowed(b.pid, n) then Some(Clamp(n)) else NiceOf(s.world, b.pid))
    && (!WillTry(sg, s, b) ==> b'.nice.None?)
    && (WillTry(sg, s, b) ==>
         && b'.nice.Some?
         && s'.Nice(b'.nice.value).original == OldNice(s.world, b.pid)
         && s'.Nice(b'.nice.value).desired == n)
  }

  lemma {:induction false} RenicePass(sg: Safeguards, s: Sys, n: int, bs: seq<Binding>, k: nat)
    requires Apart(s, bs) && k < |bs| && bs[k].nice.None?
    ensures var p := Each(sg, s, DoNice(n, false), bs);
            |p.bindings| == |bs| && Reniced(sg, s, p.sys, bs[k], p.bindings[k], n)
  {
    hide Perform, Apart, Each, NiceOf, WillTry;
    var d, b := DoNice(n, false), bs[k];
    EachAlone(sg, s, d, bs, k);
    EachDenied(sg, s, d, bs);
    var before := Each(sg, s, d, bs[..k]);
    var r := Perform(sg, before.sys, before.handled, d, b);
    var after := Each(sg, s, d, bs);
    PerformBinding(sg, before.sys, before.handled, d, b);
    ReniceOne(sg, before.sys, before.handled, b, n);
    SameViewSameTry(sg, s, before.sys, b, n);
    SameProcSameNice(sg, s, before.sys, b);
    SameProcSameNice(sg, r.sys, after.sys, r.binding);
    assert r.binding.nice.Some? ==> after.sys.Nice(r.binding.nice.value) == r.sys.Nice(r.binding.nice.value);
  }

  lemma {:induction false} FindSame(ts: seq<Target>, ts': seq<Target>, name: string, i: nat)
    requires |ts| == |ts'| && i <= |ts|
    requires forall j :: 0 <= j < |ts| ==> ts'[j].id == ts[j].id && ts'[j].name == ts[j].name
    ensures FindFrom(ts, name, i) == FindFrom(ts', name, i)
    decreases |ts| - i
  {
    if i < |ts| {
      FindSame(ts, ts', name, i + 1);
    }
  }

  /** Whether a renice followed by an unforced restore gives the process its old nice value back. */
  predicate RoundTrips(sg: Safeguards, s: Sys, b: Binding, n: int) {
    || !WillTry(sg, s, b)
    || !s.world.NiceAllowed(b.pid, n)
    || Some(Clamp(n)) == s.world.GetNice(b.pid)
    || (Clamp(n) == n && s.world.NiceAllowed(b.pid, OldNice(s.world, b.pid)))
  }

  lemma RestoreAfterRenice(sg: Safeguards, s: Sys, s': Sys, b: Binding, b': Binding, n: int)
    requires b.nice.None? && Reniced(sg, s, s', b, b', n)
    ensures var final := if WillRestore(s', b', false) then Some(s'.Nice(b'.nice.value).original) else NiceOf(s'.world, b.pid);
            final == NiceOf(s.world, b.pid) <==> RoundTrips(sg, s, b, n)
  {
  }

  lemma SetNiceTargets(sg: Safeguards, st: State, target: string, n: int, i: nat)
    requires Find(st.targets, target) == Some(i) && i < |st.targets|
    ensures var st1 := SetNice(sg, st, target, n, false).0;
            var p := Each(sg, st.sys, DoNice(n, false), st.targets[i].bindings);
            && st1.sys == p.sys && Find(st1.targets, target) == Some(i)
            && i < |st1.targets| && st1.targets[i].bindings == p.bindings
  {
    hide Each;
    FindSame(st.targets, SetNice(sg, st, target, n, false).0.targets, target, 0);
  }

  lemma SameBindingsOnce(bs: seq<Binding>, bs': seq<Binding>)
    requires EachOnce(bs) && SameBindings(bs, bs')
    ensures EachOnce(bs')
  {
  }

  lemma SetNiceKeeps(sg: Safeguards, st: State, target: string, n: int)
    requires StateInv(sg, st)
    ensures StateInv(sg, SetNice(sg, st, target, n, false).0)
  {
    ApplyKeeps(sg, st, OpSetNice(target, n, false));
    hide StateInv, SetNice;
  }

  lemma SetNiceIsPass(sg: Safeguards, st: State, target: string, n: int, i: nat, k: nat)
    requires StateInv(sg, st) && Find(st.targets, target) == Some(i) && i < |st.targets|
    requires EachOnce(st.targets[i].bindings) && k < |st.targets[i].bindings| && st.targets[i].bindings[k].nice.None?
    ensures var st1 := SetNice(sg, st, target, n, false).0;
            && StateInv(sg, st1) && Find(st1.targets, target) == Some(i) && i < |st1.targets|
            && EachOnce(st1.targets[i].bindings) && k < |st1.targets[i].bindings|
            && Reniced(sg, st.sys, st1.sys, st.targets[i].bindings[k], st1.targets[i].bindings[k], n)
  {
    var bs := st.targets[i].bindings;
    OnceIsApart(sg, st.sys, bs);
    EachKeeps(sg, st.sys, DoNice(n, false), bs);
    hide Apart, Inv, BindingsInv, TargetsInv, Grows, Reniced, Each, EachOnce, SetNice, Find, Apply;
    SetNiceKeeps(sg, st, target, n);
    SetNiceTargets(sg, st, target, n, i);
    SameBindingsOnce(bs, Each(sg, st.sys, DoNice(n, false), bs).bindings);
    RenicePass(sg, st.sys, n, bs, k);
    hide SameBindings;
  }

  /**
   Renice a process not controlled before, then restore it without force. It gets its old value back
   exactly when the renice did not happen or changed nothing, or asked for a value in -20..19 and the
   kernel permits the old one again. A value out of range is clamped by the kernel, reads back as
   drift, and is then kept.
   */
  lemma NiceThenRestore(sg: Safeguards, st: State, target: string, n: int, i: nat, k: nat)
    requires StateInv(sg, st) && Find(st.targets, target) == Some(i) && i < |st.targets|
    requires EachOnce(st.targets[i].bindings) && k < |st.targets[i].bindings| && st.targets[i].bindings[k].nice.None?
    ensures var b := st.targets[i].bindings[k];
            var st1 := SetNice(sg, st, target, n, false).0;
            var st2 := Restore(sg, st1, target, false, false).0;
            NiceOf(st2.sys.world, b.pid) == NiceOf(st.sys.world, b.pid) <==> RoundTrips(sg, st.sys, b, n)
  {
    SetNiceIsPass(sg, st, target, n, i, k);
    var b := st.targets[i].bindings[k];
    hide StateInv, SetNice, Restore, Find, EachOnce;
    var st1 := SetNice(sg, st, target, n, false).0;
    RestoreEffect(sg, st1, target, false, i, k);
    RestoreAfterRenice(sg, st.sys, st1.sys, b, st1.targets[i].bindings[k], n);
    assert st1.targets[i].bindings[k].pid == b.pid;
    hide Reniced, WillRestore, RoundTrips, NiceOf;
  }
}
