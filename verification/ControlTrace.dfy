/**
 The trace tells the truth: replaying it on the kernel an operation started from gives the kernel
 it ended in, and every event records what that kernel answered at that very call. So the
 statements about traces are statements about everything the manager did to the kernel.
 */
module ControlTrace {
  import opened Options
  import opened Identity
  import opened Kernel
  import opened Control
  import opened Operations

  function Effect(w: World, e: Event): World {
    match e
    case Niced(_, pid, _, _, value, _) => w.SetNice(pid, value)
    case Froze(cg, freeze, _, _, _) => w.FreezeCgroup(cg, freeze)
    case _ => w
  }

  function Replay(w: World, events: seq<Event>): World {
    if events == [] then w else Effect(Replay(w, events[..|events| - 1]), events[|events| - 1])
  }

  /** The event says what kernel `w` answers to this call. */
  predicate True(sg: Safeguards, w: World, e: Event) {
    match e
    case Captured(_, pid, _, nice) => w.GetNice(pid) == Some(nice)
    case Niced(_, pid, _, holder, value, ok) => holder == w.ReadIdentity(pid) && ok == w.NiceAllowed(pid, value)
    case Signalled(_, pid, _, holder, sig, ok) => holder == w.ReadIdentity(pid) && ok == w.SignalAllowed(pid, sig)
    case Froze(cg, freeze, _, selfCgroup, ok) =>
      selfCgroup == w.ReadCgroupOf(sg.selfPid) && ok == w.FreezeAllowed(cg, freeze)
  }

  predicate Truthful(sg: Safeguards, w: World, events: seq<Event>) {
    events == [] ||
    var before := events[..|events| - 1];
    Truthful(sg, w, before) && True(sg, Replay(w, before), events[|events| - 1])
  }

  /** What happened between two states is exactly what the trace gained. */
  ghost predicate Explained(sg: Safeguards, s: Sys, s': Sys) {
    && s.trace <= s'.trace
    && var news := s'.trace[|s.trace|..];
       Truthful(sg, s.world, news) && s'.world == Replay(s.world, news)
  }

  lemma {:induction false} ReplayAppend(sg: Safeguards, w: World, xs: seq<Event>, ys: seq<Event>)
    ensures Replay(w, xs + ys) == Replay(Replay(w, xs), ys)
    ensures Truthful(sg, w, xs + ys) <==> Truthful(sg, w, xs) && Truthful(sg, Replay(w, xs), ys)
  {
    if ys == [] {
      assert xs + ys == xs;
    } else {
      var front := ys[..|ys| - 1];
      assert (xs + ys)[..|xs + ys| - 1] == xs + front;
      ReplayAppend(sg, w, xs, front);
    }
  }

  lemma ExplainedTransitive(sg: Safeguards, a: Sys, b: Sys, c: Sys)
    requires Explained(sg, a, b) && Explained(sg, b, c)
    ensures Explained(sg, a, c)
  {
    var xs, ys := b.trace[|a.trace|..], c.trace[|b.trace|..];
    assert c.trace[|a.trace|..] == xs + ys;
    ReplayAppend(sg, a.world, xs, ys);
  }

  lemma RecordsOnly(sg: Safeguards, s: Sys, s': Sys)
    requires s'.world == s.world && s'.trace == s.trace
    ensures Explained(sg, s, s')
  {
  }

  lemma OneEvent(sg: Safeguards, s: Sys, s': Sys, e: Event)
    requires s'.trace == s.trace + [e] && True(sg, s.world, e) && s'.world == Effect(s.world, e)
    ensures Explained(sg, s, s')
  {
    var news := s'.trace[|s.trace|..];
    assert news == [e] && news[..0] == [];
    assert Replay(s.world, news[..0]) == s.world;
  }

  lemma WriteExplained(sg: Safeguards, s: Sys, b: Binding, c: nat, value: int)
    ensures Explained(sg, s, WriteNice(s, b, c, value))
  {
    OneEvent(sg, s, WriteNice(s, b, c, value),
             Niced(c, b.pid, b.id, s.world.ReadIdentity(b.pid), value, s.world.NiceAllowed(b.pid, value)));
  }

  lemma PushExplained(sg: Safeguards, s: Sys, b: Binding, c: nat, desired: int)
    ensures Explained(sg, s, PushNice(s, b, c, desired).sys)
  {
    hide Explained;
    var s1 := s.PutNice(c, s.Nice(c).(desired := desired));
    var s2 := WriteNice(s1, b, c, desired);
    var s3 := PushNice(s, b, c, desired).sys;
    RecordsOnly(sg, s, s1);
    WriteExplained(sg, s1, b, c, desired);
    RecordsOnly(sg, s2, s3);
    ExplainedTransitive(sg, s, s1, s2);
    ExplainedTransitive(sg, s, s2, s3);
  }

  lemma ApplyNiceExplained(sg: Safeguards, s: Sys, b: Binding, desired: int, dryRun: bool)
    ensures Explained(sg, s, ApplyNice(sg, s, b, desired, dryRun).sys)
  {
    hide Explained;
    RecordsOnly(sg, s, s);
    match b.nice
    case Some(c) => PushExplained(sg, s, b, c, desired);
    case None =>
      match s.world.GetNice(b.pid)
      case None =>
      case Some(orig) =>
        var s1, b1 := Capture(s, b, orig), b.(nice := Some(|s.nices|));
        OneEvent(sg, s, s1, Captured(|s.nices|, b.pid, b.id, orig));
        PushExplained(sg, s1, b1, |s.nices|, desired);
        ExplainedTransitive(sg, s, s1, PushNice(s1, b1, |s.nices|, desired).sys);
  }

  lemma WriteThenRecords(sg: Safeguards, s: Sys, b: Binding, c: nat, value: int, s': Sys)
    requires s'.world == WriteNice(s, b, c, value).world && s'.trace == WriteNice(s, b, c, value).trace
    ensures Explained(sg, s, s')
  {
    hide Explained;
    WriteExplained(sg, s, b, c, value);
    RecordsOnly(sg, WriteNice(s, b, c, value), s');
    ExplainedTransitive(sg, s, WriteNice(s, b, c, value), s');
  }

  lemma RestoreNiceExplained(sg: Safeguards, s: Sys, b: Binding, force: bool, dryRun: bool)
    ensures Explained(sg, s, RestoreNice(s, b, force, dryRun).sys)
  {
    hide Explained;
    var s' := RestoreNice(s, b, force, dryRun).sys;
    if s'.trace == s.trace {
      RecordsOnly(sg, s, s');
    } else {
      WriteThenRecords(sg, s, b, b.nice.value, s.Nice(b.nice.value).original, s');
    }
  }

  lemma ReconcileDriftExplained(sg: Safeguards, s: Sys, b: Binding, c: nat, desired: int, mode: DriftMode)
    ensures Explained(sg, s, ReconcileDrift(s, b, c, desired, mode))
  {
    hide Explained;
    var s' := ReconcileDrift(s, b, c, desired, mode);
    if s'.trace == s.trace {
      RecordsOnly(sg, s, s');
    } else {
      var s1 := s.PutNice(c, s.Nice(c).(observed := s.world.GetNice(b.pid).value));
      RecordsOnly(sg, s, s1);
      WriteThenRecords(sg, s1, b, c, desired, s');
      ExplainedTransitive(sg, s, s1, s');
    }
  }

  lemma SignalExplained(sg: Safeguards, s: Sys, b: Binding, cell: Option<nat>, sig: Signal, s': Sys)
    requires s'.trace == SendSignal(s, b, cell, sig).trace && s'.world == s.world
    ensures Explained(sg, s, s')
  {
    OneEvent(sg, s, s', Signalled(cell, b.pid, b.id, s.world.ReadIdentity(b.pid), sig, s.world.SignalAllowed(b.pid, sig)));
  }

  lemma ApplyStopExplained(sg: Safeguards, s: Sys, b: Binding, stop: bool, dryRun: bool)
    ensures Explained(sg, s, ApplyStop(sg, s, b, stop, dryRun).sys)
  {
    hide Explained;
    var s' := ApplyStop(sg, s, b, stop, dryRun).sys;
    var sig := if stop then SigStop else SigCont;
    if s'.trace == s.trace {
      RecordsOnly(sg, s, s');
    } else if b.stop.None? && s.world.SignalAllowed(b.pid, sig) {
      SignalExplained(sg, s, b, Some(|s.stops|), sig, s');
    } else {
      SignalExplained(sg, s, b, b.stop, sig, s');
    }
  }

  lemma RestoreStopExplained(sg: Safeguards, s: Sys, b: Binding, dryRun: bool)
    ensures Explained(sg, s, RestoreStop(s, b, dryRun).sys)
  {
    hide Explained;
    var s' := RestoreStop(s, b, dryRun).sys;
    if s'.trace == s.trace {
      RecordsOnly(sg, s, s');
    } else {
      SignalExplained(sg, s, b, b.stop, SigCont, s');
    }
  }

  lemma ApplyFreezeExplained(sg: Safeguards, s: Sys, b: Binding, freeze: bool, force: bool, dryRun: bool, handled: set<string>)
    ensures Explained(sg, s, ApplyFreeze(sg, s, b, freeze, force, dryRun, handled).sys)
  {
    hide Explained;
    var s' := ApplyFreeze(sg, s, b, freeze, force, dryRun, handled).sys;
    RecordsOnly(sg, s, s);
    if s'.trace != s.trace {
      var cg := s.world.ReadCgroupOf(b.pid).value;
      OneEvent(sg, s, s', Froze(cg, freeze, force, s.world.ReadCgroupOf(sg.selfPid), s.world.FreezeAllowed(cg, freeze)));
    }
  }

  lemma PerformExplained(sg: Safeguards, s: Sys, handled: set<string>, d: Deed, b: Binding)
    ensures Explained(sg, s, Perform(sg, s, handled, d, b).sys)
  {
    hide Explained;
    match d
    case DoNice(desired, dryRun) => ApplyNiceExplained(sg, s, b, desired, dryRun);
    case DoRestoreNice(dryRun) => RestoreNiceExplained(sg, s, b, false, dryRun);
    case DoRestore(force, dryRun) =>
      RestoreNiceExplained(sg, s, b, force, dryRun);
      var n := RestoreNice(s, b, force, dryRun);
      RestoreStopExplained(sg, n.sys, n.binding, dryRun);
      ExplainedTransitive(sg, s, n.sys, RestoreStop(n.sys, n.binding, dryRun).sys);
    case DoStop(stop, dryRun) => ApplyStopExplained(sg, s, b, stop, dryRun);
    case DoFreeze(freeze, force, dryRun) => ApplyFreezeExplained(sg, s, b, freeze, force, dryRun, handled);
    case DoReconcile(desired, mode) =>
      match b.nice
      case None => ApplyNiceExplained(sg, s, b, desired, false);
      case Some(c) => ReconcileDriftExplained(sg, s, b, c, desired, mode);
  }

  lemma {:induction false} EachExplained(sg: Safeguards, s: Sys, d: Deed, bs: seq<Binding>)
    ensures Explained(sg, s, Each(sg, s, d, bs).sys)
  {
    hide Explained;
    RecordsOnly(sg, s, s);
    if bs != [] {
      var front, last := bs[..|bs| - 1], bs[|bs| - 1];
      EachExplained(sg, s, d, front);
      var p := Each(sg, s, d, front);
      PerformExplained(sg, p.sys, p.handled, d, last);
      ExplainedTransitive(sg, s, p.sys, Perform(sg, p.sys, p.handled, d, last).sys);
    }
  }

  lemma {:induction false} SignalAllExplained(sg: Safeguards, s: Sys, insts: seq<Instance>, sig: Signal, dryRun: bool)
    ensures Explained(sg, s, SignalAll(sg, s, insts, sig, dryRun).0)
  {
    hide Explained;
    RecordsOnly(sg, s, s);
    if insts != [] {
      var front, last := insts[..|insts| - 1], insts[|insts| - 1];
      SignalAllExplained(sg, s, front, sig, dryRun);
      var s1 := SignalAll(sg, s, front, sig, dryRun).0;
      var b := Binding(last.id, last.pid, last.name, None, None);
      SignalExplained(sg, s1, b, None, sig, SendSignal(s1, b, None, sig));
      ExplainedTransitive(sg, s, s1, SendSignal(s1, b, None, sig));
    }
  }

  lemma {:induction false} ReconcileExplained(sg: Safeguards, st: State, n: nat, resolve: Resolver)
    requires n <= |st.targets|
    ensures Explained(sg, st.sys, ReconcileUpTo(sg, st, n, resolve).sys)
  {
    hide Explained;
    RecordsOnly(sg, st.sys, st.sys);
    if n > 0 {
      ReconcileExplained(sg, st, n - 1, resolve);
      var st1 := ReconcileUpTo(sg, st, n - 1, resolve);
      var t := st1.targets[n - 1];
      if t.origin == Config && t.selector in resolve && t.desiredNice.Some? {
        var bound := Bound(t, resolve[t.selector]);
        EachExplained(sg, st1.sys, DoReconcile(t.desiredNice.value, t.onDrift), bound.bindings);
        ExplainedTransitive(sg, st.sys, st1.sys, Each(sg, st1.sys, DoReconcile(t.desiredNice.value, t.onDrift), bound.bindings).sys);
      }
    }
  }

  /**
   One operation, in full: the events it appends replay from the kernel it found to the kernel it
   leaves, and each of them records what the kernel answered at that call.
   */
  lemma OperationsAreTraced(sg: Safeguards, st: State, op: Op)
    requires !op.Environment?
    ensures Explained(sg, st.sys, Apply(sg, st, op).0.sys)
  {
    hide Explained;
    RecordsOnly(sg, st.sys, st.sys);
    match op
    case OpSetNice(target, nice, dryRun) =>
      match Find(st.targets, target) {
        case None =>
        case Some(i) => EachExplained(sg, st.sys, DoNice(nice, dryRun), st.targets[i].bindings);
      }
    case OpSetStop(target, stop, dryRun) =>
      match Find(st.targets, target) {
        case None =>
        case Some(i) => EachExplained(sg, st.sys, DoStop(stop, dryRun), st.targets[i].bindings);
      }
    case OpSetFreeze(target, freeze, force, dryRun) =>
      match Find(st.targets, target) {
        case None =>
        case Some(i) => EachExplained(sg, st.sys, DoFreeze(freeze, force, dryRun), st.targets[i].bindings);
      }
    case OpRestoreNice(target, dryRun) =>
      match Find(st.targets, target) {
        case None =>
        case Some(i) => EachExplained(sg, st.sys, DoRestoreNice(dryRun), st.targets[i].bindings);
      }
    case OpRestore(target, force, dryRun) =>
      match Find(st.targets, target) {
        case None =>
        case Some(i) =>
          var st1 := ThawFirst(sg, st, i, dryRun).0;
          EachExplained(sg, st.sys, DoFreeze(false, false, dryRun), st.targets[i].bindings);
          EachExplained(sg, st1.sys, DoRestore(force, dryRun), st1.targets[i].bindings);
          ExplainedTransitive(sg, st.sys, st1.sys, Each(sg, st1.sys, DoRestore(force, dryRun), st1.targets[i].bindings).sys);
      }
    case OpSignal(insts, sig, dryRun) => SignalAllExplained(sg, st.sys, insts, sig, dryRun);
    case OpReconcile(resolve) => ReconcileExplained(sg, st, |st.targets|, resolve);
    case _ =>
  }
}
