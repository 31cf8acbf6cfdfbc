/** What a deed on one binding leaves alone: every other process's nice value and every other record. */
module ControlFrame {
  import opened Options
  import opened Identity
  import opened Kernel
  import opened Control
  import opened Operations
  import opened ControlSafety

  // ---- What acting on one binding leaves alone ----

  /** Only the nice value of `pid` may differ. */
  ghost predicate NiceOnly(w: World, w': World, pid: int) {
    && w'.procs.Keys == w.procs.Keys
    && w'.denied == w.denied
    && (forall p :: p in w.procs ==> w'.procs[p] == w.procs[p].(nice := w'.procs[p].nice))
    && (forall p :: p in w.procs && p != pid ==> w'.procs[p] == w.procs[p])
  }

  ghost predicate CellsOnly(s: Sys, s': Sys, b: Binding) {
    && |s.nices| <= |s'.nices| && |s.stops| <= |s'.stops|
    && (forall c :: 0 <= c < |s.nices| && b.nice != Some(c) ==> s'.nices[c] == s.nices[c])
    && (forall c :: 0 <= c < |s.stops| && b.stop != Some(c) ==> s'.stops[c] == s.stops[c])
  }

  ghost predicate Framed(s: Sys, s': Sys, b: Binding) {
    NiceOnly(s.world, s'.world, b.pid) && CellsOnly(s, s', b)
  }

  lemma FramedThen(a: Sys, b: Sys, c: Sys, x: Binding, y: Binding)
    requires Framed(a, b, x) && Framed(b, c, y) && y.pid == x.pid
    requires y.nice == x.nice || (x.nice.None? && y.nice == Some(|a.nices|))
    requires y.stop == x.stop
    ensures Framed(a, c, x)
  {
  }

  lemma FramedTransitive(a: Sys, b: Sys, c: Sys, x: Binding)
    requires Framed(a, b, x) && Framed(b, c, x)
    ensures Framed(a, c, x)
  {
  }

  lemma PutNiceFramed(s: Sys, b: Binding, c: nat, f: NiceField)
    requires b.nice == Some(c)
    ensures Framed(s, s.PutNice(c, f), b)
  {
  }

  lemma ObserveFramed(s: Sys, b: Binding, c: nat)
    requires b.nice == Some(c)
    ensures Framed(s, Observe(s, b.pid, c), b)
  {
    hide Framed;
    var f := s.Nice(c);
    match s.world.GetNice(b.pid)
    case None => PutNiceFramed(s, b, c, f.(status := Vanished, error := Gone));
    case Some(obs) =>
      PutNiceFramed(s, b, c, f.(observed := obs, status := Applied, error := Plain));
      PutNiceFramed(s, b, c, f.(observed := obs, status := Drifted));
  }

  lemma WriteNiceFramed(s: Sys, b: Binding, c: nat, value: int)
    ensures Framed(s, WriteNice(s, b, c, value), b)
  {
  }

  lemma PushNiceFramed(s: Sys, b: Binding, c: nat, desired: int)
    requires b.nice == Some(c)
    ensures Framed(s, PushNice(s, b, c, desired).sys, b)
  {
    hide Framed;
    var s1 := s.PutNice(c, s.Nice(c).(desired := desired));
    var s2 := WriteNice(s1, b, c, desired);
    PutNiceFramed(s, b, c, s.Nice(c).(desired := desired));
    WriteNiceFramed(s1, b, c, desired);
    FramedTransitive(s, s1, s2, b);
    PutNiceFramed(s2, b, c, s2.Nice(c).(status := Denied, error := KernelRefused));
    ObserveFramed(s2, b, c);
    FramedTransitive(s, s2, PushNice(s, b, c, desired).sys, b);
  }

  lemma CaptureFramed(s: Sys, b: Binding, orig: int)
    ensures Framed(s, Capture(s, b, orig), b)
  {
  }

  lemma ApplyNiceFramed(sg: Safeguards, s: Sys, b: Binding, desired: int, dryRun: bool)
    ensures Framed(s, ApplyNice(sg, s, b, desired, dryRun).sys, b)
  {
    assert Framed(s, s, b);
    hide Framed;
    match b.nice
    case Some(c) => PushNiceFramed(s, b, c, desired);
    case None =>
      match s.world.GetNice(b.pid)
      case None =>
      case Some(orig) =>
        var s1, b1 := Capture(s, b, orig), b.(nice := Some(|s.nices|));
        CaptureFramed(s, b, orig);
        PushNiceFramed(s1, b1, |s.nices|, desired);
        FramedThen(s, s1, PushNice(s1, b1, |s.nices|, desired).sys, b, b1);
  }

  lemma PutBackFramed(s: Sys, b: Binding, c: nat)
    requires b.nice == Some(c)
    ensures Framed(s, PutBack(s, b, c).sys, b)
  {
    hide Framed;
    var f := s.Nice(c);
    var s1 := WriteNice(s, b, c, f.original);
    WriteNiceFramed(s, b, c, f.original);
    var s2 := s1.PutNice(c, f.(desired := f.original));
    PutNiceFramed(s1, b, c, f.(desired := f.original));
    FramedTransitive(s, s1, s2, b);
    var s3 := Observe(s2, b.pid, c);
    ObserveFramed(s2, b, c);
    FramedTransitive(s, s2, s3, b);
    PutNiceFramed(s3, b, c, s3.Nice(c).(status := Restored));
    FramedTransitive(s, s3, s3.PutNice(c, s3.Nice(c).(status := Restored)), b);
  }

  lemma RestoreNiceFramed(s: Sys, b: Binding, force: bool, dryRun: bool)
    ensures Framed(s, RestoreNice(s, b, force, dryRun).sys, b)
  {
    assert Framed(s, s, b);
    hide Framed;
    if b.nice.Some? {
      var c := b.nice.value;
      PutBackFramed(s, b, c);
      if s.world.GetNice(b.pid).Some? {
        PutNiceFramed(s, b, c, s.Nice(c).(observed := s.world.GetNice(b.pid).value, status := Drifted));
      }
    }
  }

  lemma WriteAgainFramed(s: Sys, b: Binding, c: nat, desired: int)
    requires b.nice == Some(c)
    ensures Framed(s, WriteAgain(s, b, c, desired), b)
  {
    hide Framed;
    var s1 := WriteNice(s, b, c, desired);
    WriteNiceFramed(s, b, c, desired);
    var s2 := s1.PutNice(c, s1.Nice(c).(desired := desired));
    PutNiceFramed(s1, b, c, s1.Nice(c).(desired := desired));
    FramedTransitive(s, s1, s2, b);
    ObserveFramed(s2, b, c);
    FramedTransitive(s, s2, Observe(s2, b.pid, c), b);
  }

  lemma ReconcileDriftFramed(s: Sys, b: Binding, c: nat, desired: int, mode: DriftMode)
    requires b.nice == Some(c)
    ensures Framed(s, ReconcileDrift(s, b, c, desired, mode), b)
  {
    hide Framed;
    var f := s.Nice(c);
    PutNiceFramed(s, b, c, f.(status := Stale));
    PutNiceFramed(s, b, c, f.(status := Vanished));
    if s.world.GetNice(b.pid).Some? {
      var obs := s.world.GetNice(b.pid).value;
      var s1 := s.PutNice(c, f.(observed := obs));
      var g := s1.Nice(c);
      PutNiceFramed(s, b, c, f.(observed := obs));
      PutNiceFramed(s1, b, c, g.(status := Applied));
      PutNiceFramed(s1, b, c, g.(status := Drifted));
      PutNiceFramed(s1, b, c, g.(desired := obs, status := Applied));
      WriteAgainFramed(s1, b, c, desired);
      if Revalidate(s.world, b) {
        FramedTransitive(s, s1, ReconcileDrift(s, b, c, desired, mode), b);
      }
    }
  }

  lemma RestoreStopFramed(s: Sys, b: Binding, dryRun: bool)
    ensures Framed(s, RestoreStop(s, b, dryRun).sys, b)
  {
  }

  lemma ApplyStopFramed(sg: Safeguards, s: Sys, b: Binding, stop: bool, dryRun: bool)
    ensures Framed(s, ApplyStop(sg, s, b, stop, dryRun).sys, b)
  {
  }

  lemma ApplyFreezeFramed(sg: Safeguards, s: Sys, b: Binding, freeze: bool, force: bool, dryRun: bool, handled: set<string>)
    ensures Framed(s, ApplyFreeze(sg, s, b, freeze, force, dryRun, handled).sys, b)
  {
  }

  /** A deed on one binding reaches no other process's nice value and no other record. */
  lemma PerformFramed(sg: Safeguards, s: Sys, handled: set<string>, d: Deed, b: Binding)
    ensures Framed(s, Perform(sg, s, handled, d, b).sys, b)
  {
    hide Framed;
    match d
    case DoNice(desired, dryRun) => ApplyNiceFramed(sg, s, b, desired, dryRun);
    case DoRestoreNice(dryRun) => RestoreNiceFramed(s, b, false, dryRun);
    case DoRestore(force, dryRun) =>
      var n := RestoreNice(s, b, force, dryRun);
      RestoreNiceFramed(s, b, force, dryRun);
      RestoreStopFramed(n.sys, n.binding, dryRun);
      FramedTransitive(s, n.sys, RestoreStop(n.sys, n.binding, dryRun).sys, b);
    case DoStop(stop, dryRun) => ApplyStopFramed(sg, s, b, stop, dryRun);
    case DoFreeze(freeze, force, dryRun) => ApplyFreezeFramed(sg, s, b, freeze, force, dryRun, handled);
    case DoReconcile(desired, mode) =>
      match b.nice {
        case None => ApplyNiceFramed(sg, s, b, desired, false);
        case Some(c) => ReconcileDriftFramed(s, b, c, desired, mode);
      }
  }

  // ---- What a binding's deed looks at ----

  ghost predicate SameProc(w0: World, w: World, pid: int) {
    && (pid in w0.procs <==> pid in w.procs)
    && (pid in w0.procs ==> w0.procs[pid] == w.procs[pid])
  }

  ghost predicate SameView(sg: Safeguards, s0: Sys, s: Sys, b: Binding) {
    && SameProc(s0.world, s.world, b.pid)
    && s0.world.ReadCgroupOf(sg.selfPid) == s.world.ReadCgroupOf(sg.selfPid)
    && (b.nice.Some? ==> s0.Nice(b.nice.value) == s.Nice(b.nice.value))
    && (b.stop.Some? ==> s0.Stop(b.stop.value) == s.Stop(b.stop.value))
  }

  /** Each binding is its own process with its own records, all of them existing. */
  ghost predicate Apart(s: Sys, bs: seq<Binding>) {
    && (forall i :: 0 <= i < |bs| ==>
         && (bs[i].nice.Some? ==> bs[i].nice.value < |s.nices|)
         && (bs[i].stop.Some? ==> bs[i].stop.value < |s.stops|))
    && (forall i, j :: 0 <= i < j < |bs| ==>
         && bs[i].pid != bs[j].pid
         && (bs[i].nice.Some? ==> bs[i].nice != bs[j].nice)
         && (bs[i].stop.Some? ==> bs[i].stop != bs[j].stop))
  }

  lemma FrameKeepsView(sg: Safeguards, s0: Sys, s: Sys, s': Sys, b: Binding, other: Binding)
    requires SameView(sg, s0, s, other) && Framed(s, s', b)
    requires other.pid != b.pid
    requires other.nice.Some? ==> other.nice != b.nice && other.nice.value < |s.nices|
    requires other.stop.Some? ==> other.stop != b.stop && other.stop.value < |s.stops|
    ensures SameView(sg, s0, s', other)
  {
  }

  lemma SelfView(sg: Safeguards, s: Sys, b: Binding)
    ensures SameView(sg, s, s, b)
  {
  }

  /** After the real pass over `front`, a later binding sees what it saw before it. */
  lemma {:induction false} EachKeepsView(sg: Safeguards, s0: Sys, s: Sys, d: Deed, front: seq<Binding>, b: Binding)
    requires Apart(s, front + [b]) && SameView(sg, s0, s, b)
    ensures var p := Each(sg, s, d, front);
            SameView(sg, s0, p.sys, b) && |s.nices| <= |p.sys.nices| && |s.stops| <= |p.sys.stops|
  {
    if front != [] {
      var init, last := front[..|front| - 1], front[|front| - 1];
      var all := front + [b];
      assert forall i :: 0 <= i < |init| ==> (init + [b])[i] == all[i];
      assert all[|front|] == b && all[|front| - 1] == last;
      assert Apart(s, init + [b]);
      EachKeepsView(sg, s0, s, d, init, b);
      var p := Each(sg, s, d, init);
      PerformFramed(sg, p.sys, p.handled, d, last);
      FrameKeepsView(sg, s0, p.sys, Perform(sg, p.sys, p.handled, d, last).sys, last, b);
    }
  }

  lemma ApartFront(s: Sys, bs: seq<Binding>)
    requires Apart(s, bs) && bs != []
    ensures Apart(s, bs[..|bs| - 1])
  {
  }

  ghost predicate SameProcesses(s: Sys, s': Sys) {
    s'.world.procs == s.world.procs && s'.world.denied == s.world.denied && s'.nices == s.nices && s'.stops == s.stops
  }

  lemma SameProcessesThen(a: Sys, b: Sys, c: Sys)
    ensures SameProcesses(a, a)
    ensures SameProcesses(a, b) && SameProcesses(b, c) ==> SameProcesses(a, c)
  {
  }

  lemma FreezeOne(sg: Safeguards, s: Sys, d: Deed, b: Binding, handled: set<string>)
    requires d.DoFreeze?
    ensures SameProcesses(s, Perform(sg, s, handled, d, b).sys) && Perform(sg, s, handled, d, b).binding == b
  {
  }

  /** Freezing and thawing leave processes, records and bindings alone. */
  lemma {:induction false} FreezeTouchesCgroupsOnly(sg: Safeguards, s: Sys, d: Deed, bs: seq<Binding>)
    requires d.DoFreeze?
    ensures SameProcesses(s, Each(sg, s, d, bs).sys) && Each(sg, s, d, bs).bindings == bs
  {
    hide Perform, NextHandled, SameProcesses;
    if bs == [] {
      SameProcessesThen(s, s, s);
    } else {
      var front, last := bs[..|bs| - 1], bs[|bs| - 1];
      assert bs == front + [last];
      FreezeTouchesCgroupsOnly(sg, s, d, front);
      var p := Each(sg, s, d, front);
      FreezeOne(sg, p.sys, d, last, p.handled);
      SameProcessesThen(s, p.sys, Perform(sg, p.sys, p.handled, d, last).sys);
    }
  }

  lemma SameProcessesSameView(sg: Safeguards, s: Sys, s': Sys, bs: seq<Binding>)
    requires SameProcesses(s, s')
    ensures Apart(s, bs) ==> Apart(s', bs)
    ensures forall b :: b in bs ==> SameView(sg, s, s', b)
  {
  }

  /** A target's bindings are different processes under different pids. */
  ghost predicate EachOnce(bs: seq<Binding>) {
    forall i, j :: 0 <= i < j < |bs| ==> bs[i].pid != bs[j].pid && bs[i].id != bs[j].id
  }

  /** A record belongs to one process, so different processes have different records. */
  lemma OnceIsApart(sg: Safeguards, s: Sys, bs: seq<Binding>)
    requires Inv(sg, s) && BindingsInv(sg, s, bs) && EachOnce(bs)
    ensures Apart(s, bs)
  {
    assert forall i :: 0 <= i < |bs| ==> BindingInv(sg, s, bs[i]);
    hide AllLawful, OriginalsInRange, BindingsInv;
  }
}
