/**
 What every run of the manager keeps: whom it may touch, where originals come from, and who
 owns a stop. One invariant on the records and the trace, preserved by every deed on every
 binding, and from there by every operation and every run.
 */
module ControlSafety {
  import opened Options
  import opened Identity
  import opened Kernel
  import opened Control
  import opened Operations
  import FreezeGuard

  predicate AtItsOwner(sg: Safeguards, pid: int, owner: ProcessId, holder: Option<ProcessId>) {
    sg.CheckPID(pid) && holder.Some? && holder.value.SameProcess(owner)
  }

  function OrEmpty(cg: Option<string>): string { if cg.Some? then cg.value else "" }

  /** Nice and signal calls reach only an allowed pid still held by the process they were meant for. */
  predicate Lawful(sg: Safeguards, e: Event) {
    match e
    case Captured(_, pid, owner, _) => sg.CheckPID(pid)
    case Niced(_, pid, owner, holder, _, _) => AtItsOwner(sg, pid, owner, holder)
    case Signalled(_, pid, owner, holder, _, _) => AtItsOwner(sg, pid, owner, holder)
    case Froze(cg, freeze, forced, selfCgroup, _) =>
      freeze && !forced ==> FreezeGuard.FreezeSafety(cg, OrEmpty(selfCgroup))
  }

  /** The last stop or continue delivered through stop record `c`. */
  function LastSignal(trace: seq<Event>, c: nat): Option<Signal> {
    if trace == [] then None
    else
      var e := trace[|trace| - 1];
      if e.Signalled? && e.stopCell == Some(c) && e.ok then Some(e.sig)
      else LastSignal(trace[..|trace| - 1], c)
  }

  /** Every continue sent through a stop record follows a stop that is still in force. */
  predicate ContinuesOwned(trace: seq<Event>) {
    trace == [] ||
    var e := trace[|trace| - 1];
    var before := trace[..|trace| - 1];
    ContinuesOwned(before) &&
    (e.Signalled? && e.stopCell.Some? && e.sig == SigCont ==> LastSignal(before, e.stopCell.value) == Some(SigStop))
  }

  ghost predicate NiceCellsOk(s: Sys) {
    && |s.births| == |s.nices|
    && (forall c :: 0 <= c < |s.nices| ==>
         s.births[c] < |s.trace| &&
         var e := s.trace[s.births[c]];
         e.Captured? && e.cell == c && e.nice == s.nices[c].original && e.pid == e.owner.pid)
    && (forall j :: 0 <= j < |s.trace| && s.trace[j].Captured? ==>
         s.trace[j].cell < |s.nices| && s.births[s.trace[j].cell] == j)
    && (forall j :: 0 <= j < |s.trace| && s.trace[j].Niced? ==>
         s.trace[j].cell < |s.nices| && s.births[s.trace[j].cell] < j &&
         var e := s.trace[s.births[s.trace[j].cell]];
         e.Captured? && e.owner == s.trace[j].owner && e.pid == s.trace[j].pid)
  }

  ghost predicate StopCellsOk(s: Sys) {
    && |s.stopBirths| == |s.stops|
    && (forall c :: 0 <= c < |s.stops| ==>
         s.stopBirths[c] < |s.trace| &&
         var e := s.trace[s.stopBirths[c]];
         e.Signalled? && e.stopCell == Some(c))
    && (forall j :: 0 <= j < |s.trace| && s.trace[j].Signalled? && s.trace[j].stopCell.Some? ==>
         s.trace[j].stopCell.value < |s.stops| &&
         var e := s.trace[s.stopBirths[s.trace[j].stopCell.value]];
         e.Signalled? && e.owner == s.trace[j].owner && e.pid == s.trace[j].pid)
    && (forall c :: 0 <= c < |s.stops| ==>
         (s.stops[c].desiredStop <==> LastSignal(s.trace, c) == Some(SigStop)))
    && ContinuesOwned(s.trace)
  }

  ghost predicate AllLawful(sg: Safeguards, s: Sys) {
    forall e :: e in s.trace ==> Lawful(sg, e)
  }

  ghost predicate OriginalsInRange(s: Sys) {
    forall c :: 0 <= c < |s.nices| ==> NICE_MIN <= s.nices[c].original <= NICE_MAX
  }

  ghost predicate Inv(sg: Safeguards, s: Sys) {
    && s.world.Valid()
    && AllLawful(sg, s)
    && OriginalsInRange(s)
    && NiceCellsOk(s)
    && StopCellsOk(s)
  }

  /** A record belongs to one process, which the safeguards allow. */
  ghost predicate BindingInv(sg: Safeguards, s: Sys, b: Binding) {
    && (b.nice.Some? ==>
         && b.nice.value < |s.births| && s.births[b.nice.value] < |s.trace|
         && s.trace[s.births[b.nice.value]].Captured?
         && s.trace[s.births[b.nice.value]].owner == b.id
         && sg.CheckPID(b.id.pid))
    && (b.stop.Some? ==>
         && b.stop.value < |s.stopBirths| && s.stopBirths[b.stop.value] < |s.trace|
         && s.trace[s.stopBirths[b.stop.value]].Signalled?
         && s.trace[s.stopBirths[b.stop.value]].owner == b.id
         && s.trace[s.stopBirths[b.stop.value]].pid == b.id.pid
         && sg.CheckPID(b.id.pid))
  }

  /** Records and trace only grow; originals stay. */
  ghost predicate Grows(s: Sys, s': Sys) {
    && s.trace <= s'.trace
    && s.births <= s'.births
    && s.stopBirths <= s'.stopBirths
    && |s.nices| <= |s'.nices|
    && |s.stops| <= |s'.stops|
    && (forall c :: 0 <= c < |s.nices| ==> s'.nices[c].original == s.nices[c].original)
  }

  lemma GrowsTransitive(a: Sys, b: Sys, c: Sys)
    requires Grows(a, b) && Grows(b, c)
    ensures Grows(a, c)
  {
  }

  lemma BindingKept(sg: Safeguards, s: Sys, s': Sys, b: Binding)
    requires BindingInv(sg, s, b) && Grows(s, s')
    ensures BindingInv(sg, s', b)
  {
  }

  lemma GrowsReflexive(s: Sys)
    ensures Grows(s, s)
  {
  }

  /** What a valid kernel's answer says about the binding's pid. */
  lemma RevalidatedPid(w: World, b: Binding)
    requires w.Valid() && Revalidate(w, b)
    ensures b.pid == b.id.pid
  {
  }

  lemma PutNiceKeeps(sg: Safeguards, s: Sys, c: nat, f: NiceField)
    requires Inv(sg, s) && f.original == s.Nice(c).original
    ensures Inv(sg, s.PutNice(c, f)) && Grows(s, s.PutNice(c, f))
  {
    hide StopCellsOk;
    StopCellsSame(s, s.PutNice(c, f));
  }

  lemma ObserveKeeps(sg: Safeguards, s: Sys, pid: int, c: nat)
    requires Inv(sg, s)
    ensures Inv(sg, Observe(s, pid, c)) && Grows(s, Observe(s, pid, c))
  {
    hide Inv, Grows;
    var f := s.Nice(c);
    match s.world.GetNice(pid)
    case None => PutNiceKeeps(sg, s, c, f.(status := Vanished, error := Gone));
    case Some(obs) =>
      PutNiceKeeps(sg, s, c, f.(observed := obs, status := Applied, error := Plain));
      PutNiceKeeps(sg, s, c, f.(observed := obs, status := Drifted));
  }

  /** Logging a lawful event that no record is involved in, and freezing cgroups, keeps everything. */
  lemma LogKeeps(sg: Safeguards, s: Sys, w: World, e: Event)
    requires Inv(sg, s) && w.Valid() && Lawful(sg, e)
    requires e.Froze? || (e.Signalled? && e.stopCell.None?)
    ensures Inv(sg, s.(world := w).Log(e)) && Grows(s, s.(world := w).Log(e))
  {
    hide NiceCellsOk, StopCellsOk;
    var s1 := s.(world := w);
    SameRecords(s, s1);
    NiceCellsLog(s1, e);
    OtherEvent(s1, e);
  }

  lemma SameRecords(s: Sys, s': Sys)
    requires s' == s.(world := s'.world)
    ensures NiceCellsOk(s) ==> NiceCellsOk(s')
    ensures StopCellsOk(s) ==> StopCellsOk(s')
  {
  }

  lemma NiceCellsLog(s: Sys, e: Event)
    requires NiceCellsOk(s) && !e.Captured? && !e.Niced?
    ensures NiceCellsOk(s.Log(e))
  {
  }

  lemma WorldStaysValid(sg: Safeguards, s: Sys)
    requires Inv(sg, s)
    ensures s.world.Valid()
  {
  }

  lemma SignalNoCell(sg: Safeguards, s: Sys, b: Binding, sig: Signal)
    requires Inv(sg, s) && sg.CheckPID(b.pid) && Revalidate(s.world, b)
    ensures Inv(sg, SendSignal(s, b, None, sig)) && Grows(s, SendSignal(s, b, None, sig))
  {
    var e := Signalled(None, b.pid, b.id, s.world.ReadIdentity(b.pid), sig, s.world.SignalAllowed(b.pid, sig));
    LogKeeps(sg, s, s.world, e);
    assert s.(world := s.world).Log(e) == SendSignal(s, b, None, sig);
  }

  /** An event that is no stop or continue leaves the stop story alone. */
  lemma OtherEvent(s: Sys, e: Event)
    requires StopCellsOk(s) && !(e.Signalled? && e.stopCell.Some?)
    ensures StopCellsOk(s.Log(e))
  {
    assert (s.trace + [e])[..|s.trace|] == s.trace;
  }

  lemma NiceCellsWrite(s: Sys, e: Event)
    requires NiceCellsOk(s) && e.Niced? && e.cell < |s.nices|
    requires var first := s.trace[s.births[e.cell]]; first.Captured? && first.owner == e.owner && first.pid == e.pid
    ensures NiceCellsOk(s.Log(e))
  {
  }

  lemma WriteNiceKeeps(sg: Safeguards, s: Sys, b: Binding, c: nat, value: int)
    requires Inv(sg, s) && sg.CheckPID(b.pid) && Revalidate(s.world, b)
    requires b.nice == Some(c) && BindingInv(sg, s, b)
    ensures Inv(sg, WriteNice(s, b, c, value)) && Grows(s, WriteNice(s, b, c, value))
  {
    var e := Niced(c, b.pid, b.id, s.world.ReadIdentity(b.pid), value, s.world.NiceAllowed(b.pid, value));
    var s1 := s.(world := s.world.SetNice(b.pid, value));
    RevalidatedPid(s.world, b);
    assert s1.births[c] < |s1.trace| && s1.trace[s1.births[c]].Captured?;
    assert s1.trace[s1.births[c]].owner == b.id && s1.trace[s1.births[c]].pid == b.pid;
    hide NiceCellsOk, StopCellsOk, BindingInv;
    SameRecords(s, s1);
    OtherEvent(s1, e);
    NiceCellsWrite(s1, e);
  }

  lemma StopCellsSame(s: Sys, s': Sys)
    requires StopCellsOk(s) && s'.stops == s.stops && s'.stopBirths == s.stopBirths && s'.trace == s.trace
    ensures StopCellsOk(s')
  {
  }

  lemma CaptureKeeps(sg: Safeguards, s: Sys, b: Binding, orig: int)
    requires Inv(sg, s) && sg.CheckPID(b.pid) && Revalidate(s.world, b) && s.world.GetNice(b.pid) == Some(orig)
    ensures Inv(sg, Capture(s, b, orig)) && Grows(s, Capture(s, b, orig))
    ensures BindingInv(sg, s, b) ==> BindingInv(sg, Capture(s, b, orig), b.(nice := Some(|s.nices|)))
  {
    hide StopCellsOk;
    var s1 := s.(nices := s.nices + [NiceField(orig, 0, 0, Unset, Plain)], births := s.births + [|s.trace|]);
    StopCellsSame(s, s1);
    OtherEvent(s1, Captured(|s.nices|, b.pid, b.id, orig));
    RevalidatedPid(s.world, b);
  }

  lemma PushNiceKeeps(sg: Safeguards, s: Sys, b: Binding, c: nat, desired: int)
    requires Inv(sg, s) && sg.CheckPID(b.pid) && Revalidate(s.world, b)
    requires b.nice == Some(c) && BindingInv(sg, s, b)
    ensures Inv(sg, PushNice(s, b, c, desired).sys) && Grows(s, PushNice(s, b, c, desired).sys)
  {
    hide Inv, Grows, BindingInv;
    var s1 := s.PutNice(c, s.Nice(c).(desired := desired));
    PutNiceKeeps(sg, s, c, s.Nice(c).(desired := desired));
    BindingKept(sg, s, s1, b);
    var s2 := WriteNice(s1, b, c, desired);
    WriteNiceKeeps(sg, s1, b, c, desired);
    GrowsTransitive(s, s1, s2);
    PutNiceKeeps(sg, s2, c, s2.Nice(c).(status := Denied, error := KernelRefused));
    ObserveKeeps(sg, s2, b.pid, c);
    GrowsTransitive(s, s2, PushNice(s, b, c, desired).sys);
  }

  lemma ApplyNiceKeeps(sg: Safeguards, s: Sys, b: Binding, desired: int, dryRun: bool)
    requires Inv(sg, s) && BindingInv(sg, s, b)
    ensures Kept(sg, s, b, ApplyNice(sg, s, b, desired, dryRun))
  {
    hide Inv, Grows, BindingInv;
    GrowsReflexive(s);
    if sg.CheckPID(b.pid) && Revalidate(s.world, b) && !dryRun {
      match b.nice
      case Some(c) =>
        PushNiceKeeps(sg, s, b, c, desired);
        BindingKept(sg, s, PushNice(s, b, c, desired).sys, b);
      case None =>
        match s.world.GetNice(b.pid)
        case None =>
        case Some(orig) =>
          var s1, b1 := Capture(s, b, orig), b.(nice := Some(|s.nices|));
          CaptureKeeps(sg, s, b, orig);
          PushNiceKeeps(sg, s1, b1, |s.nices|, desired);
          BindingKept(sg, s1, PushNice(s1, b1, |s.nices|, desired).sys, b1);
          GrowsTransitive(s, s1, PushNice(s1, b1, |s.nices|, desired).sys);
    }
  }

  ghost predicate Kept(sg: Safeguards, s: Sys, b: Binding, d: Done) {
    && Inv(sg, d.sys) && Grows(s, d.sys) && BindingInv(sg, d.sys, d.binding)
    && d.binding.id == b.id && d.binding.pid == b.pid
    && (b.nice.Some? ==> d.binding.nice == b.nice)
    && (b.stop.Some? ==> d.binding.stop == b.stop)
  }

  lemma PidIsSafe(sg: Safeguards, s: Sys, b: Binding)
    requires Inv(sg, s) && BindingInv(sg, s, b) && (b.nice.Some? || b.stop.Some?) && Revalidate(s.world, b)
    ensures sg.CheckPID(b.pid)
  {
    RevalidatedPid(s.world, b);
  }

  lemma PutBackKeeps(sg: Safeguards, s: Sys, b: Binding, c: nat)
    requires Inv(sg, s) && BindingInv(sg, s, b) && b.nice == Some(c) && Revalidate(s.world, b)
    ensures Inv(sg, PutBack(s, b, c).sys) && Grows(s, PutBack(s, b, c).sys)
  {
    hide Inv, Grows, BindingInv;
    PidIsSafe(sg, s, b);
    var f := s.Nice(c);
    var s1 := WriteNice(s, b, c, f.original);
    WriteNiceKeeps(sg, s, b, c, f.original);
    var s2 := s1.PutNice(c, f.(desired := f.original));
    PutNiceKeeps(sg, s1, c, f.(desired := f.original));
    GrowsTransitive(s, s1, s2);
    var s3 := Observe(s2, b.pid, c);
    ObserveKeeps(sg, s2, b.pid, c);
    GrowsTransitive(s, s2, s3);
    PutNiceKeeps(sg, s3, c, s3.Nice(c).(status := Restored));
    GrowsTransitive(s, s3, s3.PutNice(c, s3.Nice(c).(status := Restored)));
  }

  /** No safeguard is consulted here: the captured record is what makes the pid safe. */
  lemma RestoreNiceKeeps(sg: Safeguards, s: Sys, b: Binding, force: bool, dryRun: bool)
    requires Inv(sg, s) && BindingInv(sg, s, b)
    ensures Kept(sg, s, b, RestoreNice(s, b, force, dryRun))
  {
    hide Inv, Grows, BindingInv;
    GrowsReflexive(s);
    if b.nice.Some? && Revalidate(s.world, b) && s.world.GetNice(b.pid).Some? {
      var c := b.nice.value;
      PutNiceKeeps(sg, s, c, s.Nice(c).(observed := s.world.GetNice(b.pid).value, status := Drifted));
      PutBackKeeps(sg, s, b, c);
    }
    BindingKept(sg, s, RestoreNice(s, b, force, dryRun).sys, b);
  }

  lemma WriteAgainKeeps(sg: Safeguards, s: Sys, b: Binding, c: nat, desired: int)
    requires Inv(sg, s) && BindingInv(sg, s, b) && b.nice == Some(c) && Revalidate(s.world, b)
    ensures Inv(sg, WriteAgain(s, b, c, desired)) && Grows(s, WriteAgain(s, b, c, desired))
  {
    hide Inv, Grows, BindingInv;
    PidIsSafe(sg, s, b);
    var s1 := WriteNice(s, b, c, desired);
    WriteNiceKeeps(sg, s, b, c, desired);
    var s2 := s1.PutNice(c, s1.Nice(c).(desired := desired));
    PutNiceKeeps(sg, s1, c, s1.Nice(c).(desired := desired));
    GrowsTransitive(s, s1, s2);
    ObserveKeeps(sg, s2, b.pid, c);
    GrowsTransitive(s, s2, Observe(s2, b.pid, c));
  }

  lemma ReconcileDriftKeeps(sg: Safeguards, s: Sys, b: Binding, c: nat, desired: int, mode: DriftMode)
    requires Inv(sg, s) && BindingInv(sg, s, b) && b.nice == Some(c)
    ensures Kept(sg, s, b, Done(ReconcileDrift(s, b, c, desired, mode), b, []))
  {
    hide Inv, Grows, BindingInv;
    GrowsReflexive(s);
    var f := s.Nice(c);
    if !Revalidate(s.world, b) {
      PutNiceKeeps(sg, s, c, f.(status := Stale));
    } else if s.world.GetNice(b.pid).None? {
      PutNiceKeeps(sg, s, c, f.(status := Vanished));
    } else {
      var obs := s.world.GetNice(b.pid).value;
      var s1 := s.PutNice(c, f.(observed := obs));
      var g := s1.Nice(c);
      PutNiceKeeps(sg, s, c, f.(observed := obs));
      BindingKept(sg, s, s1, b);
      PutNiceKeeps(sg, s1, c, g.(status := Applied));
      PutNiceKeeps(sg, s1, c, g.(status := Drifted));
      PutNiceKeeps(sg, s1, c, g.(desired := obs, status := Applied));
      if obs != desired && mode == Reapply {
        WriteAgainKeeps(sg, s1, b, c, desired);
      }
      GrowsTransitive(s, s1, ReconcileDrift(s, b, c, desired, mode));
    }
    BindingKept(sg, s, ReconcileDrift(s, b, c, desired, mode), b);
  }

  // ---- Stops ----

  lemma LastSignalAppend(trace: seq<Event>, e: Event, c: nat)
    ensures LastSignal(trace + [e], c) ==
            if e.Signalled? && e.stopCell == Some(c) && e.ok then Some(e.sig) else LastSignal(trace, c)
  {
    assert (trace + [e])[..|trace|] == trace;
  }

  lemma {:induction false} FreshCellSilent(trace: seq<Event>, c: nat)
    requires forall e :: e in trace && e.Signalled? && e.stopCell.Some? ==> e.stopCell.value < c
    ensures LastSignal(trace, c) == None
  {
    if trace != [] {
      FreshCellSilent(trace[..|trace| - 1], c);
      assert trace[|trace| - 1] in trace;
    }
  }

  lemma NiceCellsSignal(s: Sys, s': Sys, e: Event)
    requires NiceCellsOk(s) && e.Signalled? && s'.trace == s.trace + [e]
    requires s'.nices == s.nices && s'.births == s.births
    ensures NiceCellsOk(s')
  {
  }

  /** A refused or delivered signal through an existing stop record, with the flag set to match. */
  lemma StopCellsSignal(s: Sys, s': Sys, c: nat, e: Event)
    requires StopCellsOk(s) && c < |s.stops| && e.Signalled? && e.stopCell == Some(c)
    requires e.sig == SigStop || (e.sig == SigCont && s.stops[c].desiredStop)
    requires var first := s.trace[s.stopBirths[c]]; first.Signalled? && first.owner == e.owner && first.pid == e.pid
    requires s'.trace == s.trace + [e] && s'.stopBirths == s.stopBirths && |s'.stops| == |s.stops|
    requires forall d :: 0 <= d < |s.stops| && d != c ==> s'.stops[d] == s.stops[d]
    requires s'.stops[c].desiredStop <==> (if e.ok then e.sig == SigStop else s.stops[c].desiredStop)
    ensures StopCellsOk(s')
  {
    assert s'.trace[..|s.trace|] == s.trace;
    forall d | 0 <= d < |s'.stops|
      ensures s'.stops[d].desiredStop <==> LastSignal(s'.trace, d) == Some(SigStop)
    {
      LastSignalAppend(s.trace, e, d);
    }
  }

  lemma SignalCellKeeps(sg: Safeguards, s: Sys, b: Binding, c: nat, sig: Signal, f: StopField)
    requires Inv(sg, s) && BindingInv(sg, s, b) && b.stop == Some(c) && Revalidate(s.world, b)
    requires sig == SigStop || (sig == SigCont && s.Stop(c).desiredStop)
    requires f.desiredStop <==> (if s.world.SignalAllowed(b.pid, sig) then sig == SigStop else s.Stop(c).desiredStop)
    ensures Inv(sg, SendSignal(s, b, Some(c), sig).PutStop(c, f))
    ensures Grows(s, SendSignal(s, b, Some(c), sig).PutStop(c, f))
  {
    RevalidatedPid(s.world, b);
    var e := Signalled(Some(c), b.pid, b.id, s.world.ReadIdentity(b.pid), sig, s.world.SignalAllowed(b.pid, sig));
    var s' := SendSignal(s, b, Some(c), sig).PutStop(c, f);
    hide NiceCellsOk;
    NiceCellsSignal(s, s', e);
    StopCellsSignal(s, s', c, e);
    hide StopCellsOk;
  }

  lemma StopCellsNew(s: Sys, s': Sys, e: Event)
    requires StopCellsOk(s) && e.Signalled? && e.stopCell == Some(|s.stops|) && e.sig == SigStop && e.ok
    requires s'.trace == s.trace + [e] && s'.stopBirths == s.stopBirths + [|s.trace|]
    requires |s'.stops| == |s.stops| + 1 && s'.stops[..|s.stops|] == s.stops && s'.stops[|s.stops|].desiredStop
    ensures StopCellsOk(s')
  {
    assert s'.trace[..|s.trace|] == s.trace;
    FreshCellSilent(s.trace, |s.stops|);
    forall d | 0 <= d < |s'.stops|
      ensures s'.stops[d].desiredStop <==> LastSignal(s'.trace, d) == Some(SigStop)
    {
      LastSignalAppend(s.trace, e, d);
      if d < |s.stops| {
        assert s'.stops[d] == s'.stops[..|s.stops|][d];
      }
    }
  }

  /** The first stop through a binding creates its record. */
  lemma NewStopCellKeeps(sg: Safeguards, s: Sys, b: Binding, f: StopField)
    requires Inv(sg, s) && BindingInv(sg, s, b) && b.stop.None? && Revalidate(s.world, b) && sg.CheckPID(b.pid)
    requires s.world.SignalAllowed(b.pid, SigStop) && f.desiredStop
    ensures var c := |s.stops|;
            var s' := SendSignal(s, b, Some(c), SigStop).(stops := s.stops + [f], stopBirths := s.stopBirths + [|s.trace|]);
            Inv(sg, s') && Grows(s, s') && BindingInv(sg, s', b.(stop := Some(c)))
  {
    RevalidatedPid(s.world, b);
    var c := |s.stops|;
    var e := Signalled(Some(c), b.pid, b.id, s.world.ReadIdentity(b.pid), SigStop, true);
    var s' := SendSignal(s, b, Some(c), SigStop).(stops := s.stops + [f], stopBirths := s.stopBirths + [|s.trace|]);
    assert |s.stopBirths| == |s.stops|;
    hide NiceCellsOk, StopCellsOk;
    NiceCellsSignal(s, s', e);
    StopCellsNew(s, s', e);
  }

  lemma ApplyStopKeeps(sg: Safeguards, s: Sys, b: Binding, stop: bool, dryRun: bool)
    requires Inv(sg, s) && BindingInv(sg, s, b)
    ensures Kept(sg, s, b, ApplyStop(sg, s, b, stop, dryRun))
  {
    hide Inv, Grows, BindingInv;
    GrowsReflexive(s);
    var sig := if stop then SigStop else SigCont;
    if sg.CheckPID(b.pid) && Revalidate(s.world, b) && (stop || StoppedByUs(s, b)) && !dryRun {
      match b.stop
      case Some(c) =>
        if s.world.SignalAllowed(b.pid, sig) {
          SignalCellKeeps(sg, s, b, c, sig, s.Stop(c).(desiredStop := stop, status := Applied));
        } else {
          SignalCellKeeps(sg, s, b, c, sig, s.Stop(c));
          assert SendSignal(s, b, Some(c), sig).PutStop(c, s.Stop(c)) == SendSignal(s, b, Some(c), sig);
        }
        BindingKept(sg, s, ApplyStop(sg, s, b, stop, dryRun).sys, b);
      case None =>
        if s.world.SignalAllowed(b.pid, sig) {
          NewStopCellKeeps(sg, s, b, StopField(stop, Applied));
        } else {
          SignalNoCell(sg, s, b, sig);
          BindingKept(sg, s, ApplyStop(sg, s, b, stop, dryRun).sys, b);
        }
    }
  }

  lemma RestoreStopKeeps(sg: Safeguards, s: Sys, b: Binding, dryRun: bool)
    requires Inv(sg, s) && BindingInv(sg, s, b)
    ensures Kept(sg, s, b, RestoreStop(s, b, dryRun))
  {
    hide Inv, Grows, BindingInv;
    GrowsReflexive(s);
    if StoppedByUs(s, b) && Revalidate(s.world, b) && !dryRun {
      var c := b.stop.value;
      if s.world.SignalAllowed(b.pid, SigCont) {
        SignalCellKeeps(sg, s, b, c, SigCont, s.Stop(c).(desiredStop := false, status := Restored));
      } else {
        SignalCellKeeps(sg, s, b, c, SigCont, s.Stop(c));
        assert SendSignal(s, b, Some(c), SigCont).PutStop(c, s.Stop(c)) == SendSignal(s, b, Some(c), SigCont);
      }
    }
    BindingKept(sg, s, RestoreStop(s, b, dryRun).sys, b);
  }

  lemma ApplyFreezeKeeps(sg: Safeguards, s: Sys, b: Binding, freeze: bool, force: bool, dryRun: bool, handled: set<string>)
    requires Inv(sg, s) && BindingInv(sg, s, b)
    ensures Kept(sg, s, b, ApplyFreeze(sg, s, b, freeze, force, dryRun, handled))
  {
    hide Inv, Grows, BindingInv;
    GrowsReflexive(s);
    var d := ApplyFreeze(sg, s, b, freeze, force, dryRun, handled);
    if d.sys != s {
      var cg := s.world.ReadCgroupOf(b.pid).value;
      WorldStaysValid(sg, s);
      LogKeeps(sg, s, s.world.FreezeCgroup(cg, freeze),
               Froze(cg, freeze, force, s.world.ReadCgroupOf(sg.selfPid), s.world.FreezeAllowed(cg, freeze)));
    }
    BindingKept(sg, s, d.sys, b);
  }

  lemma PerformKeeps(sg: Safeguards, s: Sys, handled: set<string>, d: Deed, b: Binding)
    requires Inv(sg, s) && BindingInv(sg, s, b)
    ensures Kept(sg, s, b, Perform(sg, s, handled, d, b))
  {
    hide Inv, Grows, BindingInv;
    match d
    case DoNice(desired, dryRun) => ApplyNiceKeeps(sg, s, b, desired, dryRun);
    case DoRestoreNice(dryRun) => RestoreNiceKeeps(sg, s, b, false, dryRun);
    case DoRestore(force, dryRun) =>
      RestoreNiceKeeps(sg, s, b, force, dryRun);
      var n := RestoreNice(s, b, force, dryRun);
      RestoreStopKeeps(sg, n.sys, n.binding, dryRun);
      GrowsTransitive(s, n.sys, RestoreStop(n.sys, n.binding, dryRun).sys);
    case DoStop(stop, dryRun) => ApplyStopKeeps(sg, s, b, stop, dryRun);
    case DoFreeze(freeze, force, dryRun) => ApplyFreezeKeeps(sg, s, b, freeze, force, dryRun, handled);
    case DoReconcile(desired, mode) =>
      match b.nice
      case None => ApplyNiceKeeps(sg, s, b, desired, false);
      case Some(c) => ReconcileDriftKeeps(sg, s, b, c, desired, mode);
  }

  // ---- Passes over bindings ----

  ghost predicate BindingsInv(sg: Safeguards, s: Sys, bs: seq<Binding>) {
    forall b :: b in bs ==> BindingInv(sg, s, b)
  }

  /** A pass keeps each binding's identity and every record it already had. */
  ghost predicate SameBindings(bs: seq<Binding>, bs': seq<Binding>) {
    && |bs'| == |bs|
    && forall i :: 0 <= i < |bs| ==>
         bs'[i].id == bs[i].id && bs'[i].pid == bs[i].pid
         && (bs[i].nice.Some? ==> bs'[i].nice == bs[i].nice)
         && (bs[i].stop.Some? ==> bs'[i].stop == bs[i].stop)
  }

  lemma {:induction false} EachKeeps(sg: Safeguards, s: Sys, d: Deed, bs: seq<Binding>)
    requires Inv(sg, s) && BindingsInv(sg, s, bs)
    ensures var p := Each(sg, s, d, bs);
            Inv(sg, p.sys) && Grows(s, p.sys) && BindingsInv(sg, p.sys, p.bindings) && SameBindings(bs, p.bindings)
  {
    hide Inv, Grows, BindingInv;
    GrowsReflexive(s);
    if bs != [] {
      var front, last := bs[..|bs| - 1], bs[|bs| - 1];
      EachKeeps(sg, s, d, front);
      var p := Each(sg, s, d, front);
      BindingKept(sg, s, p.sys, last);
      PerformKeeps(sg, p.sys, p.handled, d, last);
      var r := Perform(sg, p.sys, p.handled, d, last);
      forall b | b in p.bindings ensures BindingInv(sg, r.sys, b) { BindingKept(sg, p.sys, r.sys, b); }
      GrowsTransitive(s, p.sys, r.sys);
    }
  }
}
