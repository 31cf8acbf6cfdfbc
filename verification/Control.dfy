/**
 The control plane's data and what one call does to one binding.

 A binding points at its nice and stop records; two bindings of the same instance can share a
 record. The records therefore live in arenas and a binding holds an index into them. Beside
 the records runs a trace of every capture and every mutating kernel call.
 */
module Control {
  import opened Options
  import opened Identity
  import opened Kernel
  import FreezeGuard

  datatype Status =
    | Unset | Applied | Unchanged | Drifted | Restored | Unavailable | Vanished | Stale | Denied | Failed | Skipped

  /** Why a result has its status; stands for the message text. */
  datatype Why =
    | Plain | Protected | IdentityChanged | WouldAct | KernelRefused | Gone | NotOurStop
    | NoCgroup | AlreadyHandled | UnsafeFreeze | DriftKept

  datatype NiceField = NiceField(original: int, desired: int, observed: int, status: Status, error: Why)

  datatype StopField = StopField(desiredStop: bool, status: Status)

  datatype Binding = Binding(id: ProcessId, pid: int, name: string, nice: Option<nat>, stop: Option<nat>)

  datatype Result = Result(pid: int, status: Status, why: Why)

  datatype Safeguards = Safeguards(selfPid: int, selfPpid: int)
  {
    predicate CheckPID(pid: int) {
      pid > 1 && pid != selfPid && !(selfPpid != 0 && pid == selfPpid)
    }
  }

  /** `owner` is the identity the binding was made for, `holder` the one the kernel showed at the call. */
  datatype Event =
    | Captured(cell: nat, pid: int, owner: ProcessId, nice: int)
    | Niced(cell: nat, pid: int, owner: ProcessId, holder: Option<ProcessId>, value: int, ok: bool)
    | Signalled(stopCell: Option<nat>, pid: int, owner: ProcessId, holder: Option<ProcessId>, sig: Signal, ok: bool)
    | Froze(cgroup: string, freeze: bool, forced: bool, selfCgroup: Option<string>, ok: bool)

  const NO_NICE := NiceField(0, 0, 0, Unset, Plain)
  const NO_STOP := StopField(false, Unset)

  /**
   `births[c]` is the position in the trace at which nice record `c` was captured and
   `stopBirths[c]` the position of the signal that created stop record `c`.
   */
  datatype Sys = Sys(world: World, nices: seq<NiceField>, stops: seq<StopField>,
                     births: seq<nat>, stopBirths: seq<nat>, trace: seq<Event>)
  {
    function Nice(c: nat): NiceField { if c < |nices| then nices[c] else NO_NICE }
    function Stop(c: nat): StopField { if c < |stops| then stops[c] else NO_STOP }

    function PutNice(c: nat, f: NiceField): Sys {
      if c < |nices| then this.(nices := nices[c := f]) else this
    }

    function PutStop(c: nat, f: StopField): Sys {
      if c < |stops| then this.(stops := stops[c := f]) else this
    }

    function Log(e: Event): Sys { this.(trace := trace + [e]) }
  }

  /** What acting on one binding leaves behind. */
  datatype Done = Done(sys: Sys, binding: Binding, results: seq<Result>)

  function Report(s: Sys, b: Binding, status: Status, why: Why): Done {
    Done(s, b, [Result(b.pid, status, why)])
  }

  predicate Revalidate(w: World, b: Binding) {
    var id := w.ReadIdentity(b.pid);
    id.Some? && id.value.SameProcess(b.id)
  }

  // ---- Nice ----

  function Observe(s: Sys, pid: int, c: nat): Sys {
    var f := s.Nice(c);
    match s.world.GetNice(pid)
    case None => s.PutNice(c, f.(status := Vanished, error := Gone))
    case Some(obs) =>
      if obs == f.desired then s.PutNice(c, f.(observed := obs, status := Applied, error := Plain))
      else s.PutNice(c, f.(observed := obs, status := Drifted))
  }

  function WriteNice(s: Sys, b: Binding, c: nat, value: int): Sys {
    s.(world := s.world.SetNice(b.pid, value))
     .Log(Niced(c, b.pid, b.id, s.world.ReadIdentity(b.pid), value, s.world.NiceAllowed(b.pid, value)))
  }

  /** The original is captured once, from the kernel, before the first write through the record. */
  function Capture(s: Sys, b: Binding, orig: int): Sys {
    s.(nices := s.nices + [NiceField(orig, 0, 0, Unset, Plain)],
       births := s.births + [|s.trace|])
     .Log(Captured(|s.nices|, b.pid, b.id, orig))
  }

  function PushNice(s: Sys, b: Binding, c: nat, desired: int): Done {
    var s1 := s.PutNice(c, s.Nice(c).(desired := desired));
    var s2 := WriteNice(s1, b, c, desired);
    if !s.world.NiceAllowed(b.pid, desired) then
      Report(s2.PutNice(c, s2.Nice(c).(status := Denied, error := KernelRefused)), b, Denied, KernelRefused)
    else
      var s3 := Observe(s2, b.pid, c);
      Report(s3, b, s3.Nice(c).status, s3.Nice(c).error)
  }

  function ApplyNice(sg: Safeguards, s: Sys, b: Binding, desired: int, dryRun: bool): Done {
    if !sg.CheckPID(b.pid) then Report(s, b, Skipped, Protected)
    else if !Revalidate(s.world, b) then Report(s, b, Stale, IdentityChanged)
    else if dryRun then Report(s, b, Unchanged, WouldAct)
    else match b.nice
      case Some(c) => PushNice(s, b, c, desired)
      case None =>
        match s.world.GetNice(b.pid)
        case None => Report(s, b, Failed, Gone)
        case Some(orig) => PushNice(Capture(s, b, orig), b.(nice := Some(|s.nices|)), |s.nices|, desired)
  }

  function PutBack(s: Sys, b: Binding, c: nat): Done {
    var f := s.Nice(c);
    var s1 := WriteNice(s, b, c, f.original);
    if !s.world.NiceAllowed(b.pid, f.original) then Report(s1, b, Denied, KernelRefused)
    else
      var s2 := Observe(s1.PutNice(c, f.(desired := f.original)), b.pid, c);
      Report(s2.PutNice(c, s2.Nice(c).(status := Restored)), b, Restored, Plain)
  }

  function RestoreNice(s: Sys, b: Binding, force: bool, dryRun: bool): Done {
    match b.nice
    case None => Done(s, b, [])
    case Some(c) =>
      var f := s.Nice(c);
      if !Revalidate(s.world, b) then Report(s, b, Stale, IdentityChanged)
      else match s.world.GetNice(b.pid)
        case None => Report(s, b, Vanished, Gone)
        case Some(obs) =>
          if obs != f.desired && !force then
            if dryRun then Report(s, b, Drifted, DriftKept)
            else Report(s.PutNice(c, f.(observed := obs, status := Drifted)), b, Drifted, DriftKept)
          else if dryRun then Report(s, b, Unchanged, WouldAct)
          else PutBack(s, b, c)
  }

  /** The desired value becomes the record's only once the kernel has taken it. */
  function WriteAgain(s: Sys, b: Binding, c: nat, desired: int): Sys {
    var s1 := WriteNice(s, b, c, desired);
    if !s.world.NiceAllowed(b.pid, desired) then s1
    else Observe(s1.PutNice(c, s1.Nice(c).(desired := desired)), b.pid, c)
  }

  /** Drift handling for a binding whose original is already captured. */
  function ReconcileDrift(s: Sys, b: Binding, c: nat, desired: int, mode: DriftMode): Sys {
    var f := s.Nice(c);
    if !Revalidate(s.world, b) then s.PutNice(c, f.(status := Stale))
    else match s.world.GetNice(b.pid)
      case None => s.PutNice(c, f.(status := Vanished))
      case Some(obs) =>
        var s1 := s.PutNice(c, f.(observed := obs));
        var g := s1.Nice(c);
        if obs == desired then s1.PutNice(c, g.(status := Applied))
        else match mode
          case Reapply => WriteAgain(s1, b, c, desired)
          case Adopt => s1.PutNice(c, g.(desired := obs, status := Applied))
          case Ignore => s1.PutNice(c, g.(status := Applied))
          case ReportDrift => s1.PutNice(c, g.(status := Drifted))
  }

  datatype DriftMode = ReportDrift | Reapply | Adopt | Ignore

  function NormalizeDrift(mode: string): DriftMode {
    if mode == "reapply" then Reapply
    else if mode == "adopt" then Adopt
    else if mode == "ignore" then Ignore
    else ReportDrift
  }

  // ---- Stop ----

  function SendSignal(s: Sys, b: Binding, cell: Option<nat>, sig: Signal): Sys {
    s.Log(Signalled(cell, b.pid, b.id, s.world.ReadIdentity(b.pid), sig, s.world.SignalAllowed(b.pid, sig)))
  }

  predicate StoppedByUs(s: Sys, b: Binding) {
    b.stop.Some? && s.Stop(b.stop.value).desiredStop
  }

  function ApplyStop(sg: Safeguards, s: Sys, b: Binding, stop: bool, dryRun: bool): Done {
    var sig := if stop then SigStop else SigCont;
    if !sg.CheckPID(b.pid) then Report(s, b, Skipped, Protected)
    else if !Revalidate(s.world, b) then Report(s, b, Stale, IdentityChanged)
    else if !stop && !StoppedByUs(s, b) then Report(s, b, Skipped, NotOurStop)
    else if dryRun then Report(s, b, Unchanged, WouldAct)
    else if !s.world.SignalAllowed(b.pid, sig) then Report(SendSignal(s, b, b.stop, sig), b, Failed, KernelRefused)
    else
      match b.stop
      case Some(c) =>
        Report(SendSignal(s, b, b.stop, sig).PutStop(c, s.Stop(c).(desiredStop := stop, status := Applied)),
               b, Applied, Plain)
      case None =>
        var c := |s.stops|;
        Report(SendSignal(s, b, Some(c), sig).(stops := s.stops + [StopField(stop, Applied)],
                                               stopBirths := s.stopBirths + [|s.trace|]),
               b.(stop := Some(c)), Applied, Plain)
  }

  function RestoreStop(s: Sys, b: Binding, dryRun: bool): Done {
    if !StoppedByUs(s, b) then Done(s, b, [])
    else if !Revalidate(s.world, b) then Report(s, b, Stale, IdentityChanged)
    else if dryRun then Report(s, b, Unchanged, WouldAct)
    else
      var s1 := SendSignal(s, b, b.stop, SigCont);
      if !s.world.SignalAllowed(b.pid, SigCont) then Report(s1, b, Denied, KernelRefused)
      else
        var c := b.stop.value;
        Report(s1.PutStop(c, s.Stop(c).(desiredStop := false, status := Restored)), b, Restored, Plain)
  }

  // ---- Freeze ----

  function SelfCgroup(sg: Safeguards, w: World): string {
    match w.ReadCgroupOf(sg.selfPid)
    case None => ""
    case Some(cg) => cg
  }

  function HandledAfter(sg: Safeguards, w: World, b: Binding, handled: set<string>): set<string> {
    match w.ReadCgroupOf(b.pid)
    case None => handled
    case Some(cg) => if sg.CheckPID(b.pid) && cg != "" then handled + {cg} else handled
  }

  function ApplyFreeze(sg: Safeguards, s: Sys, b: Binding, freeze: bool, force: bool, dryRun: bool,
                       handled: set<string>): Done
  {
    if !sg.CheckPID(b.pid) then Report(s, b, Skipped, Protected)
    else match s.world.ReadCgroupOf(b.pid)
      case None => Report(s, b, Unavailable, NoCgroup)
      case Some(cg) =>
        if cg == "" then Report(s, b, Unavailable, NoCgroup)
        else if cg in handled then Report(s, b, Unchanged, AlreadyHandled)
        else if freeze && !force && !FreezeGuard.FreezeSafety(cg, SelfCgroup(sg, s.world)) then
          Report(s, b, Skipped, UnsafeFreeze)
        else if dryRun then Report(s, b, Unchanged, WouldAct)
        else
          var ok := s.world.FreezeAllowed(cg, freeze);
          var s1 := s.(world := s.world.FreezeCgroup(cg, freeze))
                     .Log(Froze(cg, freeze, force, s.world.ReadCgroupOf(sg.selfPid), ok));
          if ok then Report(s1, b, Applied, Plain) else Report(s1, b, Failed, KernelRefused)
  }

  // ---- One deed over a list of bindings ----

  datatype Deed =
    | DoNice(desired: int, dryRun: bool)
    | DoRestoreNice(dryRun: bool)
    | DoRestore(force: bool, dryRun: bool)
    | DoStop(stop: bool, dryRun: bool)
    | DoFreeze(freeze: bool, force: bool, dryRun: bool)
    | DoReconcile(desired: int, mode: DriftMode)

  function Perform(sg: Safeguards, s: Sys, handled: set<string>, d: Deed, b: Binding): Done {
    match d
    case DoNice(desired, dryRun) => ApplyNice(sg, s, b, desired, dryRun)
    case DoRestoreNice(dryRun) => RestoreNice(s, b, false, dryRun)
    case DoRestore(force, dryRun) =>
      var n := RestoreNice(s, b, force, dryRun);
      var t := RestoreStop(n.sys, n.binding, dryRun);
      Done(t.sys, t.binding, n.results + t.results)
    case DoStop(stop, dryRun) => ApplyStop(sg, s, b, stop, dryRun)
    case DoFreeze(freeze, force, dryRun) => ApplyFreeze(sg, s, b, freeze, force, dryRun, handled)
    case DoReconcile(desired, mode) =>
      match b.nice
      case None => ApplyNice(sg, s, b, desired, false)
      case Some(c) => Done(ReconcileDrift(s, b, c, desired, mode), b, [])
  }

  function NextHandled(sg: Safeguards, w: World, handled: set<string>, d: Deed, b: Binding): set<string> {
    if d.DoFreeze? then HandledAfter(sg, w, b, handled) else handled
  }

  /** A pass over bindings in order; `handled` holds the cgroups already acted on in this call. */
  datatype Pass = Pass(sys: Sys, handled: set<string>, bindings: seq<Binding>, results: seq<Result>)

  function Each(sg: Safeguards, s: Sys, d: Deed, bs: seq<Binding>): Pass {
    if bs == [] then Pass(s, {}, [], [])
    else
      var p := Each(sg, s, d, bs[..|bs| - 1]);
      Then(sg, p, d, bs[|bs| - 1])
  }

  function Then(sg: Safeguards, p: Pass, d: Deed, b: Binding): Pass {
    var r := Perform(sg, p.sys, p.handled, d, b);
    Pass(r.sys, NextHandled(sg, p.sys.world, p.handled, d, b), p.bindings + [r.binding], p.results + r.results)
  }
}
