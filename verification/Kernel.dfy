/**
 The processes the control plane acts on, behind the controller port.

 Within one operation the kernel answers consistently: a call in `denied` fails, any other
 call on an existing process succeeds. Between operations the environment may put any other
 kernel in its place: processes start, exit, are reniced, and pids are reused.
 */
module Kernel {
  import opened Options
  import opened Identity

  datatype Signal = SigStop | SigCont | SigTerm | SigKill | SigHup | SigInt | SigOther(name: string)

  datatype Proc = Proc(id: ProcessId, idReadable: bool, nice: int, niceReadable: bool, cgroup: Option<string>)

  datatype Call =
    | NiceCall(pid: int, nice: int)
    | SignalCall(pid: int, sig: Signal)
    | FreezeCall(cgroup: string, freeze: bool)

  const NICE_MIN := -20
  const NICE_MAX := 19

  /** setpriority(2) clamps a value outside -20..19 silently. */
  function Clamp(nice: int): int {
    if nice < NICE_MIN then NICE_MIN else if nice > NICE_MAX then NICE_MAX else nice
  }

  datatype World = World(procs: map<int, Proc>, frozen: set<string>, denied: set<Call>)
  {
    /** A process directory shows its own pid, and nice values are in range. */
    ghost predicate Valid() {
      forall pid :: pid in procs ==>
        procs[pid].id.pid == pid && NICE_MIN <= procs[pid].nice <= NICE_MAX
    }

    function ReadIdentity(pid: int): Option<ProcessId> {
      if pid in procs && procs[pid].idReadable then Some(procs[pid].id) else None
    }

    function GetNice(pid: int): Option<int> {
      if pid in procs && procs[pid].niceReadable then Some(procs[pid].nice) else None
    }

    function ReadCgroupOf(pid: int): Option<string> {
      if pid in procs then procs[pid].cgroup else None
    }

    predicate NiceAllowed(pid: int, nice: int) {
      pid in procs && NiceCall(pid, nice) !in denied
    }

    function SetNice(pid: int, nice: int): World {
      if NiceAllowed(pid, nice) then this.(procs := procs[pid := procs[pid].(nice := Clamp(nice))]) else this
    }

    predicate SignalAllowed(pid: int, sig: Signal) {
      pid in procs && SignalCall(pid, sig) !in denied
    }

    predicate FreezeAllowed(cgroup: string, freeze: bool) {
      FreezeCall(cgroup, freeze) !in denied
    }

    function FreezeCgroup(cgroup: string, freeze: bool): World {
      if !FreezeAllowed(cgroup, freeze) then this
      else if freeze then this.(frozen := frozen + {cgroup})
      else this.(frozen := frozen - {cgroup})
    }
  }

  /** The controller port over a mutable kernel. */
  class Controller {
    var world: World

    constructor (world: World)
      ensures this.world == world
    {
      this.world := world;
    }

    method ReadIdentity(pid: int) returns (id: Option<ProcessId>)
      ensures id == world.ReadIdentity(pid)
    {
      id := None;
      if pid in world.procs && world.procs[pid].idReadable {
        id := Some(world.procs[pid].id);
      }
    }

    method GetNice(pid: int) returns (nice: Option<int>)
      ensures nice == world.GetNice(pid)
    {
      nice := None;
      if pid in world.procs && world.procs[pid].niceReadable {
        nice := Some(world.procs[pid].nice);
      }
    }

    method ReadCgroupOf(pid: int) returns (cgroup: Option<string>)
      ensures cgroup == world.ReadCgroupOf(pid)
    {
      cgroup := None;
      if pid in world.procs {
        cgroup := world.procs[pid].cgroup;
      }
    }

    method SetNice(pid: int, nice: int) returns (ok: bool)
      modifies this
      ensures ok == old(world).NiceAllowed(pid, nice)
      ensures world == old(world).SetNice(pid, nice)
    {
      ok := world.NiceAllowed(pid, nice);
      if ok {
        world := world.(procs := world.procs[pid := world.procs[pid].(nice := Clamp(nice))]);
      }
    }

    method SendSignal(pid: int, sig: Signal) returns (ok: bool)
      ensures ok == world.SignalAllowed(pid, sig)
    {
      ok := world.SignalAllowed(pid, sig);
    }

    method FreezeCgroup(cgroup: string, freeze: bool) returns (ok: bool)
      modifies this
      ensures ok == old(world).FreezeAllowed(cgroup, freeze)
      ensures world == old(world).FreezeCgroup(cgroup, freeze)
    {
      ok := world.FreezeAllowed(cgroup, freeze);
      if ok {
        world := world.(frozen := if freeze then world.frozen + {cgroup} else world.frozen - {cgroup});
      }
    }
  }
}
