/** The manager's operations as functions on its whole state, and runs of them. */
module Operations {
  import opened Options
  import opened Identity
  import opened Kernel
  import opened Control

  datatype Mode = Follow | Snapshot

  datatype Origin = Runtime | Config

  datatype Target = Target(
    id: string, name: string, origin: Origin, mode: Mode, selector: string, snapshotIds: seq<ProcessId>,
    desiredNice: Option<int>, desiredStop: Option<bool>, desiredFreeze: Option<bool>, onDrift: DriftMode,
    bindings: seq<Binding>, active: bool)

  datatype Instance = Instance(id: ProcessId, pid: int, name: string)

  datatype Policy = Policy(name: string, selector: string, nice: Option<int>, stop: Option<bool>, onDrift: string)

  datatype State = State(targets: seq<Target>, generation: nat, sys: Sys)

  /** NotFound is the error for an unknown target. */
  datatype Outcome = NotFound | Ran(results: seq<Result>)

  const FRESH_CELLS := Sys(World(map[], {}, {}), [], [], [], [], [])

  function Fresh(w: World): State { State([], 0, FRESH_CELLS.(world := w)) }

  predicate Named(t: Target, idOrName: string) { t.id == idOrName || t.name == idOrName }

  function FindFrom(ts: seq<Target>, idOrName: string, i: nat): (r: Option<nat>)
    requires i <= |ts|
    ensures r.Some? ==> i <= r.value < |ts| && Named(ts[r.value], idOrName)
    ensures r.Some? ==> forall j :: i <= j < r.value ==> !Named(ts[j], idOrName)
    ensures r.None? ==> forall j :: i <= j < |ts| ==> !Named(ts[j], idOrName)
    decreases |ts| - i
  {
    if i == |ts| then None
    else if Named(ts[i], idOrName) then Some(i)
    else FindFrom(ts, idOrName, i + 1)
  }

  function Find(ts: seq<Target>, idOrName: string): (r: Option<nat>)
    ensures r.Some? ==> r.value < |ts| && Named(ts[r.value], idOrName)
  {
    FindFrom(ts, idOrName, 0)
  }

  // ---- Membership ----

  /** The last binding with each key, as the map built in one sweep holds it. */
  function ByKey(bs: seq<Binding>): map<string, Binding> {
    if bs == [] then map[] else ByKey(bs[..|bs| - 1])[bs[|bs| - 1].id.Key() := bs[|bs| - 1]]
  }

  function BindOne(prev: map<string, Binding>, inst: Instance): Binding {
    var key := inst.id.Key();
    if key in prev then
      Binding(inst.id, inst.pid, if inst.name == "" then prev[key].name else inst.name, prev[key].nice, prev[key].stop)
    else
      Binding(inst.id, inst.pid, inst.name, None, None)
  }

  function BindAll(prev: map<string, Binding>, insts: seq<Instance>): seq<Binding> {
    seq(|insts|, i requires 0 <= i < |insts| => BindOne(prev, insts[i]))
  }

  function Bound(t: Target, insts: seq<Instance>): Target {
    var bs := BindAll(ByKey(t.bindings), insts);
    t.(bindings := bs, active := bs != [])
  }

  function BindInstances(st: State, i: nat, insts: seq<Instance>): State
    requires i < |st.targets|
  {
    st.(targets := st.targets[i := Bound(st.targets[i], insts)], generation := st.generation + 1)
  }

  function Ids(insts: seq<Instance>): seq<ProcessId> {
    seq(|insts|, i requires 0 <= i < |insts| => insts[i].id)
  }

  function NewTarget(name: string, mode: Mode, selector: string): Target {
    Target("runtime:" + name, name, Runtime, mode, selector, [], None, None, None, ReportDrift, [], false)
  }

  function ManageAt(st: State, i: nat, mode: Mode, insts: seq<Instance>): State
    requires i < |st.targets|
  {
    var t := st.targets[i].(mode := mode);
    var t' := if mode == Snapshot then t.(snapshotIds := Ids(insts)) else t;
    BindInstances(st.(targets := st.targets[i := t']), i, insts)
  }

  function Manage(st: State, name: string, mode: Mode, selector: string, insts: seq<Instance>): State {
    match Find(st.targets, name)
    case Some(i) => ManageAt(st, i, mode, insts)
    case None =>
      ManageAt(st.(targets := st.targets + [NewTarget(name, mode, selector)]), |st.targets|, mode, insts)
  }

  function Rebind(st: State, target: string, insts: seq<Instance>): (State, Outcome) {
    match Find(st.targets, target)
    case None => (st, NotFound)
    case Some(i) =>
      if st.targets[i].mode == Snapshot then (st, Ran([])) else (BindInstances(st, i, insts), Ran([]))
  }

  function Unmanage(st: State, target: string): (State, Outcome) {
    match Find(st.targets, target)
    case None => (st, NotFound)
    case Some(i) => (st.(targets := st.targets[..i] + st.targets[i + 1..]), Ran([]))
  }

  // ---- Control ----

  /** Perform one deed on every binding of target `i` and store the bindings back. */
  function OnTarget(sg: Safeguards, st: State, i: nat, d: Deed): (State, seq<Result>)
    requires i < |st.targets|
  {
    var p := Each(sg, st.sys, d, st.targets[i].bindings);
    (st.(targets := st.targets[i := st.targets[i].(bindings := p.bindings)], sys := p.sys), p.results)
  }

  function WithTarget(st: State, i: nat, t: Target): State
    requires i < |st.targets|
  {
    st.(targets := st.targets[i := t])
  }

  /** The intent is recorded even by a dry run. */
  function SetNice(sg: Safeguards, st: State, target: string, nice: int, dryRun: bool): (State, Outcome) {
    match Find(st.targets, target)
    case None => (st, NotFound)
    case Some(i) =>
      var st1 := WithTarget(st, i, st.targets[i].(desiredNice := Some(nice)));
      var (st2, rs) := OnTarget(sg, st1, i, DoNice(nice, dryRun));
      (st2, Ran(rs))
  }

  function SetStop(sg: Safeguards, st: State, target: string, stop: bool, dryRun: bool): (State, Outcome) {
    match Find(st.targets, target)
    case None => (st, NotFound)
    case Some(i) =>
      var st1 := if dryRun then st else WithTarget(st, i, st.targets[i].(desiredStop := Some(stop)));
      var (st2, rs) := OnTarget(sg, st1, i, DoStop(stop, dryRun));
      (st2, Ran(rs))
  }

  function SetFreeze(sg: Safeguards, st: State, target: string, freeze: bool, force: bool, dryRun: bool): (State, Outcome) {
    match Find(st.targets, target)
    case None => (st, NotFound)
    case Some(i) =>
      var st1 := if dryRun then st else WithTarget(st, i, st.targets[i].(desiredFreeze := Some(freeze)));
      var (st2, rs) := OnTarget(sg, st1, i, DoFreeze(freeze, force, dryRun));
      (st2, Ran(rs))
  }

  function RestoreNiceOf(sg: Safeguards, st: State, target: string, dryRun: bool): (State, Outcome) {
    match Find(st.targets, target)
    case None => (st, NotFound)
    case Some(i) =>
      var (st1, rs) := OnTarget(sg, st, i, DoRestoreNice(dryRun));
      (if dryRun then st1 else WithTarget(st1, i, st1.targets[i].(desiredNice := None)), Ran(rs))
  }

  /** The thaw that goes first, when a freeze is intended. */
  function ThawFirst(sg: Safeguards, st: State, i: nat, dryRun: bool): (r: (State, seq<Result>))
    requires i < |st.targets|
    ensures |r.0.targets| == |st.targets|
  {
    if st.targets[i].desiredFreeze == Some(true) then OnTarget(sg, st, i, DoFreeze(false, false, dryRun)) else (st, [])
  }

  function Restore(sg: Safeguards, st: State, target: string, force: bool, dryRun: bool): (State, Outcome) {
    match Find(st.targets, target)
    case None => (st, NotFound)
    case Some(i) =>
      var (st1, rs1) := ThawFirst(sg, st, i, dryRun);
      var (st2, rs2) := OnTarget(sg, st1, i, DoRestore(force, dryRun));
      var t := st2.targets[i];
      (if dryRun then st2
       else WithTarget(st2, i, t.(desiredNice := None, desiredStop := None, desiredFreeze := None)),
       Ran(rs1 + rs2))
  }

  function SignalOne(sg: Safeguards, s: Sys, inst: Instance, sig: Signal, dryRun: bool): (Sys, Result) {
    var b := Binding(inst.id, inst.pid, inst.name, None, None);
    if !sg.CheckPID(inst.pid) then (s, Result(inst.pid, Skipped, Protected))
    else if !Revalidate(s.world, b) then (s, Result(inst.pid, Stale, IdentityChanged))
    else if dryRun then (s, Result(inst.pid, Unchanged, WouldAct))
    else if !s.world.SignalAllowed(inst.pid, sig) then
      (SendSignal(s, b, None, sig), Result(inst.pid, Failed, KernelRefused))
    else (SendSignal(s, b, None, sig), Result(inst.pid, Applied, Plain))
  }

  function SignalAll(sg: Safeguards, s: Sys, insts: seq<Instance>, sig: Signal, dryRun: bool): (Sys, seq<Result>) {
    if insts == [] then (s, [])
    else
      var (s1, rs) := SignalAll(sg, s, insts[..|insts| - 1], sig, dryRun);
      var (s2, r) := SignalOne(sg, s1, insts[|insts| - 1], sig, dryRun);
      (s2, rs + [r])
  }

  function SignalInstances(sg: Safeguards, st: State, insts: seq<Instance>, sig: Signal, dryRun: bool): (State, Outcome) {
    var (s, rs) := SignalAll(sg, st.sys, insts, sig, dryRun);
    (st.(sys := s), Ran(rs))
  }

  // ---- Policies ----

  function ConfigByName(ts: seq<Target>): map<string, Target> {
    if ts == [] then map[]
    else
      var m := ConfigByName(ts[..|ts| - 1]);
      var t := ts[|ts| - 1];
      if t.origin == Config then m[t.name := t] else m
  }

  function RuntimeOnly(ts: seq<Target>): seq<Target> {
    if ts == [] then []
    else
      var kept := RuntimeOnly(ts[..|ts| - 1]);
      var t := ts[|ts| - 1];
      if t.origin == Config then kept else kept + [t]
  }

  function PolicyTarget(prev: map<string, Target>, p: Policy): Target {
    Target("config:" + p.name, p.name, Config, Follow, p.selector, [],
           p.nice, p.stop, None, NormalizeDrift(p.onDrift),
           if p.name in prev then prev[p.name].bindings else [], false)
  }

  function PolicyTargets(prev: map<string, Target>, ps: seq<Policy>): seq<Target> {
    seq(|ps|, i requires 0 <= i < |ps| => PolicyTarget(prev, ps[i]))
  }

  function SetPolicies(st: State, ps: seq<Policy>): State {
    st.(targets := RuntimeOnly(st.targets) + PolicyTargets(ConfigByName(st.targets), ps))
  }

  /** A selector outside `resolve` fails to resolve and its target is left alone this time. */
  type Resolver = map<string, seq<Instance>>

  function ReconcileOne(sg: Safeguards, st: State, i: nat, resolve: Resolver): (r: State)
    requires i < |st.targets|
    ensures |r.targets| == |st.targets|
    ensures forall j :: 0 <= j < |st.targets| && j != i ==> r.targets[j] == st.targets[j]
  {
    var t := st.targets[i];
    if t.origin != Config || t.selector !in resolve then st
    else
      var st1 := BindInstances(st, i, resolve[t.selector]);
      if t.desiredNice.None? then st1
      else OnTarget(sg, st1, i, DoReconcile(t.desiredNice.value, t.onDrift)).0
  }

  function ReconcileUpTo(sg: Safeguards, st: State, n: nat, resolve: Resolver): (r: State)
    requires n <= |st.targets|
    ensures |r.targets| == |st.targets|
    ensures forall j :: n <= j < |st.targets| ==> r.targets[j] == st.targets[j]
  {
    if n == 0 then st else ReconcileOne(sg, ReconcileUpTo(sg, st, n - 1, resolve), n - 1, resolve)
  }

  function Reconcile(sg: Safeguards, st: State, resolve: Resolver): State {
    ReconcileUpTo(sg, st, |st.targets|, resolve)
  }

  /** State saved under another boot: its targets are adopted without their bindings. */
  function AdoptOldBoot(st: State, targets: seq<Target>, generation: nat): State {
    st.(targets := Unbound(targets), generation := generation)
  }

  function Unbound(ts: seq<Target>): seq<Target> {
    seq(|ts|, i requires 0 <= i < |ts| => ts[i].(bindings := [], active := false))
  }

  // ---- Runs ----

  datatype Op =
    | OpManage(name: string, mode: Mode, selector: string, insts: seq<Instance>)
    | OpRebind(target: string, insts: seq<Instance>)
    | OpUnmanage(target: string)
    | OpSetNice(target: string, nice: int, dryRun: bool)
    | OpSetStop(target: string, stop: bool, dryRun: bool)
    | OpSetFreeze(target: string, freeze: bool, force: bool, dryRun: bool)
    | OpRestoreNice(target: string, dryRun: bool)
    | OpRestore(target: string, force: bool, dryRun: bool)
    | OpSignal(insts: seq<Instance>, sig: Signal, dryRun: bool)
    | OpSetPolicies(policies: seq<Policy>)
    | OpReconcile(resolve: Resolver)
    | OpAdoptOldBoot(targets: seq<Target>, generation: nat)
    | Environment(world: World)

  function Apply(sg: Safeguards, st: State, op: Op): (State, Outcome) {
    match op
    case OpManage(name, mode, selector, insts) => (Manage(st, name, mode, selector, insts), Ran([]))
    case OpRebind(target, insts) => Rebind(st, target, insts)
    case OpUnmanage(target) => Unmanage(st, target)
    case OpSetNice(target, nice, dryRun) => SetNice(sg, st, target, nice, dryRun)
    case OpSetStop(target, stop, dryRun) => SetStop(sg, st, target, stop, dryRun)
    case OpSetFreeze(target, freeze, force, dryRun) => SetFreeze(sg, st, target, freeze, force, dryRun)
    case OpRestoreNice(target, dryRun) => RestoreNiceOf(sg, st, target, dryRun)
    case OpRestore(target, force, dryRun) => Restore(sg, st, target, force, dryRun)
    case OpSignal(insts, sig, dryRun) => SignalInstances(sg, st, insts, sig, dryRun)
    case OpSetPolicies(policies) => (SetPolicies(st, policies), Ran([]))
    case OpReconcile(resolve) => (Reconcile(sg, st, resolve), Ran([]))
    case OpAdoptOldBoot(targets, generation) => (AdoptOldBoot(st, targets, generation), Ran([]))
    case Environment(world) => (st.(sys := st.sys.(world := world)), Ran([]))
  }

  function Run(sg: Safeguards, st: State, ops: seq<Op>): State {
    if ops == [] then st else Apply(sg, Run(sg, st, ops[..|ops| - 1]), ops[|ops| - 1]).0
  }

  /** Every kernel the environment installs is a possible one. */
  ghost predicate RealWorlds(ops: seq<Op>) {
    forall op :: op in ops && op.Environment? ==> op.world.Valid()
  }
}
