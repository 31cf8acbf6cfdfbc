/** How captured originals follow a process through rebinds, policy reloads and reconciles. */
module ControlRecords {
  import opened Options
  import opened Identity
  import opened Kernel
  import opened Control
  import opened Operations
  import opened ControlSafety
  import opened ControlRuns
  import opened ControlRestore
  import opened ControlFrame

  /** No two targets share a name and an origin. */
  ghost predicate NamesDistinct(ts: seq<Target>) {
    forall i, j :: 0 <= i < j < |ts| ==> ts[i].name != ts[j].name || ts[i].origin != ts[j].origin
  }

  ghost predicate IdsDistinct(bs: seq<Binding>) {
    forall i, j :: 0 <= i < j < |bs| ==> bs[i].id != bs[j].id
  }

  ghost predicate Orderly(ts: seq<Target>) {
    NamesDistinct(ts) && forall t :: t in ts ==> IdsDistinct(t.bindings)
  }

  /** Each list of instances and policies names each process and policy once. */
  ghost predicate InstancesOnce(insts: seq<Instance>) {
    forall i, j :: 0 <= i < j < |insts| ==> insts[i].id != insts[j].id
  }

  ghost predicate OrderlyOp(op: Op) {
    match op
    case OpManage(_, _, _, insts) => InstancesOnce(insts)
    case OpRebind(_, insts) => InstancesOnce(insts)
    case OpReconcile(resolve) => forall sel :: sel in resolve ==> InstancesOnce(resolve[sel])
    case OpSetPolicies(ps) => forall i, j :: 0 <= i < j < |ps| ==> ps[i].name != ps[j].name
    case OpAdoptOldBoot(ts, _) => NamesDistinct(ts)
    case _ => true
  }

  /** A process still listed under the same target keeps the nice record it had. */
  ghost predicate RecordsFollow(ts: seq<Target>, ts': seq<Target>) {
    forall t, t', b, b' ::
      t in ts && t' in ts' && t.name == t'.name && t.origin == t'.origin
      && b in t.bindings && b' in t'.bindings && b'.id == b.id && b.nice.Some?
      ==> b'.nice == b.nice
  }

  ghost predicate BindingsFollow(bs: seq<Binding>, bs': seq<Binding>) {
    forall b, b' :: b in bs && b' in bs' && b'.id == b.id && b.nice.Some? ==> b'.nice == b.nice
  }

  ghost predicate TargetFollows(t: Target, t': Target) {
    t'.name == t.name && t'.origin == t.origin && IdsDistinct(t'.bindings) && BindingsFollow(t.bindings, t'.bindings)
  }

  ghost predicate AllFollow(ts: seq<Target>, ts': seq<Target>) {
    |ts'| == |ts| && forall i :: 0 <= i < |ts| ==> TargetFollows(ts[i], ts'[i])
  }

  lemma AllFollowOrderly(ts: seq<Target>, ts': seq<Target>)
    requires Orderly(ts) && AllFollow(ts, ts')
    ensures Orderly(ts') && RecordsFollow(ts, ts')
  {
    forall t, t', b, b' |
      t in ts && t' in ts' && t.name == t'.name && t.origin == t'.origin
      && b in t.bindings && b' in t'.bindings && b'.id == b.id && b.nice.Some?
      ensures b'.nice == b.nice
    {
      var i :| 0 <= i < |ts| && ts[i] == t;
      var j :| 0 <= j < |ts'| && ts'[j] == t';
      assert TargetFollows(ts[j], ts'[j]);
      assert i == j;
    }
  }

  lemma SelfFollows(t: Target)
    requires IdsDistinct(t.bindings)
    ensures TargetFollows(t, t)
  {
  }

  /** Replacing one target by a follower of it. */
  lemma ReplaceFollows(ts: seq<Target>, i: nat, t: Target)
    requires Orderly(ts) && i < |ts| && TargetFollows(ts[i], t)
    ensures AllFollow(ts, ts[i := t])
  {
    forall j | 0 <= j < |ts| ensures TargetFollows(ts[j], ts[i := t][j]) {
      if j != i {
        SelfFollows(ts[j]);
      }
    }
  }

  lemma {:induction false} ByKeyUnique(bs: seq<Binding>, b: Binding)
    requires IdsDistinct(bs) && b in bs
    ensures b.id.Key() in ByKey(bs) && ByKey(bs)[b.id.Key()] == b
  {
    var front, last := bs[..|bs| - 1], bs[|bs| - 1];
    if b != last {
      assert b in front;
      ByKeyUnique(front, b);
      KeyInjective(b.id, last.id);
      var j :| 0 <= j < |front| && front[j] == b;
      assert bs[j].id != last.id;
    }
  }

  lemma BoundFollows(t: Target, insts: seq<Instance>)
    requires IdsDistinct(t.bindings) && InstancesOnce(insts)
    ensures TargetFollows(t, Bound(t, insts))
  {
    forall b, b' | b in t.bindings && b' in Bound(t, insts).bindings && b'.id == b.id
      ensures b'.nice == b.nice
    {
      ByKeyUnique(t.bindings, b);
    }
  }

  lemma {:induction false} EachSame(sg: Safeguards, s: Sys, d: Deed, bs: seq<Binding>)
    ensures SameBindings(bs, Each(sg, s, d, bs).bindings)
  {
    hide Perform, NextHandled;
    if bs != [] {
      var front := bs[..|bs| - 1];
      EachSame(sg, s, d, front);
      var p := Each(sg, s, d, front);
      PerformBinding(sg, p.sys, p.handled, d, bs[|bs| - 1]);
    }
  }

  lemma SameFollows(t: Target, t': Target)
    requires IdsDistinct(t.bindings) && SameBindings(t.bindings, t'.bindings) && t'.name == t.name && t'.origin == t.origin
    ensures TargetFollows(t, t')
  {
  }

  lemma FollowsThenSame(t: Target, t': Target, t'': Target)
    requires TargetFollows(t, t') && SameBindings(t'.bindings, t''.bindings) && t''.name == t'.name && t''.origin == t'.origin
    ensures TargetFollows(t, t'')
  {
    assert IdsDistinct(t''.bindings);
    forall b, b' | b in t.bindings && b' in t''.bindings && b'.id == b.id && b.nice.Some?
      ensures b'.nice == b.nice
    {
      var j :| 0 <= j < |t''.bindings| && t''.bindings[j] == b';
      assert t'.bindings[j] in t'.bindings && t'.bindings[j].id == b.id;
    }
  }

  /** Intents set before or after, and a deed on every binding, leave followers behind. */
  lemma DeedFollows(sg: Safeguards, ts: seq<Target>, s: Sys, i: nat, d: Deed, t: Target)
    requires Orderly(ts) && i < |ts| && t.name == ts[i].name && t.origin == ts[i].origin
    requires t.bindings == Each(sg, s, d, ts[i].bindings).bindings
    ensures AllFollow(ts, ts[i := t])
  {
    EachSame(sg, s, d, ts[i].bindings);
    SameFollows(ts[i], t);
    ReplaceFollows(ts, i, t);
  }

  lemma AllFollowSelf(ts: seq<Target>)
    requires Orderly(ts)
    ensures AllFollow(ts, ts)
  {
    forall i | 0 <= i < |ts| ensures TargetFollows(ts[i], ts[i]) { SelfFollows(ts[i]); }
  }

  lemma RestoreFollows(sg: Safeguards, st: State, target: string, force: bool, dryRun: bool)
    requires Orderly(st.targets)
    ensures AllFollow(st.targets, Restore(sg, st, target, force, dryRun).0.targets)
  {
    AllFollowSelf(st.targets);
    match Find(st.targets, target)
    case None =>
    case Some(i) =>
      var st1 := ThawFirst(sg, st, i, dryRun).0;
      var bs := st.targets[i].bindings;
      hide AllFollow, Orderly;
      EachSame(sg, st.sys, DoFreeze(false, false, dryRun), bs);
      EachSame(sg, st1.sys, DoRestore(force, dryRun), st1.targets[i].bindings);
      TwiceSame(st.targets, i, st1.targets[i], Restore(sg, st, target, force, dryRun).0.targets[i]);
      hide SameBindings, Each;
      assert Restore(sg, st, target, force, dryRun).0.targets == st.targets[i := Restore(sg, st, target, force, dryRun).0.targets[i]];
  }

  lemma TwiceSame(ts: seq<Target>, i: nat, t: Target, t': Target)
    requires Orderly(ts) && i < |ts|
    requires SameBindings(ts[i].bindings, t.bindings) && SameBindings(t.bindings, t'.bindings)
    requires t'.name == ts[i].name && t'.origin == ts[i].origin
    ensures AllFollow(ts, ts[i := t'])
  {
    SameFollows(ts[i], t');
    ReplaceFollows(ts, i, t');
  }

  lemma ReconcileOneFollows(sg: Safeguards, st: State, i: nat, resolve: Resolver)
    requires i < |st.targets| && IdsDistinct(st.targets[i].bindings) && OrderlyOp(OpReconcile(resolve))
    ensures TargetFollows(st.targets[i], ReconcileOne(sg, st, i, resolve).targets[i])
  {
    var t := st.targets[i];
    SelfFollows(t);
    if t.origin == Config && t.selector in resolve {
      var bound := Bound(t, resolve[t.selector]);
      BoundFollows(t, resolve[t.selector]);
      if t.desiredNice.Some? {
        EachSame(sg, st.sys, DoReconcile(t.desiredNice.value, t.onDrift), bound.bindings);
        FollowsThenSame(t, bound, ReconcileOne(sg, st, i, resolve).targets[i]);
      }
    }
    hide TargetFollows, Each, Bound;
  }

  lemma AllFollowOne(ts: seq<Target>, mid: seq<Target>, after: seq<Target>, i: nat)
    requires AllFollow(ts, mid) && |after| == |mid| && i < |ts| && TargetFollows(ts[i], after[i])
    requires forall j :: 0 <= j < |mid| && j != i ==> after[j] == mid[j]
    ensures AllFollow(ts, after)
  {
    hide TargetFollows;
  }

  lemma {:induction false} ReconcileFollows(sg: Safeguards, st: State, n: nat, resolve: Resolver)
    requires Orderly(st.targets) && OrderlyOp(OpReconcile(resolve)) && n <= |st.targets|
    ensures AllFollow(st.targets, ReconcileUpTo(sg, st, n, resolve).targets)
  {
    hide AllFollow, TargetFollows, ReconcileOne, NamesDistinct, IdsDistinct, InstancesOnce;
    if n == 0 {
      AllFollowSelf(st.targets);
    } else {
      ReconcileFollows(sg, st, n - 1, resolve);
      var mid := ReconcileUpTo(sg, st, n - 1, resolve);
      ReconcileOneFollows(sg, mid, n - 1, resolve);
      AllFollowOne(st.targets, mid.targets, ReconcileOne(sg, mid, n - 1, resolve).targets, n - 1);
    }
  }

  lemma ManageFollows(st: State, name: string, mode: Mode, selector: string, insts: seq<Instance>)
    requires Orderly(st.targets) && InstancesOnce(insts)
    ensures Orderly(Manage(st, name, mode, selector, insts).targets)
    ensures RecordsFollow(st.targets, Manage(st, name, mode, selector, insts).targets)
  {
    match Find(st.targets, name)
    case Some(i) =>
      var t := st.targets[i].(mode := mode);
      var t' := if mode == Snapshot then t.(snapshotIds := Ids(insts)) else t;
      BoundFollows(t', insts);
      ReplaceFollows(st.targets, i, Bound(t', insts));
      AllFollowOrderly(st.targets, st.targets[i := Bound(t', insts)]);
      assert st.targets[i := t'][i := Bound(t', insts)] == st.targets[i := Bound(t', insts)];
    case None =>
      var t := NewTarget(name, mode, selector).(mode := mode);
      var t' := if mode == Snapshot then t.(snapshotIds := Ids(insts)) else t;
      BoundFollows(t', insts);
      assert Manage(st, name, mode, selector, insts).targets == st.targets + [Bound(t', insts)];
      AddedFollows(st.targets, Bound(t', insts));
  }

  lemma AddedFollows(ts: seq<Target>, t: Target)
    requires Orderly(ts) && IdsDistinct(t.bindings)
    requires forall u :: u in ts ==> u.name != t.name
    ensures Orderly(ts + [t]) && RecordsFollow(ts, ts + [t])
  {
    AllFollowSelf(ts);
    AllFollowOrderly(ts, ts);
  }

  lemma RemovedFollows(ts: seq<Target>, i: nat)
    requires Orderly(ts) && i < |ts|
    ensures Orderly(ts[..i] + ts[i + 1..]) && RecordsFollow(ts, ts[..i] + ts[i + 1..])
  {
    AllFollowSelf(ts);
    AllFollowOrderly(ts, ts);
    var rest := ts[..i] + ts[i + 1..];
    assert forall j :: 0 <= j < |rest| ==> rest[j] == ts[if j < i then j else j + 1];
    assert forall t :: t in rest ==> t in ts;
  }

  lemma {:induction false} RuntimeOnlyDistinct(ts: seq<Target>)
    requires NamesDistinct(ts)
    ensures NamesDistinct(RuntimeOnly(ts))
  {
    if ts != [] {
      var front := ts[..|ts| - 1];
      RuntimeOnlyDistinct(front);
      forall t | t in RuntimeOnly(front)
        ensures t.name != ts[|ts| - 1].name || t.origin != ts[|ts| - 1].origin
      {
        RuntimeOnlyHolds(front, t);
        var j :| 0 <= j < |front| && front[j] == t;
        assert ts[j] == t;
      }
    }
  }

  lemma {:induction false} ConfigByNameUnique(ts: seq<Target>, t: Target)
    requires NamesDistinct(ts) && t in ts && t.origin == Config
    ensures t.name in ConfigByName(ts) && ConfigByName(ts)[t.name] == t
  {
    var front, last := ts[..|ts| - 1], ts[|ts| - 1];
    if t != last {
      assert t in front;
      ConfigByNameUnique(front, t);
      var j :| 0 <= j < |front| && front[j] == t;
      assert ts[j] == t;
    }
  }

  lemma SetPoliciesFollows(st: State, ps: seq<Policy>)
    requires Orderly(st.targets) && OrderlyOp(OpSetPolicies(ps))
    ensures Orderly(SetPolicies(st, ps).targets) && RecordsFollow(st.targets, SetPolicies(st, ps).targets)
  {
    var ts := st.targets;
    var kept, prev := RuntimeOnly(ts), ConfigByName(ts);
    var added := PolicyTargets(prev, ps);
    RuntimeOnlyDistinct(ts);
    forall t ensures t in kept <==> t in ts && t.origin == Runtime { RuntimeOnlyHolds(ts, t); }
    forall t | t in added
      ensures t.origin == Config && IdsDistinct(t.bindings)
      ensures t.bindings == [] || exists u :: u in ts && u.origin == Config && u.name == t.name && u.bindings == t.bindings
    {
      if t.name in prev {
        ConfigByNameHolds(ts, t.name);
        assert prev[t.name].bindings == t.bindings;
      }
    }
    assert NamesDistinct(kept + added);
    AllFollowSelf(ts);
    AllFollowOrderly(ts, ts);
    forall t, t', b, b' |
      t in ts && t' in kept + added && t.name == t'.name && t.origin == t'.origin
      && b in t.bindings && b' in t'.bindings && b'.id == b.id && b.nice.Some?
      ensures b'.nice == b.nice
    {
      if t' in added {
        var u :| u in ts && u.origin == Config && u.name == t'.name && u.bindings == t'.bindings;
        assert b' in u.bindings;
      }
    }
  }

  lemma UnboundFollows(ts: seq<Target>, fresh': seq<Target>)
    requires NamesDistinct(fresh')
    ensures Orderly(Unbound(fresh')) && RecordsFollow(ts, Unbound(fresh'))
  {
  }

  /** Every operation keeps each process's nice record as long as its target still lists it. */
  lemma ApplyFollows(sg: Safeguards, st: State, op: Op)
    requires Orderly(st.targets) && OrderlyOp(op)
    ensures Orderly(Apply(sg, st, op).0.targets) && RecordsFollow(st.targets, Apply(sg, st, op).0.targets)
  {
    var ts := st.targets;
    AllFollowSelf(ts);
    AllFollowOrderly(ts, ts);
    match op
    case OpManage(name, mode, selector, insts) => ManageFollows(st, name, mode, selector, insts);
    case OpUnmanage(target) =>
      match Find(ts, target) {
        case None =>
        case Some(i) => RemovedFollows(ts, i);
      }
    case OpSetPolicies(ps) => SetPoliciesFollows(st, ps);
    case OpAdoptOldBoot(targets, _) => UnboundFollows(ts, targets);
    case OpSignal(_, _, _) =>
    case Environment(_) =>
    case _ =>
      SameShapeFollows(sg, st, op);
      AllFollowOrderly(ts, Apply(sg, st, op).0.targets);
      hide Apply, Orderly, RecordsFollow;
  }

  lemma SameShapeFollows(sg: Safeguards, st: State, op: Op)
    requires Orderly(st.targets) && OrderlyOp(op)
    requires op.OpRebind? || op.OpSetNice? || op.OpSetStop? || op.OpSetFreeze? || op.OpRestoreNice? || op.OpRestore? || op.OpReconcile?
    ensures AllFollow(st.targets, Apply(sg, st, op).0.targets)
  {
    var ts := st.targets;
    var ts' := Apply(sg, st, op).0.targets;
    AllFollowSelf(ts);
    match op
    case OpRebind(target, insts) =>
      match Find(ts, target) {
        case None =>
        case Some(i) =>
          BoundFollows(ts[i], insts);
          ReplaceFollows(ts, i, Bound(ts[i], insts));
      }
    case OpSetNice(target, nice, dryRun) =>
      match Find(ts, target) {
        case None =>
        case Some(i) => ReplacedOnce(sg, st, i, DoNice(nice, dryRun), ts');
      }
    case OpSetStop(target, stop, dryRun) =>
      match Find(ts, target) {
        case None =>
        case Some(i) => ReplacedOnce(sg, st, i, DoStop(stop, dryRun), ts');
      }
    case OpSetFreeze(target, freeze, force, dryRun) =>
      match Find(ts, target) {
        case None =>
        case Some(i) => ReplacedOnce(sg, st, i, DoFreeze(freeze, force, dryRun), ts');
      }
    case OpRestoreNice(target, dryRun) =>
      match Find(ts, target) {
        case None =>
        case Some(i) => ReplacedOnce(sg, st, i, DoRestoreNice(dryRun), ts');
      }
    case OpRestore(target, force, dryRun) => RestoreFollows(sg, st, target, force, dryRun);
    case OpReconcile(resolve) => ReconcileFollows(sg, st, |ts|, resolve);
  }

  lemma ReplacedOnce(sg: Safeguards, st: State, i: nat, d: Deed, ts': seq<Target>)
    requires Orderly(st.targets) && i < |st.targets| && |ts'| == |st.targets|
    requires ts'[i].name == st.targets[i].name && ts'[i].origin == st.targets[i].origin
    requires ts'[i].bindings == Each(sg, st.sys, d, st.targets[i].bindings).bindings
    requires forall j :: 0 <= j < |ts'| && j != i ==> ts'[j] == st.targets[j]
    ensures AllFollow(st.targets, ts')
  {
    DeedFollows(sg, st.targets, st.sys, i, d, ts'[i]);
    assert ts' == st.targets[i := ts'[i]];
  }

  // ---- Over runs ----

  ghost predicate Lists(ts: seq<Target>, name: string, origin: Origin, id: ProcessId) {
    exists t, b :: t in ts && t.name == name && t.origin == origin && b in t.bindings && b.id == id
  }

  ghost predicate Holds(ts: seq<Target>, name: string, origin: Origin, id: ProcessId, c: nat) {
    forall t, b :: t in ts && t.name == name && t.origin == origin && b in t.bindings && b.id == id ==> b.nice == Some(c)
  }

  /**
   As long as a target lists a process, through any rebinds, reloads, reconciles, renices and
   restores, the process keeps the nice record it was first given, and that record's original is
   the value captured at the start.
   */
  lemma {:induction false} OriginalFollowsProcess(
    sg: Safeguards, w: World, start: seq<Op>, ops: seq<Op>, name: string, origin: Origin, id: ProcessId, c: nat)
    requires w.Valid() && RealWorlds(start) && RealWorlds(ops)
    requires Orderly(Run(sg, Fresh(w), start).targets)
    requires forall op :: op in ops ==> OrderlyOp(op)
    requires forall k :: 0 <= k <= |ops| ==> Lists(Run(sg, Run(sg, Fresh(w), start), ops[..k]).targets, name, origin, id)
    requires Holds(Run(sg, Fresh(w), start).targets, name, origin, id, c)
    requires c < |Run(sg, Fresh(w), start).sys.nices|
    ensures var st, st' := Run(sg, Fresh(w), start), Run(sg, Run(sg, Fresh(w), start), ops);
            && Orderly(st'.targets) && Holds(st'.targets, name, origin, id, c)
            && c < |st'.sys.nices| && st'.sys.nices[c].original == st.sys.nices[c].original
  {
    var st := Run(sg, Fresh(w), start);
    OriginalsNeverChange(sg, w, start, ops, c);
    if ops != [] {
      var front := ops[..|ops| - 1];
      forall k | 0 <= k <= |front| ensures Lists(Run(sg, st, front[..k]).targets, name, origin, id) {
        assert front[..k] == ops[..k];
      }
      hide Orderly, OrderlyOp;
      OriginalFollowsProcess(sg, w, start, front, name, origin, id, c);
      var st1 := Run(sg, st, front);
      ApplyFollows(sg, st1, ops[|ops| - 1]);
      assert front == ops[..|ops| - 1] && ops[..|front|] == front;
      HoldsNext(st1.targets, Run(sg, st, ops).targets, name, origin, id, c);
    }
  }

  lemma HoldsNext(ts: seq<Target>, ts': seq<Target>, name: string, origin: Origin, id: ProcessId, c: nat)
    requires RecordsFollow(ts, ts') && Lists(ts, name, origin, id) && Holds(ts, name, origin, id, c)
    ensures Holds(ts', name, origin, id, c)
  {
  }

  /** Target `i` of the state answers to `target`, and its `k`-th binding is this process. */
  ghost predicate ListedAt(st: State, target: string, i: nat, k: nat, name: string, origin: Origin, id: ProcessId) {
    && Find(st.targets, target) == Some(i) && i < |st.targets| && k < |st.targets[i].bindings|
    && st.targets[i].name == name && st.targets[i].origin == origin && st.targets[i].bindings[k].id == id
  }

  /**
   After any run of renices, rebinds, reloads and reconciles during which a target lists a process, a restore
   of that target which goes through leaves the process at the nice value read when its record was captured.
   */
  lemma {:induction false} RestoreGivesFirstReading(
    sg: Safeguards, w: World, start: seq<Op>, ops: seq<Op>, name: string, origin: Origin, id: ProcessId, c: nat,
    target: string, force: bool, i: nat, k: nat)
    requires w.Valid() && RealWorlds(start) && RealWorlds(ops)
    requires Orderly(Run(sg, Fresh(w), start).targets)
    requires forall op :: op in ops ==> OrderlyOp(op)
    requires forall n :: 0 <= n <= |ops| ==> Lists(Run(sg, Run(sg, Fresh(w), start), ops[..n]).targets, name, origin, id)
    requires Holds(Run(sg, Fresh(w), start).targets, name, origin, id, c)
    requires c < |Run(sg, Fresh(w), start).sys.nices|
    requires var st' := Run(sg, Run(sg, Fresh(w), start), ops);
             && ListedAt(st', target, i, k, name, origin, id)
             && EachOnce(st'.targets[i].bindings) && WillRestore(st'.sys, st'.targets[i].bindings[k], force)
    ensures var s, st' := Run(sg, Fresh(w), start).sys, Run(sg, Run(sg, Fresh(w), start), ops);
            && NiceOf(Restore(sg, st', target, force, false).0.sys.world, st'.targets[i].bindings[k].pid) == Some(s.nices[c].original)
            && c < |s.births| && s.births[c] < |s.trace|
            && s.trace[s.births[c]] == Captured(c, id.pid, id, s.nices[c].original)
  {
    var st := Run(sg, Fresh(w), start);
    var st' := Run(sg, st, ops);
    hide Orderly, OrderlyOp, Restore, WillRestore, NiceOf, EachOnce, Lists;
    FreshInv(sg, w);
    RunKeeps(sg, Fresh(w), start);
    RunKeeps(sg, st, ops);
    OriginalFollowsProcess(sg, w, start, ops, name, origin, id, c);
    var t := st'.targets[i];
    assert t in st'.targets && t.bindings[k] in t.bindings;
    assert t.bindings[k].nice == Some(c);
    RecordBorn(sg, st.sys, st'.sys, t.bindings[k], c);
    RestoreEffect(sg, st', target, force, i, k);
  }

  lemma RecordBorn(sg: Safeguards, s: Sys, s': Sys, b: Binding, c: nat)
    requires Inv(sg, s) && Inv(sg, s') && Grows(s, s') && BindingInv(sg, s', b) && b.nice == Some(c) && c < |s.nices|
    ensures c < |s.births| && s.births[c] < |s.trace|
    ensures s.trace[s.births[c]] == Captured(c, b.id.pid, b.id, s.nices[c].original)
  {
    hide AllLawful, StopCellsOk;
    assert s.births[c] == s'.births[c] && s.trace[s.births[c]] == s'.trace[s.births[c]];
  }
}
