/**
 Where promises of the control plane end, by example: a nice value out of range does not come back, a preview
 can mislead when a target lists a process twice, and a second reconcile can write again when two policies
 disagree about a process.
 */
module ControlLimits {
  import opened Options
  import opened Identity
  import opened Kernel
  import opened Control
  import opened Operations
  import opened ControlDryRun
  import opened ControlReconcile

  // ---- One process and what renicing it does ----

  function Id(): ProcessId { ProcessId("", 0, 5, 7) }

  /** A machine with one process, at this nice value, and no refusals. */
  function Machine(nice: int): World { World(map[5 := Proc(Id(), true, nice, true, None)], {}, {}) }

  function Guards(): Safeguards { Safeguards(9, 0) }

  function Inst(): Instance { Instance(Id(), 5, "") }

  function Bare(): Binding { Binding(Id(), 5, "", None, None) }

  function Recorded(c: nat): Binding { Bare().(nice := Some(c)) }

  function Field(original: int, value: int): NiceField { NiceField(original, value, value, Applied, Plain) }

  lemma EachOne(s: Sys, d: Deed, b: Binding)
    ensures Each(Guards(), s, d, [b]) == Then(Guards(), Pass(s, {}, [], []), d, b)
  {
    hide Then;
    assert [b][..0] == [];
  }

  lemma EachTwo(s: Sys, d: Deed, b: Binding, c: Binding)
    ensures Each(Guards(), s, d, [b, c]) == Then(Guards(), Then(Guards(), Pass(s, {}, [], []), d, b), d, c)
  {
    hide Then;
    EachOne(s, d, b);
    assert [b, c][..1] == [b];
  }

  lemma FirstNice(s: Sys, was: int, value: int)
    requires s.world == Machine(was) && NICE_MIN <= value <= NICE_MAX
    ensures var r := ApplyNice(Guards(), s, Bare(), value, false);
            r.sys.world == Machine(value) && r.sys.nices == s.nices + [Field(was, value)] && r.binding == Recorded(|s.nices|)
  {
    assert map[5 := Proc(Id(), true, was, true, None)][5 := Proc(Id(), true, value, true, None)] == Machine(value).procs;
  }

  // ---- A nice value out of range ----

  lemma ClampedNice(s: Sys)
    requires s.world == Machine(0)
    ensures var r := ApplyNice(Guards(), s, Bare(), 25, false);
            && r.sys.world == Machine(19) && r.sys.nices == s.nices + [NiceField(0, 25, 19, Drifted, Plain)]
            && r.binding == Recorded(|s.nices|)
  {
    assert map[5 := Proc(Id(), true, 0, true, None)][5 := Proc(Id(), true, 19, true, None)] == Machine(19).procs;
  }

  lemma ClampedRestore(s: Sys, force: bool)
    requires s.world == Machine(19) && s.nices == [NiceField(0, 25, 19, Drifted, Plain)]
    ensures Perform(Guards(), s, {}, DoRestore(force, false), Recorded(0)).sys.world == if force then Machine(0) else Machine(19)
  {
    assert map[5 := Proc(Id(), true, 19, true, None)][5 := Proc(Id(), true, 0, true, None)] == Machine(0).procs;
  }

  lemma ManagedOnce(st: State)
    requires st.targets == []
    ensures var r := Manage(st, "t", Follow, "s", [Inst()]);
            |r.targets| == 1 && r.targets[0].name == "t" && r.targets[0].bindings == [Bare()] && r.sys == st.sys
            && r.targets[0].desiredFreeze.None?
  {
    assert Bound(NewTarget("t", Follow, "s"), [Inst()]).bindings == [Bare()];
  }

  lemma ClampedTarget() returns (st: State)
    ensures st == SetNice(Guards(), Manage(Fresh(Machine(0)), "t", Follow, "s", [Inst()]), "t", 25, false).0
    ensures |st.targets| == 1 && st.targets[0].name == "t" && st.targets[0].bindings == [Recorded(0)]
    ensures st.targets[0].desiredFreeze.None?
    ensures st.sys.world == Machine(19) && st.sys.nices == [NiceField(0, 25, 19, Drifted, Plain)]
  {
    hide Manage, Each, ApplyNice, Bare, Recorded, Machine;
    ManagedOnce(Fresh(Machine(0)));
    var one := Manage(Fresh(Machine(0)), "t", Follow, "s", [Inst()]);
    EachOne(one.sys, DoNice(25, false), Bare());
    ClampedNice(one.sys);
    st := SetNice(Guards(), one, "t", 25, false).0;
  }

  /** Asked for 25, the process is put at 19; an unforced restore takes that for drift and keeps it, a forced one does not. */
  lemma ClampedNiceStays(force: bool)
    ensures var st := SetNice(Guards(), Manage(Fresh(Machine(0)), "t", Follow, "s", [Inst()]), "t", 25, false).0;
            && st.sys.world == Machine(19)
            && Restore(Guards(), st, "t", force, false).0.sys.world == if force then Machine(0) else Machine(19)
  {
    hide Manage, SetNice, Each, Perform, Recorded, Machine;
    var st := ClampedTarget();
    EachOne(st.sys, DoRestore(force, false), Recorded(0));
    ClampedRestore(st.sys, force);
  }

  // ---- A process listed twice ----

  function Twice(): seq<Op> { [OpManage("t", Follow, "s", [Inst(), Inst()]), OpSetNice("t", 10, false)] }

  lemma ManagedTwice(st: State)
    requires st.targets == []
    ensures var r := Manage(st, "t", Follow, "s", [Inst(), Inst()]);
            |r.targets| == 1 && r.targets[0].name == "t" && r.targets[0].bindings == [Bare(), Bare()] && r.sys == st.sys
            && r.targets[0].desiredFreeze.None?
  {
    var t := NewTarget("t", Follow, "s");
    assert Bound(t, [Inst(), Inst()]).bindings == [Bare(), Bare()];
  }

  lemma RunTwo(st: State, a: Op, b: Op)
    ensures Run(Guards(), st, [a, b]) == Apply(Guards(), Apply(Guards(), st, a).0, b).0
  {
    hide Apply;
    assert [a, b][..1] == [a] && [a][..0] == [];
    assert Run(Guards(), st, [a]) == Apply(Guards(), st, a).0;
  }

  lemma RenicedTwice() returns (st: State)
    ensures st == Run(Guards(), Fresh(Machine(3)), Twice())
    ensures |st.targets| == 1 && st.targets[0].name == "t" && st.targets[0].desiredFreeze.None?
    ensures st.targets[0].bindings == [Recorded(0), Recorded(1)]
    ensures st.sys.world == Machine(10) && st.sys.nices == [Field(3, 10), Field(10, 10)]
  {
    hide Run, Manage, Each, Bare, Recorded, Field;
    var w := Fresh(Machine(3));
    RunTwo(w, Twice()[0], Twice()[1]);
    ManagedTwice(w);
    var one := Manage(w, "t", Follow, "s", [Inst(), Inst()]);
    st := SetNice(Guards(), one, "t", 10, false).0;
    NicedTwice(one.sys);
  }

  lemma NicedTwice(s: Sys)
    requires s.world == Machine(3) && s.nices == []
    ensures var p := Each(Guards(), s, DoNice(10, false), [Bare(), Bare()]);
            p.bindings == [Recorded(0), Recorded(1)] && p.sys.world == Machine(10) && p.sys.nices == [Field(3, 10), Field(10, 10)]
  {
    hide Each, ApplyNice, Machine, Bare, Recorded, Field;
    EachTwo(s, DoNice(10, false), Bare(), Bare());
    FirstNice(s, 3, 10);
    var r := ApplyNice(Guards(), s, Bare(), 10, false);
    FirstNice(r.sys, 10, 10);
  }

  lemma RestoresDiffer(s: Sys, s': Sys)
    requires s.world == Machine(10) && s.nices == [Field(3, 10), Field(10, 10)] && s'.world == s.world && s'.nices == s.nices
    ensures var bs := [Recorded(0), Recorded(1)];
            !Twins(Each(Guards(), s, DoRestore(false, true), bs).results, Each(Guards(), s', DoRestore(false, false), bs).results)
  {
    hide Each;
    EachTwo(s, DoRestore(false, true), Recorded(0), Recorded(1));
    EachTwo(s', DoRestore(false, false), Recorded(0), Recorded(1));
    FirstRestored(s');
    var dry := Each(Guards(), s, DoRestore(false, true), [Recorded(0), Recorded(1)]).results;
    var live := Each(Guards(), s', DoRestore(false, false), [Recorded(0), Recorded(1)]).results;
    assert dry[1].why == WouldAct && live[1].status == Drifted;
  }

  lemma FirstRestored(s: Sys)
    requires s.world == Machine(10) && s.nices == [Field(3, 10), Field(10, 10)]
    ensures var r := RestoreNice(s, Recorded(0), false, false);
            r.sys.world == Machine(3) && r.sys.nices[1..] == [Field(10, 10)] && |r.sys.nices| == 2 && r.binding == Recorded(0) && |r.results| == 1
  {
    assert map[5 := Proc(Id(), true, 10, true, None)][5 := Proc(Id(), true, 3, true, None)] == Machine(3).procs;
  }

  /** A target that lists a process twice: a restore is announced for both entries, but the second finds drift. */
  lemma PreviewMisleadsOnTwice()
    ensures Machine(3).Valid() && RealWorlds(Twice())
    ensures !Predicted(Guards(), Run(Guards(), Fresh(Machine(3)), Twice()), OpRestore("t", false, false))
  {
    hide Run, Each, Twins, Recorded, Field;
    var st := RenicedTwice();
    RestoresDiffer(st.sys, st.sys);
    assert [] + Each(Guards(), st.sys, DoRestore(false, true), st.targets[0].bindings).results ==
           Each(Guards(), st.sys, DoRestore(false, true), st.targets[0].bindings).results;
    assert [] + Each(Guards(), st.sys, DoRestore(false, false), st.targets[0].bindings).results ==
           Each(Guards(), st.sys, DoRestore(false, false), st.targets[0].bindings).results;
  }

  // ---- Policies that disagree ----

  /** One process matched by two policies: the first reapplies 5, the second only reports drift from 6. */
  function Policies(): seq<Policy> {
    [Policy("p", "s", Some(5), None, "reapply"), Policy("q", "s", Some(6), None, "report")]
  }

  function Matches(): Resolver { map["s" := [Inst()]] }

  /** The policy target of this number, with these bindings. */
  ghost predicate IsPolicy(t: Target, desired: int, mode: DriftMode, bs: seq<Binding>) {
    t.origin == Config && t.selector == "s" && t.desiredNice == Some(desired) && t.onDrift == mode && t.bindings == bs
  }

  lemma PoliciesSet(st: State)
    requires st.targets == []
    ensures var r := SetPolicies(st, Policies());
            r.sys == st.sys && |r.targets| == 2 && IsPolicy(r.targets[0], 5, Reapply, []) && IsPolicy(r.targets[1], 6, ReportDrift, [])
  {
  }

  lemma BoundAgain(t: Target)
    ensures t.bindings == [] ==> Bound(t, [Inst()]).bindings == [Bare()]
    ensures forall c: nat :: t.bindings == [Recorded(c)] ==> Bound(t, [Inst()]).bindings == [Recorded(c)]
  {
    forall c: nat | t.bindings == [Recorded(c)] ensures Bound(t, [Inst()]).bindings == [Recorded(c)] {
      assert [Recorded(c)][..0] == [];
      assert ByKey([Recorded(c)]) == map[Id().Key() := Recorded(c)];
    }
  }

  /** A policy that meets the process for the first time. */
  lemma FirstReconcile(st: State, i: nat, desired: int, mode: DriftMode, was: int)
    requires i < |st.targets| && IsPolicy(st.targets[i], desired, mode, [])
    requires st.sys.world == Machine(was) && NICE_MIN <= desired <= NICE_MAX
    ensures var r := ReconcileOne(Guards(), st, i, Matches());
            && r.sys.world == Machine(desired) && r.sys.nices == st.sys.nices + [Field(was, desired)]
            && IsPolicy(r.targets[i], desired, mode, [Recorded(|st.sys.nices|)])
  {
    hide Each, ApplyNice, Machine, Bare, Recorded, Field;
    BoundAgain(st.targets[i]);
    EachOne(st.sys, DoReconcile(desired, mode), Bare());
    FirstNice(st.sys, was, desired);
    BareIsUncaptured();
  }

  lemma BareIsUncaptured()
    ensures Bare().nice.None?
  {
  }

  /** A policy that finds its process at another value than its own. */
  lemma DriftReconcile(st: State, i: nat, desired: int, mode: DriftMode, was: int, c: nat)
    requires i < |st.targets| && IsPolicy(st.targets[i], desired, mode, [Recorded(c)]) && c < |st.sys.nices|
    requires st.sys.world == Machine(was) && was != desired && NICE_MIN <= desired <= NICE_MAX
    ensures mode == Reapply ==> ReconcileOne(Guards(), st, i, Matches()).sys.world == Machine(desired)
    ensures mode == ReportDrift ==> ReconcileOne(Guards(), st, i, Matches()).sys.world == Machine(was)
    ensures |ReconcileOne(Guards(), st, i, Matches()).sys.nices| == |st.sys.nices|
  {
    BoundAgain(st.targets[i]);
    EachOne(st.sys, DoReconcile(desired, mode), Recorded(c));
    DriftOne(st.sys, desired, mode, was, c);
    hide Each, ReconcileDrift, Machine;
  }

  lemma DriftOne(s: Sys, desired: int, mode: DriftMode, was: int, c: nat)
    requires s.world == Machine(was) && was != desired && NICE_MIN <= desired <= NICE_MAX
    ensures mode == Reapply ==> ReconcileDrift(s, Recorded(c), c, desired, mode).world == Machine(desired)
    ensures mode == ReportDrift ==> ReconcileDrift(s, Recorded(c), c, desired, mode).world == Machine(was)
    ensures |ReconcileDrift(s, Recorded(c), c, desired, mode).nices| == |s.nices|
  {
    assert map[5 := Proc(Id(), true, was, true, None)][5 := Proc(Id(), true, desired, true, None)] == Machine(desired).procs;
  }

  lemma ReconcileTwo(st: State)
    requires |st.targets| == 2
    ensures Reconcile(Guards(), st, Matches()) ==
            ReconcileOne(Guards(), ReconcileOne(Guards(), st, 0, Matches()), 1, Matches())
  {
    hide ReconcileOne;
    assert ReconcileUpTo(Guards(), st, 1, Matches()) == ReconcileOne(Guards(), st, 0, Matches());
  }

  lemma ReconciledOnce(st: State)
    requires |st.targets| == 2 && IsPolicy(st.targets[0], 5, Reapply, []) && IsPolicy(st.targets[1], 6, ReportDrift, [])
    requires st.sys.world == Machine(3) && st.sys.nices == []
    ensures var r := Reconcile(Guards(), st, Matches());
            && |r.targets| == 2 && r.sys.world == Machine(6) && |r.sys.nices| == 2
            && IsPolicy(r.targets[0], 5, Reapply, [Recorded(0)]) && IsPolicy(r.targets[1], 6, ReportDrift, [Recorded(1)])
  {
    hide ReconcileOne, Reconcile, IsPolicy, Machine, Recorded, Field, Matches, Guards;
    var r := ReconcileOne(Guards(), st, 0, Matches());
    FirstReconcile(st, 0, 5, Reapply, 3);
    FirstReconcile(r, 1, 6, ReportDrift, 5);
    ReconcileTwo(st);
  }

  lemma ReconciledTwice(st: State)
    requires |st.targets| == 2 && st.sys.world == Machine(6) && |st.sys.nices| == 2
    requires IsPolicy(st.targets[0], 5, Reapply, [Recorded(0)]) && IsPolicy(st.targets[1], 6, ReportDrift, [Recorded(1)])
    ensures Reconcile(Guards(), st, Matches()).sys.world == Machine(5)
  {
    hide ReconcileOne, Reconcile, IsPolicy, Machine, Recorded, Field, Matches, Guards;
    var r := ReconcileOne(Guards(), st, 0, Matches());
    DriftReconcile(st, 0, 5, Reapply, 6, 0);
    DriftReconcile(r, 1, 6, ReportDrift, 5, 1);
    ReconcileTwo(st);
  }

  function Disagreeing(): State { SetPolicies(Fresh(Machine(3)), Policies()) }

  lemma DisagreeingReached()
    ensures Disagreeing() == Run(Guards(), Fresh(Machine(3)), [OpSetPolicies(Policies())])
  {
    hide SetPolicies;
    assert [OpSetPolicies(Policies())][..0] == [];
  }

  /** The first reconcile leaves the process at 6, the second puts it at 5. */
  lemma SecondReconcileCanWrite()
    ensures Machine(3).Valid() && Disagreeing() == Run(Guards(), Fresh(Machine(3)), [OpSetPolicies(Policies())])
    ensures ListsOnce(Matches()) && !NoConflict(Disagreeing().targets, Matches())
    ensures var once := Reconcile(Guards(), Disagreeing(), Matches());
            once.sys.world == Machine(6) && Reconcile(Guards(), once, Matches()).sys.world == Machine(5) != Machine(6)
  {
    hide Run, SetPolicies, Reconcile, Recorded, NoConflict, Matches, Policies;
    DisagreeingReached();
    PoliciesSet(Fresh(Machine(3)));
    Disagree(Disagreeing());
    ReconciledOnce(Disagreeing());
    ReconciledTwice(Reconcile(Guards(), Disagreeing(), Matches()));
    MachinesDiffer();
  }

  lemma MachinesDiffer()
    ensures Machine(5) != Machine(6)
  {
    assert Machine(5).procs[5].nice != Machine(6).procs[5].nice;
  }

  lemma Disagree(st: State)
    requires |st.targets| == 2 && IsPolicy(st.targets[0], 5, Reapply, []) && IsPolicy(st.targets[1], 6, ReportDrift, [])
    ensures ListsOnce(Matches()) && !NoConflict(st.targets, Matches())
  {
    assert Inst() in Matches()["s"];
  }
}
