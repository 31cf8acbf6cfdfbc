/**
 Reconciling policies twice in a quiet environment. What a pass leaves each process at is what the last
 policy that could write to it asked for; so the second pass changes nothing if and only if, for every
 process it could write to, the last word of the second pass is the last word of the first.
 */
module ControlReconcile {
  import opened Options
  import opened Identity
  import opened Kernel
  import opened Control
  import opened Operations
  import opened ControlSafety
  import opened ControlRuns
  import opened ControlFrame
  import opened ControlRestore
  import opened ControlRecords

  // ---- Worlds that differ in nice values ----

  ghost predicate Kin(w: World, w': World) {
    OnlyNices(w, w') && w'.denied == w.denied && w'.frozen == w.frozen
  }

  lemma KinSelf(w: World)
    ensures Kin(w, w)
  {
  }

  lemma KinThen(a: World, b: World, c: World)
    requires Kin(a, b) && Kin(b, c)
    ensures Kin(a, c)
  {
  }

  lemma KinSame(w: World, w': World)
    requires Kin(w, w')
    ensures w' == w <==> forall p :: p in w.procs ==> w'.procs[p].nice == w.procs[p].nice
  {
    if forall p :: p in w.procs ==> w'.procs[p].nice == w.procs[p].nice {
      assert forall p :: p in w.procs ==> w'.procs[p] == w.procs[p];
      assert w'.procs == w.procs;
    }
  }

  /** The binding still names the process, which the safeguards allow and whose nice can be read. */
  predicate Reachable(sg: Safeguards, w: World, b: Binding) {
    sg.CheckPID(b.pid) && Revalidate(w, b) && w.GetNice(b.pid).Some?
  }

  /** Reconciling the binding leaves the process at the desired value. */
  predicate Decides(sg: Safeguards, w: World, b: Binding, desired: int, mode: DriftMode) {
    Reachable(sg, w, b) && w.NiceAllowed(b.pid, desired) && (mode == Reapply || b.nice.None?)
  }

  lemma KinDecides(sg: Safeguards, w: World, w': World, b: Binding, desired: int, mode: DriftMode)
    requires Kin(w, w')
    ensures Reachable(sg, w', b) == Reachable(sg, w, b) && Decides(sg, w', b, desired, mode) == Decides(sg, w, b, desired, mode)
  {
  }

  lemma SetNiceKin(w: World, pid: int, desired: int)
    ensures Kin(w, w.SetNice(pid, desired))
    ensures w.NiceAllowed(pid, desired) ==> w.SetNice(pid, desired).procs[pid].nice == Clamp(desired)
    ensures !w.NiceAllowed(pid, desired) ==> w.SetNice(pid, desired) == w
    ensures forall p :: p in w.procs && p != pid ==> w.SetNice(pid, desired).procs[p] == w.procs[p]
    ensures w.GetNice(pid) == Some(Clamp(desired)) ==> w.SetNice(pid, desired) == w
  {
    if w.NiceAllowed(pid, desired) && w.GetNice(pid) == Some(Clamp(desired)) {
      assert w.procs[pid := w.procs[pid].(nice := Clamp(desired))] == w.procs;
    }
  }

  // ---- One binding ----

  lemma PushWorld(s: Sys, b: Binding, c: nat, desired: int)
    ensures PushNice(s, b, c, desired).sys.world == s.world.SetNice(b.pid, desired) && PushNice(s, b, c, desired).binding == b
  {
  }

  lemma DriftWorld(s: Sys, b: Binding, c: nat, desired: int, mode: DriftMode)
    ensures var s' := ReconcileDrift(s, b, c, desired, mode);
            var obs := s.world.GetNice(b.pid);
            s'.world == if Revalidate(s.world, b) && obs.Some? && obs.value != desired && mode == Reapply
                        then s.world.SetNice(b.pid, desired) else s.world
  {
  }

  /**
   The kernel effect of reconciling one binding: one write of the desired value when the binding decides,
   and nothing otherwise; and it has a record afterwards when it had one or its process can be reached.
   */
  lemma ReconcileWorld(sg: Safeguards, s: Sys, handled: set<string>, b: Binding, desired: int, mode: DriftMode)
    requires Inv(sg, s) && BindingInv(sg, s, b)
    ensures var r := Perform(sg, s, handled, DoReconcile(desired, mode), b);
            && r.sys.world == (if Decides(sg, s.world, b, desired, mode) then s.world.SetNice(b.pid, desired) else s.world)
            && r.binding.id == b.id && r.binding.pid == b.pid
            && (r.binding.nice.Some? <==> b.nice.Some? || Reachable(sg, s.world, b))
  {
    SetNiceKin(s.world, b.pid, desired);
    match b.nice
    case None =>
      if Reachable(sg, s.world, b) {
        var orig := s.world.GetNice(b.pid).value;
        PushWorld(Capture(s, b, orig), b.(nice := Some(|s.nices|)), |s.nices|, desired);
      }
      hide Inv, BindingInv, PushNice;
    case Some(c) =>
      if Revalidate(s.world, b) {
        PidIsSafe(sg, s, b);
      }
      WorldStaysValid(sg, s);
      hide Inv, BindingInv;
      DriftWorld(s, b, c, desired, mode);
      hide ReconcileDrift;
  }

  // ---- One target ----

  /** Some binding of the list decides about this process. */
  ghost predicate Decided(sg: Safeguards, w: World, bs: seq<Binding>, desired: int, mode: DriftMode, pid: int) {
    exists b :: b in bs && b.pid == pid && Decides(sg, w, b, desired, mode)
  }

  /** What a pass over bindings does: each process that is decided gets the desired value, every other one keeps its own. */
  ghost predicate PassDone(sg: Safeguards, w: World, bs: seq<Binding>, p: Pass, desired: int, mode: DriftMode) {
    && Kin(w, p.sys.world) && |p.bindings| == |bs|
    && (forall pid :: pid in w.procs ==>
         p.sys.world.procs[pid].nice == if Decided(sg, w, bs, desired, mode, pid) then Clamp(desired) else w.procs[pid].nice)
    && (forall k :: 0 <= k < |bs| ==>
         && p.bindings[k].id == bs[k].id && p.bindings[k].pid == bs[k].pid
         && (p.bindings[k].nice.Some? <==> bs[k].nice.Some? || Reachable(sg, w, bs[k])))
  }

  lemma DecidedLast(sg: Safeguards, w: World, front: seq<Binding>, last: Binding, desired: int, mode: DriftMode, pid: int)
    ensures Decided(sg, w, front + [last], desired, mode, pid) <==>
            Decided(sg, w, front, desired, mode, pid) || (last.pid == pid && Decides(sg, w, last, desired, mode))
  {
    assert forall b :: b in front + [last] <==> b in front || b == last;
  }

  lemma PassStep(sg: Safeguards, w: World, front: seq<Binding>, last: Binding, p: Pass, desired: int, mode: DriftMode)
    requires PassDone(sg, w, front, p, desired, mode) && Inv(sg, p.sys) && BindingInv(sg, p.sys, last)
    ensures PassDone(sg, w, front + [last], Then(sg, p, DoReconcile(desired, mode), last), desired, mode)
  {
    hide Perform, Inv, BindingInv, Kin, Decides, Decided, Reachable, NextHandled;
    var r := Perform(sg, p.sys, p.handled, DoReconcile(desired, mode), last);
    ReconcileWorld(sg, p.sys, p.handled, last, desired, mode);
    SetNiceKin(p.sys.world, last.pid, desired);
    KinSelf(p.sys.world);
    KinThen(w, p.sys.world, r.sys.world);
    KinDecides(sg, w, p.sys.world, last, desired, mode);
    KinProcs(w, p.sys.world);
    DecidesHere(sg, p.sys.world, last, desired, mode);
    forall pid | pid in w.procs
      ensures r.sys.world.procs[pid].nice ==
              if Decided(sg, w, front + [last], desired, mode, pid) then Clamp(desired) else w.procs[pid].nice
    {
      DecidedLast(sg, w, front, last, desired, mode, pid);
    }
  }

  lemma KinProcs(w: World, w': World)
    requires Kin(w, w')
    ensures forall p :: p in w.procs <==> p in w'.procs
  {
    assert forall p :: p in w.procs <==> p in w'.procs.Keys;
  }

  lemma DecidesHere(sg: Safeguards, w: World, b: Binding, desired: int, mode: DriftMode)
    ensures Decides(sg, w, b, desired, mode) ==> w.NiceAllowed(b.pid, desired)
  {
  }

  lemma {:induction false} PassMoves(sg: Safeguards, s: Sys, bs: seq<Binding>, desired: int, mode: DriftMode)
    requires Inv(sg, s) && BindingsInv(sg, s, bs)
    ensures PassDone(sg, s.world, bs, Each(sg, s, DoReconcile(desired, mode), bs), desired, mode)
  {
    hide Then, Inv, BindingInv, Grows, Kin, Decides;
    if bs == [] {
      KinSelf(s.world);
    } else {
      var d := DoReconcile(desired, mode);
      var front, last := bs[..|bs| - 1], bs[|bs| - 1];
      assert bs == front + [last];
      PassMoves(sg, s, front, desired, mode);
      EachKeeps(sg, s, d, front);
      var p := Each(sg, s, d, front);
      BindingKept(sg, s, p.sys, last);
      PassStep(sg, s.world, front, last, p, desired, mode);
    }
  }

  // ---- Which policies write to which processes ----

  predicate ActivePolicy(t: Target, resolve: Resolver) {
    t.origin == Config && t.selector in resolve && t.desiredNice.Some?
  }

  /** No list of instances names a process twice. */
  ghost predicate ListsOnce(resolve: Resolver) {
    forall sel :: sel in resolve ==> InstancesOnce(resolve[sel])
  }

  /** An instance of the list is this process, under the identity that holds its pid now. */
  predicate Names(w: World, a: Instance, pid: int) {
    && a.pid == pid
    && w.ReadIdentity(pid).Some? && w.ReadIdentity(pid).value.SameProcess(a.id)
  }

  /**
   The policy leaves this process at its desired nice: always when it reapplies, and in its first pass also
   when it has no record of the process yet. `again` is for a later pass.
   */
  ghost predicate Writes(sg: Safeguards, w: World, t: Target, resolve: Resolver, pid: int, again: bool) {
    && ActivePolicy(t, resolve)
    && sg.CheckPID(pid) && w.GetNice(pid).Some? && w.NiceAllowed(pid, t.desiredNice.value)
    && exists k :: 0 <= k < |resolve[t.selector]| && Names(w, resolve[t.selector][k], pid)
         && (t.onDrift == Reapply || (!again && Bound(t, resolve[t.selector]).bindings[k].nice.None?))
  }

  /** What the last of the first `n` policies that write to a process asks for. */
  ghost function LastAsk(sg: Safeguards, w: World, ts: seq<Target>, resolve: Resolver, pid: int, again: bool, n: nat): Option<int>
    requires n <= |ts|
  {
    if n == 0 then None
    else if Writes(sg, w, ts[n - 1], resolve, pid, again) then Some(Clamp(ts[n - 1].desiredNice.value))
    else LastAsk(sg, w, ts, resolve, pid, again, n - 1)
  }

  lemma KinWrites(sg: Safeguards, w: World, w': World, t: Target, resolve: Resolver, pid: int, again: bool)
    requires Kin(w, w')
    ensures Writes(sg, w', t, resolve, pid, again) == Writes(sg, w, t, resolve, pid, again)
  {
    hide Bound;
    KinProcs(w, w');
    assert w'.GetNice(pid).Some? == w.GetNice(pid).Some? && w'.ReadIdentity(pid) == w.ReadIdentity(pid);
    assert ActivePolicy(t, resolve) ==> w'.NiceAllowed(pid, t.desiredNice.value) == w.NiceAllowed(pid, t.desiredNice.value);
    assert forall a :: Names(w', a, pid) == Names(w, a, pid);
  }

  /** For the binding of an instance, deciding is a matter of the instance, the record and the mode. */
  lemma BoundDecides(sg: Safeguards, w: World, t: Target, insts: seq<Instance>, desired: int, mode: DriftMode, k: nat, pid: int)
    requires k < |insts|
    ensures var b := Bound(t, insts).bindings[k];
            && b.pid == insts[k].pid
            && (Reachable(sg, w, b) && b.pid == pid <==> sg.CheckPID(pid) && w.GetNice(pid).Some? && Names(w, insts[k], pid))
            && (Decides(sg, w, b, desired, mode) && b.pid == pid <==>
                  sg.CheckPID(pid) && w.GetNice(pid).Some? && w.NiceAllowed(pid, desired) && Names(w, insts[k], pid)
                  && (mode == Reapply || b.nice.None?))
  {
  }

  lemma DecidedIsWrites(sg: Safeguards, w: World, t: Target, resolve: Resolver, pid: int)
    requires ActivePolicy(t, resolve)
    ensures Decided(sg, w, Bound(t, resolve[t.selector]).bindings, t.desiredNice.value, t.onDrift, pid) <==>
            Writes(sg, w, t, resolve, pid, false)
  {
    var insts, bs := resolve[t.selector], Bound(t, resolve[t.selector]).bindings;
    assert |bs| == |insts|;
    hide Bound, Decides, Names;
    forall k | 0 <= k < |insts| ensures bs[k] in bs
      && (Decides(sg, w, bs[k], t.desiredNice.value, t.onDrift) && bs[k].pid == pid <==>
            sg.CheckPID(pid) && w.GetNice(pid).Some? && w.NiceAllowed(pid, t.desiredNice.value) && Names(w, insts[k], pid)
            && (t.onDrift == Reapply || bs[k].nice.None?))
    {
      BoundDecides(sg, w, t, insts, t.desiredNice.value, t.onDrift, k, pid);
    }
  }

  /** Binding the same instances again gives every binding the record it just had. */
  lemma RebindSame(t: Target, insts: seq<Instance>, t': Target, k: nat)
    requires InstancesOnce(insts) && k < |insts|
    requires |t'.bindings| == |insts|
    requires forall j :: 0 <= j < |insts| ==> t'.bindings[j].id == insts[j].id
    ensures Bound(t', insts).bindings[k].nice == t'.bindings[k].nice
  {
    ByKeyUnique(t'.bindings, t'.bindings[k]);
  }

  /** After its pass a policy has a record of every process it can reach, so it writes again only by reapplying. */
  lemma WritesAgain(sg: Safeguards, w: World, t: Target, resolve: Resolver, p: Pass, pid: int)
    requires ActivePolicy(t, resolve) && InstancesOnce(resolve[t.selector])
    requires PassDone(sg, w, Bound(t, resolve[t.selector]).bindings, p, t.desiredNice.value, t.onDrift)
    ensures Writes(sg, w, Bound(t, resolve[t.selector]).(bindings := p.bindings), resolve, pid, false) <==>
            Writes(sg, w, t, resolve, pid, true)
  {
    var insts := resolve[t.selector];
    var t' := Bound(t, insts).(bindings := p.bindings);
    hide Kin, Decided, Names, InstancesOnce, ByKey, Decides;
    forall k | 0 <= k < |insts| ensures Bound(t', insts).bindings[k].nice == p.bindings[k].nice {
      RebindSame(t, insts, t', k);
    }
    forall k | 0 <= k < |insts| && sg.CheckPID(pid) && w.GetNice(pid).Some? && Names(w, insts[k], pid)
      ensures p.bindings[k].nice.Some?
    {
      BoundDecides(sg, w, t, insts, t.desiredNice.value, t.onDrift, k, pid);
    }
  }

  // ---- A pass over the targets ----

  ghost predicate SamePolicy(t: Target, t': Target) {
    t'.origin == t.origin && t'.selector == t.selector && t'.desiredNice == t.desiredNice && t'.onDrift == t.onDrift
  }

  lemma OneTarget(sg: Safeguards, st: State, i: nat, resolve: Resolver)
    requires StateInv(sg, st) && i < |st.targets| && ListsOnce(resolve)
    ensures var t, st' := st.targets[i], ReconcileOne(sg, st, i, resolve);
            && Kin(st.sys.world, st'.sys.world) && SamePolicy(t, st'.targets[i])
            && (forall pid :: pid in st.sys.world.procs ==>
                  st'.sys.world.procs[pid].nice ==
                  if Writes(sg, st.sys.world, t, resolve, pid, false) then Clamp(t.desiredNice.value) else st.sys.world.procs[pid].nice)
            && (forall pid :: Writes(sg, st.sys.world, st'.targets[i], resolve, pid, false) <==>
                              Writes(sg, st.sys.world, t, resolve, pid, true))
  {
    var w, t := st.sys.world, st.targets[i];
    hide Kin, Decided, StateInv, InstancesOnce;
    if ActivePolicy(t, resolve) {
      var insts, bound := resolve[t.selector], Bound(t, resolve[t.selector]);
      TargetBound(sg, st, i, insts);
      PassMoves(sg, st.sys, bound.bindings, t.desiredNice.value, t.onDrift);
      var p := Each(sg, st.sys, DoReconcile(t.desiredNice.value, t.onDrift), bound.bindings);
      forall pid ensures Decided(sg, w, bound.bindings, t.desiredNice.value, t.onDrift, pid) <==> Writes(sg, w, t, resolve, pid, false) {
        DecidedIsWrites(sg, w, t, resolve, pid);
      }
      forall pid ensures Writes(sg, w, bound.(bindings := p.bindings), resolve, pid, false) <==> Writes(sg, w, t, resolve, pid, true) {
        WritesAgain(sg, w, t, resolve, p, pid);
      }
      assert ReconcileOne(sg, st, i, resolve).targets[i] == bound.(bindings := p.bindings);
    } else {
      KinSelf(w);
    }
  }

  lemma TargetBound(sg: Safeguards, st: State, i: nat, insts: seq<Instance>)
    requires StateInv(sg, st) && i < |st.targets|
    ensures Inv(sg, st.sys) && BindingsInv(sg, st.sys, Bound(st.targets[i], insts).bindings)
  {
    BoundKeeps(sg, st.sys, st.targets[i], insts);
  }

  /** After the first `n` policies: each process is at what the last of them asked for. */
  ghost predicate Settled(sg: Safeguards, st: State, st': State, resolve: Resolver, n: nat)
    requires n <= |st.targets| == |st'.targets|
  {
    && Kin(st.sys.world, st'.sys.world)
    && (forall pid :: pid in st.sys.world.procs ==>
          st'.sys.world.procs[pid].nice ==
          match LastAsk(sg, st.sys.world, st.targets, resolve, pid, false, n)
          case None => st.sys.world.procs[pid].nice
          case Some(v) => v)
    && (forall i :: 0 <= i < n ==> SamePolicy(st.targets[i], st'.targets[i]))
    && (forall i, pid :: 0 <= i < n ==>
          (Writes(sg, st.sys.world, st'.targets[i], resolve, pid, false) <==>
           Writes(sg, st.sys.world, st.targets[i], resolve, pid, true)))
  }

  lemma {:induction false} PassSettles(sg: Safeguards, st: State, n: nat, resolve: Resolver)
    requires StateInv(sg, st) && n <= |st.targets| && ListsOnce(resolve)
    ensures StateInv(sg, ReconcileUpTo(sg, st, n, resolve))
    ensures Settled(sg, st, ReconcileUpTo(sg, st, n, resolve), resolve, n)
  {
    hide StateInv, Kin, Writes, ReconcileOne, ListsOnce, SamePolicy;
    if n == 0 {
      KinSelf(st.sys.world);
    } else {
      PassSettles(sg, st, n - 1, resolve);
      var st1 := ReconcileUpTo(sg, st, n - 1, resolve);
      ReconcileOneKeeps(sg, st1, n - 1, resolve);
      AdvancesInv(sg, st1, ReconcileOne(sg, st1, n - 1, resolve));
      SettleStep(sg, st, st1, n - 1, resolve);
    }
    hide Advances;
  }

  lemma SettleStep(sg: Safeguards, st: State, st1: State, i: nat, resolve: Resolver)
    requires StateInv(sg, st1) && i < |st.targets| == |st1.targets| && ListsOnce(resolve)
    requires Settled(sg, st, st1, resolve, i) && st1.targets[i] == st.targets[i]
    ensures Settled(sg, st, ReconcileOne(sg, st1, i, resolve), resolve, i + 1)
  {
    hide StateInv, Kin, Writes, ReconcileOne, ListsOnce, SamePolicy;
    var w, t, st' := st.sys.world, st.targets[i], ReconcileOne(sg, st1, i, resolve);
    OneTarget(sg, st1, i, resolve);
    KinThen(w, st1.sys.world, st'.sys.world);
    KinProcs(w, st1.sys.world);
    forall pid
      ensures Writes(sg, st1.sys.world, t, resolve, pid, false) == Writes(sg, w, t, resolve, pid, false)
      ensures Writes(sg, w, st'.targets[i], resolve, pid, false) == Writes(sg, w, t, resolve, pid, true)
    {
      KinWrites(sg, w, st1.sys.world, t, resolve, pid, false);
      KinWrites(sg, w, st1.sys.world, t, resolve, pid, true);
      KinWrites(sg, w, st1.sys.world, st'.targets[i], resolve, pid, false);
    }
  }

  // ---- Twice ----

  /** What the second pass would ask for last is what the first asked for last. */
  ghost predicate LastWordStands(sg: Safeguards, w: World, ts: seq<Target>, resolve: Resolver) {
    forall pid :: LastAsk(sg, w, ts, resolve, pid, true, |ts|).Some? ==>
      LastAsk(sg, w, ts, resolve, pid, true, |ts|) == LastAsk(sg, w, ts, resolve, pid, false, |ts|)
  }

  lemma {:induction false} AskAgain(sg: Safeguards, w: World, w': World, ts: seq<Target>, ts': seq<Target>, resolve: Resolver, pid: int, n: nat)
    requires n <= |ts| == |ts'| && Kin(w, w')
    requires forall i :: 0 <= i < n ==> ts'[i].desiredNice == ts[i].desiredNice
    requires forall i :: 0 <= i < n ==> (Writes(sg, w, ts'[i], resolve, pid, false) <==> Writes(sg, w, ts[i], resolve, pid, true))
    ensures LastAsk(sg, w', ts', resolve, pid, false, n) == LastAsk(sg, w, ts, resolve, pid, true, n)
  {
    hide Kin;
    if n > 0 {
      AskAgain(sg, w, w', ts, ts', resolve, pid, n - 1);
      KinWrites(sg, w, w', ts'[n - 1], resolve, pid, false);
    }
    hide Writes;
  }

  lemma {:induction false} AsksOnlyOfProcesses(sg: Safeguards, w: World, ts: seq<Target>, resolve: Resolver, pid: int, n: nat)
    requires n <= |ts|
    ensures LastAsk(sg, w, ts, resolve, pid, true, n).Some? ==> pid in w.procs
    ensures LastAsk(sg, w, ts, resolve, pid, true, n).Some? ==> LastAsk(sg, w, ts, resolve, pid, false, n).Some?
  {
    if n > 0 {
      AsksOnlyOfProcesses(sg, w, ts, resolve, pid, n - 1);
      AgainIsAlsoFirst(sg, w, ts[n - 1], resolve, pid);
    }
    hide Writes;
  }

  lemma AgainIsAlsoFirst(sg: Safeguards, w: World, t: Target, resolve: Resolver, pid: int)
    ensures Writes(sg, w, t, resolve, pid, true) ==> Writes(sg, w, t, resolve, pid, false) && pid in w.procs
  {
  }

  /** The nice values after a second pass, over those after the first. */
  lemma SecondPass(sg: Safeguards, st: State, resolve: Resolver)
    requires StateInv(sg, st) && ListsOnce(resolve)
    ensures var once := Reconcile(sg, st, resolve);
            var twice := Reconcile(sg, once, resolve);
            && Kin(once.sys.world, twice.sys.world)
            && forall pid :: pid in once.sys.world.procs ==>
                 twice.sys.world.procs[pid].nice ==
                 match LastAsk(sg, st.sys.world, st.targets, resolve, pid, true, |st.targets|)
                 case None => once.sys.world.procs[pid].nice
                 case Some(v) => v
  {
    hide StateInv, Kin, Writes, ReconcileUpTo, ListsOnce, LastAsk;
    var n, once := |st.targets|, Reconcile(sg, st, resolve);
    PassSettles(sg, st, n, resolve);
    PassSettles(sg, once, n, resolve);
    forall pid ensures LastAsk(sg, once.sys.world, once.targets, resolve, pid, false, n) ==
                       LastAsk(sg, st.sys.world, st.targets, resolve, pid, true, n)
    {
      AskAgain(sg, st.sys.world, once.sys.world, st.targets, once.targets, resolve, pid, n);
    }
  }

  lemma FirstPass(sg: Safeguards, st: State, resolve: Resolver)
    requires StateInv(sg, st) && ListsOnce(resolve)
    ensures var once := Reconcile(sg, st, resolve);
            && (forall pid :: pid in st.sys.world.procs <==> pid in once.sys.world.procs)
            && forall pid :: pid in st.sys.world.procs ==>
                 LastAsk(sg, st.sys.world, st.targets, resolve, pid, false, |st.targets|).Some? ==>
                   once.sys.world.procs[pid].nice == LastAsk(sg, st.sys.world, st.targets, resolve, pid, false, |st.targets|).value
  {
    hide StateInv, Kin, Writes, ReconcileUpTo, ListsOnce, LastAsk;
    PassSettles(sg, st, |st.targets|, resolve);
    KinProcs(st.sys.world, Reconcile(sg, st, resolve).sys.world);
  }

  /**
   From any reachable state: reconcile, and if nothing else happens reconcile again. The second pass leaves
   the kernel exactly as the first did if and only if, for each process some policy would reapply to, the last
   such policy asks for the nice value that the last policy to write in the first pass asked for.
   */
  lemma {:induction false} SecondReconcileExactly(sg: Safeguards, w: World, ops: seq<Op>, resolve: Resolver)
    requires w.Valid() && RealWorlds(ops) && ListsOnce(resolve)
    ensures var st := Run(sg, Fresh(w), ops);
            var once := Reconcile(sg, st, resolve);
            Reconcile(sg, once, resolve).sys.world == once.sys.world <==> LastWordStands(sg, st.sys.world, st.targets, resolve)
  {
    FreshInv(sg, w);
    RunKeeps(sg, Fresh(w), ops);
    hide StateInv, Kin, Reconcile, ListsOnce, LastAsk, Run;
    StandsExactly(sg, Run(sg, Fresh(w), ops), resolve);
  }

  lemma {:induction false} StandsExactly(sg: Safeguards, st: State, resolve: Resolver)
    requires StateInv(sg, st) && ListsOnce(resolve)
    ensures var once := Reconcile(sg, st, resolve);
            Reconcile(sg, once, resolve).sys.world == once.sys.world <==> LastWordStands(sg, st.sys.world, st.targets, resolve)
  {
    hide StateInv, Kin, Reconcile, ListsOnce, LastAsk;
    var once := Reconcile(sg, st, resolve);
    FirstPass(sg, st, resolve);
    SecondPass(sg, st, resolve);
    KinSame(once.sys.world, Reconcile(sg, once, resolve).sys.world);
    forall pid
      ensures LastAsk(sg, st.sys.world, st.targets, resolve, pid, true, |st.targets|).Some? ==>
                pid in st.sys.world.procs && LastAsk(sg, st.sys.world, st.targets, resolve, pid, false, |st.targets|).Some?
    {
      AsksOnlyOfProcesses(sg, st.sys.world, st.targets, resolve, pid, |st.targets|);
    }
  }

  // ---- Policies that agree ----

  /** Two policies that match one process ask for the same nice value. */
  ghost predicate NoConflict(ts: seq<Target>, resolve: Resolver) {
    forall i, j, a, b ::
      0 <= i < |ts| && 0 <= j < |ts| && ActivePolicy(ts[i], resolve) && ActivePolicy(ts[j], resolve)
      && a in resolve[ts[i].selector] && b in resolve[ts[j].selector] && a.pid == b.pid
      ==> ts[i].desiredNice == ts[j].desiredNice
  }

  lemma {:induction false} Asker(sg: Safeguards, w: World, ts: seq<Target>, resolve: Resolver, pid: int, again: bool, n: nat)
      returns (i: nat, a: Instance)
    requires n <= |ts| && LastAsk(sg, w, ts, resolve, pid, again, n).Some?
    ensures i < |ts| && ActivePolicy(ts[i], resolve) && a in resolve[ts[i].selector] && a.pid == pid
    ensures LastAsk(sg, w, ts, resolve, pid, again, n) == Some(Clamp(ts[i].desiredNice.value))
  {
    if Writes(sg, w, ts[n - 1], resolve, pid, again) {
      i := n - 1;
      var k :| 0 <= k < |resolve[ts[i].selector]| && Names(w, resolve[ts[i].selector][k], pid);
      a := resolve[ts[i].selector][k];
    } else {
      i, a := Asker(sg, w, ts, resolve, pid, again, n - 1);
    }
  }

  lemma AgreementStands(sg: Safeguards, w: World, ts: seq<Target>, resolve: Resolver)
    requires NoConflict(ts, resolve)
    ensures LastWordStands(sg, w, ts, resolve)
  {
    hide LastAsk;
    forall pid | LastAsk(sg, w, ts, resolve, pid, true, |ts|).Some?
      ensures LastAsk(sg, w, ts, resolve, pid, true, |ts|) == LastAsk(sg, w, ts, resolve, pid, false, |ts|)
    {
      AsksOnlyOfProcesses(sg, w, ts, resolve, pid, |ts|);
      var i, a := Asker(sg, w, ts, resolve, pid, true, |ts|);
      var j, b := Asker(sg, w, ts, resolve, pid, false, |ts|);
      assert ts[i].desiredNice == ts[j].desiredNice;
    }
  }

  lemma {:induction false} SameModeAsks(sg: Safeguards, w: World, ts: seq<Target>, resolve: Resolver, pid: int, reapply: bool, n: nat)
    requires n <= |ts| && forall t :: t in ts && ActivePolicy(t, resolve) ==> (t.onDrift == Reapply) == reapply
    ensures var again := LastAsk(sg, w, ts, resolve, pid, true, n);
            if reapply then again == LastAsk(sg, w, ts, resolve, pid, false, n) else again == None
  {
    hide Bound, Names;
    if n > 0 {
      assert ts[n - 1] in ts;
      SameModeAsks(sg, w, ts, resolve, pid, reapply, n - 1);
    }
  }

  /** The second pass changes nothing either when all policies reapply, or when none does, however they disagree. */
  lemma {:induction false} SameModeStands(sg: Safeguards, w: World, ts: seq<Target>, resolve: Resolver, reapply: bool)
    requires forall t :: t in ts && ActivePolicy(t, resolve) ==> (t.onDrift == Reapply) == reapply
    ensures LastWordStands(sg, w, ts, resolve)
  {
    hide LastAsk, ActivePolicy;
    forall pid | LastAsk(sg, w, ts, resolve, pid, true, |ts|).Some?
      ensures LastAsk(sg, w, ts, resolve, pid, true, |ts|) == LastAsk(sg, w, ts, resolve, pid, false, |ts|)
    {
      SameModeAsks(sg, w, ts, resolve, pid, reapply, |ts|);
    }
  }

  /**
   So when policies that match one process agree on its nice value, the second pass changes nothing, in every
   mix of drift modes and with any set of calls refused.
   */
  lemma {:induction false} SecondReconcileChangesNothing(sg: Safeguards, w: World, ops: seq<Op>, resolve: Resolver)
    requires w.Valid() && RealWorlds(ops) && ListsOnce(resolve)
    requires NoConflict(Run(sg, Fresh(w), ops).targets, resolve)
    ensures var st := Run(sg, Fresh(w), ops);
            var once := Reconcile(sg, st, resolve);
            Reconcile(sg, once, resolve).sys.world == once.sys.world
  {
    hide Run, Reconcile, ListsOnce, NoConflict, LastWordStands;
    var st := Run(sg, Fresh(w), ops);
    AgreementStands(sg, st.sys.world, st.targets, resolve);
    SecondReconcileExactly(sg, w, ops, resolve);
  }

  /**
   Drift on a captured binding: report, adopt and ignore never write; a reapply the kernel accepts
   leaves the process at the clamped desired value, and for a desired value in range the record's
   observed and desired values equal it, with status applied.
   */
  lemma DriftModes(sg: Safeguards, s: Sys, b: Binding, c: nat, desired: int, mode: DriftMode)
    requires Inv(sg, s) && BindingInv(sg, s, b) && b.nice == Some(c)
    ensures var s' := ReconcileDrift(s, b, c, desired, mode);
            && c < |s'.nices| && s'.nices[c].original == s.nices[c].original
            && (mode != Reapply ==> s'.world == s.world && s'.trace == s.trace)
            && (Revalidate(s.world, b) && s.world.GetNice(b.pid).Some? && s.world.NiceAllowed(b.pid, desired)
                && mode == Reapply ==>
                 && s'.world.GetNice(b.pid) == Some(Clamp(desired))
                 && s'.nices[c].observed == Clamp(desired)
                 && (Clamp(desired) == desired && s.world.GetNice(b.pid) != Some(desired) ==>
                      s'.nices[c].desired == desired && s'.nices[c].status == Applied))
  {
    WorldStaysValid(sg, s);
    ReconcileDriftKeeps(sg, s, b, c, desired, mode);
    hide Inv, BindingInv, NiceCellsOk, StopCellsOk;
  }
}
