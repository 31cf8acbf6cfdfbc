/** What freezing a target does to cgroups: which are frozen or thawed, and that each is written once. */
module ControlFreeze {
  import opened Options
  import opened Identity
  import opened Kernel
  import opened Control
  import opened Operations
  import FreezeGuard

  /** Some binding of the list makes the call act on cgroup `cg`, and the kernel permits it. */
  ghost predicate Reached(sg: Safeguards, w: World, bs: seq<Binding>, cg: string, freeze: bool, force: bool) {
    && (exists b :: b in bs && sg.CheckPID(b.pid) && w.ReadCgroupOf(b.pid) == Some(cg))
    && cg != "" && (freeze && !force ==> FreezeGuard.FreezeSafety(cg, SelfCgroup(sg, w)))
  }

  /** How often the trace writes a cgroup. */
  function Writes(trace: seq<Event>, cg: string): nat {
    if trace == [] then 0
    else Writes(trace[..|trace| - 1], cg) +
         (if trace[|trace| - 1].Froze? && trace[|trace| - 1].cgroup == cg then 1 else 0)
  }

  /** Everything the guard and the cgroup lookups see is as it was. */
  predicate SameLook(w: World, w': World) { w'.procs == w.procs && w'.denied == w.denied }

  /** Which cgroups a pass has handled, with everything the guard looks at unchanged. */
  ghost predicate HandledAll(sg: Safeguards, s: Sys, bs: seq<Binding>, p: Pass, cg: string) {
    && SameLook(s.world, p.sys.world)
    && (cg in p.handled <==> cg != "" && exists b :: b in bs && sg.CheckPID(b.pid) && s.world.ReadCgroupOf(b.pid) == Some(cg))
  }

  ghost predicate FrozenAsAsked(sg: Safeguards, s: Sys, bs: seq<Binding>, p: Pass, freeze: bool, force: bool, cg: string) {
    cg in p.sys.world.frozen <==>
      if Reached(sg, s.world, bs, cg, freeze, force) && s.world.FreezeAllowed(cg, freeze) then freeze
      else cg in s.world.frozen
  }

  ghost predicate WrittenOnce(sg: Safeguards, s: Sys, bs: seq<Binding>, p: Pass, freeze: bool, force: bool, cg: string) {
    Writes(p.sys.trace, cg) == Writes(s.trace, cg) + if Reached(sg, s.world, bs, cg, freeze, force) then 1 else 0
  }

  ghost predicate Settled(sg: Safeguards, s: Sys, bs: seq<Binding>, p: Pass, freeze: bool, force: bool, cg: string) {
    HandledAll(sg, s, bs, p, cg) && FrozenAsAsked(sg, s, bs, p, freeze, force, cg) && WrittenOnce(sg, s, bs, p, freeze, force, cg)
  }

  lemma WritesLog(trace: seq<Event>, e: Event, cg: string)
    ensures Writes(trace + [e], cg) == Writes(trace, cg) + if e.Froze? && e.cgroup == cg then 1 else 0
  {
    assert (trace + [e])[..|trace|] == trace;
  }

  lemma {:induction false} FreezePass(sg: Safeguards, s: Sys, bs: seq<Binding>, freeze: bool, force: bool, cg: string)
    ensures Settled(sg, s, bs, Each(sg, s, DoFreeze(freeze, force, false), bs), freeze, force, cg)
  {
    if bs != [] {
      hide Writes, FreezeGuard.FreezeSafety;
      var last, init := bs[|bs| - 1], bs[..|bs| - 1];
      FreezePass(sg, s, init, freeze, force, cg);
      assert forall b :: b in bs <==> b in init || b == last;
      FreezeOne(sg, s, init, last, Each(sg, s, DoFreeze(freeze, force, false), init), freeze, force, cg);
      assert bs == init + [last];
    }
  }

  lemma FreezeOne(sg: Safeguards, s: Sys, init: seq<Binding>, last: Binding, p: Pass, freeze: bool, force: bool, cg: string)
    requires Settled(sg, s, init, p, freeze, force, cg)
    ensures Settled(sg, s, init + [last], Then(sg, p, DoFreeze(freeze, force, false), last), freeze, force, cg)
  {
    hide FrozenAsAsked, WrittenOnce, FreezeGuard.FreezeSafety;
    assert forall b :: b in init + [last] <==> b in init || b == last;
    FrozenOne(sg, s, init, last, p, freeze, force, cg);
    WrittenOne(sg, s, init, last, p, freeze, force, cg);
  }

  lemma FrozenOne(sg: Safeguards, s: Sys, init: seq<Binding>, last: Binding, p: Pass, freeze: bool, force: bool, cg: string)
    requires Settled(sg, s, init, p, freeze, force, cg)
    ensures FrozenAsAsked(sg, s, init + [last], Then(sg, p, DoFreeze(freeze, force, false), last), freeze, force, cg)
  {
    hide WrittenOnce, FreezeGuard.FreezeSafety;
    assert forall b :: b in init + [last] <==> b in init || b == last;
  }

  lemma WrittenOne(sg: Safeguards, s: Sys, init: seq<Binding>, last: Binding, p: Pass, freeze: bool, force: bool, cg: string)
    requires Settled(sg, s, init, p, freeze, force, cg)
    ensures WrittenOnce(sg, s, init + [last], Then(sg, p, DoFreeze(freeze, force, false), last), freeze, force, cg)
  {
    hide FrozenAsAsked, Writes, FreezeGuard.FreezeSafety;
    assert forall b :: b in init + [last] <==> b in init || b == last;
    var w := p.sys.world;
    match w.ReadCgroupOf(last.pid)
    case None =>
    case Some(c) =>
      WritesLog(p.sys.trace, Froze(c, freeze, force, w.ReadCgroupOf(sg.selfPid), w.FreezeAllowed(c, freeze)), cg);
  }

  /**
   A real freeze or thaw of a target, as a whole: a cgroup ends frozen or thawed as asked exactly when an
   allowed process of the target is in it, the guard permits the freeze or it is forced, and the kernel
   accepts; every other cgroup keeps its state. Each cgroup is written once, however many processes it has.
   */
  lemma FreezeEffect(sg: Safeguards, st: State, target: string, freeze: bool, force: bool, i: nat, cg: string)
    requires Find(st.targets, target) == Some(i) && i < |st.targets|
    ensures var w, bs, s' := st.sys.world, st.targets[i].bindings, SetFreeze(sg, st, target, freeze, force, false).0.sys;
            && (cg in s'.world.frozen <==>
                  if Reached(sg, w, bs, cg, freeze, force) && w.FreezeAllowed(cg, freeze) then freeze else cg in w.frozen)
            && Writes(s'.trace, cg) == Writes(st.sys.trace, cg) + if Reached(sg, w, bs, cg, freeze, force) then 1 else 0
  {
    FreezePass(sg, st.sys, st.targets[i].bindings, freeze, force, cg);
  }
}
