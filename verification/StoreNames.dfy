/**
 Temporary names. As long as no Save takes a name that an unfinished one still holds, each Save's name leads
 to its own file; then every rename is safe and puts exactly the Save's own bytes in place.
 */
module StoreNames {
  import opened Options
  import opened StoreDisk
  import opened StoreSafety

  /** The file a Save may still write to, or is about to put in place. */
  predicate Uses(s: Save, ino: nat) {
    match s.stage
    case Created(_, i) => i == ino
    case Writing(_, i, _) => i == ino
    case Synced(_, i) => i == ino
    case Closed(_, i) => i == ino
    case _ => false
  }

  /** A Save's file holds what it has written so far, and its name leads to it. */
  predicate Progress(d: Disk, s: Save)
    requires d.Formed()
  {
    match s.stage
    case Created(name, ino) => Entry(d, name, ino) && d.inodes[ino].data == []
    case Writing(name, ino, w) => Entry(d, name, ino) && w <= |s.data| && d.inodes[ino].data == s.data[..w]
    case Synced(name, ino) => Entry(d, name, ino) && d.inodes[ino] == Inode(s.data, true)
    case Closed(name, ino) => Entry(d, name, ino) && d.inodes[ino] == Inode(s.data, true)
    case Renamed(name) => IsTemp(name)
    case Cleaning(name) => IsTemp(name)
    case _ => true
  }

  predicate Entry(d: Disk, name: string, ino: nat)
    requires d.Formed()
  {
    IsTemp(name) && name in d.Live() && d.Live()[name] == ino && ino < |d.inodes|
  }

  ghost predicate Apart(d: Disk) {
    forall s, t :: s in d.saves && t in d.saves && s != t ==>
      && (forall ino: nat :: Uses(d.saves[s], ino) ==> !Uses(d.saves[t], ino))
      && (forall name :: Holds(d.saves[s], name) ==> !Holds(d.saves[t], name))
  }

  ghost predicate Owned(d: Disk) {
    d.Formed() && (forall s :: s in d.saves ==> Progress(d, d.saves[s])) && Apart(d)
  }

  lemma ProgressOfSameFiles(d: Disk, r: Disk, s: Save)
    requires d.Formed() && r.Formed() && r.inodes == d.inodes && r.Live() == d.Live() && Progress(d, s)
    ensures Progress(r, s)
  {
  }

  // ---- Steps that change files or the directory ----

  /** What a Save relies on is still there when its file and its name's entry are. */
  lemma ProgressStays(d: Disk, r: Disk, v: Save)
    requires d.Formed() && r.Formed() && Progress(d, v) && |r.inodes| >= |d.inodes|
    requires forall ino: nat :: Uses(v, ino) && ino < |d.inodes| ==> r.inodes[ino] == d.inodes[ino]
    requires forall name :: Holds(v, name) && name in d.Live() ==> name in r.Live() && r.Live()[name] == d.Live()[name]
    ensures Progress(r, v)
  {
    hide IsTemp;
    match v.stage
    case Created(name, ino) => assert Holds(v, name) && Uses(v, ino);
    case Writing(name, ino, _) => assert Holds(v, name) && Uses(v, ino);
    case Synced(name, ino) => assert Holds(v, name) && Uses(v, ino);
    case Closed(name, ino) => assert Holds(v, name) && Uses(v, ino);
    case _ =>
  }

  /** One Save moves; its file may change, and entries other than its own and state.json stay. */
  ghost predicate Shifts(d: Disk, r: Disk, s: nat) {
    && d.Formed() && r.Formed() && s in d.saves && r.saves.Keys == d.saves.Keys && |r.inodes| >= |d.inodes|
    && (forall t :: t in d.saves && t != s ==> r.saves[t] == d.saves[t])
    && (forall ino: nat :: ino < |d.inodes| && !Uses(d.saves[s], ino) ==> r.inodes[ino] == d.inodes[ino])
    && (forall ino: nat :: Uses(r.saves[s], ino) ==> Uses(d.saves[s], ino) || ino >= |d.inodes|)
    && (forall name :: Holds(r.saves[s], name) ==> Holds(d.saves[s], name) || FreshFor(d, s, name))
    && (forall name :: name in d.Live() && !Holds(d.saves[s], name) && name != STATE ==>
          name in r.Live() && r.Live()[name] == d.Live()[name])
  }

  ghost predicate FreshFor(d: Disk, s: nat, name: string) {
    forall t :: t in d.saves && t != s ==> !Holds(d.saves[t], name)
  }

  lemma UsedAreFiles(d: Disk, s: nat, ino: nat)
    requires Owned(d) && s in d.saves && Uses(d.saves[s], ino)
    ensures ino < |d.inodes|
  {
    assert Progress(d, d.saves[s]);
  }

  lemma HeldAreTemps(d: Disk, s: nat, name: string)
    requires Owned(d) && s in d.saves && Holds(d.saves[s], name)
    ensures IsTemp(name) && name != STATE
  {
    assert Progress(d, d.saves[s]);
    TempIsNotState(name);
  }

  lemma ShiftsOthers(d: Disk, r: Disk, s: nat, t: nat)
    requires Owned(d) && Shifts(d, r, s) && t in d.saves && t != s
    ensures Progress(r, r.saves[t])
  {
    hide IsTemp, Progress;
    assert Progress(d, d.saves[t]);
    var v := d.saves[t];
    forall ino: nat | Uses(v, ino) && ino < |d.inodes| ensures r.inodes[ino] == d.inodes[ino] {
      assert !Uses(d.saves[s], ino);
    }
    forall name | Holds(v, name) && name in d.Live() ensures name in r.Live() && r.Live()[name] == d.Live()[name] {
      HeldAreTemps(d, t, name);
      assert !Holds(d.saves[s], name);
    }
    ProgressStays(d, r, v);
  }

  lemma ShiftsApart(d: Disk, r: Disk, s: nat)
    requires Owned(d) && Shifts(d, r, s)
    ensures Apart(r)
  {
    hide IsTemp, Uses, Holds, Progress;
    forall t, u | t in r.saves && u in r.saves && t != u
      ensures forall ino: nat :: Uses(r.saves[t], ino) ==> !Uses(r.saves[u], ino)
      ensures forall name :: Holds(r.saves[t], name) ==> !Holds(r.saves[u], name)
    {
      if t == s {
        ShiftsApartFrom(d, r, s, u);
      } else if u == s {
        ShiftsApartFrom(d, r, s, t);
      }
    }
  }

  lemma ShiftsApartFrom(d: Disk, r: Disk, s: nat, t: nat)
    requires Owned(d) && Shifts(d, r, s) && t in d.saves && t != s
    ensures forall ino: nat :: Uses(r.saves[s], ino) ==> !Uses(r.saves[t], ino)
    ensures forall name :: Holds(r.saves[s], name) ==> !Holds(r.saves[t], name)
  {
    hide IsTemp, Uses, Holds, Progress;
    forall ino: nat | Uses(r.saves[t], ino) ensures !Uses(r.saves[s], ino) {
      UsedAreFiles(d, t, ino);
    }
  }

  lemma ShiftsOwned(d: Disk, r: Disk, s: nat)
    requires Owned(d) && Shifts(d, r, s) && Progress(r, r.saves[s])
    ensures Owned(r)
  {
    assert r.Formed();
    hide IsTemp, Uses, Holds, Progress, Shifts;
    ShiftsApart(d, r, s);
    forall t | t in r.saves ensures Progress(r, r.saves[t]) {
      if t != s {
        ShiftsSame(d, r, s, t);
        ShiftsOthers(d, r, s, t);
      }
    }
  }

  lemma ShiftsSame(d: Disk, r: Disk, s: nat, t: nat)
    requires Shifts(d, r, s) && t in r.saves
    ensures t in d.saves
  {
    assert t in r.saves.Keys;
  }

  lemma CreateShape(d: Disk, s: nat, name: string)
    requires Enabled(d, Action(s, Create(name)))
    ensures IsTemp(name) && name !in d.Live() && s in d.saves && d.saves[s].stage.Begun?
    ensures Do(d, Action(s, Create(name))) ==
            Disk(d.inodes + [Inode([], false)], d.dirs + [d.Live()[name := |d.inodes|]],
                 d.saves[s := Save(d.saves[s].data, Created(name, |d.inodes|))])
  {
    hide IsTemp;
  }

  lemma CreateOwned(d: Disk, s: nat, name: string)
    requires Owned(d) && Enabled(d, Action(s, Create(name))) && FreshName(d, Action(s, Create(name)))
    ensures Owned(Do(d, Action(s, Create(name))))
  {
    CreateShape(d, s, name);
    var r := Do(d, Action(s, Create(name)));
    assert Progress(r, r.saves[s]);
    hide IsTemp, Do, Enabled, Progress;
    assert Shifts(d, r, s);
    hide Shifts, Apart;
    ShiftsOwned(d, r, s);
  }

  /** Steps after the creation: the Save keeps or lets go of its name and file. */
  lemma LaterOwned(d: Disk, a: Action)
    requires Owned(d) && Enabled(d, a) && !a.step.Begin? && !a.step.Create?
    ensures Owned(Do(d, a))
  {
    hide IsTemp;
    var s := a.save;
    var r := Do(d, a);
    assert Progress(d, d.saves[s]);
    LaterProgress(d, a);
    LaterShifts(d, a);
    hide Shifts, Progress;
    ShiftsOwned(d, r, s);
  }

  lemma LaterProgress(d: Disk, a: Action)
    requires Enabled(d, a) && !a.step.Begin? && !a.step.Create? && Progress(d, d.saves[a.save])
    ensures Do(d, a).saves.Keys == d.saves.Keys && Progress(Do(d, a), Do(d, a).saves[a.save])
  {
    hide IsTemp;
    var v := d.saves[a.save];
    match a.step
    case Write(n) => assert v.data[..v.stage.written] + v.data[v.stage.written..v.stage.written + n] == v.data[..v.stage.written + n];
    case Sync(_) => assert v.data[..|v.data|] == v.data;
    case _ =>
  }

  lemma LaterShifts(d: Disk, a: Action)
    requires Owned(d) && Enabled(d, a) && !a.step.Begin? && !a.step.Create?
    ensures Shifts(d, Do(d, a), a.save)
  {
    hide IsTemp, Apart, Progress;
    var s := a.save;
    LaterHolds(d, a);
    assert d.saves[s].stage.Writing? ==> Uses(d.saves[s], d.saves[s].stage.ino);
  }

  lemma LaterHolds(d: Disk, a: Action)
    requires Enabled(d, a) && !a.step.Begin? && !a.step.Create?
    ensures d.saves[a.save].stage != Begun ==> !a.step.CreateFails? && Holds(d.saves[a.save], d.saves[a.save].stage.name)
  {
    hide IsTemp;
  }

  lemma BeginOwned(d: Disk, s: nat, data: Bytes)
    requires Owned(d) && Enabled(d, Action(s, Begin(data)))
    ensures Owned(Do(d, Action(s, Begin(data))))
  {
    hide IsTemp, Progress;
    var r := Do(d, Action(s, Begin(data)));
    forall t | t in r.saves ensures Progress(r, r.saves[t]) {
      BegunProgress(r, r.saves[t]);
      if t != s {
        ProgressOfSameFiles(d, r, d.saves[t]);
      }
    }
  }

  lemma BegunProgress(d: Disk, s: Save)
    requires d.Formed()
    ensures s.stage.Begun? ==> Progress(d, s)
  {
  }

  /** Each step keeps names and files with their Saves, unless it takes a name that another still holds. */
  lemma StepOwned(d: Disk, a: Action)
    requires Owned(d) && Enabled(d, a) && FreshName(d, a)
    ensures Owned(Do(d, a))
  {
    hide Owned, IsTemp;
    match a.step {
      case Begin(data) => BeginOwned(d, a.save, data);
      case Create(name) => CreateOwned(d, a.save, name);
      case _ => LaterOwned(d, a);
    }
  }

  // ---- Main results ----

  lemma OwnedIsPlaced(d: Disk, a: Action)
    requires Owned(d) && Enabled(d, a)
    ensures Placed(d, a)
  {
    hide IsTemp, Apart;
    if a.step == Rename(true) {
      assert Progress(d, d.saves[a.save]);
    }
  }

  lemma {:induction false} FreshIsSafe(d: Disk, acts: seq<Action>)
    requires Owned(d) && Runs(d, acts) && FreshNames(d, acts)
    ensures SafeRenames(d, acts)
    decreases |acts|
  {
    hide Owned, Enabled, FreshName, Placed;
    if acts != [] {
      OwnedIsPlaced(d, acts[0]);
      StepOwned(d, acts[0]);
      FreshIsSafe(Do(d, acts[0]), acts[1..]);
    }
  }

  /** With fresh names, at every moment of every run a reader and a crash both find state.json whole. */
  lemma CrashSafe(start: Disk, init: Option<Bytes>, acts: seq<Action>)
    requires Initial(start, init) && Runs(start, acts) && FreshNames(start, acts)
    ensures start.Formed() && AlwaysWhole(start, init, acts)
  {
    InitialOwned(start, init);
    hide Initial, Runs, FreshNames, Owned;
    FreshIsSafe(start, acts);
    CrashSafeExactly(start, init, acts);
  }

  lemma InitialOwned(d: Disk, init: Option<Bytes>)
    requires Initial(d, init)
    ensures Owned(d)
  {
  }

  /** While names are with their Saves, a rename puts exactly the Save's bytes in place. */
  lemma RenameShows(d: Disk, s: nat)
    requires Owned(d) && Enabled(d, Action(s, Rename(true)))
    ensures Content(Do(d, Action(s, Rename(true)))) == Some(d.saves[s].data)
  {
    hide IsTemp;
    assert Progress(d, d.saves[s]);
  }
}
