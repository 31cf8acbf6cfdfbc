/**
 Crash safety of the state store. Whatever Saves run, however their steps interleave and fail, and whenever
 the machine crashes: state.json is whole at every moment, to a reader and after a crash, if and only if
 every rename that succeeds finds its temporary name leading to a synced file.
 */
module StoreSafety {
  import opened Options
  import opened StoreDisk

  // ---- The property ----

  ghost predicate FromSave(d: Disk, b: Bytes) { exists s :: s in d.saves && d.saves[s].data == b }

  /** What state.json is allowed to hold: what it held at first, or everything one Save was given to write. */
  ghost predicate Whole(d: Disk, init: Option<Bytes>, found: Option<Bytes>) {
    found == init || (found.Some? && FromSave(d, found.value))
  }

  ghost predicate WholeNow(d: Disk, init: Option<Bytes>)
    requires d.Formed()
  {
    Whole(d, init, Content(d)) && forall found :: AfterCrash(d, found) ==> Whole(d, init, found)
  }

  /** A reader and a crash find state.json whole at every moment of a run. */
  ghost predicate AlwaysWhole(d: Disk, init: Option<Bytes>, acts: seq<Action>)
    requires d.Formed() && Runs(d, acts)
    decreases |acts|
  {
    WholeNow(d, init) && (acts == [] || AlwaysWhole(Do(d, acts[0]), init, acts[1..]))
  }

  // ---- The condition ----

  predicate Durable(d: Disk, ino: nat) { ino < |d.inodes| && d.inodes[ino].durable }

  /** A rename that is about to succeed finds a synced file under its temporary name, not necessarily its own. */
  predicate Placed(d: Disk, a: Action)
    requires Enabled(d, a)
  {
    a.step == Rename(true) ==> Durable(d, d.Live()[d.saves[a.save].stage.name])
  }

  predicate SafeRenames(d: Disk, acts: seq<Action>)
    requires Runs(d, acts)
    decreases |acts|
  {
    acts == [] || (Placed(d, acts[0]) && SafeRenames(Do(d, acts[0]), acts[1..]))
  }

  // ---- What safe renames keep ----

  /** The file a Save still writes to. */
  predicate Fills(s: Save, ino: nat) {
    match s.stage
    case Created(_, i) => i == ino
    case Writing(_, i, _) => i == ino
    case _ => false
  }

  /** While a Save fills its file, the file is not synced and holds what was written so far. */
  predicate Filling(d: Disk, s: Save) {
    match s.stage
    case Created(_, ino) => ino < |d.inodes| && d.inodes[ino] == Inode([], false)
    case Writing(_, ino, w) => ino < |d.inodes| && w <= |s.data| && d.inodes[ino] == Inode(s.data[..w], false)
    case _ => true
  }

  predicate FillsAt(d: Disk, s: nat, ino: nat) { s in d.saves && Fills(d.saves[s], ino) }

  predicate Named(s: Save) {
    match s.stage
    case Begun => true
    case Finished => true
    case _ => IsTemp(s.stage.name)
  }

  ghost predicate OneWriter(d: Disk) {
    forall s, t :: s in d.saves && t in d.saves && s != t ==>
      forall ino: nat :: Fills(d.saves[s], ino) ==> !Fills(d.saves[t], ino)
  }

  /** A file that is whole once it is synced. */
  ghost predicate Good(d: Disk, init: Option<Bytes>, ino: nat) {
    ino < |d.inodes| && (d.inodes[ino].durable ==> Whole(d, init, Some(d.inodes[ino].data)))
  }

  ghost predicate DirSafe(d: Disk, init: Option<Bytes>, dir: Dir) {
    (STATE in dir ==> Durable(d, dir[STATE]) && Good(d, init, dir[STATE])) && (STATE !in dir ==> init.None?)
  }

  ghost predicate TempsGood(d: Disk, init: Option<Bytes>)
    requires d.Formed()
  {
    forall name :: name in d.Live() && IsTemp(name) ==> Good(d, init, d.Live()[name])
  }

  ghost predicate Inv(d: Disk, init: Option<Bytes>) {
    && d.Formed()
    && (forall k :: 0 <= k < |d.dirs| ==> DirSafe(d, init, d.dirs[k]))
    && TempsGood(d, init)
    && (forall s :: s in d.saves ==> Filling(d, d.saves[s]) && Named(d.saves[s]))
    && OneWriter(d)
  }

  lemma InitialInv(d: Disk, init: Option<Bytes>)
    requires Initial(d, init)
    ensures Inv(d, init)
  {
    hide IsTemp;
  }

  lemma TempIsNotState(name: string)
    requires IsTemp(name)
    ensures name != STATE
  {
    assert STATE[..6] == "state." && "state."[5] != "state-"[5];
  }

  // ---- One step ----

  /** Save `s` moves: no other Save changes, and no file but the one that `s` fills. */
  ghost predicate Moves(d: Disk, r: Disk, init: Option<Bytes>, s: nat) {
    && d.Formed() && r.Formed() && s in r.saves && r.saves.Keys == d.saves.Keys + {s}
    && (s in d.saves ==> r.saves[s].data == d.saves[s].data)
    && (forall t :: t in d.saves && t != s ==> r.saves[t] == d.saves[t])
    && |r.inodes| >= |d.inodes|
    && (forall ino: nat :: ino < |d.inodes| ==> if FillsAt(d, s, ino) then Good(r, init, ino) else r.inodes[ino] == d.inodes[ino])
    && (forall ino: nat :: Fills(r.saves[s], ino) ==> FillsAt(d, s, ino) || ino >= |d.inodes|)
  }

  lemma MovesSaves(d: Disk, r: Disk, init: Option<Bytes>, s: nat)
    requires Moves(d, r, init, s)
    ensures d.Formed() && r.Formed()
    ensures forall t :: t in d.saves ==> t in r.saves && r.saves[t].data == d.saves[t].data
    ensures forall t :: t in r.saves && t != s ==> t in d.saves && r.saves[t] == d.saves[t]
  {
    assert forall t :: t in r.saves ==> t in r.saves.Keys;
    assert forall t :: t in d.saves ==> t in r.saves.Keys;
  }

  lemma WholeStays(d: Disk, r: Disk, init: Option<Bytes>, s: nat, found: Option<Bytes>)
    requires Moves(d, r, init, s) && Whole(d, init, found)
    ensures Whole(r, init, found)
  {
    hide Moves;
    MovesSaves(d, r, init, s);
    if found != init {
      var t :| t in d.saves && d.saves[t].data == found.value;
      assert t in r.saves && r.saves[t].data == found.value;
    }
  }

  lemma GoodStays(d: Disk, r: Disk, init: Option<Bytes>, s: nat, ino: nat)
    requires Moves(d, r, init, s) && Good(d, init, ino)
    ensures Good(r, init, ino)
  {
    hide Whole;
    if !FillsAt(d, s, ino) && d.inodes[ino].durable {
      WholeStays(d, r, init, s, Some(d.inodes[ino].data));
    }
  }

  /** A synced file is never written again. */
  lemma DurableStays(d: Disk, r: Disk, init: Option<Bytes>, s: nat, ino: nat)
    requires Inv(d, init) && Moves(d, r, init, s) && Durable(d, ino)
    ensures Durable(r, ino) && r.inodes[ino] == d.inodes[ino]
  {
    assert s in d.saves ==> Filling(d, d.saves[s]);
    assert !FillsAt(d, s, ino);
  }

  lemma DirStays(d: Disk, r: Disk, init: Option<Bytes>, s: nat, k: nat)
    requires Inv(d, init) && Moves(d, r, init, s) && k < |d.dirs|
    ensures DirSafe(r, init, d.dirs[k])
  {
    hide Moves, Good, Durable;
    assert DirSafe(d, init, d.dirs[k]);
    if STATE in d.dirs[k] {
      DurableStays(d, r, init, s, d.dirs[k][STATE]);
      GoodStays(d, r, init, s, d.dirs[k][STATE]);
    }
  }

  lemma FillingStays(d: Disk, r: Disk, init: Option<Bytes>, s: nat, t: nat)
    requires Inv(d, init) && Moves(d, r, init, s) && t in r.saves && t != s
    ensures Filling(r, r.saves[t]) && Named(r.saves[t])
  {
    hide Good, Named;
    MovesSaves(d, r, init, s);
    assert Filling(d, d.saves[t]) && Named(d.saves[t]);
    match d.saves[t].stage
    case Created(_, ino) => assert Fills(d.saves[t], ino) && !FillsAt(d, s, ino);
    case Writing(_, ino, _) => assert Fills(d.saves[t], ino) && !FillsAt(d, s, ino);
    case _ =>
  }

  lemma OneWriterStays(d: Disk, r: Disk, init: Option<Bytes>, s: nat)
    requires Inv(d, init) && Moves(d, r, init, s)
    ensures OneWriter(r)
  {
    hide Good, Named, DirSafe, TempsGood;
    MovesSaves(d, r, init, s);
    forall t, u, ino: nat | t in r.saves && u in r.saves && t != u && Fills(r.saves[t], ino) ensures !Fills(r.saves[u], ino) {
      if t != s {
        assert Filling(d, d.saves[t]);
      }
      if u != s {
        assert Filling(d, d.saves[u]);
      }
    }
  }

  predicate SameState(a: Dir, b: Dir) { (STATE in a <==> STATE in b) && (STATE in a ==> a[STATE] == b[STATE]) }

  /** A move keeps the invariant when what it leaves of the Save and adds to the directory is in order. */
  lemma MovesInv(d: Disk, r: Disk, init: Option<Bytes>, s: nat)
    requires Inv(d, init) && Moves(d, r, init, s) && Filling(r, r.saves[s]) && Named(r.saves[s])
    requires forall k :: 0 <= k < |r.dirs| ==>
               r.dirs[k] in d.dirs || SameState(r.dirs[k], d.Live()) || (STATE in r.dirs[k] && DirSafe(r, init, r.dirs[k]))
    requires forall name :: name in r.Live() && IsTemp(name) ==>
               (name in d.Live() && d.Live()[name] == r.Live()[name]) || Good(r, init, r.Live()[name])
    ensures Inv(r, init)
  {
    MovesSaves(d, r, init, s);
    hide Moves, Good, Durable, Filling, Named, OneWriter, IsTemp;
    OneWriterStays(d, r, init, s);
    forall t | t in r.saves ensures Filling(r, r.saves[t]) && Named(r.saves[t]) {
      if t != s {
        FillingStays(d, r, init, s, t);
      }
    }
    forall k | 0 <= k < |r.dirs| ensures DirSafe(r, init, r.dirs[k]) {
      if r.dirs[k] in d.dirs {
        var i :| 0 <= i < |d.dirs| && d.dirs[i] == r.dirs[k];
        DirStays(d, r, init, s, i);
      } else if SameState(r.dirs[k], d.Live()) {
        DirStays(d, r, init, s, |d.dirs| - 1);
      }
    }
    forall name | name in r.Live() && IsTemp(name) ensures Good(r, init, r.Live()[name]) {
      if name in d.Live() && d.Live()[name] == r.Live()[name] {
        GoodStays(d, r, init, s, d.Live()[name]);
      }
    }
  }

  lemma StagedInv(d: Disk, init: Option<Bytes>, s: nat, stage: Stage)
    requires Inv(d, init) && s in d.saves
    requires var v := Save(d.saves[s].data, stage);
             Filling(d, v) && Named(v) && forall ino: nat :: Fills(v, ino) ==> Fills(d.saves[s], ino)
    ensures Inv(d.Staged(s, stage), init)
  {
    hide IsTemp, Named;
    var r := d.Staged(s, stage);
    assert Filling(d, d.saves[s]);
    assert forall ino: nat :: Fills(d.saves[s], ino) ==> Good(r, init, ino);
    assert Moves(d, r, init, s);
    hide Moves, Fills, Filling, Good;
    FillingOfSameFiles(d, r, r.saves[s]);
    MovesInv(d, r, init, s);
  }

  lemma FillingOfSameFiles(d: Disk, r: Disk, s: Save)
    requires r.inodes == d.inodes && Filling(d, s)
    ensures Filling(r, s)
  {
  }

  lemma BeginInv(d: Disk, init: Option<Bytes>, s: nat, data: Bytes)
    requires Inv(d, init) && Enabled(d, Action(s, Begin(data)))
    ensures Inv(Do(d, Action(s, Begin(data))), init)
  {
    hide IsTemp;
    var r := Do(d, Action(s, Begin(data)));
    assert Moves(d, r, init, s);
    MovesInv(d, r, init, s);
  }

  lemma CreateInv(d: Disk, init: Option<Bytes>, s: nat, name: string)
    requires Inv(d, init) && Enabled(d, Action(s, Create(name)))
    ensures Inv(Do(d, Action(s, Create(name))), init)
  {
    TempIsNotState(name);
    hide IsTemp;
    var r := Do(d, Action(s, Create(name)));
    assert Good(r, init, |d.inodes|);
    assert Moves(d, r, init, s);
    assert forall k :: 0 <= k < |d.dirs| ==> r.dirs[k] == d.dirs[k] && r.dirs[k] in d.dirs;
    hide Moves;
    MovesInv(d, r, init, s);
  }

  lemma WriteInv(d: Disk, init: Option<Bytes>, s: nat, n: nat)
    requires Inv(d, init) && Enabled(d, Action(s, Write(n)))
    ensures Inv(Do(d, Action(s, Write(n))), init)
  {
    hide IsTemp;
    var r := Do(d, Action(s, Write(n)));
    var v, at := d.saves[s], d.saves[s].stage;
    assert Filling(d, v);
    assert v.data[..at.written] + v.data[at.written..at.written + n] == v.data[..at.written + n];
    assert Moves(d, r, init, s);
    assert Filling(r, r.saves[s]) && Named(r.saves[s]);
    hide Moves, Filling;
    MovesInv(d, r, init, s);
  }

  lemma SyncInv(d: Disk, init: Option<Bytes>, s: nat)
    requires Inv(d, init) && Enabled(d, Action(s, Sync(true)))
    ensures Inv(Do(d, Action(s, Sync(true))), init)
  {
    hide IsTemp;
    var r := Do(d, Action(s, Sync(true)));
    var v, at := d.saves[s], d.saves[s].stage;
    assert Filling(d, v);
    assert v.data[..|v.data|] == v.data;
    assert r.saves[s].data == v.data && r.inodes[at.ino] == Inode(v.data, true);
    assert Good(r, init, at.ino);
    assert Moves(d, r, init, s);
    assert Filling(r, r.saves[s]) && Named(r.saves[s]);
    hide Moves, Filling;
    MovesInv(d, r, init, s);
  }

  lemma RenameShape(d: Disk, s: nat)
    requires Enabled(d, Action(s, Rename(true)))
    ensures s in d.saves && d.saves[s].stage.Closed? && d.saves[s].stage.name in d.Live()
    ensures var name := d.saves[s].stage.name;
            Do(d, Action(s, Rename(true))) ==
            Disk(d.inodes, d.dirs + [(d.Live() - {name})[STATE := d.Live()[name]]],
                 d.saves[s := Save(d.saves[s].data, Renamed(name))])
  {
    hide IsTemp;
  }

  /** A synced file found under a temporary name is whole, whichever Save wrote it. */
  lemma RenameInv(d: Disk, init: Option<Bytes>, s: nat)
    requires Inv(d, init) && Enabled(d, Action(s, Rename(true))) && Placed(d, Action(s, Rename(true)))
    ensures Inv(Do(d, Action(s, Rename(true))), init)
  {
    RenameShape(d, s);
    var r := Do(d, Action(s, Rename(true)));
    var name := d.saves[s].stage.name;
    assert Named(d.saves[s]);
    if IsTemp(STATE) {
      TempIsNotState(STATE);
    }
    hide IsTemp, Do, Enabled;
    assert Moves(d, r, init, s);
    assert Good(d, init, d.Live()[name]) && Durable(d, d.Live()[name]);
    GoodStays(d, r, init, s, d.Live()[name]);
    assert DirSafe(r, init, r.Live());
    assert forall k :: 0 <= k < |d.dirs| ==> r.dirs[k] == d.dirs[k] && r.dirs[k] in d.dirs;
    hide Moves, Good, Durable;
    MovesInv(d, r, init, s);
  }

  lemma SyncDirInv(d: Disk, init: Option<Bytes>, s: nat)
    requires Inv(d, init) && Enabled(d, Action(s, SyncDir(true)))
    ensures Inv(Do(d, Action(s, SyncDir(true))), init)
  {
    hide IsTemp;
    var r := Do(d, Action(s, SyncDir(true)));
    assert Named(d.saves[s]);
    assert Moves(d, r, init, s);
    hide Moves;
    MovesInv(d, r, init, s);
  }

  lemma RemoveShape(d: Disk, s: nat)
    requires Enabled(d, Action(s, Remove(true)))
    ensures s in d.saves && d.saves[s].stage.Cleaning?
    ensures Do(d, Action(s, Remove(true))) ==
            Disk(d.inodes, d.dirs + [d.Live() - {d.saves[s].stage.name}], d.saves[s := Save(d.saves[s].data, Finished)])
  {
    hide IsTemp;
  }

  lemma RemoveInv(d: Disk, init: Option<Bytes>, s: nat)
    requires Inv(d, init) && Enabled(d, Action(s, Remove(true)))
    ensures Inv(Do(d, Action(s, Remove(true))), init)
  {
    RemoveShape(d, s);
    var r := Do(d, Action(s, Remove(true)));
    assert Named(d.saves[s]);
    TempIsNotState(d.saves[s].stage.name);
    hide IsTemp, Do, Enabled;
    assert Moves(d, r, init, s);
    assert forall k :: 0 <= k < |d.dirs| ==> r.dirs[k] == d.dirs[k] && r.dirs[k] in d.dirs;
    hide Moves;
    MovesInv(d, r, init, s);
  }

  predicate StageOnly(step: Step) {
    match step
    case CreateFails => true
    case Chmod(_) => true
    case WriteFails => true
    case Close(_) => true
    case Sync(ok) => !ok
    case Rename(ok) => !ok
    case SyncDir(ok) => !ok
    case Remove(ok) => !ok
    case _ => false
  }

  lemma StageStepInv(d: Disk, init: Option<Bytes>, a: Action)
    requires Inv(d, init) && Enabled(d, a) && StageOnly(a.step)
    ensures Inv(Do(d, a), init)
  {
    hide IsTemp;
    assert Filling(d, d.saves[a.save]) && Named(d.saves[a.save]);
    var stage := Do(d, a).saves[a.save].stage;
    assert Do(d, a) == d.Staged(a.save, stage);
    StagedInv(d, init, a.save, stage);
  }

  /** Each step keeps the invariant, whatever names are reused, as long as a rename finds a synced file. */
  lemma StepInv(d: Disk, init: Option<Bytes>, a: Action)
    requires Inv(d, init) && Enabled(d, a) && Placed(d, a)
    ensures Inv(Do(d, a), init)
  {
    hide Inv, IsTemp;
    match a.step {
      case Begin(data) => BeginInv(d, init, a.save, data);
      case Create(name) => CreateInv(d, init, a.save, name);
      case Write(n) => WriteInv(d, init, a.save, n);
      case Remove(ok) => if ok { RemoveInv(d, init, a.save); } else { StageStepInv(d, init, a); }
      case Sync(ok) => if ok { SyncInv(d, init, a.save); } else { StageStepInv(d, init, a); }
      case Rename(ok) => if ok { RenameInv(d, init, a.save); } else { StageStepInv(d, init, a); }
      case SyncDir(ok) => if ok { SyncDirInv(d, init, a.save); } else { StageStepInv(d, init, a); }
      case _ => StageStepInv(d, init, a);
    }
  }

  lemma {:induction false} RunInv(d: Disk, init: Option<Bytes>, acts: seq<Action>)
    requires Inv(d, init) && Runs(d, acts) && SafeRenames(d, acts)
    ensures Inv(Run(d, acts), init)
    decreases |acts|
  {
    hide Inv, Enabled, Placed;
    if acts != [] {
      StepInv(d, init, acts[0]);
      RunInv(Do(d, acts[0]), init, acts[1..]);
    }
  }

  lemma InvFormed(d: Disk, init: Option<Bytes>)
    requires Inv(d, init)
    ensures d.Formed()
  {
  }

  // ---- Safe renames are enough ----

  lemma InvWhole(d: Disk, init: Option<Bytes>)
    requires Inv(d, init)
    ensures WholeNow(d, init)
  {
    hide IsTemp;
    assert DirSafe(d, init, d.Live());
    forall found | AfterCrash(d, found) ensures Whole(d, init, found) {
      var k :| 0 <= k < |d.dirs| && FoundIn(d, d.dirs[k], found);
      assert DirSafe(d, init, d.dirs[k]);
    }
  }

  lemma {:induction false} SafeIsWhole(d: Disk, init: Option<Bytes>, acts: seq<Action>)
    requires Inv(d, init) && Runs(d, acts) && SafeRenames(d, acts)
    ensures d.Formed() && AlwaysWhole(d, init, acts)
    decreases |acts|
  {
    InvFormed(d, init);
    hide Inv, Enabled, Placed, WholeNow;
    InvWhole(d, init);
    if acts != [] {
      StepInv(d, init, acts[0]);
      SafeIsWhole(Do(d, acts[0]), init, acts[1..]);
    }
  }

  // ---- They are needed ----

  /** Some number is above the lengths of what all Saves were given to write. */
  lemma {:induction false} Longer(saves: map<nat, Save>, keys: set<nat>) returns (n: nat)
    requires keys <= saves.Keys
    ensures forall s :: s in keys ==> |saves[s].data| < n
    decreases |keys|
  {
    if keys == {} {
      n := 0;
    } else {
      var s :| s in keys;
      var m := Longer(saves, keys - {s});
      n := m + |saves[s].data| + 1;
    }
  }

  /** A crash after a rename of an unsynced file can leave bytes that no Save was given to write. */
  lemma UnsyncedBreaks(d: Disk, init: Option<Bytes>, s: nat)
    requires Inv(d, init) && Enabled(d, Action(s, Rename(true))) && !Placed(d, Action(s, Rename(true)))
    ensures !WholeNow(Do(d, Action(s, Rename(true))), init)
  {
    RenameShape(d, s);
    var r := Do(d, Action(s, Rename(true)));
    var name := d.saves[s].stage.name;
    assert Named(d.saves[s]);
    hide IsTemp, Do, Enabled;
    assert Good(d, init, d.Live()[name]);
    var n := Longer(r.saves, r.saves.Keys);
    var junk: Bytes := seq(n + if init.Some? then |init.value| + 1 else 0, _ => 0);
    assert FoundIn(r, r.dirs[|r.dirs| - 1], Some(junk));
    assert AfterCrash(r, Some(junk));
  }

  lemma {:induction false} UnsafeBreaks(d: Disk, init: Option<Bytes>, acts: seq<Action>)
    requires Inv(d, init) && Runs(d, acts) && !SafeRenames(d, acts)
    ensures d.Formed() && !AlwaysWhole(d, init, acts)
    decreases |acts|
  {
    InvFormed(d, init);
    hide Inv, Enabled, Placed, WholeNow;
    var r := Do(d, acts[0]);
    if Placed(d, acts[0]) {
      StepInv(d, init, acts[0]);
      UnsafeBreaks(r, init, acts[1..]);
    } else {
      PlacedIsAboutRename(d, acts[0]);
      UnsyncedBreaks(d, init, acts[0].save);
    }
  }

  lemma PlacedIsAboutRename(d: Disk, a: Action)
    requires Enabled(d, a) && !Placed(d, a)
    ensures a == Action(a.save, Rename(true))
  {
    hide Enabled;
  }

  // ---- Main results ----

  /**
   At every moment of a run a reader and a crash both find state.json whole, if and only if each successful
   rename found a synced file under its temporary name.
   */
  lemma CrashSafeExactly(start: Disk, init: Option<Bytes>, acts: seq<Action>)
    requires Initial(start, init) && Runs(start, acts)
    ensures start.Formed() && (AlwaysWhole(start, init, acts) <==> SafeRenames(start, acts))
  {
    hide Initial, Runs, SafeRenames, AlwaysWhole;
    InitialInv(start, init);
    if SafeRenames(start, acts) {
      SafeIsWhole(start, init, acts);
    } else {
      UnsafeBreaks(start, init, acts);
    }
  }

  /** When the first contents and every saved state can be decoded, so can whatever a crash leaves. */
  lemma NeverQuarantined<T>(decode: Bytes -> Option<T>, start: Disk, init: Option<Bytes>, acts: seq<Action>, found: Option<Bytes>)
    requires Initial(start, init) && Runs(start, acts) && SafeRenames(start, acts)
    requires AfterCrash(Run(start, acts), found)
    requires init.Some? ==> decode(init.value).Some?
    requires forall s :: s in Run(start, acts).saves ==> decode(Run(start, acts).saves[s].data).Some?
    ensures found.Some? ==> decode(found.value).Some?
  {
    hide Initial, Runs, SafeRenames, Run, Inv;
    InitialInv(start, init);
    RunInv(start, init, acts);
    InvWhole(Run(start, acts), init);
  }

  // ---- Durability ----

  function ContentOf(d: Disk, dir: Dir): Option<Bytes> {
    if STATE in dir && dir[STATE] < |d.inodes| then Some(d.inodes[dir[STATE]].data) else None
  }

  /** What a reader would find at each moment of a run. */
  function Contents(d: Disk, acts: seq<Action>): seq<Option<Bytes>>
    requires d.Formed() && Runs(d, acts)
    decreases |acts|
  {
    [Content(d)] + if acts == [] then [] else Contents(Do(d, acts[0]), acts[1..])
  }

  ghost predicate Covered(d: Disk, seen: seq<Option<Bytes>>) {
    forall k :: 0 <= k < |d.dirs| ==> ContentOf(d, d.dirs[k]) in seen
  }

  lemma DurableUnchanged(d: Disk, init: Option<Bytes>, a: Action, ino: nat)
    requires Inv(d, init) && Enabled(d, a) && Durable(d, ino)
    ensures ino < |Do(d, a).inodes| && Do(d, a).inodes[ino] == d.inodes[ino]
  {
    hide IsTemp, Named, Good;
    assert a.save in d.saves ==> Filling(d, d.saves[a.save]);
  }

  lemma DirsGrow(d: Disk, a: Action, k: nat)
    requires Enabled(d, a) && k < |Do(d, a).dirs| - 1
    ensures k < |d.dirs| && Do(d, a).dirs[k] == d.dirs[k]
  {
  }

  lemma CoveredStep(d: Disk, init: Option<Bytes>, a: Action, seen: seq<Option<Bytes>>)
    requires Inv(d, init) && Enabled(d, a) && Covered(d, seen)
    ensures Covered(Do(d, a), seen + [Content(Do(d, a))])
  {
    hide IsTemp, Filling, Named, Whole;
    var r := Do(d, a);
    forall k | 0 <= k < |r.dirs| ensures ContentOf(r, r.dirs[k]) in seen + [Content(r)] {
      if k == |r.dirs| - 1 {
        assert ContentOf(r, r.dirs[k]) == Content(r);
      } else {
        DirsGrow(d, a, k);
        assert DirSafe(d, init, d.dirs[k]);
        if STATE in d.dirs[k] {
          DurableUnchanged(d, init, a, d.dirs[k][STATE]);
        }
        assert ContentOf(r, r.dirs[k]) == ContentOf(d, d.dirs[k]);
      }
    }
  }

  lemma SeenStep(seen: seq<Option<Bytes>>, last: Option<Bytes>, next: Option<Bytes>, rest: seq<Option<Bytes>>)
    requires seen != [] && seen[|seen| - 1] == last
    ensures (seen + [next])[..|seen + [next]| - 1] + rest == seen[..|seen| - 1] + ([last] + rest)
  {
  }

  lemma {:induction false} CoveredRun(d: Disk, init: Option<Bytes>, acts: seq<Action>, seen: seq<Option<Bytes>>)
    requires Inv(d, init) && Runs(d, acts) && SafeRenames(d, acts)
    requires seen != [] && seen[|seen| - 1] == Content(d) && Covered(d, seen)
    ensures Covered(Run(d, acts), seen[..|seen| - 1] + Contents(d, acts))
    decreases |acts|
  {
    InvFormed(d, init);
    hide Inv, Enabled, Placed, Covered, Content;
    if acts == [] {
      assert seen[..|seen| - 1] + [Content(d)] == seen;
    } else {
      var r := Do(d, acts[0]);
      StepInv(d, init, acts[0]);
      CoveredStep(d, init, acts[0], seen);
      CoveredRun(r, init, acts[1..], seen + [Content(r)]);
      SeenStep(seen, Content(d), Content(r), Contents(r, acts[1..]));
    }
  }

  /** After a successful directory sync, a crash takes state.json back to no moment before it. */
  lemma SyncIsDurable(start: Disk, init: Option<Bytes>, before: seq<Action>, s: nat, later: seq<Action>, found: Option<Bytes>)
    requires Initial(start, init) && Runs(start, before) && SafeRenames(start, before)
    requires Enabled(Run(start, before), Action(s, SyncDir(true)))
    requires var d := Do(Run(start, before), Action(s, SyncDir(true)));
             Runs(d, later) && SafeRenames(d, later) && AfterCrash(Run(d, later), found)
    ensures found in Contents(Do(Run(start, before), Action(s, SyncDir(true))), later)
  {
    hide Initial, Filling, Named, IsTemp, SafeRenames, Runs, Run;
    InitialInv(start, init);
    RunInv(start, init, before);
    SyncDirInv(Run(start, before), init, s);
    var d := Do(Run(start, before), Action(s, SyncDir(true)));
    assert d.dirs == [d.Live()];
    CoveredRun(d, init, later, [Content(d)]);
    RunInv(d, init, later);
    var e := Run(d, later);
    var k :| 0 <= k < |e.dirs| && FoundIn(e, e.dirs[k], found);
    assert DirSafe(e, init, e.dirs[k]);
    assert found == ContentOf(e, e.dirs[k]);
    assert [Content(d)][..0] + Contents(d, later) == Contents(d, later);
  }
}
