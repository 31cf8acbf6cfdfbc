/**
 What reusing a temporary name can do. A Save removes its temporary name when it returns, after the rename
 has freed it. A second Save that takes the name meanwhile loses it and fails, which is harmless; but if a
 third takes the name then, the second renames the third's unfinished file into place.
 */
module StoreReuse {
  import opened Options
  import opened StoreDisk
  import opened StoreSafety

  const NAME := "state-0.tmp"

  lemma NameIsTemp()
    ensures IsTemp(NAME) && NAME != STATE
  {
    assert NAME[..6] == "state-" && NAME[|NAME| - 4..] == ".tmp";
    TempIsNotState(NAME);
  }

  function Empty(): Disk { Disk([], [map[]], map[]) }

  /** A run so far: the actions taken, all renames safe, the disk they lead to, and whether a held name was taken. */
  ghost predicate Reached(acts: seq<Action>, d: Disk, reused: bool) {
    && Runs(Empty(), acts) && Run(Empty(), acts) == d && d.Formed()
    && SafeRenames(Empty(), acts) && (reused ==> !FreshNames(Empty(), acts))
  }

  lemma {:induction false} Appended(d: Disk, acts: seq<Action>, a: Action)
    requires Runs(d, acts) && Enabled(Run(d, acts), a)
    ensures Runs(d, acts + [a]) && Run(d, acts + [a]) == Do(Run(d, acts), a)
    ensures SafeRenames(d, acts + [a]) <==> SafeRenames(d, acts) && Placed(Run(d, acts), a)
    ensures FreshNames(d, acts + [a]) <==> FreshNames(d, acts) && FreshName(Run(d, acts), a)
    decreases |acts|
  {
    hide Enabled, Do, Placed, FreshName;
    if acts == [] {
      assert acts + [a] == [a] && [a][1..] == [];
    } else {
      Appended(Do(d, acts[0]), acts[1..], a);
      assert (acts + [a])[1..] == acts[1..] + [a];
    }
  }

  /** Anything but a successful rename. */
  lemma Advance(acts: seq<Action>, d: Disk, a: Action, reused: bool)
    requires Reached(acts, d, reused) && Enabled(d, a) && a.step != Rename(true)
    ensures Reached(acts + [a], Do(d, a), reused)
  {
    hide Enabled, Do, FreshName;
    Appended(Empty(), acts, a);
  }

  ghost predicate Taken(d: Disk) { exists t :: t in d.saves && Holds(d.saves[t], NAME) }

  lemma Takes(acts: seq<Action>, d: Disk, s: nat, reused: bool)
    requires Reached(acts, d, reused) && Enabled(d, Action(s, Create(NAME)))
    ensures Reached(acts + [Action(s, Create(NAME))], Do(d, Action(s, Create(NAME))), reused || Taken(d))
  {
    hide Enabled, Do, Holds;
    Appended(Empty(), acts, Action(s, Create(NAME)));
  }

  // ---- One step each, for the Save `s` with data `b`; `ino` is its file ----

  function Put(d: Disk, s: nat, b: Bytes, stage: Stage): Disk { d.(saves := d.saves[s := Save(b, stage)]) }

  function WithFile(d: Disk, f: Inode): Disk
    requires d.Formed()
  {
    d.(inodes := d.inodes + [f], dirs := d.dirs + [d.Live()[NAME := |d.inodes|]])
  }

  lemma Opens(d: Disk, s: nat, b: Bytes)
    requires d.Formed() && NAME !in d.Live()
    ensures Enabled(Put(d, s, b, Begun), Action(s, Create(NAME)))
    ensures Do(Put(d, s, b, Begun), Action(s, Create(NAME))) ==
            Put(WithFile(d, Inode([], false)), s, b, Created(NAME, |d.inodes|))
  {
    NameIsTemp();
    hide IsTemp;
  }

  lemma Chmods(d: Disk, s: nat, b: Bytes, ino: nat)
    requires d.Formed()
    ensures Enabled(Put(d, s, b, Created(NAME, ino)), Action(s, Chmod(true)))
    ensures Do(Put(d, s, b, Created(NAME, ino)), Action(s, Chmod(true))) == Put(d, s, b, Writing(NAME, ino, 0))
  {
  }

  lemma Writes(d: Disk, s: nat, b: Bytes, n: nat)
    requires d.Formed() && 0 < n <= |b|
    ensures var from := Put(WithFile(d, Inode([], false)), s, b, Writing(NAME, |d.inodes|, 0));
            && Enabled(from, Action(s, Write(n)))
            && Do(from, Action(s, Write(n))) ==
               Put(WithFile(d, Inode(b[..n], false)), s, b, Writing(NAME, |d.inodes|, n))
  {
    assert [] + b[0..n] == b[..n];
  }

  lemma Syncs(d: Disk, s: nat, b: Bytes)
    requires d.Formed()
    ensures var from := Put(WithFile(d, Inode(b, false)), s, b, Writing(NAME, |d.inodes|, |b|));
            && Enabled(from, Action(s, Sync(true)))
            && Do(from, Action(s, Sync(true))) == Put(WithFile(d, Inode(b, true)), s, b, Synced(NAME, |d.inodes|))
  {
  }

  lemma Closes(d: Disk, s: nat, b: Bytes, ino: nat)
    requires d.Formed()
    ensures Enabled(Put(d, s, b, Synced(NAME, ino)), Action(s, Close(true)))
    ensures Do(Put(d, s, b, Synced(NAME, ino)), Action(s, Close(true))) == Put(d, s, b, Closed(NAME, ino))
  {
  }

  // ---- The runs ----

  lemma TakenStays(d: Disk, s: nat, b: Bytes)
    requires Taken(d) && s !in d.saves
    ensures Taken(Put(d, s, b, Begun))
  {
    hide Holds;
    var t :| t in d.saves && Holds(d.saves[t], NAME);
    assert t in Put(d, s, b, Begun).saves && Holds(Put(d, s, b, Begun).saves[t], NAME);
  }

  /** A Save that has written the first `n` of its bytes. */
  lemma Starts(acts: seq<Action>, d: Disk, s: nat, b: Bytes, n: nat, reused: bool) returns (next: seq<Action>)
    requires Reached(acts, d, reused) && s !in d.saves && NAME !in d.Live() && 0 < n <= |b|
    ensures Reached(next, Put(WithFile(d, Inode(b[..n], false)), s, b, Writing(NAME, |d.inodes|, n)), reused || Taken(d))
  {
    Advance(acts, d, Action(s, Begin(b)), reused);
    Opens(d, s, b);
    Chmods(WithFile(d, Inode([], false)), s, b, |d.inodes|);
    Writes(d, s, b, n);
    next := acts + [Action(s, Begin(b))];
    assert Reached(next, Put(d, s, b, Begun), reused);
    if Taken(d) {
      TakenStays(d, s, b);
    }
    hide Reached, Enabled, Do, Put, WithFile, Taken;
    Takes(next, Put(d, s, b, Begun), s, reused);
    next := next + [Action(s, Create(NAME))];
    var now := reused || Taken(Put(d, s, b, Begun));
    Advance(next, Put(WithFile(d, Inode([], false)), s, b, Created(NAME, |d.inodes|)), Action(s, Chmod(true)), now);
    next := next + [Action(s, Chmod(true))];
    Advance(next, Put(WithFile(d, Inode([], false)), s, b, Writing(NAME, |d.inodes|, 0)), Action(s, Write(n)), now);
    next := next + [Action(s, Write(n))];
    ReachedLess(next, Put(WithFile(d, Inode(b[..n], false)), s, b, Writing(NAME, |d.inodes|, n)), now, reused || Taken(d));
  }

  lemma ReachedLess(acts: seq<Action>, d: Disk, reused: bool, less: bool)
    requires Reached(acts, d, reused) && (less ==> reused)
    ensures Reached(acts, d, less)
  {
  }

  /** A Save that is about to rename. */
  lemma Prepares(acts: seq<Action>, d: Disk, s: nat, b: Bytes, reused: bool) returns (next: seq<Action>)
    requires Reached(acts, d, reused) && s !in d.saves && NAME !in d.Live() && b != []
    ensures Reached(next, Put(WithFile(d, Inode(b, true)), s, b, Closed(NAME, |d.inodes|)), reused || Taken(d))
  {
    next := Starts(acts, d, s, b, |b|, reused);
    assert b[..|b|] == b;
    Syncs(d, s, b);
    Closes(WithFile(d, Inode(b, true)), s, b, |d.inodes|);
    hide Reached, Enabled, Do, Put, WithFile, Taken;
    var now := reused || Taken(d);
    Advance(next, Put(WithFile(d, Inode(b, false)), s, b, Writing(NAME, |d.inodes|, |b|)), Action(s, Sync(true)), now);
    next := next + [Action(s, Sync(true))];
    Advance(next, Put(WithFile(d, Inode(b, true)), s, b, Synced(NAME, |d.inodes|)), Action(s, Close(true)), now);
    next := next + [Action(s, Close(true))];
  }

  /** Save 1 has renamed its file into place, and Save 2 has reused the name it freed. */
  lemma NameTaken() returns (acts: seq<Action>, d: Disk)
    ensures Reached(acts, d, true) && |d.inodes| == 2 && d.saves.Keys == {1, 2}
    ensures d.saves[1] == Save([1], Renamed(NAME)) && d.saves[2] == Save([2], Closed(NAME, 1))
  {
    NameIsTemp();
    acts := Prepares([], Empty(), 1, [1], false);
    d := Put(WithFile(Empty(), Inode([1], true)), 1, [1], Closed(NAME, 0));
    Appended(Empty(), acts, Action(1, Rename(true)));
    acts, d := acts + [Action(1, Rename(true))], Do(d, Action(1, Rename(true)));
    assert NAME !in d.Live() && |d.inodes| == 1 && Holds(d.saves[1], NAME);
    assert Reached(acts, d, false);
    acts := Prepares(acts, d, 2, [2], false);
    d := Put(WithFile(d, Inode([2], true)), 2, [2], Closed(NAME, 1));
  }

  /** Save 1 removes the name; Save 2 can no longer rename. */
  lemma NameLost() returns (acts: seq<Action>, d: Disk)
    ensures Reached(acts, d, true) && |d.inodes| == 2 && d.saves.Keys == {1, 2} && NAME !in d.Live()
    ensures d.saves[1].data == [1] && d.saves[2] == Save([2], Closed(NAME, 1))
  {
    NameIsTemp();
    acts, d := NameTaken();
    hide IsTemp, Reached;
    Advance(acts, d, Action(1, SyncDir(true)), true);
    acts, d := acts + [Action(1, SyncDir(true))], Do(d, Action(1, SyncDir(true)));
    Advance(acts, d, Action(1, Remove(true)), true);
    acts, d := acts + [Action(1, Remove(true))], Do(d, Action(1, Remove(true)));
  }

  /** Reusing a name once does no harm: the second Save finds its name gone and can only fail. */
  lemma ReuseCanBeHarmless() returns (acts: seq<Action>)
    ensures Initial(Empty(), None) && Runs(Empty(), acts) && !FreshNames(Empty(), acts)
    ensures AlwaysWhole(Empty(), None, acts)
    ensures var d := Run(Empty(), acts);
            Enabled(d, Action(2, Rename(false))) && !Enabled(d, Action(2, Rename(true)))
  {
    var d;
    acts, d := NameLost();
    CrashSafeExactly(Empty(), None, acts);
  }

  /** Save 3 takes the lost name and has written one of its two bytes. */
  lemma NameTakenAgain() returns (acts: seq<Action>, d: Disk)
    ensures Reached(acts, d, true) && |d.inodes| == 3 && d.inodes[2] == Inode([3], false)
    ensures d.saves.Keys == {1, 2, 3} && d.saves[1].data == [1] && d.saves[2] == Save([2], Closed(NAME, 1))
    ensures d.saves[3].data == [3, 4] && NAME in d.Live() && d.Live()[NAME] == 2
  {
    acts, d := NameLost();
    acts := Starts(acts, d, 3, [3, 4], 1, true);
    d := Put(WithFile(d, Inode([3, 4][..1], false)), 3, [3, 4], Writing(NAME, 2, 1));
  }

  /** Reusing it twice can leave part of a Save in state.json: here one byte of two. */
  lemma ReuseBreaksSafety() returns (acts: seq<Action>)
    ensures Initial(Empty(), None) && Runs(Empty(), acts) && !SafeRenames(Empty(), acts)
    ensures Content(Run(Empty(), acts)) == Some([3]) && !Whole(Run(Empty(), acts), None, Some([3]))
  {
    NameIsTemp();
    var d;
    acts, d := NameTakenAgain();
    var r := Do(d, Action(2, Rename(true)));
    Appended(Empty(), acts, Action(2, Rename(true)));
    acts := acts + [Action(2, Rename(true))];
    assert Content(r) == Some([3]);
    assert forall s :: s in r.saves <==> s in {1, 2, 3};
  }
}
