/** The store's Save and Load as they call the file system, which may fail at any call. */
module StateStore {
  import opened Options
  import opened StoreDisk
  import StoreSafety

  datatype Loaded<T> = NoState | Found(state: T) | ReadFailed | Quarantined

  /** The calls the store makes. Each either takes its step of the disk model or fails. */
  class FileSystem {
    var disk: Disk

    constructor (disk: Disk)
      ensures this.disk == disk
    {
      this.disk := disk;
    }

    method Start(s: nat, data: Bytes)
      requires Enabled(disk, Action(s, Begin(data)))
      modifies this
      ensures disk == Do(old(disk), Action(s, Begin(data)))
    {
      disk := Do(disk, Action(s, Begin(data)));
    }

    /** Takes some name that no entry has, or fails. */
    method CreateTemp(s: nat) returns (ok: bool, name: string)
      requires Enabled(disk, Action(s, CreateFails))
      modifies this
      ensures ok ==> IsTemp(name) && name !in old(disk).Live()
      ensures ok ==> Enabled(old(disk), Action(s, Create(name))) && disk == Do(old(disk), Action(s, Create(name)))
      ensures !ok ==> disk == Do(old(disk), Action(s, CreateFails))
    {
      name := *;
      ok := *;
      ok := ok && IsTemp(name) && name !in disk.Live();
      disk := Do(disk, Action(s, if ok then Create(name) else CreateFails));
    }

    method Chmod(s: nat) returns (ok: bool)
      requires Enabled(disk, Action(s, Step.Chmod(true)))
      modifies this
      ensures disk == Do(old(disk), Action(s, Step.Chmod(ok)))
    {
      ok := *;
      disk := Do(disk, Action(s, Step.Chmod(ok)));
    }

    /** Writes some of what is left, or fails. */
    method WriteSome(s: nat) returns (ok: bool, n: nat)
      requires disk.Formed() && s in disk.saves && disk.saves[s].stage.Writing?
      requires disk.saves[s].stage.written < |disk.saves[s].data| && disk.saves[s].stage.ino < |disk.inodes|
      modifies this
      ensures ok ==> 0 < n && old(disk).saves[s].stage.written + n <= |old(disk).saves[s].data|
      ensures ok ==> Enabled(old(disk), Action(s, Write(n))) && disk == Do(old(disk), Action(s, Write(n)))
      ensures !ok ==> disk == Do(old(disk), Action(s, WriteFails))
    {
      ok := *;
      var some: int := *;
      var left := |disk.saves[s].data| - disk.saves[s].stage.written;
      n := if 0 < some <= left then some else left;
      if ok {
        disk := Do(disk, Action(s, Write(n)));
      } else {
        disk := Do(disk, Action(s, WriteFails));
      }
    }

    method Sync(s: nat) returns (ok: bool)
      requires Enabled(disk, Action(s, Step.Sync(true)))
      modifies this
      ensures disk == Do(old(disk), Action(s, Step.Sync(ok)))
    {
      ok := *;
      disk := Do(disk, Action(s, Step.Sync(ok)));
    }

    method Close(s: nat) returns (ok: bool)
      requires Enabled(disk, Action(s, Step.Close(true)))
      modifies this
      ensures disk == Do(old(disk), Action(s, Step.Close(ok)))
    {
      ok := *;
      disk := Do(disk, Action(s, Step.Close(ok)));
    }

    method Rename(s: nat) returns (ok: bool)
      requires Enabled(disk, Action(s, Step.Rename(true)))
      modifies this
      ensures disk == Do(old(disk), Action(s, Step.Rename(ok)))
    {
      ok := *;
      disk := Do(disk, Action(s, Step.Rename(ok)));
    }

    /** Opening the directory can fail; a failing sync of it is ignored. */
    method SyncDirectory(s: nat) returns (found: bool, synced: bool)
      requires Enabled(disk, Action(s, SyncDir(true)))
      modifies this
      ensures disk == Do(old(disk), Action(s, SyncDir(synced))) && (synced ==> found)
    {
      found := *;
      synced := *;
      synced := synced && found;
      disk := Do(disk, Action(s, SyncDir(synced)));
    }

    /** A failure is ignored, so it is not returned to the caller. */
    method RemoveTemp(s: nat) returns (ghost ok: bool)
      requires Enabled(disk, Action(s, Remove(true)))
      modifies this
      ensures disk == Do(old(disk), Action(s, Remove(ok)))
    {
      var done: bool := *;
      ok := done;
      disk := Do(disk, Action(s, Remove(done)));
    }
  }

  /** `acts` are steps of Save `s` that lead from one disk to the other. */
  ghost predicate Leads(d: Disk, acts: seq<Action>, s: nat, e: Disk) {
    d.Formed() && Runs(d, acts) && Run(d, acts) == e && forall a :: a in acts ==> a.save == s
  }

  lemma LeadsOn(d: Disk, acts: seq<Action>, s: nat, e: Disk, a: Action)
    requires Leads(d, acts, s, e) && Enabled(e, a) && a.save == s
    ensures Leads(d, acts + [a], s, Do(e, a))
  {
    hide Enabled, Do;
    assert Runs(Do(e, a), [a][1..]);
    RunAppend(d, acts, [a]);
  }

  /** Every entry of the directory leads to a file. */
  ghost predicate Sound(d: Disk) { d.Formed() && forall name :: name in d.Live() ==> d.Live()[name] < |d.inodes| }

  /** The disk as it was, but for Save `s`, its file `f` and its temporary entry. */
  ghost predicate At(d: Disk, e: Disk, s: nat, data: Bytes, name: string, f: Inode, stage: Stage) {
    && Sound(d) && e.Formed() && IsTemp(name) && name !in d.Live()
    && e.inodes == d.inodes + [f]
    && e.Live() == d.Live()[name := |d.inodes|]
    && e.saves == d.saves[s := StoreDisk.Save(data, stage)]
  }

  lemma AtCreated(d: Disk, s: nat, data: Bytes, name: string)
    requires Sound(d) && s !in d.saves && IsTemp(name) && name !in d.Live()
    ensures var b := Do(d, Action(s, Begin(data)));
            && Enabled(b, Action(s, Create(name)))
            && At(d, Do(b, Action(s, Create(name))), s, data, name, Inode([], false), Created(name, |d.inodes|))
  {
    hide IsTemp;
  }

  lemma AtChmod(d: Disk, e: Disk, s: nat, data: Bytes, name: string, ok: bool)
    requires At(d, e, s, data, name, Inode([], false), Created(name, |d.inodes|))
    ensures Enabled(e, Action(s, Chmod(ok)))
    ensures At(d, Do(e, Action(s, Chmod(ok))), s, data, name, Inode([], false),
               if ok then Writing(name, |d.inodes|, 0) else Cleaning(name))
  {
    hide IsTemp;
  }

  lemma AtWrite(d: Disk, e: Disk, s: nat, data: Bytes, name: string, w: nat, n: nat)
    requires w <= |data| && At(d, e, s, data, name, Inode(data[..w], false), Writing(name, |d.inodes|, w))
    requires 0 < n && w + n <= |data|
    ensures Enabled(e, Action(s, Write(n)))
    ensures At(d, Do(e, Action(s, Write(n))), s, data, name, Inode(data[..w + n], false), Writing(name, |d.inodes|, w + n))
  {
    hide IsTemp;
    assert data[..w] + data[w..w + n] == data[..w + n];
  }

  lemma AtWriteFails(d: Disk, e: Disk, s: nat, data: Bytes, name: string, w: nat)
    requires w <= |data| && At(d, e, s, data, name, Inode(data[..w], false), Writing(name, |d.inodes|, w))
    ensures Enabled(e, Action(s, WriteFails))
    ensures At(d, Do(e, Action(s, WriteFails)), s, data, name, Inode(data[..w], false), Cleaning(name))
  {
    hide IsTemp;
  }

  lemma AtSync(d: Disk, e: Disk, s: nat, data: Bytes, name: string, ok: bool)
    requires At(d, e, s, data, name, Inode(data, false), Writing(name, |d.inodes|, |data|))
    ensures Enabled(e, Action(s, Sync(ok)))
    ensures At(d, Do(e, Action(s, Sync(ok))), s, data, name, Inode(data, ok),
               if ok then Synced(name, |d.inodes|) else Cleaning(name))
  {
    hide IsTemp;
  }

  lemma AtClose(d: Disk, e: Disk, s: nat, data: Bytes, name: string, ok: bool)
    requires At(d, e, s, data, name, Inode(data, true), Synced(name, |d.inodes|))
    ensures Enabled(e, Action(s, Close(ok)))
    ensures At(d, Do(e, Action(s, Close(ok))), s, data, name, Inode(data, true),
               if ok then Closed(name, |d.inodes|) else Cleaning(name))
  {
    hide IsTemp;
  }

  lemma AtRenameFails(d: Disk, e: Disk, s: nat, data: Bytes, name: string)
    requires At(d, e, s, data, name, Inode(data, true), Closed(name, |d.inodes|))
    ensures Enabled(e, Action(s, Rename(false))) && Enabled(e, Action(s, Rename(true)))
    ensures At(d, Do(e, Action(s, Rename(false))), s, data, name, Inode(data, true), Cleaning(name))
  {
    hide IsTemp;
  }

  /** A Save has ended, and of the temporary entries that were not there before it only those in `left` are. */
  ghost predicate Ended(d: Disk, e: Disk, s: nat, data: Bytes, left: set<string>) {
    && d.Formed() && Sound(e) && s in e.saves && e.saves[s] == StoreDisk.Save(data, Finished)
    && (forall name :: IsTemp(name) && name !in d.Live() && name in e.Live() ==> name in left)
  }

  /** Cleaning up a Save that failed before the rename leaves the directory as it was, or the one entry that stays. */
  lemma AtRemove(d: Disk, e: Disk, s: nat, data: Bytes, name: string, f: Inode, ok: bool)
    requires At(d, e, s, data, name, f, Cleaning(name))
    ensures Enabled(e, Action(s, Remove(ok)))
    ensures var r := Do(e, Action(s, Remove(ok)));
            && Ended(d, r, s, data, if ok then {} else {name}) && Content(r) == Content(d)
            && (ok ==> r.Live() == d.Live())
  {
    StoreSafety.TempIsNotState(name);
    hide IsTemp;
  }

  /** After the rename, the sync of the directory and the removal of the old name leave the new state, failed or not. */
  lemma AtRenamed(d: Disk, e: Disk, s: nat, data: Bytes, name: string, ok: bool, removed: bool)
    requires At(d, e, s, data, name, Inode(data, true), Closed(name, |d.inodes|))
    ensures Enabled(e, Action(s, Rename(true)))
    ensures var r := Do(e, Action(s, Rename(true)));
            && Enabled(r, Action(s, SyncDir(ok)))
            && var t := Do(r, Action(s, SyncDir(ok)));
               && Enabled(t, Action(s, Remove(removed)))
               && var u := Do(t, Action(s, Remove(removed))); Ended(d, u, s, data, {}) && Content(u) == Some(data)
  {
    StoreSafety.TempIsNotState(name);
    assert !IsTemp(STATE) by {
      if IsTemp(STATE) {
        StoreSafety.TempIsNotState(STATE);
      }
    }
    hide IsTemp;
  }

  lemma AtFailedCreate(d: Disk, s: nat, data: Bytes)
    requires Sound(d) && s !in d.saves
    ensures Enabled(d, Action(s, Begin(data)))
    ensures var b := Do(d, Action(s, Begin(data)));
            && b.Live() == d.Live() && Enabled(b, Action(s, CreateFails))
            && var r := Do(b, Action(s, CreateFails)); Ended(d, r, s, data, {}) && Content(r) == Content(d)
  {
    hide IsTemp;
  }

  lemma LeadsFrom(d: Disk, s: nat)
    requires d.Formed()
    ensures Leads(d, [], s, d)
  {
  }

  class Store {
    const fs: FileSystem

    constructor (fs: FileSystem)
      ensures this.fs == fs
    {
      this.fs := fs;
    }

    /** Mode, contents, sync and close of the temporary file; on a failure only its entry is left to remove. */
    method FillTemp(s: nat, data: Bytes, name: string, ghost d: Disk, ghost before: seq<Action>)
        returns (ok: bool, ghost acts: seq<Action>)
      requires Leads(d, before, s, fs.disk)
      requires At(d, fs.disk, s, data, name, Inode([], false), Created(name, |d.inodes|))
      modifies fs
      ensures Leads(d, acts, s, fs.disk)
      ensures ok ==> Action(s, Step.Sync(true)) in acts
      ensures forall a :: a in before ==> a in acts
      ensures ok ==> At(d, fs.disk, s, data, name, Inode(data, true), Closed(name, |d.inodes|))
      ensures !ok ==> exists f :: At(d, fs.disk, s, data, name, f, Cleaning(name))
    {
      hide Do, Enabled, Leads, At, IsTemp, Sound;
      ghost var ino := |d.inodes|;
      acts := before;
      AtChmod(d, fs.disk, s, data, name, true);
      AtChmod(d, fs.disk, s, data, name, false);
      ghost var e := fs.disk;
      ok := fs.Chmod(s);
      LeadsOn(d, acts, s, e, Action(s, Step.Chmod(ok)));
      acts := acts + [Action(s, Step.Chmod(ok))];
      if !ok {
        return;
      }
      var w := 0;
      assert data[..0] == [];
      while w < |data|
        invariant w <= |data| && Leads(d, acts, s, fs.disk) && forall a :: a in before ==> a in acts
        invariant At(d, fs.disk, s, data, name, Inode(data[..w], false), Writing(name, ino, w))
      {
        AtWritable(d, fs.disk, s, data, name, w);
        AtWriteFails(d, fs.disk, s, data, name, w);
        e := fs.disk;
        var n;
        ok, n := fs.WriteSome(s);
        if !ok {
          LeadsOn(d, acts, s, e, Action(s, WriteFails));
          acts := acts + [Action(s, WriteFails)];
          return;
        }
        AtWrite(d, e, s, data, name, w, n);
        LeadsOn(d, acts, s, e, Action(s, Write(n)));
        acts := acts + [Action(s, Write(n))];
        w := w + n;
      }
      assert data[..w] == data;
      AtSync(d, fs.disk, s, data, name, true);
      AtSync(d, fs.disk, s, data, name, false);
      e := fs.disk;
      ok := fs.Sync(s);
      LeadsOn(d, acts, s, e, Action(s, Step.Sync(ok)));
      acts := acts + [Action(s, Step.Sync(ok))];
      if !ok {
        return;
      }
      AtClose(d, fs.disk, s, data, name, true);
      AtClose(d, fs.disk, s, data, name, false);
      e := fs.disk;
      ok := fs.Close(s);
      LeadsOn(d, acts, s, e, Action(s, Step.Close(ok)));
      acts := acts + [Action(s, Step.Close(ok))];
    }

    /**
     Temp file, sync, rename, directory sync. Whatever fails, the temporary entry is gone in the end, unless
     its removal fails too.
     */
    method Save(s: nat, data: Bytes) returns (ok: bool, ghost acts: seq<Action>, ghost left: set<string>)
      requires Sound(fs.disk) && s !in fs.disk.saves
      modifies fs
      ensures Leads(old(fs.disk), acts, s, fs.disk)
      ensures Ended(old(fs.disk), fs.disk, s, data, left)
      ensures forall name :: name in left ==> !ok && Action(s, Create(name)) in acts && Action(s, Remove(false)) in acts
      ensures ok ==> Content(fs.disk) == Some(data) && Action(s, Step.Sync(true)) in acts
      ensures !ok ==> Content(fs.disk) == Content(old(fs.disk)) || Content(fs.disk) == Some(data)
    {
      hide Do, Enabled, Leads, At, IsTemp, Sound, Ended;
      ghost var d := fs.disk;
      left := {};
      AtFailedCreate(d, s, data);
      SoundFormed(d);
      LeadsFrom(d, s);
      LeadsOn(d, [], s, d, Action(s, Begin(data)));
      fs.Start(s, data);
      acts := [] + [Action(s, Begin(data))];
      ghost var e := fs.disk;
      var name;
      ok, name := fs.CreateTemp(s);
      if !ok {
        LeadsOn(d, acts, s, e, Action(s, CreateFails));
        acts := acts + [Action(s, CreateFails)];
        return;
      }
      AtCreated(d, s, data, name);
      LeadsOn(d, acts, s, e, Action(s, Create(name)));
      acts := acts + [Action(s, Create(name))];
      ok, acts := FillTemp(s, data, name, d, acts);
      if ok {
        AtRenameFails(d, fs.disk, s, data, name);
        e := fs.disk;
        ok := fs.Rename(s);
        LeadsOn(d, acts, s, e, Action(s, Step.Rename(ok)));
        acts := acts + [Action(s, Step.Rename(ok))];
        if ok {
          AtRenamed(d, e, s, data, name, true, true);
          AtRenamed(d, e, s, data, name, true, false);
          AtRenamed(d, e, s, data, name, false, true);
          AtRenamed(d, e, s, data, name, false, false);
          e := fs.disk;
          var synced;
          ok, synced := fs.SyncDirectory(s);
          LeadsOn(d, acts, s, e, Action(s, SyncDir(synced)));
          acts := acts + [Action(s, SyncDir(synced))];
          e := fs.disk;
          ghost var gone := fs.RemoveTemp(s);
          LeadsOn(d, acts, s, e, Action(s, Remove(gone)));
          acts := acts + [Action(s, Remove(gone))];
          return;
        }
      }
      ghost var f :| At(d, fs.disk, s, data, name, f, Cleaning(name));
      AtRemove(d, fs.disk, s, data, name, f, true);
      AtRemove(d, fs.disk, s, data, name, f, false);
      e := fs.disk;
      ghost var gone := fs.RemoveTemp(s);
      LeadsOn(d, acts, s, e, Action(s, Remove(gone)));
      acts := acts + [Action(s, Remove(gone))];
      left := if gone then {} else {name};
    }

    /** A file that cannot be decoded is moved aside; otherwise loading changes nothing. */
    method Load<T>(decode: Bytes -> Option<T>) returns (r: Loaded<T>)
      requires Sound(fs.disk)
      modifies fs
      ensures r.NoState? <==> STATE !in old(fs.disk).Live()
      ensures !r.Quarantined? ==> fs.disk == old(fs.disk)
      ensures r.Found? ==> Content(fs.disk).Some? && decode(Content(fs.disk).value) == Some(r.state)
      ensures r.Quarantined? ==>
                Content(old(fs.disk)).Some? && decode(Content(old(fs.disk)).value).None? &&
                (fs.disk == old(fs.disk) ||
                 fs.disk == old(fs.disk).Change((old(fs.disk).Live() - {STATE})[CORRUPT := old(fs.disk).Live()[STATE]]))
    {
      var found := Content(fs.disk);
      if found.None? {
        return NoState;
      }
      var read: bool := *;
      if !read {
        return ReadFailed;
      }
      match decode(found.value) {
        case Some(v) => return Found(v);
        case None =>
          var moved: bool := *;
          if moved {
            var live := fs.disk.Live();
            fs.disk := fs.disk.Change((live - {STATE})[CORRUPT := live[STATE]]);
          }
          return Quarantined;
      }
    }
  }

  lemma SoundFormed(d: Disk)
    requires Sound(d)
    ensures d.Formed()
  {
  }

  lemma AtWritable(d: Disk, e: Disk, s: nat, data: Bytes, name: string, w: nat)
    requires w < |data| && At(d, e, s, data, name, Inode(data[..w], false), Writing(name, |d.inodes|, w))
    ensures e.Formed() && s in e.saves && e.saves[s] == StoreDisk.Save(data, Writing(name, |d.inodes|, w))
    ensures |d.inodes| < |e.inodes|
  {
  }
}
