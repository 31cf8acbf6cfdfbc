/**
 The file system as the state store uses it: files whose unsynced contents a crash may lose, a directory
 whose latest changes a crash may undo, and Saves that take their steps in any interleaving.
 */
module StoreDisk {
  import opened Options

  type Byte = x: int | 0 <= x < 256
  type Bytes = seq<Byte>

  const STATE := "state.json"
  const CORRUPT := "state.json.corrupt"

  predicate IsTemp(name: string) {
    |name| >= 10 && name[..6] == "state-" && name[|name| - 4..] == ".tmp"
  }

  /** A file; `durable` when all of `data` has been synced. */
  datatype Inode = Inode(data: Bytes, durable: bool)

  type Dir = map<string, nat>

  /** How far a Save has come: the temporary name it holds and the file it writes. */
  datatype Stage =
    | Begun
    | Created(name: string, ino: nat)
    | Writing(name: string, ino: nat, written: nat)
    | Synced(name: string, ino: nat)
    | Closed(name: string, ino: nat)
    | Renamed(name: string)
    | Cleaning(name: string)
    | Finished

  datatype Save = Save(data: Bytes, stage: Stage)

  /** `dirs` holds the directory as it was at the last successful sync and after each change since. */
  datatype Disk = Disk(inodes: seq<Inode>, dirs: seq<Dir>, saves: map<nat, Save>)
  {
    predicate Formed() { dirs != [] }

    function Live(): Dir
      requires Formed()
    {
      dirs[|dirs| - 1]
    }

    function Change(d: Dir): Disk { this.(dirs := dirs + [d]) }

    function Staged(s: nat, stage: Stage): Disk
      requires s in saves
    {
      this.(saves := saves[s := Save(saves[s].data, stage)])
    }
  }

  datatype Step =
    | Begin(data: Bytes)
    | Create(name: string) | CreateFails
    | Chmod(ok: bool)
    | Write(n: nat) | WriteFails
    | Sync(ok: bool)
    | Close(ok: bool)
    | Rename(ok: bool)
    | SyncDir(ok: bool)
    | Remove(ok: bool)

  datatype Action = Action(save: nat, step: Step)

  /** When a step can be taken. A temporary file is created only under a name not in the directory. */
  predicate Enabled(d: Disk, a: Action) {
    && d.Formed()
    && if a.step.Begin? then a.save !in d.saves
       else a.save in d.saves && Ready(d, d.saves[a.save], a.step)
  }

  /** Whether a Save that has begun can take this step next. */
  predicate Ready(d: Disk, save: Save, step: Step)
    requires d.Formed()
  {
    var at := save.stage;
    match step
    case Begin(_) => false
    case Create(name) => at.Begun? && IsTemp(name) && name !in d.Live()
    case CreateFails => at.Begun?
    case Chmod(_) => at.Created?
    case Write(n) => at.Writing? && n > 0 && at.written + n <= |save.data| && at.ino < |d.inodes|
    case WriteFails => at.Writing?
    case Sync(_) => at.Writing? && at.written == |save.data| && at.ino < |d.inodes|
    case Close(_) => at.Synced?
    case Rename(ok) => at.Closed? && (ok ==> at.name in d.Live())
    case SyncDir(_) => at.Renamed?
    case Remove(_) => at.Cleaning?
  }

  function Do(d: Disk, a: Action): (r: Disk)
    requires Enabled(d, a)
    ensures r.Formed()
  {
    var s := a.save;
    match a.step
    case Begin(data) => d.(saves := d.saves[s := Save(data, Begun)])
    case Create(name) =>
      var ino := |d.inodes|;
      d.(inodes := d.inodes + [Inode([], false)]).Change(d.Live()[name := ino]).Staged(s, Created(name, ino))
    case CreateFails => d.Staged(s, Finished)
    case Chmod(ok) =>
      var at := d.saves[s].stage;
      d.Staged(s, if ok then Writing(at.name, at.ino, 0) else Cleaning(at.name))
    case Write(n) =>
      var at := d.saves[s].stage;
      var more := d.saves[s].data[at.written..at.written + n];
      d.(inodes := d.inodes[at.ino := Inode(d.inodes[at.ino].data + more, false)])
       .Staged(s, Writing(at.name, at.ino, at.written + n))
    case WriteFails => d.Staged(s, Cleaning(d.saves[s].stage.name))
    case Sync(ok) =>
      var at := d.saves[s].stage;
      if ok then d.(inodes := d.inodes[at.ino := Inode(d.inodes[at.ino].data, true)]).Staged(s, Synced(at.name, at.ino))
      else d.Staged(s, Cleaning(at.name))
    case Close(ok) =>
      var at := d.saves[s].stage;
      d.Staged(s, if ok then Closed(at.name, at.ino) else Cleaning(at.name))
    case Rename(ok) =>
      var at := d.saves[s].stage;
      if ok then d.Change((d.Live() - {at.name})[STATE := d.Live()[at.name]]).Staged(s, Renamed(at.name))
      else d.Staged(s, Cleaning(at.name))
    case SyncDir(ok) =>
      var at := d.saves[s].stage;
      (if ok then d.(dirs := [d.Live()]) else d).Staged(s, Cleaning(at.name))
    case Remove(ok) =>
      var at := d.saves[s].stage;
      (if ok then d.Change(d.Live() - {at.name}) else d).Staged(s, Finished)
  }

  predicate Runs(d: Disk, acts: seq<Action>)
    decreases |acts|
  {
    acts == [] || (Enabled(d, acts[0]) && Runs(Do(d, acts[0]), acts[1..]))
  }

  function Run(d: Disk, acts: seq<Action>): (r: Disk)
    requires Runs(d, acts)
    ensures d.Formed() ==> r.Formed()
    decreases |acts|
  {
    if acts == [] then d else Run(Do(d, acts[0]), acts[1..])
  }

  lemma {:induction false} RunAppend(d: Disk, a: seq<Action>, b: seq<Action>)
    requires Runs(d, a) && Runs(Run(d, a), b)
    ensures Runs(d, a + b) && Run(d, a + b) == Run(Run(d, a), b)
    decreases |a|
  {
    if a == [] {
      assert a + b == b;
    } else {
      RunAppend(Do(d, a[0]), a[1..], b);
      assert (a + b)[1..] == a[1..] + b;
    }
  }

  // ---- What is read ----

  /** What a program reading state.json gets, none when the file is not there. */
  function Content(d: Disk): Option<Bytes>
    requires d.Formed()
  {
    if STATE in d.Live() && d.Live()[STATE] < |d.inodes| then Some(d.inodes[d.Live()[STATE]].data) else None
  }

  /**
   What state.json can hold after a crash: the directory is as after some change since the last sync, a
   synced file is intact, and a file with unsynced data holds anything at all.
   */
  ghost predicate AfterCrash(d: Disk, found: Option<Bytes>) {
    exists k :: 0 <= k < |d.dirs| && FoundIn(d, d.dirs[k], found)
  }

  ghost predicate FoundIn(d: Disk, dir: Dir, found: Option<Bytes>) {
    if STATE in dir && dir[STATE] < |d.inodes| then
      found.Some? && (d.inodes[dir[STATE]].durable ==> found.value == d.inodes[dir[STATE]].data)
    else found.None?
  }

  /** A directory with state.json holding `init`, synced, or without it, and no Save yet. */
  ghost predicate Initial(d: Disk, init: Option<Bytes>) {
    && d.saves == map[] && |d.dirs| == 1
    && (forall n :: n in d.Live() ==> d.Live()[n] < |d.inodes| && !IsTemp(n))
    && (STATE in d.Live() <==> init.Some?)
    && (STATE in d.Live() ==> d.inodes[d.Live()[STATE]] == Inode(init.value, true))
  }

  /** No new temporary file takes a name that an unfinished Save still holds. */
  predicate Holds(s: Save, name: string) {
    match s.stage
    case Begun => false
    case Finished => false
    case _ => s.stage.name == name
  }

  predicate FreshName(d: Disk, a: Action) {
    a.step.Create? ==> forall s :: s in d.saves ==> !Holds(d.saves[s], a.step.name)
  }

  predicate FreshNames(d: Disk, acts: seq<Action>)
    requires Runs(d, acts)
    decreases |acts|
  {
    acts == [] || (FreshName(d, acts[0]) && FreshNames(Do(d, acts[0]), acts[1..]))
  }
}
