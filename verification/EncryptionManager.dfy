/**
 The encryption manager and the sync task as they run, over mutable key tables, file records and vault
 files. Each method is proved to take the step of `VaultKeys` or `KeyRotation` it stands for. A fresh
 random draw is passed in.
 */
module EncryptionManagers {
  import opened Wrappers
  import opened VaultKeys
  import opened TaskRanges
  import opened KeyRotation

  class KeyStore {
    var tables: KeyTables

    constructor ()
      ensures tables == KeyTables(None, [])
    {
      tables := KeyTables(None, []);
    }

    method KeyRotationInProgress() returns (r: bool)
      ensures r == tables.InProgress()
    {
      r := false;
      for i := 0 to |tables.trashed|
        invariant r <==> exists j :: 0 <= j < i && !tables.trashed[j].finished
      {
        if !tables.trashed[i].finished {
          r := true;
        }
      }
    }

    method AddVaultKey(key: Key) returns (version: nat)
      modifies this
      ensures tables == old(tables).Add(key) && version == 1
    {
      tables := tables.(current := Some(KeyRow(1, key)));
      version := 1;
    }

    /** Fails without effect when the store is out of order. */
    method RotateVaultKey(key: Key, stored: bool) returns (version: Option<nat>)
      modifies this
      ensures stored ==> tables == old(tables).Rotate(key) && version == Some(tables.current.value.version)
      ensures !stored ==> tables == old(tables) && version == None
    {
      if !stored {
        return None;
      }
      if tables.current.None? {
        tables := tables.(current := Some(KeyRow(0, key)));
      } else {
        var row := tables.current.value;
        tables := KeyTables(Some(KeyRow(row.version + 1, key)),
                            tables.trashed + [TrashedKey(row.version, row.key, false)]);
      }
      version := Some(tables.current.value.version);
    }

    /** Fails without effect when the store is out of order. */
    method MarkKeyRotationFinished(stored: bool) returns (ok: bool)
      modifies this
      ensures ok == stored && tables == if stored then old(tables).Finish() else old(tables)
    {
      if !stored {
        return false;
      }
      var rows := tables.trashed;
      for i := 0 to |rows|
        invariant |rows| == |tables.trashed|
        invariant forall j :: 0 <= j < i ==> rows[j] == tables.trashed[j].(finished := true)
        invariant forall j :: i <= j < |rows| ==> rows[j] == tables.trashed[j]
      {
        rows := rows[i := rows[i].(finished := true)];
      }
      assert rows == tables.Finish().trashed;
      tables := tables.(trashed := rows);
      ok := true;
    }
  }

  /** The part of a file object that encryption reads and sets. */
  class FileRecord {
    var iv: Option<Iv>
    var version: nat

    constructor (iv: Option<Iv>, version: nat)
      ensures this.iv == iv && this.version == version
    {
      this.iv, this.version := iv, version;
    }
  }

  class EncryptionManager {
    const store: KeyStore
    var key: Option<Key>
    var oldKey: Option<Key>
    var version: nat
    var rotating: bool

    function Fields(): Keys
      reads this
    {
      Keys(key, oldKey, version, rotating)
    }

    constructor (store: KeyStore)
      ensures this.store == store && Fields() == NO_KEYS
    {
      this.store := store;
      key, oldKey, version, rotating := None, None, 0, false;
    }

    /** What the constructor of the source does; where it throws there is no manager. */
    method LoadKey(drawn: Key, loaded: bool) returns (r: Result<(), CryptoError>)
      requires Fields() == NO_KEYS
      modifies this, store
      ensures store.tables == Load(old(store.tables), drawn, loaded).0
      ensures r.Ok? <==> Load(old(store.tables), drawn, loaded).1.Ok?
      ensures r.Ok? ==> Fields() == Load(old(store.tables), drawn, loaded).1.value
    {
      if !loaded {
        return Err(StoreFailed);
      }
      rotating := store.KeyRotationInProgress();
      if store.tables.current.None? {
        version := store.AddVaultKey(drawn);
        key := Some(drawn);
        return Ok(());
      }
      version := store.tables.current.value.version;
      key := Some(store.tables.current.value.key);
      if rotating {
        var previous := store.tables.OldKey();
        if previous.None? {
          return Err(NoOldKey);
        }
        oldKey := Some(previous.value.key);
      }
      r := Ok(());
    }

    /** False where the store throws: the key fields have moved by then. */
    method PrepareKeyRotation(drawn: Key, stored: bool) returns (ok: bool)
      modifies this, store
      ensures (store.tables, Fields()) == Prepare(old(store.tables), old(Fields()), drawn, stored)
      ensures ok <==> stored || old(store.tables).InProgress()
    {
      var inProgress := store.KeyRotationInProgress();
      if inProgress {
        return true;
      }
      oldKey := key;
      key := Some(drawn);
      var newVersion := store.RotateVaultKey(drawn, stored);
      if newVersion.None? {
        return false;
      }
      version := newVersion.value;
      rotating := true;
      ok := true;
    }

    /** False where the store throws: the old key is gone by then. */
    method FinishKeyRotation(stored: bool) returns (ok: bool)
      modifies this, store
      ensures (store.tables, Fields()) == Finish(old(store.tables), old(Fields()), stored)
      ensures ok <==> stored || !old(store.tables).InProgress()
    {
      var inProgress := store.KeyRotationInProgress();
      if !inProgress {
        return true;
      }
      oldKey := None;
      var marked := store.MarkKeyRotationFinished(stored);
      if !marked {
        return false;
      }
      rotating := false;
      ok := true;
    }

    method RotateDecryptEncrypt(ciphertext: Blob, f: FileRecord, iv: Iv) returns (r: Result<Blob, CryptoError>)
      modifies f
      ensures var spec := RotateRow(Fields(), FileRow(old(f.iv), old(f.version), ciphertext), iv);
        && (spec.Err? ==> r == Err(spec.error) && f.iv == old(f.iv) && f.version == old(f.version))
        && (spec.Ok? ==> r == Ok(spec.value.blob) && f.iv == spec.value.iv && f.version == spec.value.version)
    {
      if f.version == version {
        return Ok(ciphertext);
      }
      if !rotating {
        return Err(NoRotation);
      }
      var plain :- Open(ciphertext, oldKey, f.iv);
      if key.None? {
        return Err(NoKey);
      }
      var encrypted := Sealed(key.value, iv, plain);
      if encrypted.Size() != ciphertext.Size() {
        return Err(SizeMismatch);
      }
      f.iv := Some(iv);
      f.version := version;
      r := Ok(encrypted);
    }

    method EncryptFile(plain: Bytes, f: FileRecord, iv: Iv) returns (r: Result<Blob, CryptoError>)
      modifies f
      ensures var spec := Encrypt(Fields(), plain, iv);
        && (spec.Err? ==> r == Err(spec.error) && f.iv == old(f.iv) && f.version == old(f.version))
        && (spec.Ok? ==> r == Ok(spec.value.blob) && f.iv == spec.value.iv && f.version == spec.value.version)
    {
      if key.None? {
        return Err(NoKey);
      }
      f.iv := Some(iv);
      f.version := version;
      r := Ok(Sealed(key.value, iv, plain));
    }

    method DecryptFile(ciphertext: Blob, iv: Option<Iv>, keyVersion: nat) returns (r: Result<Bytes, CryptoError>)
      ensures r == Decrypt(Fields(), ciphertext, iv, keyVersion)
    {
      if rotating {
        if key.None? || oldKey.None? {
          return Err(NoKey);
        }
        if keyVersion == version {
          return Open(ciphertext, key, iv);
        }
        if keyVersion + 1 == version {
          return Open(ciphertext, oldKey, iv);
        }
        return Open(ciphertext, key, iv);
      }
      if keyVersion != version {
        return Err(VersionMismatch);
      }
      r := Open(ciphertext, key, iv);
    }
  }

  /** One vault's sync task, with the vault's file rows and blobs. */
  class LocalSync {
    const manager: EncryptionManager
    var files: map<Path, FileRow>
    var drawn: nat
    ghost var written: map<Path, Bytes>

    ghost function State(): Vault
      reads this, manager, manager.store
    {
      Vault(manager.store.tables, manager.Fields(), files, written, drawn)
    }

    constructor (manager: EncryptionManager)
      ensures this.manager == manager && files == map[] && written == map[] && drawn == 0
    {
      this.manager := manager;
      files, written, drawn := map[], map[], 0;
    }

    /** Seals and writes the blob, then the row; `stored` is whether the row's statement succeeds. */
    method PutContents(path: Path, plain: Bytes, keepsVersion: bool, stored: bool)
      requires manager.key.Some?
      modifies this`files, this`drawn, this`written
      ensures State() == Put(old(State()), path, plain,
                             if keepsVersion then RowVersion(old(State()), path) else old(manager.version), stored)
    {
      if plain == [] {
        return;
      }
      var f := new FileRecord(None, 0);
      var r := manager.EncryptFile(plain, f, drawn);
      drawn := drawn + 1;
      var version := if !keepsVersion then f.version else if path in files then files[path].version else 1;
      if stored {
        files := files[path := FileRow(f.iv, version, r.value)];
        written := written[path := plain];
      } else if path in files {
        files := files[path := files[path].(blob := r.value)];
      }
    }

    /** The sync task's file operations store vector and version. */
    method Write(path: Path, plain: Bytes, stored: bool)
      requires manager.key.Some?
      modifies this`files, this`drawn, this`written
      ensures State() == Apply(old(State()), WriteFile(path, plain, stored))
    {
      PutContents(path, plain, false, stored);
    }

    /** The file system stores the vector and leaves the version to the row; an empty new file it does not encrypt. */
    method Save(path: Path, plain: Bytes, stored: bool)
      requires manager.key.Some?
      modifies this`files, this`drawn, this`written
      ensures State() == Apply(old(State()), SaveFile(path, plain, stored))
    {
      if plain != [] || path in files {
        PutContents(path, plain, true, stored);
      } else if stored {
        files := files[path := FileRow(None, 1, Raw([]))];
        written := written[path := []];
      }
    }

    // -------------------------------------------------------------- rotation

    ghost function Marks(objects: seq<FileRecord>): seq<Mark>
      reads objects
    {
      seq(|objects|, k requires 0 <= k < |objects| reads objects => Mark(objects[k].iv, objects[k].version))
    }

    ghost function WorldOf(objects: seq<FileRecord>, tasks: seq<Task>): World
      reads this, manager, manager.store, objects
    {
      World(State(), Marks(objects), tasks)
    }

    /** The work a task has left, in turns. */
    static function Left(task: Task, end: nat): nat {
      if task.status != Running || task.at >= end then 0
      else
        4 * (end - task.at)
        - match task.phase case Reading => 0 case Holding(_) => 1 case Writing(_) => 2 case Storing => 3
    }

    static function AllLeft(tasks: seq<Task>, ranges: seq<Range>): nat
      requires |tasks| == |ranges|
    {
      if tasks == [] then 0
      else AllLeft(tasks[..|tasks| - 1], ranges[..|tasks| - 1]) + Left(tasks[|tasks| - 1], ranges[|tasks| - 1].end)
    }

    static lemma {:induction false} AllLeftUpdate(tasks: seq<Task>, ranges: seq<Range>, t: nat, next: Task)
      requires |tasks| == |ranges| && t < |tasks|
      ensures AllLeft(tasks[t := next], ranges)
           == AllLeft(tasks, ranges) - Left(tasks[t], ranges[t].end) + Left(next, ranges[t].end)
    {
      var last := |tasks| - 1;
      if t == last {
        assert tasks[t := next][..last] == tasks[..last];
      } else {
        assert tasks[t := next][..last] == tasks[..last][t := next];
        AllLeftUpdate(tasks[..last], ranges[..last], t, next);
      }
    }

    /** A task's next piece of work on the file it is at. */
    method Work(job: Job, objects: seq<FileRecord>, tasks: seq<Task>, t: nat) returns (next: Task)
      requires Fits(WorldOf(objects, tasks), job) && Active(WorldOf(objects, tasks), job, t)
      requires forall i, j :: 0 <= i < j < |objects| ==> objects[i] != objects[j]
      modifies this`files, this`drawn, objects[tasks[t].at]
      ensures WorldOf(objects, tasks[t := next]) == Take(old(WorldOf(objects, tasks)), job, Turn(t, false))
      ensures Left(next, job.ranges[t].end) < Left(tasks[t], job.ranges[t].end)
    {
      var task := tasks[t];
      var path, f := job.list[task.at], objects[task.at];
      ghost var before := WorldOf(objects, tasks);
      match task.phase {
        case Reading =>
          next := task.(phase := Holding(files[path].blob));
          assert files[path := files[path]] == files;
        case Holding(blob) =>
          var r := manager.RotateDecryptEncrypt(blob, f, drawn);
          drawn := drawn + 1;
          next := match r case Err(_) => task.(status := Refused) case Ok(sealed) => task.(phase := Writing(sealed));
          assert files[path := files[path]] == files;
        case Writing(blob) =>
          files := files[path := files[path].(blob := blob)];
          next := task.(phase := Storing);
        case Storing =>
          files := files[path := FileRow(f.iv, f.version, files[path].blob)];
          next := Task(task.at + 1, Reading, task.status);
      }
      assert Marks(objects) == Take(before, job, Turn(t, false)).objects;
    }

    /** The file objects of the query's result, one for all tasks. */
    method LoadObjects(list: seq<Path>) returns (objects: seq<FileRecord>)
      requires forall k :: 0 <= k < |list| ==> list[k] in files
      ensures |objects| == |list| && fresh(objects)
      ensures forall i, j :: 0 <= i < j < |objects| ==> objects[i] != objects[j]
      ensures forall k :: 0 <= k < |objects| ==>
        objects[k].iv == files[list[k]].iv && objects[k].version == files[list[k]].version
    {
      objects := [];
      for i := 0 to |list|
        invariant |objects| == i && fresh(objects)
        invariant forall a, b :: 0 <= a < b < |objects| ==> objects[a] != objects[b]
        invariant forall k :: 0 <= k < i ==>
          objects[k].iv == files[list[k]].iv && objects[k].version == files[list[k]].version
      {
        var f := new FileRecord(files[list[i]].iv, files[list[i]].version);
        objects := objects + [f];
      }
    }

    /** Some task that has not ended gets a turn, and may break off in it. */
    method GiveTurn(job: Job, objects: seq<FileRecord>, tasks: seq<Task>, t: nat)
      returns (after: seq<Task>, ghost turn: Turn)
      requires Fits(WorldOf(objects, tasks), job) && Active(WorldOf(objects, tasks), job, t)
      requires forall i, j :: 0 <= i < j < |objects| ==> objects[i] != objects[j]
      modifies this`files, this`drawn, objects[tasks[t].at]
      ensures WorldOf(objects, after) == Take(old(WorldOf(objects, tasks)), job, turn)
      ensures |after| == |tasks| && AllLeft(after, job.ranges) < AllLeft(tasks, job.ranges)
    {
      var breaks: bool := *;
      turn := Turn(t, breaks);
      var next := tasks[t].(status := Broken);
      if !breaks {
        next := Work(job, objects, tasks, t);
      }
      AllLeftUpdate(tasks, job.ranges, t, next);
      after := tasks[t := next];
    }

    /** Runs the pushed tasks to their ends, in whatever order they get turns and wherever they break off. */
    method RunTasks(job: Job) returns (ghost turns: seq<Turn>)
      requires Startable(State(), job)
      modifies this`files, this`drawn
      ensures Quiet(Play(Begin(old(State()), job), job, turns), job)
      ensures State() == Play(Begin(old(State()), job), job, turns).vault
    {
      var objects := LoadObjects(job.list);
      var tasks := seq(|job.ranges|,
                       t requires 0 <= t < |job.ranges| => Task(job.ranges[t].begin, Reading, Running));
      ghost var start := Begin(State(), job);
      assert WorldOf(objects, tasks) == start;
      hide Begin, Take;
      turns := [];
      PlayNone(start, job);
      while exists t :: 0 <= t < |tasks| && tasks[t].status == Running && tasks[t].at < job.ranges[t].end
        invariant |tasks| == |job.ranges| && |objects| == |job.list| && fresh(objects)
        invariant forall i, j :: 0 <= i < j < |objects| ==> objects[i] != objects[j]
        invariant WorldOf(objects, tasks) == Play(start, job, turns)
        decreases AllLeft(tasks, job.ranges)
      {
        var t: nat :| t < |tasks| && tasks[t].status == Running && tasks[t].at < job.ranges[t].end;
        ghost var turn;
        tasks, turn := GiveTurn(job, objects, tasks, t);
        PlayOne(start, job, turns, turn);
        turns := turns + [turn];
      }
    }

    /** `stored` is whether the store marks the rotation finished; if not, the exception ends the handler. */
    method HandleVaultKeyRotation(list: seq<Path>, maxThreads: nat, stored: bool)
      returns (ending: Ending, ghost turns: seq<Turn>)
      requires |list| < UINT32_LIMIT && maxThreads < UINT32_LIMIT && manager.key.Some?
      requires forall k :: 0 <= k < |list| ==> list[k] in files
      modifies this`files, this`drawn, manager, manager.store
      ensures (State(), ending) == HandleRotation(old(State()), list, maxThreads, turns, stored)
      ensures ending.RotationFinished? || ending.FinishFailed? ==>
        list == [] || Ended(old(State()), list, maxThreads, turns)
    {
      turns := [];
      if !manager.rotating {
        return NothingToDo, turns;
      }
      if list != [] {
        var ranges := GetTaskOperationRanges(|list|, maxThreads, MIN_FILES_PER_TASK);
        if ranges.None? {
          return Crashed, turns;
        }
        TasksWithinTotal(|list|, maxThreads, MIN_FILES_PER_TASK);
        RangesFit(|list|, |ranges.value|);
        turns := RunTasks(Job(list, ranges.value));
      }
      var finished := manager.FinishKeyRotation(stored);
      ending := if finished then RotationFinished else FinishFailed;
    }
  }
}
