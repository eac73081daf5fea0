/**
 Versioned vault keys with a rotation window. Encryption is symbolic: a ciphertext opens only under the
 key and the initialisation vector it was sealed with. Random keys and vectors are fresh numbers.
 */
module VaultKeys {
  import opened Wrappers

  type Key = nat
  type Iv = nat
  type Path = nat
  type Bytes = seq<bv8>

  const TAG_SIZE := 16

  /** What a file holds on disk: a ciphertext, or bytes that were never encrypted. */
  datatype Blob = Sealed(key: Key, iv: Iv, plain: Bytes) | Raw(bytes: Bytes) {
    function Size(): nat {
      match this
      case Sealed(_, _, plain) => |plain| + TAG_SIZE
      case Raw(bytes) => |bytes|
    }
  }

  datatype CryptoError =
    | NoKey | InvalidIv | AuthenticationFailed | NoRotation | VersionMismatch | SizeMismatch
    | NoOldKey | StoreFailed | NoSuchFile

  /** AES-256-GCM decryption; an empty key or vector is refused. */
  function Open(c: Blob, key: Option<Key>, iv: Option<Iv>): Result<Bytes, CryptoError> {
    if key.None? then Err(NoKey)
    else if iv.None? then Err(InvalidIv)
    else if c.Sealed? && c.key == key.value && c.iv == iv.value then Ok(c.plain)
    else Err(AuthenticationFailed)
  }

  // ---------------------------------------------------------------- the key tables

  datatype KeyRow = KeyRow(version: nat, key: Key)
  datatype TrashedKey = TrashedKey(version: nat, key: Key, finished: bool)

  /** `vault_keys` and `vault_keys_trashed` of one vault. */
  datatype KeyTables = KeyTables(current: Option<KeyRow>, trashed: seq<TrashedKey>) {
    predicate InProgress() {
      exists i :: 0 <= i < |trashed| && !trashed[i].finished
    }

    /** The first unfinished trashed key. */
    function OldKey(): Option<TrashedKey> {
      FirstUnfinished(trashed)
    }

    /** First key of a vault: the version column defaults to 1. */
    function Add(key: Key): KeyTables {
      this.(current := Some(KeyRow(1, key)))
    }

    /** Trashes the current key and stores the new one under the next version. */
    function Rotate(key: Key): KeyTables {
      match current
      case None => this.(current := Some(KeyRow(0, key)))
      case Some(row) =>
        KeyTables(Some(KeyRow(row.version + 1, key)), trashed + [TrashedKey(row.version, row.key, false)])
    }

    function Finish(): KeyTables {
      this.(trashed := seq(|trashed|, i requires 0 <= i < |trashed| => trashed[i].(finished := true)))
    }

    /** The key a version was sealed with. */
    function KeyOf(version: nat): Option<Key> {
      if current.Some? && current.value.version == version then Some(current.value.key)
      else KeyAmong(trashed, version)
    }
  }

  function FirstUnfinished(ts: seq<TrashedKey>): Option<TrashedKey> {
    if ts == [] then None
    else if !ts[0].finished then Some(ts[0])
    else FirstUnfinished(ts[1..])
  }

  function KeyAmong(ts: seq<TrashedKey>, version: nat): Option<Key> {
    if ts == [] then None
    else if ts[|ts| - 1].version == version then Some(ts[|ts| - 1].key)
    else KeyAmong(ts[..|ts| - 1], version)
  }

  // ---------------------------------------------------------------- the manager

  /** The fields of the encryption manager; a cleared key is `None`. */
  datatype Keys = Keys(key: Option<Key>, oldKey: Option<Key>, version: nat, rotating: bool)

  const NO_KEYS := Keys(None, None, 0, false)

  /** A file as the tables and the disk hold it; a file that was never encrypted has no vector. */
  datatype FileRow = FileRow(iv: Option<Iv>, version: nat, blob: Blob)

  /**
   Keys read from the tables; draws and stores a first key if there is none. `loaded` is false if a statement
   fails.
   */
  function Load(tables: KeyTables, drawn: nat, loaded: bool): (KeyTables, Result<Keys, CryptoError>) {
    if !loaded then (tables, Err(StoreFailed))
    else match tables.current
    case None => (tables.Add(drawn), Ok(Keys(Some(drawn), None, 1, tables.InProgress())))
    case Some(row) =>
      if !tables.InProgress() then (tables, Ok(Keys(Some(row.key), None, row.version, false)))
      else match tables.OldKey()
        case None => (tables, Err(NoOldKey))
        case Some(previous) => (tables, Ok(Keys(Some(row.key), Some(previous.key), row.version, true)))
  }

  /**
   Prepares a rotation with the fresh key `drawn`. The fields move before the store is asked; `stored`
   says whether the store then accepts.
   */
  function Prepare(tables: KeyTables, keys: Keys, drawn: Key, stored: bool): (KeyTables, Keys) {
    if tables.InProgress() then (tables, keys)
    else
      var moved := keys.(oldKey := keys.key, key := Some(drawn));
      if !stored then (tables, moved)
      else
        var next := tables.Rotate(drawn);
        (next, moved.(version := next.current.value.version, rotating := true))
  }

  /** The old key is cleared before the store is asked to mark the rotation finished. */
  function Finish(tables: KeyTables, keys: Keys, stored: bool): (KeyTables, Keys) {
    if !tables.InProgress() then (tables, keys)
    else if !stored then (tables, keys.(oldKey := None))
    else (tables.Finish(), keys.(oldKey := None, rotating := false))
  }

  function Encrypt(keys: Keys, plain: Bytes, iv: Iv): Result<FileRow, CryptoError> {
    if keys.key.None? then Err(NoKey) else Ok(FileRow(Some(iv), keys.version, Sealed(keys.key.value, iv, plain)))
  }

  function Decrypt(keys: Keys, c: Blob, iv: Option<Iv>, version: nat): Result<Bytes, CryptoError> {
    if keys.rotating then
      if keys.key.None? || keys.oldKey.None? then Err(NoKey)
      else if version == keys.version then Open(c, keys.key, iv)
      else if version + 1 == keys.version then Open(c, keys.oldKey, iv)
      else Open(c, keys.key, iv)
    else if version != keys.version then Err(VersionMismatch)
    else Open(c, keys.key, iv)
  }

  /** Moves one file to the current key; a version that is neither current nor previous is tried with the old key. */
  function RotateRow(keys: Keys, row: FileRow, iv: Iv): Result<FileRow, CryptoError> {
    if row.version == keys.version then Ok(row)
    else if !keys.rotating then Err(NoRotation)
    else match Open(row.blob, keys.oldKey, row.iv)
      case Err(e) => Err(e)
      case Ok(plain) =>
        if keys.key.None? then Err(NoKey)
        else
          var sealed := Sealed(keys.key.value, iv, plain);
          if sealed.Size() != row.blob.Size() then Err(SizeMismatch)
          else Ok(FileRow(Some(iv), keys.version, sealed))
  }

  // ---------------------------------------------------------------- the state and its steps

  /** `written` remembers the plaintext last written to each file; `drawn` counts random draws. */
  datatype Vault = Vault(
    tables: KeyTables,
    keys: Keys,
    files: map<Path, FileRow>,
    written: map<Path, Bytes>,
    drawn: nat)

  /**
   `loaded` and `stored` say whether the store carries out the step's statement. `WriteFile` stores vector and
   version, as the file operations of the sync task do; `SaveFile` stores the vector alone, as the file system does.
   */
  datatype Step =
    | Restart(loaded: bool)
    | PrepareRotation(stored: bool)
    | FinishRotation(stored: bool)
    | WriteFile(path: Path, plain: Bytes, stored: bool)
    | SaveFile(path: Path, plain: Bytes, stored: bool)
    | RotateFile(path: Path, stored: bool)

  /** The version a row has where a statement does not set it: what it had, or the column's default. */
  function RowVersion(v: Vault, path: Path): nat {
    if path in v.files then v.files[path].version else 1
  }

  /** Seals new contents: the blob is written first, then the row. Empty contents change nothing. */
  function Put(v: Vault, path: Path, plain: Bytes, version: nat, stored: bool): Vault {
    if plain == [] || v.keys.key.None? then v
    else
      var blob := Sealed(v.keys.key.value, v.drawn, plain);
      if stored then
        v.(files := v.files[path := FileRow(Some(v.drawn), version, blob)], written := v.written[path := plain],
           drawn := v.drawn + 1)
      else if path in v.files then
        v.(files := v.files[path := v.files[path].(blob := blob)], drawn := v.drawn + 1)
      else v.(drawn := v.drawn + 1)
  }

  /** An empty new file is not encrypted: its row has no vector and the column's default version. */
  function CreateEmpty(v: Vault, path: Path, stored: bool): Vault {
    if !stored then v
    else v.(files := v.files[path := FileRow(None, 1, Raw([]))], written := v.written[path := []])
  }

  /** Contents saved through the file system. */
  function Save(v: Vault, path: Path, plain: Bytes, stored: bool): Vault {
    if plain == [] && path !in v.files then CreateEmpty(v, path, stored)
    else Put(v, path, plain, RowVersion(v, path), stored)
  }

  /** A manager whose load failed does not exist: until a restart nothing can be asked of it. */
  function Apply(v: Vault, s: Step): Vault {
    if v.keys.key.None? && !s.Restart? then v
    else match s
    case Restart(loaded) =>
      var (tables, r) := Load(v.tables, v.drawn, loaded);
      v.(tables := tables, keys := if r.Ok? then r.value else NO_KEYS, drawn := v.drawn + 1)
    case PrepareRotation(stored) =>
      var (tables, keys) := Prepare(v.tables, v.keys, v.drawn, stored);
      v.(tables := tables, keys := keys, drawn := v.drawn + 1)
    case FinishRotation(stored) =>
      var (tables, keys) := Finish(v.tables, v.keys, stored);
      v.(tables := tables, keys := keys)
    case WriteFile(path, plain, stored) => Put(v, path, plain, v.keys.version, stored)
    case SaveFile(path, plain, stored) => Save(v, path, plain, stored)
    case RotateFile(path, stored) =>
      if path !in v.files then v
      else match RotateRow(v.keys, v.files[path], v.drawn)
        case Err(_) => v.(drawn := v.drawn + 1)
        case Ok(row) =>
          v.(files := v.files[path := if stored then row else v.files[path].(blob := row.blob)], drawn := v.drawn + 1)
  }

  function Run(v: Vault, steps: seq<Step>): Vault
    decreases |steps|
  {
    if steps == [] then v else Apply(Run(v, steps[..|steps| - 1]), steps[|steps| - 1])
  }

  function Read(v: Vault, path: Path): Result<Bytes, CryptoError> {
    if path !in v.files then Err(NoSuchFile)
    else Decrypt(v.keys, v.files[path].blob, v.files[path].iv, v.files[path].version)
  }

  const EMPTY_VAULT := Vault(KeyTables(None, []), NO_KEYS, map[], map[], 0)

  // ---------------------------------------------------------------- what every step keeps

  /** Versions run without gaps, all keys differ, and only the last trashed key can be unfinished. */
  ghost predicate TablesOk(t: KeyTables, drawn: nat) {
    && t.current.Some?
    && t.current.value.version >= 1
    && t.current.value.version > |t.trashed|
    && t.current.value.key < drawn
    && (forall i :: 0 <= i < |t.trashed| ==>
          && t.trashed[i].version == t.current.value.version - |t.trashed| + i
          && t.trashed[i].key < drawn
          && t.trashed[i].key != t.current.value.key)
    && (forall i, j :: 0 <= i < j < |t.trashed| ==> t.trashed[i].key != t.trashed[j].key)
    && (forall i :: 0 <= i < |t.trashed| - 1 ==> t.trashed[i].finished)
  }

  /** The manager holds the key of its version, and while rotating also the key of the version before. */
  ghost predicate KeysOk(t: KeyTables, k: Keys)
    requires t.current.Some?
  {
    && k.key == Some(t.current.value.key)
    && k.version == t.current.value.version
    && k.rotating == t.InProgress()
    && (k.rotating ==> t.trashed != [] && k.oldKey == Some(t.trashed[|t.trashed| - 1].key))
  }

  /** The file's blob was sealed with its version's key and vector, and holds what was last written. */
  ghost predicate FileOk(v: Vault, path: Path)
    requires path in v.files && path in v.written
  {
    var row := v.files[path];
    && row.blob.Sealed?
    && v.tables.KeyOf(row.version) == Some(row.blob.key)
    && row.iv == Some(row.blob.iv)
    && row.blob.plain == v.written[path]
  }

  /** No vector is ever drawn twice, so a blob that has its row's vector holds what was last written. */
  ghost predicate VectorOk(v: Vault, path: Path)
    requires path in v.files && path in v.written
  {
    var row := v.files[path];
    && (row.iv.Some? ==> row.iv.value < v.drawn)
    && (row.blob.Sealed? ==>
          && row.blob.iv < v.drawn
          && (row.iv == Some(row.blob.iv) ==> row.blob.plain == v.written[path]))
  }

  /** Every file but the damaged ones is in order. */
  ghost predicate FilesOk(v: Vault, damaged: set<Path>) {
    && v.files.Keys == v.written.Keys
    && (forall p :: p in v.files ==> VectorOk(v, p))
    && forall p :: p in v.files && p !in damaged ==> FileOk(v, p)
  }

  ghost predicate Inv(v: Vault) {
    TablesOk(v.tables, v.drawn) && KeysOk(v.tables, v.keys) && FilesOk(v, {})
  }

  lemma {:induction false} KeyAmongAt(ts: seq<TrashedKey>, base: nat, version: nat)
    requires forall i :: 0 <= i < |ts| ==> ts[i].version == base + i
    ensures KeyAmong(ts, version)
         == if base <= version < base + |ts| then Some(ts[version - base].key) else None
  {
    if ts != [] {
      KeyAmongAt(ts[..|ts| - 1], base, version);
    }
  }

  /** Versions name keys: the current one, and each trashed one. */
  lemma KeyOfVersion(t: KeyTables, drawn: nat, version: nat)
    requires TablesOk(t, drawn)
    ensures var cur := t.current.value;
      var base := cur.version - |t.trashed|;
      t.KeyOf(version)
        == if version == cur.version then Some(cur.key)
           else if base <= version < cur.version then Some(t.trashed[version - base].key)
           else None
  {
    KeyAmongAt(t.trashed, t.current.value.version - |t.trashed|, version);
  }

  lemma {:induction false} FirstUnfinishedIsLast(ts: seq<TrashedKey>)
    requires forall i :: 0 <= i < |ts| - 1 ==> ts[i].finished
    ensures FirstUnfinished(ts)
         == if ts != [] && !ts[|ts| - 1].finished then Some(ts[|ts| - 1]) else None
  {
    if |ts| > 1 {
      FirstUnfinishedIsLast(ts[1..]);
    }
  }

  lemma InProgressIsLast(t: KeyTables, drawn: nat)
    requires TablesOk(t, drawn)
    ensures t.InProgress() <==> t.trashed != [] && !t.trashed[|t.trashed| - 1].finished
  {
  }

  /** Key lookups of old versions survive a rotation; the new version gets the new key. */
  lemma RotateKeepsKeys(t: KeyTables, drawn: nat)
    requires TablesOk(t, drawn) && !t.InProgress()
    ensures TablesOk(t.Rotate(drawn), drawn + 1)
    ensures t.Rotate(drawn).InProgress()
    ensures forall version: nat :: t.KeyOf(version).Some? ==> t.Rotate(drawn).KeyOf(version) == t.KeyOf(version)
  {
    var u := t.Rotate(drawn);
    assert !u.trashed[|t.trashed|].finished;
    assert forall i :: 0 <= i < |t.trashed| ==> u.trashed[i] == t.trashed[i];
    forall version: nat | t.KeyOf(version).Some?
      ensures u.KeyOf(version) == t.KeyOf(version)
    {
      KeyOfVersion(t, drawn, version);
      KeyOfVersion(u, drawn + 1, version);
    }
  }

  lemma FinishKeepsKeys(t: KeyTables, drawn: nat)
    requires TablesOk(t, drawn)
    ensures TablesOk(t.Finish(), drawn) && !t.Finish().InProgress()
    ensures forall version: nat :: t.Finish().KeyOf(version) == t.KeyOf(version)
  {
    var u := t.Finish();
    forall version: nat
      ensures u.KeyOf(version) == t.KeyOf(version)
    {
      KeyOfVersion(t, drawn, version);
      KeyOfVersion(u, drawn, version);
    }
  }

  lemma LoadIsOk(t: KeyTables, drawn: nat)
    requires TablesOk(t, drawn)
    ensures Load(t, drawn, true).0 == t && Load(t, drawn, true).1.Ok?
    ensures KeysOk(t, Load(t, drawn, true).1.value)
  {
    InProgressIsLast(t, drawn);
    FirstUnfinishedIsLast(t.trashed);
  }

  /** Rotating one file changes only its vector, version and ciphertext: the plaintext under it stays. */
  lemma RotateRowMeaning(v: Vault, path: Path, iv: Iv)
    requires TablesOk(v.tables, v.drawn) && KeysOk(v.tables, v.keys)
    requires path in v.files && path in v.written && FileOk(v, path)
    ensures var row := v.files[path];
      RotateRow(v.keys, row, iv) ==
        if row.version == v.keys.version then Ok(row)
        else if !v.keys.rotating then Err(NoRotation)
        else if row.version + 1 == v.keys.version then
          Ok(FileRow(Some(iv), v.keys.version, Sealed(v.keys.key.value, iv, v.written[path])))
        else Err(AuthenticationFailed)
  {
    KeyOfVersion(v.tables, v.drawn, v.files[path].version);
    InProgressIsLast(v.tables, v.drawn);
  }

  // ---------------------------------------------------------------- which steps break the invariant

  /**
   Whatever failed before: a key the manager holds is the current one or one no table knows, under the current
   version; while it rotates it is the current one, and the old key is none that an earlier rotation retired.
   */
  ghost predicate KeysSane(t: KeyTables, k: Keys, drawn: nat)
    requires t.current.Some?
  {
    && (k.key.Some? ==>
          && k.version == t.current.value.version && k.key.value < drawn
          && forall i :: 0 <= i < |t.trashed| ==> t.trashed[i].key != k.key.value)
    && (k.rotating ==> t.InProgress() && k.key == Some(t.current.value.key))
    && (k.rotating && k.oldKey.Some? ==> forall i :: 0 <= i < |t.trashed| - 1 ==> t.trashed[i].key != k.oldKey.value)
  }

  /** Every version that named a key still names it. */
  ghost predicate Extends(t: KeyTables, u: KeyTables) {
    forall version: nat :: t.KeyOf(version).Some? ==> u.KeyOf(version) == t.KeyOf(version)
  }

  lemma LoadShape(t: KeyTables, drawn: nat, loaded: bool)
    requires TablesOk(t, drawn)
    ensures var (u, r) := Load(t, drawn, loaded); var k := if r.Ok? then r.value else NO_KEYS;
      && u == t && TablesOk(u, drawn + 1) && KeysSane(u, k, drawn + 1)
      && (KeysOk(u, k) <==> loaded)
  {
    LoadIsOk(t, drawn);
    InProgressIsLast(t, drawn);
  }

  lemma PrepareShape(t: KeyTables, k: Keys, drawn: nat, stored: bool)
    requires TablesOk(t, drawn) && KeysSane(t, k, drawn) && k.key.Some?
    ensures var (u, l) := Prepare(t, k, drawn, stored);
      && TablesOk(u, drawn + 1) && KeysSane(u, l, drawn + 1) && Extends(t, u)
      && (KeysOk(t, k) ==> (KeysOk(u, l) <==> stored || t.InProgress()))
  {
    if !t.InProgress() {
      RotateKeepsKeys(t, drawn);
    }
  }

  lemma FinishShape(t: KeyTables, k: Keys, drawn: nat, stored: bool)
    requires TablesOk(t, drawn) && KeysSane(t, k, drawn)
    ensures var (u, l) := Finish(t, k, stored);
      && TablesOk(u, drawn) && KeysSane(u, l, drawn) && Extends(t, u)
      && (KeysOk(t, k) ==> (KeysOk(u, l) <==> stored || !t.InProgress()))
  {
    FinishKeepsKeys(t, drawn);
  }

  lemma KeysOkAreSane(t: KeyTables, k: Keys, drawn: nat)
    requires TablesOk(t, drawn) && KeysOk(t, k)
    ensures KeysSane(t, k, drawn)
  {
    InProgressIsLast(t, drawn);
  }

  predicate IsKeyStep(s: Step) {
    s.Restart? || s.PrepareRotation? || s.FinishRotation?
  }

  /**
   The steps after which something no longer fits: a load, preparation or finish whose statement fails; contents
   or a rotated blob on disk without their row; contents saved under a row that names another version; and an empty
   new file, which is not encrypted.
   */
  predicate Harmful(v: Vault, s: Step) {
    match s
    case Restart(loaded) => !loaded
    case PrepareRotation(stored) => !stored && !v.tables.InProgress()
    case FinishRotation(stored) => !stored && v.tables.InProgress()
    case WriteFile(path, plain, stored) => plain != [] && !stored && path in v.files
    case SaveFile(path, plain, stored) =>
      if plain == [] then stored && path !in v.files
      else if stored then RowVersion(v, path) != v.keys.version else path in v.files
    case RotateFile(path, stored) =>
      !stored && path in v.files && v.keys.rotating && v.files[path].version + 1 == v.keys.version
  }

  /** A step on the keys touches no file, keeps tables and keys in order, and ends with the right keys or not. */
  ghost predicate KeyStepShape(v: Vault, u: Vault, right: bool)
    requires v.tables.current.Some?
  {
    && u.files == v.files && u.written == v.written && v.drawn <= u.drawn
    && TablesOk(u.tables, u.drawn) && KeysSane(u.tables, u.keys, u.drawn) && Extends(v.tables, u.tables)
    && (KeysOk(v.tables, v.keys) ==> (KeysOk(u.tables, u.keys) <==> right))
  }

  lemma RestartStep(v: Vault, loaded: bool)
    requires TablesOk(v.tables, v.drawn)
    ensures KeyStepShape(v, Apply(v, Restart(loaded)), loaded)
    ensures loaded ==> KeysOk(v.tables, Apply(v, Restart(loaded)).keys)
    ensures Apply(v, Restart(loaded)).tables == v.tables
  {
    hide TablesOk, KeysOk, KeysSane, Load;
    LoadShape(v.tables, v.drawn, loaded);
  }

  lemma PrepareStep(v: Vault, stored: bool)
    requires TablesOk(v.tables, v.drawn) && KeysSane(v.tables, v.keys, v.drawn) && v.keys.key.Some?
    ensures KeyStepShape(v, Apply(v, PrepareRotation(stored)), stored || v.tables.InProgress())
  {
    hide TablesOk, KeysOk, KeysSane, Prepare, Extends;
    PrepareShape(v.tables, v.keys, v.drawn, stored);
  }

  lemma FinishStep(v: Vault, stored: bool)
    requires TablesOk(v.tables, v.drawn) && KeysSane(v.tables, v.keys, v.drawn) && v.keys.key.Some?
    ensures KeyStepShape(v, Apply(v, FinishRotation(stored)), stored || !v.tables.InProgress())
  {
    hide TablesOk, KeysOk, KeysSane, Finish, Extends;
    FinishShape(v.tables, v.keys, v.drawn, stored);
  }

  lemma KeyStep(v: Vault, s: Step)
    requires TablesOk(v.tables, v.drawn) && KeysSane(v.tables, v.keys, v.drawn) && IsKeyStep(s)
    ensures KeyStepShape(v, Apply(v, s), !Harmful(v, s))
  {
    assert KeysOk(v.tables, v.keys) ==> v.keys.key.Some?;
    if s.Restart? {
      hide TablesOk, KeysSane, KeyStepShape, Load;
      RestartStep(v, s.loaded);
    } else if v.keys.key.Some? {
      hide TablesOk, KeysSane, KeyStepShape, Prepare, Finish;
      if s.PrepareRotation? {
        PrepareStep(v, s.stored);
      } else {
        FinishStep(v, s.stored);
      }
    }
  }

  lemma FilesFollow(v: Vault, u: Vault, damaged: set<Path>)
    requires FilesOk(v, damaged)
    requires u.files == v.files && u.written == v.written && v.drawn <= u.drawn
    requires Extends(v.tables, u.tables)
    ensures FilesOk(u, damaged)
  {
    forall p | p in u.files && p !in damaged
      ensures FileOk(u, p)
    {
      assert FileOk(v, p);
    }
  }

  lemma KeyStepKeeps(v: Vault, s: Step)
    requires Inv(v) && IsKeyStep(s)
    ensures Inv(Apply(v, s)) <==> !Harmful(v, s)
  {
    hide TablesOk, KeysOk, FilesOk, Apply, Harmful;
    KeysOkAreSane(v.tables, v.keys, v.drawn);
    KeyStep(v, s);
    FilesFollow(v, Apply(v, s), {});
  }

  /** A version names one key only. */
  lemma KeyOfIsInjective(t: KeyTables, drawn: nat, a: nat, b: nat)
    requires TablesOk(t, drawn) && t.KeyOf(a).Some? && t.KeyOf(a) == t.KeyOf(b)
    ensures a == b
  {
    KeyOfVersion(t, drawn, a);
    KeyOfVersion(t, drawn, b);
  }

  lemma PutKeeps(v: Vault, path: Path, plain: Bytes, version: nat, stored: bool)
    requires Inv(v)
    ensures Inv(Put(v, path, plain, version, stored)) <==>
      !(plain != [] && if stored then version != v.keys.version else path in v.files)
  {
    var u := Put(v, path, plain, version, stored);
    KeyOfVersion(v.tables, v.drawn, v.keys.version);
    if plain != [] && stored {
      if u.tables.KeyOf(version) == v.keys.key {
        KeyOfIsInjective(v.tables, v.drawn, version, v.keys.version);
      }
      assert Inv(u) ==> FileOk(u, path);
    } else if plain != [] && path in v.files {
      assert Inv(u) ==> FileOk(u, path);
    }
    forall p | p in u.files && (p != path || u == v)
      ensures FileOk(u, p)
    {
      assert FileOk(v, p);
    }
  }

  lemma CreateEmptyKeeps(v: Vault, path: Path, stored: bool)
    requires Inv(v)
    ensures Inv(CreateEmpty(v, path, stored)) <==> !stored
  {
    assert stored ==> !FileOk(CreateEmpty(v, path, stored), path);
  }

  lemma RotateKeeps(v: Vault, path: Path, stored: bool)
    requires Inv(v)
    ensures Inv(Apply(v, RotateFile(path, stored))) <==> !Harmful(v, RotateFile(path, stored))
  {
    var u := Apply(v, RotateFile(path, stored));
    if path in v.files {
      assert FileOk(v, path);
      RotateRowMeaning(v, path, v.drawn);
      KeyOfVersion(v.tables, v.drawn, v.keys.version);
      KeyOfVersion(v.tables, v.drawn, v.files[path].version);
      InProgressIsLast(v.tables, v.drawn);
      assert Inv(u) ==> FileOk(u, path);
    }
    forall p | p in u.files && p != path
      ensures FileOk(u, p)
    {
      assert FileOk(v, p);
    }
  }

  /** The invariant survives a step exactly if the step is not one of those. */
  lemma StepKeeps(v: Vault, s: Step)
    requires Inv(v)
    ensures Inv(Apply(v, s)) <==> !Harmful(v, s)
  {
    assert v.keys.key.Some?;
    hide Inv, Put, CreateEmpty, RotateRow, Load, Prepare, Finish;
    match s
    case WriteFile(path, plain, stored) => PutKeeps(v, path, plain, v.keys.version, stored);
    case SaveFile(path, plain, stored) =>
      CreateEmptyKeeps(v, path, stored);
      PutKeeps(v, path, plain, RowVersion(v, path), stored);
    case RotateFile(path, stored) => RotateKeeps(v, path, stored);
    case _ => KeyStepKeeps(v, s);
  }

  ghost predicate Harmless(v: Vault, steps: seq<Step>) {
    forall i :: 0 <= i < |steps| ==> !Harmful(Run(v, steps[..i]), steps[i])
  }

  /** So it holds throughout a run exactly if no step of the run is. */
  lemma {:induction false} RunKeeps(v: Vault, steps: seq<Step>)
    requires Inv(v)
    ensures (forall i :: 0 <= i <= |steps| ==> Inv(Run(v, steps[..i]))) <==> Harmless(v, steps)
    decreases |steps|
  {
    hide Inv, Harmful, Apply;
    assert steps[..|steps|] == steps;
    if steps != [] {
      var last := |steps| - 1;
      var front := steps[..last];
      assert forall i :: 0 <= i <= last ==> front[..i] == steps[..i];
      RunKeeps(v, front);
      assert Run(v, steps[..0]) == v;
      if Inv(Run(v, front)) {
        StepKeeps(Run(v, front), steps[last]);
      }
      assert Inv(Run(v, steps[..last + 1])) <==> Inv(Apply(Run(v, front), steps[last]));
    } else {
      assert Run(v, steps[..0]) == v;
    }
  }

  // ---------------------------------------------------------------- what survives any failures

  ghost predicate Sound(v: Vault, damaged: set<Path>) {
    TablesOk(v.tables, v.drawn) && KeysSane(v.tables, v.keys, v.drawn) && FilesOk(v, damaged)
  }

  /** The damaged files once contents are put: a new blob without its row, or under a row naming another key. */
  function DamagedByPut(damaged: set<Path>, v: Vault, path: Path, plain: Bytes, version: nat, stored: bool): set<Path> {
    if plain == [] || v.keys.key.None? || (!stored && path !in v.files) then damaged
    else if stored && v.tables.KeyOf(version) == v.keys.key then damaged - {path}
    else damaged + {path}
  }

  /**
   The damaged files after one more step: those with a blob that their row does not open. A rotation that opens
   one and stores its row repairs it.
   */
  function DamagedBy(damaged: set<Path>, v: Vault, s: Step): set<Path> {
    match s
    case WriteFile(path, plain, stored) => DamagedByPut(damaged, v, path, plain, v.keys.version, stored)
    case SaveFile(path, plain, stored) =>
      if plain == [] && path !in v.files && v.keys.key.Some? && stored then damaged + {path}
      else DamagedByPut(damaged, v, path, plain, RowVersion(v, path), stored)
    case RotateFile(path, stored) =>
      if v.keys.key.None? || path !in v.files || RotateRow(v.keys, v.files[path], v.drawn).Err?
         || v.files[path].version == v.keys.version
      then damaged
      else if stored then damaged - {path} else damaged + {path}
    case _ => damaged
  }

  function Damaged(v: Vault, damaged: set<Path>, steps: seq<Step>): set<Path>
    decreases |steps|
  {
    if steps == [] then damaged
    else
      var front := steps[..|steps| - 1];
      DamagedBy(Damaged(v, damaged, front), Run(v, front), steps[|steps| - 1])
  }

  lemma InvIsSound(v: Vault)
    requires Inv(v)
    ensures Sound(v, {})
  {
    InProgressIsLast(v.tables, v.drawn);
  }

  lemma KeyStepSurvives(v: Vault, damaged: set<Path>, s: Step)
    requires Sound(v, damaged) && IsKeyStep(s)
    ensures Sound(Apply(v, s), damaged)
  {
    hide TablesOk, KeysSane, FilesOk, Apply;
    KeyStep(v, s);
    FilesFollow(v, Apply(v, s), damaged);
  }

  lemma PutSurvives(v: Vault, damaged: set<Path>, path: Path, plain: Bytes, version: nat, stored: bool)
    requires Sound(v, damaged)
    ensures Sound(Put(v, path, plain, version, stored), DamagedByPut(damaged, v, path, plain, version, stored))
  {
    var u := Put(v, path, plain, version, stored);
    forall p | p in u.files && p != path && p !in damaged
      ensures FileOk(u, p)
    {
      assert FileOk(v, p);
    }
    if path in v.files && path !in damaged {
      assert FileOk(v, path);
    }
  }

  lemma CreateEmptySurvives(v: Vault, damaged: set<Path>, path: Path, stored: bool)
    requires Sound(v, damaged)
    ensures Sound(CreateEmpty(v, path, stored), if stored then damaged + {path} else damaged)
  {
    var u := CreateEmpty(v, path, stored);
    forall p | p in u.files && p != path && p !in damaged
      ensures FileOk(u, p)
    {
      assert FileOk(v, p);
    }
  }

  /** A stored rotation leaves its file in order if it was, or if it opened. */
  lemma RotatedFile(v: Vault, damaged: set<Path>, path: Path)
    requires Sound(v, damaged) && v.keys.key.Some? && path in v.files
    requires path !in damaged
             || (v.files[path].version != v.keys.version && RotateRow(v.keys, v.files[path], v.drawn).Ok?)
    ensures FileOk(Apply(v, RotateFile(path, true)), path)
  {
    KeyOfVersion(v.tables, v.drawn, v.tables.current.value.version);
    assert VectorOk(v, path);
    assert path !in damaged ==> FileOk(v, path);
  }

  lemma RotateSurvives(v: Vault, damaged: set<Path>, path: Path, stored: bool)
    requires Sound(v, damaged)
    ensures Sound(Apply(v, RotateFile(path, stored)), DamagedBy(damaged, v, RotateFile(path, stored)))
  {
    var u := Apply(v, RotateFile(path, stored));
    forall p | p in u.files && p !in DamagedBy(damaged, v, RotateFile(path, stored))
      ensures FileOk(u, p)
    {
      if p == path && stored && v.keys.key.Some? {
        RotatedFile(v, damaged, path);
      } else {
        assert FileOk(v, p);
      }
    }
    forall p | p in u.files
      ensures VectorOk(u, p)
    {
      assert VectorOk(v, p);
    }
  }

  lemma StepSurvives(v: Vault, damaged: set<Path>, s: Step)
    requires Sound(v, damaged)
    ensures Sound(Apply(v, s), DamagedBy(damaged, v, s))
  {
    if v.keys.key.Some? || s.Restart? {
      hide Sound, Put, CreateEmpty, RotateRow, Load, Prepare, Finish, DamagedByPut;
      match s
      case WriteFile(path, plain, stored) => PutSurvives(v, damaged, path, plain, v.keys.version, stored);
      case SaveFile(path, plain, stored) =>
        CreateEmptySurvives(v, damaged, path, stored);
        PutSurvives(v, damaged, path, plain, RowVersion(v, path), stored);
      case RotateFile(path, stored) => RotateSurvives(v, damaged, path, stored);
      case _ => KeyStepSurvives(v, damaged, s);
    }
  }

  /** Over every run, whatever fails in it: the tables stay in order, and so does every file no step damaged. */
  lemma {:induction false} RunSurvives(v: Vault, damaged: set<Path>, steps: seq<Step>)
    requires Sound(v, damaged)
    ensures Sound(Run(v, steps), Damaged(v, damaged, steps))
    decreases |steps|
  {
    hide Sound, Apply, DamagedBy;
    if steps != [] {
      var front := steps[..|steps| - 1];
      RunSurvives(v, damaged, front);
      StepSurvives(Run(v, front), Damaged(v, damaged, front), steps[|steps| - 1]);
    }
  }

  /** The first start of a vault stores version 1. */
  lemma FirstStart()
    ensures Inv(Apply(EMPTY_VAULT, Restart(true)))
    ensures Apply(EMPTY_VAULT, Restart(true)).keys.version == 1
  {
  }

  // ---------------------------------------------------------------- what can be read

  /** A file the manager still has the key for. */
  predicate Live(v: Vault, path: Path) {
    path in v.files
    && (v.files[path].version == v.keys.version
        || (v.keys.rotating && v.files[path].version + 1 == v.keys.version))
  }

  /** Reading an undamaged file gives the plaintext last written exactly if it is live, and an error otherwise. */
  lemma ReadExact(v: Vault, path: Path)
    requires TablesOk(v.tables, v.drawn) && KeysOk(v.tables, v.keys)
    requires path in v.files && path in v.written && FileOk(v, path)
    ensures Read(v, path) ==
      if Live(v, path) then Ok(v.written[path])
      else if v.keys.rotating then Err(AuthenticationFailed)
      else Err(VersionMismatch)
  {
    KeyOfVersion(v.tables, v.drawn, v.files[path].version);
    InProgressIsLast(v.tables, v.drawn);
  }

  /** No load, preparation or finish of the run has a statement fail that it needed. */
  ghost predicate KeyStepsHarmless(v: Vault, steps: seq<Step>) {
    forall i :: 0 <= i < |steps| && IsKeyStep(steps[i]) ==> !Harmful(Run(v, steps[..i]), steps[i])
  }

  lemma KeysStepRight(v: Vault, damaged: set<Path>, s: Step)
    requires Sound(v, damaged) && KeysOk(v.tables, v.keys) && (IsKeyStep(s) ==> !Harmful(v, s))
    ensures Apply(v, s).tables.current.Some? && KeysOk(Apply(v, s).tables, Apply(v, s).keys)
  {
    hide FilesOk, RotateRow, Load, Prepare, Finish;
    if IsKeyStep(s) {
      hide KeysSane, KeysOk, Apply, Harmful;
      KeyStep(v, s);
    }
  }

  lemma {:induction false} KeysStayRight(v: Vault, damaged: set<Path>, steps: seq<Step>)
    requires Sound(v, damaged) && KeysOk(v.tables, v.keys) && KeyStepsHarmless(v, steps)
    ensures Sound(Run(v, steps), Damaged(v, damaged, steps))
    ensures KeysOk(Run(v, steps).tables, Run(v, steps).keys)
    decreases |steps|
  {
    RunSurvives(v, damaged, steps);
    if steps != [] {
      hide Damaged, FilesOk, KeysSane, Harmful, Apply, KeysOk;
      var last := |steps| - 1;
      var front := steps[..last];
      assert forall i :: 0 <= i < last ==> front[..i] == steps[..i];
      KeysStayRight(v, damaged, front);
      KeysStepRight(Run(v, front), Damaged(v, damaged, front), steps[last]);
    }
  }

  /**
   The reading theorem over runs, file by file. As long as no key statement fails, a file that no step damaged is
   read as it was last written exactly if it is live; what happened to other files does not matter.
   */
  lemma UndamagedFilesReadBack(v: Vault, damaged: set<Path>, steps: seq<Step>, path: Path)
    requires Sound(v, damaged) && KeysOk(v.tables, v.keys) && KeyStepsHarmless(v, steps)
    requires path in Run(v, steps).files && path !in Damaged(v, damaged, steps)
    ensures var u := Run(v, steps);
      && path in u.written
      && (Read(u, path) == Ok(u.written[path]) <==> Live(u, path))
      && (Read(u, path).Ok? <==> Live(u, path))
  {
    hide Run, Damaged;
    KeysStayRight(v, damaged, steps);
    assert FileOk(Run(v, steps), path);
    ReadExact(Run(v, steps), path);
  }

  /** From the first start on, in every state reached without a harmful step, all live files read back. */
  lemma LiveFilesReadBack(steps: seq<Step>, path: Path)
    requires Harmless(Apply(EMPTY_VAULT, Restart(true)), steps)
    requires Live(Run(Apply(EMPTY_VAULT, Restart(true)), steps), path)
    ensures var v := Run(Apply(EMPTY_VAULT, Restart(true)), steps);
      path in v.written && Read(v, path) == Ok(v.written[path])
  {
    hide Harmless, Apply;
    var v0 := Apply(EMPTY_VAULT, Restart(true));
    FirstStart();
    RunKeeps(v0, steps);
    assert steps[..|steps|] == steps;
    var v := Run(v0, steps);
    assert Inv(v) && FileOk(v, path);
    ReadExact(v, path);
  }

  /**
   A restart repairs the keys after anything: from then on every undamaged file is readable if live, and if
   no step damaged a file the invariant is back. Failed loads, preparations and finishes damage none.
   */
  lemma RestartRepairs(v: Vault, damaged: set<Path>, steps: seq<Step>)
    requires Sound(v, damaged)
    ensures var u := Apply(Run(v, steps), Restart(true)); var rest := Damaged(v, damaged, steps);
      && Sound(u, rest) && KeysOk(u.tables, u.keys)
      && (rest == {} ==> Inv(u))
      && forall p :: p in u.files && p !in rest ==>
           (Read(u, p) == Ok(u.written[p]) <==> Live(u, p)) && (Read(u, p).Ok? <==> Live(u, p))
  {
    hide Run, Damaged;
    RunSurvives(v, damaged, steps);
    var w := Run(v, steps);
    var rest := Damaged(v, damaged, steps);
    var u := Apply(w, Restart(true));
    KeyStepSurvives(w, rest, Restart(true));
    RestartStep(w, true);
    forall p | p in u.files && p !in rest
      ensures (Read(u, p) == Ok(u.written[p]) <==> Live(u, p)) && (Read(u, p).Ok? <==> Live(u, p))
    {
      assert FileOk(u, p);
      ReadExact(u, p);
    }
  }

  // ---------------------------------------------------------------- after a failed finish

  /** The manager rotates without an old key, or holds no key at all, and the store still rotates. */
  predicate Blocked(v: Vault) {
    v.tables.InProgress() && ((v.keys.rotating && v.keys.oldKey.None?) || v.keys.key.None?)
  }

  /**
   A finish whose mark fails leaves nothing readable, current files included: every read fails, whatever is
   done and whatever state the files are in, until a restart that loads or a finish that is stored.
   */
  lemma {:induction false} NoReadsAfterFailedFinish(v: Vault, steps: seq<Step>, path: Path)
    requires v.keys.rotating && v.tables.InProgress()
    requires forall i :: 0 <= i < |steps| ==> steps[i] != Restart(true) && steps[i] != FinishRotation(true)
    ensures var u := Run(Apply(v, FinishRotation(false)), steps);
      Blocked(u) && Read(u, path).Err?
    decreases |steps|
  {
    if steps != [] {
      NoReadsAfterFailedFinish(v, steps[..|steps| - 1], path);
      BlockedStep(Run(Apply(v, FinishRotation(false)), steps[..|steps| - 1]), steps[|steps| - 1]);
    }
  }

  lemma BlockedStep(v: Vault, s: Step)
    requires Blocked(v) && s != Restart(true) && s != FinishRotation(true)
    ensures Blocked(Apply(v, s))
  {
  }

  /** A file written between a failed preparation and the restart reads back before the restart and not after it. */
  lemma WriteAfterFailedStoreIsLost(v: Vault, path: Path, plain: Bytes)
    requires TablesOk(v.tables, v.drawn) && KeysOk(v.tables, v.keys) && !v.tables.InProgress() && plain != []
    ensures var failed := Apply(v, PrepareRotation(false));
      var wrote := Apply(failed, WriteFile(path, plain, true));
      && Read(wrote, path) == Ok(plain)
      && Read(Apply(wrote, Restart(true)), path) == Err(AuthenticationFailed)
  {
    LoadIsOk(v.tables, v.drawn + 2);
  }

  /** A blob without its row is unreadable at once: neither the old nor the new contents come back. */
  lemma UnstoredRowLosesFile(v: Vault, damaged: set<Path>, path: Path, s: Step)
    requires Sound(v, damaged) && KeysOk(v.tables, v.keys) && path !in damaged
    requires path in v.files && Live(v, path) && Harmful(v, s)
    requires s == RotateFile(path, false) || (s.WriteFile? && s.path == path && !s.stored)
             || (s.SaveFile? && s.path == path && !s.stored)
    ensures Read(Apply(v, s), path) == Err(AuthenticationFailed)
  {
    assert FileOk(v, path) && VectorOk(v, path);
    RotateRowMeaning(v, path, v.drawn);
    KeyOfVersion(v.tables, v.drawn, v.files[path].version);
    InProgressIsLast(v.tables, v.drawn);
  }

  /**
   The file system stores no key version. Once no rotation is open, contents it saves are readable exactly if the
   row, which keeps the version it had or gets version 1, names the current version. So after a vault's first
   rotation no new file is.
   */
  lemma SavedIsReadableIff(v: Vault, path: Path, plain: Bytes)
    requires TablesOk(v.tables, v.drawn) && KeysOk(v.tables, v.keys) && plain != []
    ensures Read(Apply(v, SaveFile(path, plain, true)), path) == Ok(plain) <==>
      RowVersion(v, path) == v.keys.version || (v.keys.rotating && RowVersion(v, path) + 1 != v.keys.version)
    ensures Read(Apply(Apply(v, SaveFile(path, plain, true)), FinishRotation(true)), path) == Ok(plain) <==>
      RowVersion(v, path) == v.keys.version
  {
    InProgressIsLast(v.tables, v.drawn);
    FinishKeepsKeys(v.tables, v.drawn);
  }

  // ---------------------------------------------------------------- files left behind

  /** A file whose version is neither current nor, while rotating, the one before. */
  ghost predicate Stranded(v: Vault, path: Path) {
    && v.tables.current.Some? && path in v.files && path in v.written && FileOk(v, path)
    && v.files[path].version != v.tables.current.value.version
    && (v.tables.InProgress() ==> v.files[path].version + 1 != v.tables.current.value.version)
  }

  lemma StrandedUnreadable(v: Vault, damaged: set<Path>, path: Path)
    requires Sound(v, damaged) && Stranded(v, path)
    ensures Read(v, path).Err?
    ensures v.keys.key.Some? ==> RotateRow(v.keys, v.files[path], v.drawn).Err?
  {
    KeyOfVersion(v.tables, v.drawn, v.files[path].version);
    InProgressIsLast(v.tables, v.drawn);
  }

  lemma StrandedKeyStep(v: Vault, s: Step, path: Path)
    requires TablesOk(v.tables, v.drawn) && KeysSane(v.tables, v.keys, v.drawn)
    requires Stranded(v, path) && IsKeyStep(s)
    ensures Stranded(Apply(v, s), path) && Apply(v, s).files[path] == v.files[path]
  {
    var u := Apply(v, s);
    assert FileOk(u, path) && u.files == v.files by {
      hide TablesOk, KeysSane, Apply;
      KeyStep(v, s);
    }
    KeyOfVersion(v.tables, v.drawn, v.files[path].version);
    FinishKeepsKeys(v.tables, v.drawn);
  }

  lemma StrandedStep(v: Vault, damaged: set<Path>, s: Step, path: Path)
    requires Sound(v, damaged) && Stranded(v, path)
    requires !((s.WriteFile? || s.SaveFile?) && s.path == path)
    ensures Stranded(Apply(v, s), path) && Apply(v, s).files[path] == v.files[path]
  {
    hide TablesOk, KeysSane, FilesOk, RotateRow;
    if IsKeyStep(s) {
      StrandedKeyStep(v, s, path);
    } else {
      StrandedUnreadable(v, damaged, path);
    }
  }

  /**
   A file that a finished rotation left behind is lost for good: until someone writes it again, no run reads
   or changes it, whatever steps the run takes and whichever of them fail.
   */
  lemma {:induction false} StrandedForGood(v: Vault, damaged: set<Path>, steps: seq<Step>, path: Path)
    requires Sound(v, damaged) && Stranded(v, path)
    requires forall i :: 0 <= i < |steps| ==> !((steps[i].WriteFile? || steps[i].SaveFile?) && steps[i].path == path)
    ensures var u := Run(v, steps);
      Stranded(u, path) && u.files[path] == v.files[path] && Read(u, path).Err?
    decreases |steps|
  {
    hide Sound, Apply, Stranded;
    RunSurvives(v, damaged, steps);
    if steps != [] {
      var front := steps[..|steps| - 1];
      StrandedForGood(v, damaged, front, path);
      RunSurvives(v, damaged, front);
      StrandedStep(Run(v, front), Damaged(v, damaged, front), steps[|steps| - 1], path);
    }
    StrandedUnreadable(Run(v, steps), Damaged(v, damaged, steps), path);
  }

  /** With the right keys the stranded ones among the files in order are those that are not live. */
  lemma NotLiveIsStranded(v: Vault, path: Path)
    requires TablesOk(v.tables, v.drawn) && KeysOk(v.tables, v.keys)
    requires path in v.files && path in v.written && FileOk(v, path)
    ensures !Live(v, path) <==> Stranded(v, path)
    ensures !Live(v, path) ==> Read(v, path).Err?
  {
    ReadExact(v, path);
  }
}
