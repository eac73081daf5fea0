/** What a sync run plans for each key of a vault's local and remote file maps. */
module SyncPlan {
  import opened Wrappers

  type Key = string

  datatype File = File(
    path: string,
    size: nat,
    iv: string,
    mime: Option<string>,
    hash: Option<string>,
    keyVersion: nat,
    updatedAt: int)

  /** File equality as the source defines it; timestamps do not take part. */
  predicate SameFile(a: File, b: File) {
    a.(updatedAt := 0) == b.(updatedAt := 0)
  }

  datatype Strategy = Cache | Sync | Mirror
  datatype ConflictPolicy = KeepLocal | KeepRemote | KeepNewest | Ask
  datatype Resolution = Unresolved | KeptLocal | KeptRemote
  datatype ActionType = EnsureDirectories | Upload | Download | DeleteLocal | DeleteRemote

  datatype Action = Action(kind: ActionType, key: Key, local: Option<File>, remote: Option<File>)

  datatype Conflict = Conflict(local: File, upstream: File, resolution: Resolution)

  datatype Reason = HashMismatch | SizeMismatch

  datatype Policy = Policy(strategy: Strategy, conflicts: ConflictPolicy) {
    predicate WantsEnsureDirectories() {
      strategy != Mirror
    }

    predicate DownloadRemoteOnly() {
      strategy == Mirror ==> conflicts != KeepLocal
    }

    predicate UploadLocalOnly() {
      strategy == Mirror ==> conflicts == KeepLocal
    }

    predicate DeleteRemoteLeftovers() {
      strategy == Mirror && conflicts == KeepLocal
    }

    predicate DeleteLocalLeftovers() {
      strategy == Mirror && conflicts == KeepRemote
    }

    function DecideForBoth(l: File, r: File): Option<ActionType> {
      var unknown := l.updatedAt == 0 || r.updatedAt == 0;
      match strategy
      case Cache => if unknown then None else if r.updatedAt > l.updatedAt then Some(Download) else None
      case Sync => if unknown then Some(Download) else Newest(l, r)
      case Mirror =>
        match conflicts
        case KeepLocal => Some(Upload)
        case KeepRemote => Some(Download)
        case KeepNewest => if unknown then None else Newest(l, r)
        case Ask => None
    }

    /** The resolution of a conflict, or `None` where the user has to be asked. */
    function Resolve(l: File, r: File): Option<Resolution> {
      match conflicts
      case Ask => None
      case KeepLocal => Some(KeptLocal)
      case KeepRemote => Some(KeptRemote)
      case KeepNewest =>
        if l.updatedAt == 0 || r.updatedAt == 0 then None
        else if l.updatedAt > r.updatedAt then Some(KeptLocal)
        else Some(KeptRemote)
    }
  }

  function Newest(l: File, r: File): Option<ActionType> {
    if l.updatedAt > r.updatedAt then Some(Upload)
    else if r.updatedAt > l.updatedAt then Some(Download)
    else None
  }

  predicate HasPotentialConflict(l: File, r: File, decryptionFailed: bool) {
    || decryptionFailed
    || l.size != r.size
    || (l.hash.Some? && r.hash.Some? && l.hash != r.hash)
  }

  /** The reasons the analysis of a planner-time conflict records. */
  function Reasons(l: File, r: File): seq<Reason> {
    (if l.hash.Some? && r.hash.Some? && l.hash != r.hash then [HashMismatch] else [])
    + (if l.size != r.size then [SizeMismatch] else [])
  }

  /** A conflict is built when one is possible and the analysis finds a reason. */
  predicate BuildsConflict(l: File, r: File) {
    HasPotentialConflict(l, r, false) && Reasons(l, r) != []
  }

  /** The analysis never contradicts the test: a possible conflict always has a reason. */
  lemma ConflictAlwaysHasReason(l: File, r: File)
    ensures BuildsConflict(l, r) <==> HasPotentialConflict(l, r, false)
  {
  }

  /** The action planned for a key present on both sides. */
  function TwoSided(p: Policy, l: File, r: File): Option<ActionType> {
    if SameFile(l, r) then None
    else if BuildsConflict(l, r) then
      match p.Resolve(l, r)
      case Some(KeptLocal) => Some(Upload)
      case Some(KeptRemote) => Some(Download)
      case _ => None
    else p.DecideForBoth(l, r)
  }

  function Lookup(m: map<Key, File>, k: Key): Option<File> {
    if k in m then Some(m[k]) else None
  }

  /** The transfer planned for one key, if any. */
  function TransferFor(p: Policy, k: Key, l: Option<File>, r: Option<File>): seq<Action> {
    match (l, r)
    case (Some(_), None) => if p.UploadLocalOnly() then [Action(Upload, k, l, None)] else []
    case (None, Some(_)) => if p.DownloadRemoteOnly() then [Action(Download, k, None, r)] else []
    case (Some(lf), Some(rf)) =>
      (match TwoSided(p, lf, rf)
       case Some(kind) => [Action(kind, k, l, r)]
       case None => [])
    case (None, None) => []
  }

  function Transfers(p: Policy, local: map<Key, File>, remote: map<Key, File>, keys: seq<Key>): seq<Action> {
    if keys == [] then []
    else
      var k := keys[|keys| - 1];
      Transfers(p, local, remote, keys[..|keys| - 1]) + TransferFor(p, k, Lookup(local, k), Lookup(remote, k))
  }

  /** Deletions of the remote files with no local counterpart, in the order the map is walked. */
  function RemoteDeletes(local: map<Key, File>, remote: map<Key, File>, order: seq<Key>): seq<Action>
    requires forall k :: k in order ==> k in remote
  {
    if order == [] then []
    else
      var k := order[|order| - 1];
      RemoteDeletes(local, remote, order[..|order| - 1])
      + if k in local then [] else [Action(DeleteRemote, k, None, Some(remote[k]))]
  }

  function LocalDeletes(local: map<Key, File>, remote: map<Key, File>, order: seq<Key>): seq<Action>
    requires forall k :: k in order ==> k in local
  {
    if order == [] then []
    else
      var k := order[|order| - 1];
      LocalDeletes(local, remote, order[..|order| - 1])
      + if k in remote then [] else [Action(DeleteLocal, k, Some(local[k]), None)]
  }

  ghost predicate Distinct(keys: seq<Key>) {
    forall i, j :: 0 <= i < j < |keys| ==> keys[i] != keys[j]
  }

  /** Each element of the set once, in some order. */
  ghost predicate Enumerates(order: seq<Key>, s: set<Key>) {
    && (forall k :: k in order <==> k in s)
    && Distinct(order)
  }

  /** The plan, given the walks of the key list and of the two maps. */
  function PlanOf(p: Policy, local: map<Key, File>, remote: map<Key, File>,
                  keys: seq<Key>, remoteOrder: seq<Key>, localOrder: seq<Key>): seq<Action>
    requires forall k :: k in remoteOrder ==> k in remote
    requires forall k :: k in localOrder ==> k in local
  {
    (if p.WantsEnsureDirectories() then [Action(EnsureDirectories, "", None, None)] else [])
    + Transfers(p, local, remote, keys)
    + (if p.DeleteRemoteLeftovers() then RemoteDeletes(local, remote, remoteOrder) else [])
    + (if p.DeleteLocalLeftovers() then LocalDeletes(local, remote, localOrder) else [])
  }

  // ---------------------------------------------------------------- executing a plan

  datatype Sides = Sides(local: map<Key, File>, remote: map<Key, File>)

  /** The file a download fetches: the remote one, or the local one where there is none. */
  function DownloadSource(a: Action): Option<File> {
    if a.remote.Some? then a.remote else a.local
  }

  /** The file object a dispatch hands to its task; `None` is a null pointer. */
  function DispatchedFile(a: Action): Option<File>
    requires a.kind != EnsureDirectories
  {
    match a.kind
    case Upload => a.local
    case Download => DownloadSource(a)
    case DeleteLocal => a.local
    case DeleteRemote => a.remote
  }

  predicate Dispatchable(a: Action) {
    a.kind == EnsureDirectories || DispatchedFile(a).Some?
  }

  function Effect(a: Action, s: Sides): Sides
    requires Dispatchable(a)
  {
    match a.kind
    case EnsureDirectories => s
    case Upload => s.(remote := s.remote[a.key := a.local.value])
    case Download => s.(local := s.local[a.key := DownloadSource(a).value])
    case DeleteLocal => s.(local := s.local - {a.key})
    case DeleteRemote => s.(remote := s.remote - {a.key})
  }

  predicate AllDispatchable(plan: seq<Action>) {
    forall i :: 0 <= i < |plan| ==> Dispatchable(plan[i])
  }

  function Execute(plan: seq<Action>, s: Sides): Sides
    requires AllDispatchable(plan)
    decreases |plan|
  {
    if plan == [] then s else Effect(plan[|plan| - 1], Execute(plan[..|plan| - 1], s))
  }

  const PHASES: seq<ActionType> := [EnsureDirectories, Upload, Download, DeleteRemote, DeleteLocal]

  function OfKind(plan: seq<Action>, kind: ActionType): seq<Action> {
    if plan == [] then []
    else
      var last := plan[|plan| - 1];
      OfKind(plan[..|plan| - 1], kind) + if last.kind == kind then [last] else []
  }

  function Grouped(plan: seq<Action>, phases: seq<ActionType>): seq<Action> {
    if phases == [] then []
    else Grouped(plan, phases[..|phases| - 1]) + OfKind(plan, phases[|phases| - 1])
  }

  /** The order in which the executor dispatches a plan. */
  function Regroup(plan: seq<Action>): seq<Action> {
    Grouped(plan, PHASES)
  }
}
