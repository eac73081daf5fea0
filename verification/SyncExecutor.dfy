/**
 A cloud sync run step by step: collecting the keys, building the plan, the space check, and running the plan
 phase by phase with a barrier after each. Proved to do to the two maps what `SyncMeaning` says a run does.
 */
module SyncExecutor {
  import opened Wrappers
  import opened SyncPlan
  import opened SyncMeaning

  // ---------------------------------------------------------------- the sorted key list

  /** The order of keys, character by character. */
  predicate Less(a: Key, b: Key) {
    b != [] && (a == [] || a[0] < b[0] || (a[0] == b[0] && Less(a[1..], b[1..])))
  }

  lemma {:induction false} LessIsTotal(a: Key, b: Key)
    ensures Less(a, b) || a == b || Less(b, a)
  {
    if a != [] && b != [] && a[0] == b[0] {
      LessIsTotal(a[1..], b[1..]);
      assert a == [a[0]] + a[1..] && b == [b[0]] + b[1..];
    }
  }

  lemma {:induction false} LessIsStrict(a: Key, b: Key)
    ensures !(Less(a, b) && Less(b, a))
    ensures !Less(a, a)
  {
    if a != [] {
      if b != [] {
        LessIsStrict(a[1..], b[1..]);
      } else {
        LessIsStrict(a[1..], []);
      }
    }
  }

  lemma {:induction false} LessIsTransitive(a: Key, b: Key, c: Key)
    requires Less(a, b) && Less(b, c)
    ensures Less(a, c)
  {
    if a != [] && a[0] == b[0] && b[0] == c[0] {
      LessIsTransitive(a[1..], b[1..], c[1..]);
    }
  }

  ghost predicate Ascending(keys: seq<Key>) {
    forall i, j :: 0 <= i < j < |keys| ==> !Less(keys[j], keys[i])
  }

  ghost predicate StrictlyAscending(keys: seq<Key>) {
    forall i, j :: 0 <= i < j < |keys| ==> Less(keys[i], keys[j])
  }

  lemma StrictlyAscendingIsDistinct(keys: seq<Key>)
    requires StrictlyAscending(keys)
    ensures Distinct(keys)
  {
    forall i, j | 0 <= i < j < |keys|
      ensures keys[i] != keys[j]
    {
      LessIsStrict(keys[i], keys[j]);
    }
  }

  lemma LastIsGreatest(keys: seq<Key>, k: Key)
    requires StrictlyAscending(keys) && k in keys
    ensures k == keys[|keys| - 1] || Less(k, keys[|keys| - 1])
  {
    var i :| 0 <= i < |keys| && keys[i] == k;
    assert i < |keys| - 1 ==> Less(keys[i], keys[|keys| - 1]);
  }

  /** There is only one strictly ascending list of a given set of keys. */
  lemma {:induction false} AscendingListIsUnique(a: seq<Key>, b: seq<Key>)
    requires StrictlyAscending(a) && StrictlyAscending(b)
    requires forall k :: k in a <==> k in b
    ensures a == b
    decreases |a|
  {
    hide Less;
    if b != [] {
      assert b[0] in a;
    }
    if a != [] {
      assert a[0] in b;
      var x, y := a[|a| - 1], b[|b| - 1];
      LastIsGreatest(b, x);
      LastIsGreatest(a, y);
      LessIsStrict(x, y);
      StrictlyAscendingIsDistinct(a);
      StrictlyAscendingIsDistinct(b);
      var fa, fb := a[..|a| - 1], b[..|b| - 1];
      forall k: Key
        ensures k in fa <==> k in fb
      {
        DistinctFront(a, k);
        DistinctFront(b, k);
      }
      AscendingListIsUnique(fa, fb);
      assert a == fa + [x] && b == fb + [y];
    }
  }

  /** Inserts a key into an ascending list. */
  method InsertKey(sorted: seq<Key>, k: Key) returns (r: seq<Key>)
    requires Ascending(sorted)
    ensures Ascending(r)
    ensures multiset(r) == multiset(sorted) + multiset{k}
  {
    var i := |sorted|;
    while i > 0 && Less(k, sorted[i - 1])
      invariant 0 <= i <= |sorted|
      invariant forall j :: i <= j < |sorted| ==> Less(k, sorted[j])
    {
      i := i - 1;
    }
    r := sorted[..i] + [k] + sorted[i..];
    assert sorted == sorted[..i] + sorted[i..];
    forall a, b | 0 <= a < b < |r|
      ensures !Less(r[b], r[a])
    {
      KeepsOrder(sorted, k, i, a, b);
    }
  }

  lemma KeepsOrder(sorted: seq<Key>, k: Key, i: nat, a: nat, b: nat)
    requires Ascending(sorted) && i <= |sorted| && a < b <= |sorted|
    requires forall j :: i <= j < |sorted| ==> Less(k, sorted[j])
    requires i > 0 ==> !Less(k, sorted[i - 1])
    ensures var r := sorted[..i] + [k] + sorted[i..]; !Less(r[b], r[a])
  {
    if b == i {
      if Less(k, sorted[a]) {
        assert a < i - 1;
        LessIsTotal(sorted[a], sorted[i - 1]);
        LessIsTransitive(k, sorted[a], sorted[i - 1]);
      }
    } else if a == i {
      LessIsStrict(k, sorted[b - 1]);
    }
  }

  method SortKeys(keys: seq<Key>) returns (r: seq<Key>)
    ensures Ascending(r)
    ensures multiset(r) == multiset(keys)
  {
    r := [];
    for i := 0 to |keys|
      invariant Ascending(r)
      invariant multiset(r) == multiset(keys[..i])
    {
      r := InsertKey(r, keys[i]);
      assert keys[..i + 1] == keys[..i] + [keys[i]];
    }
    assert keys[..|keys|] == keys;
  }

  /** Drops each element equal to the one before it. */
  method Unique(keys: seq<Key>) returns (r: seq<Key>)
    requires Ascending(keys)
    ensures StrictlyAscending(r)
    ensures forall k :: k in r <==> k in keys
  {
    r := [];
    for i := 0 to |keys|
      invariant StrictlyAscending(r)
      invariant forall k :: k in r <==> k in keys[..i]
      invariant |r| <= i
      invariant i > 0 ==> r != [] && r[|r| - 1] == keys[i - 1]
    {
      if i == 0 || keys[i] != keys[i - 1] {
        if i > 0 {
          LessIsTotal(keys[i - 1], keys[i]);
          forall j | 0 <= j < |r|
            ensures Less(r[j], keys[i])
          {
            if j < |r| - 1 {
              LessIsTransitive(r[j], r[|r| - 1], keys[i]);
            }
          }
        }
        r := r + [keys[i]];
      }
      assert keys[..i + 1] == keys[..i] + [keys[i]];
    }
    assert keys[..|keys|] == keys;
  }

  /** The keys of a hash map, in the order it happens to be walked. */
  method WalkOf(m: map<Key, File>) returns (order: seq<Key>)
    ensures Enumerates(order, m.Keys)
  {
    order := [];
    var left := m.Keys;
    while left != {}
      invariant left <= m.Keys
      invariant Enumerates(order, m.Keys - left)
      decreases |left|
    {
      var k :| k in left;
      order := order + [k];
      left := left - {k};
    }
  }

  // ---------------------------------------------------------------- planning

  datatype SyncError = InsufficientDiskSpace(required: nat, available: nat)

  const WIDTH64: nat := 0x1_0000_0000_0000_0000

  /** The bytes a plan downloads. */
  function DownloadBytes(plan: seq<Action>): nat {
    if plan == [] then 0
    else
      var a := plan[|plan| - 1];
      DownloadBytes(plan[..|plan| - 1])
      + if a.kind == Download && DownloadSource(a).Some? then DownloadSource(a).value.size else 0
  }

  /** The conflicts a walk of the keys records, each with the resolution the policy gave it. */
  function ConflictsOf(p: Policy, local: map<Key, File>, remote: map<Key, File>, keys: seq<Key>): seq<Conflict> {
    if keys == [] then []
    else
      var k := keys[|keys| - 1];
      ConflictsOf(p, local, remote, keys[..|keys| - 1])
      + if k in local && k in remote && !SameFile(local[k], remote[k]) && BuildsConflict(local[k], remote[k])
        then [Conflict(local[k], remote[k], p.Resolve(local[k], remote[k]).GetOr(Unresolved))] else []
  }

  /** Actions in the order of their phases. */
  ghost predicate Phased(trace: seq<Action>) {
    forall i, j :: 0 <= i < j < |trace| ==> Rank(trace[i].kind) <= Rank(trace[j].kind)
  }

  lemma AddWraps(sum: nat, more: nat)
    ensures (sum % WIDTH64 + more) % WIDTH64 == (sum + more) % WIDTH64
  {
    var q := sum / WIDTH64;
    assert sum == q * WIDTH64 + sum % WIDTH64;
    ModuloShift(sum % WIDTH64 + more, q);
  }

  lemma ModuloShift(x: nat, q: nat)
    ensures (q * WIDTH64 + x) % WIDTH64 == x % WIDTH64
  {
    var y := x / WIDTH64;
    assert q * WIDTH64 + x == (q + y) * WIDTH64 + x % WIDTH64;
  }

  /** Only the transfers download, so the space check looks at them alone. */
  lemma PlanDownloads(p: Policy, s: Sides, keys: seq<Key>, remoteOrder: seq<Key>, localOrder: seq<Key>)
    requires Walks(s, keys, remoteOrder, localOrder)
    ensures DownloadBytes(PlanOf(p, s.local, s.remote, keys, remoteOrder, localOrder))
         == DownloadBytes(Transfers(p, s.local, s.remote, keys))
  {
    var dirs := if p.WantsEnsureDirectories() then [Action(EnsureDirectories, "", None, None)] else [];
    var transfers := Transfers(p, s.local, s.remote, keys);
    var rd := if p.DeleteRemoteLeftovers() then RemoteDeletes(s.local, s.remote, remoteOrder) else [];
    var ld := if p.DeleteLocalLeftovers() then LocalDeletes(s.local, s.remote, localOrder) else [];
    DeletesAreActions(s, remoteOrder, localOrder);
    hide Transfers, RemoteDeletes, LocalDeletes, Walks, DownloadBytes;
    NoDownloads(dirs);
    NoDownloads(rd);
    NoDownloads(ld);
    DownloadsConcat(dirs, transfers);
    DownloadsConcat(dirs + transfers, rd);
    DownloadsConcat(dirs + transfers + rd, ld);
  }

  lemma {:induction false} DownloadsConcat(a: seq<Action>, b: seq<Action>)
    ensures DownloadBytes(a + b) == DownloadBytes(a) + DownloadBytes(b)
    decreases |b|
  {
    if b == [] {
      assert a + b == a;
    } else {
      assert (a + b)[..|a + b| - 1] == a + b[..|b| - 1];
      DownloadsConcat(a, b[..|b| - 1]);
    }
  }

  lemma {:induction false} NoDownloads(plan: seq<Action>)
    requires forall i :: 0 <= i < |plan| ==> plan[i].kind != Download
    ensures DownloadBytes(plan) == 0
  {
    if plan != [] {
      NoDownloads(plan[..|plan| - 1]);
    }
  }

  lemma NoConflicts(p: Policy, local: map<Key, File>, remote: map<Key, File>)
    ensures ConflictsOf(p, local, remote, []) == []
  {
  }

  lemma OneConflict(p: Policy, local: map<Key, File>, remote: map<Key, File>, keys: seq<Key>, i: nat)
    requires i < |keys|
    ensures ConflictsOf(p, local, remote, keys[..i + 1])
         == ConflictsOf(p, local, remote, keys[..i]) + ConflictsOf(p, local, remote, [keys[i]])
  {
    assert keys[..i + 1][..i] == keys[..i];
    assert [keys[i]][..0] == [];
  }

  lemma {:induction false} DirectoriesTouchNothing(order: seq<Action>, s: Sides)
    requires forall i :: 0 <= i < |order| ==> order[i].kind == EnsureDirectories
    ensures AllDispatchable(order) && Execute(order, s) == s
  {
    if order != [] {
      DirectoriesTouchNothing(order[..|order| - 1], s);
    }
  }

  lemma NothingExecuted(s: Sides)
    ensures Execute([], s) == s
  {
  }

  lemma PhaseRanks(plan: seq<Action>, order: seq<Action>, i: nat)
    requires i < |PHASES|
    requires multiset(order) == multiset(OfKind(plan, PHASES[i]))
    ensures forall j :: 0 <= j < |order| ==> Rank(order[j].kind) == i
  {
    OfKindKinds(plan, PHASES[i]);
    forall j | 0 <= j < |order|
      ensures Rank(order[j].kind) == i
    {
      assert order[j] in multiset(OfKind(plan, PHASES[i]));
    }
  }

  ghost predicate PhasedBelow(trace: seq<Action>, n: nat) {
    Phased(trace) && forall j :: 0 <= j < |trace| ==> Rank(trace[j].kind) < n
  }

  lemma InPhases(trace: seq<Action>, n: nat)
    requires PhasedBelow(trace, n)
    ensures Phased(trace)
  {
  }

  lemma NoPhaseYet(plan: seq<Action>)
    ensures Grouped(plan, PHASES[..0]) == [] && PhasedBelow([], 0)
  {
  }

  lemma NextPhase(plan: seq<Action>, trace: seq<Action>, order: seq<Action>, i: nat)
    requires i < |PHASES|
    requires multiset(trace) == multiset(Grouped(plan, PHASES[..i])) && PhasedBelow(trace, i)
    requires multiset(order) == multiset(OfKind(plan, PHASES[i]))
    ensures Grouped(plan, PHASES[..i + 1]) == Grouped(plan, PHASES[..i]) + OfKind(plan, PHASES[i])
    ensures multiset(trace + order) == multiset(Grouped(plan, PHASES[..i + 1])) && PhasedBelow(trace + order, i + 1)
  {
    hide OfKind, Rank;
    assert PHASES[..i + 1][..i] == PHASES[..i];
    PhaseRanks(plan, order, i);
  }

  /**
   A run that finds the very records an earlier one left cannot fail for want of space, and dispatches nothing but
   making directories. `Cloud.Sync` says that this is what it then does.
   */
  lemma SecondSyncIsIdle(p: Policy, before: Sides, s: Sides,
                         keys: seq<Key>, remoteOrder: seq<Key>, localOrder: seq<Key>)
    requires forall k: Key :: View(s, k) == Synced(p, View(before, k))
    requires Walks(s, keys, remoteOrder, localOrder)
    ensures DownloadBytes(Transfers(p, s.local, s.remote, keys)) == 0
    ensures forall a :: a in Regroup(PlanOf(p, s.local, s.remote, keys, remoteOrder, localOrder)) ==>
      a.kind == EnsureDirectories
  {
    SecondRunIsIdle(p, before, s, keys, remoteOrder, localOrder);
    var plan := PlanOf(p, s.local, s.remote, keys, remoteOrder, localOrder);
    RegroupIsPermutation(plan);
    forall a | a in Regroup(plan)
      ensures a.kind == EnsureDirectories
    {
      assert a in multiset(plan);
    }
  }

  class Cloud {
    var localMap: map<Key, File>
    var s3Map: map<Key, File>
    var conflicts: seq<Conflict>
    var futures: seq<Action>
    var dispatched: seq<Action>
    var freeSpace: nat

    constructor (local: map<Key, File>, remote: map<Key, File>, free: nat)
      ensures localMap == local && s3Map == remote && freeSpace == free
      ensures conflicts == [] && futures == [] && dispatched == []
    {
      localMap, s3Map, freeSpace := local, remote, free;
      conflicts, futures, dispatched := [], [], [];
    }

    function Both(): Sides
      reads this
    {
      Sides(localMap, s3Map)
    }

    /** Every key of either side once, in ascending order: which determines the list. */
    method AllKeysSorted() returns (keys: seq<Key>)
      ensures Enumerates(keys, localMap.Keys + s3Map.Keys)
      ensures StrictlyAscending(keys)
    {
      var locals := WalkOf(localMap);
      var remotes := WalkOf(s3Map);
      var sorted := SortKeys(locals + remotes);
      keys := Unique(sorted);
      StrictlyAscendingIsDistinct(keys);
      forall k: Key
        ensures k in keys <==> k in localMap.Keys + s3Map.Keys
      {
        assert k in sorted <==> k in multiset(sorted);
        assert k in locals + remotes <==> k in multiset(locals + remotes);
      }
    }

    /** Records the conflict with its resolution; true if nobody resolved it. */
    method HandleConflict(p: Policy, l: File, r: File) returns (unresolved: bool, resolution: Resolution)
      modifies `conflicts
      ensures unresolved <==> p.Resolve(l, r).None?
      ensures resolution == p.Resolve(l, r).GetOr(Unresolved)
      ensures conflicts == old(conflicts) + [Conflict(l, r, resolution)]
    {
      resolution := Unresolved;
      var ok := p.conflicts != Ask;
      if p.conflicts == KeepLocal {
        resolution := KeptLocal;
      } else if p.conflicts == KeepRemote {
        resolution := KeptRemote;
      } else if p.conflicts == KeepNewest {
        if l.updatedAt == 0 || r.updatedAt == 0 {
          ok := false;
        } else if l.updatedAt > r.updatedAt {
          resolution := KeptLocal;
        } else {
          resolution := KeptRemote;
        }
      }
      conflicts := conflicts + [Conflict(l, r, resolution)];
      unresolved := !ok;
    }

    /** One key of the planning loop. */
    method PlanKey(p: Policy, k: Key) returns (actions: seq<Action>)
      modifies `conflicts
      ensures actions == TransferFor(p, k, Lookup(localMap, k), Lookup(s3Map, k))
      ensures conflicts == old(conflicts) + ConflictsOf(p, localMap, s3Map, [k])
    {
      assert [k][..0] == [];
      var l, r := Lookup(localMap, k), Lookup(s3Map, k);
      actions := [];
      if l.Some? && r.None? {
        if p.UploadLocalOnly() {
          actions := [Action(Upload, k, l, None)];
        }
        return;
      }
      if l.None? && r.Some? {
        if p.DownloadRemoteOnly() {
          actions := [Action(Download, k, None, r)];
        }
        return;
      }
      if l.Some? && r.Some? {
        if SameFile(l.value, r.value) {
          return;
        }
        if BuildsConflict(l.value, r.value) {
          var unresolved, resolution := HandleConflict(p, l.value, r.value);
          if unresolved {
            return;
          }
          match resolution {
            case KeptLocal => actions := [Action(Upload, k, l, r)];
            case KeptRemote => actions := [Action(Download, k, l, r)];
            case Unresolved =>
          }
          return;
        }
        var decided := p.DecideForBoth(l.value, r.value);
        if decided.Some? {
          actions := [Action(decided.value, k, l, r)];
        }
      }
    }

    /** Whether the planned downloads fit; the sum is kept in 64 bits. */
    method PreflightSpace(plan: seq<Action>) returns (r: Result<(), SyncError>)
      ensures r.Ok? <==> DownloadBytes(plan) % WIDTH64 <= freeSpace
      ensures r.Err? ==> r.error == InsufficientDiskSpace(DownloadBytes(plan) % WIDTH64, freeSpace)
    {
      var required := 0;
      for i := 0 to |plan|
        invariant required == DownloadBytes(plan[..i]) % WIDTH64
      {
        assert plan[..i + 1][..i] == plan[..i];
        if plan[i].kind == Download && DownloadSource(plan[i]).Some? {
          AddWraps(DownloadBytes(plan[..i]), DownloadSource(plan[i]).value.size);
          required := (required + DownloadSource(plan[i]).value.size) % WIDTH64;
        }
      }
      assert plan[..|plan|] == plan;
      if freeSpace >= required {
        r := Ok(());
      } else {
        r := Err(InsufficientDiskSpace(required, freeSpace));
      }
    }

    /** Builds the plan, recording the conflicts met on the way. */
    method Build(p: Policy)
      returns (r: Result<seq<Action>, SyncError>,
               ghost keys: seq<Key>, ghost remoteOrder: seq<Key>, ghost localOrder: seq<Key>)
      modifies `conflicts
      ensures Walks(Both(), keys, remoteOrder, localOrder) && StrictlyAscending(keys)
      ensures conflicts == old(conflicts) + ConflictsOf(p, localMap, s3Map, keys)
      ensures var plan := PlanOf(p, localMap, s3Map, keys, remoteOrder, localOrder);
        && (r.Ok? ==> r.value == plan)
        && (r.Ok? <==> DownloadBytes(plan) % WIDTH64 <= freeSpace)
    {
      hide Transfers, RemoteDeletes, LocalDeletes, Less, ConflictsOf, DownloadBytes;
      var plan: seq<Action> := [];
      if p.WantsEnsureDirectories() {
        plan := [Action(EnsureDirectories, "", None, None)];
      }
      var ks := AllKeysSorted();
      keys := ks;
      plan := PlanTransfers(p, plan, ks);
      plan, remoteOrder := PlanRemoteDeletes(p, plan);
      plan, localOrder := PlanLocalDeletes(p, plan);
      var space := PreflightSpace(plan);
      r := if space.Ok? then Ok(plan) else Err(space.error);
    }

    method PlanTransfers(p: Policy, before: seq<Action>, ks: seq<Key>) returns (plan: seq<Action>)
      modifies `conflicts
      ensures plan == before + Transfers(p, localMap, s3Map, ks)
      ensures conflicts == old(conflicts) + ConflictsOf(p, localMap, s3Map, ks)
    {
      hide TransferFor, BuildsConflict, SameFile, ConflictsOf;
      plan := before;
      NoConflicts(p, localMap, s3Map);
      for i := 0 to |ks|
        invariant plan == before + Transfers(p, localMap, s3Map, ks[..i])
        invariant conflicts == old(conflicts) + ConflictsOf(p, localMap, s3Map, ks[..i])
      {
        assert ks[..i + 1][..i] == ks[..i];
        OneConflict(p, localMap, s3Map, ks, i);
        var actions := PlanKey(p, ks[i]);
        plan := plan + actions;
      }
      assert ks[..|ks|] == ks;
    }

    method PlanRemoteDeletes(p: Policy, before: seq<Action>) returns (plan: seq<Action>, ghost order: seq<Key>)
      ensures Enumerates(order, s3Map.Keys)
      ensures plan == before + if p.DeleteRemoteLeftovers() then RemoteDeletes(localMap, s3Map, order) else []
    {
      plan := before;
      var walk := WalkOf(s3Map);
      order := walk;
      if p.DeleteRemoteLeftovers() {
        for i := 0 to |walk|
          invariant plan == before + RemoteDeletes(localMap, s3Map, walk[..i])
        {
          assert walk[..i + 1][..i] == walk[..i];
          if walk[i] !in localMap {
            plan := plan + [Action(DeleteRemote, walk[i], None, Some(s3Map[walk[i]]))];
          }
        }
        assert walk[..|walk|] == walk;
      }
    }

    method PlanLocalDeletes(p: Policy, before: seq<Action>) returns (plan: seq<Action>, ghost order: seq<Key>)
      ensures Enumerates(order, localMap.Keys)
      ensures plan == before + if p.DeleteLocalLeftovers() then LocalDeletes(localMap, s3Map, order) else []
    {
      plan := before;
      var walk := WalkOf(localMap);
      order := walk;
      if p.DeleteLocalLeftovers() {
        for i := 0 to |walk|
          invariant plan == before + LocalDeletes(localMap, s3Map, walk[..i])
        {
          assert walk[..i + 1][..i] == walk[..i];
          if walk[i] !in s3Map {
            plan := plan + [Action(DeleteLocal, walk[i], Some(localMap[walk[i]]), None)];
          }
        }
        assert walk[..|walk|] == walk;
      }
    }

    // -------------------------------------------------------------- executing

    /** Directories are made on the spot; every other action becomes a task. */
    method Dispatch(a: Action)
      requires Dispatchable(a)
      modifies `futures, `dispatched
      ensures dispatched == old(dispatched) + [a]
      ensures futures == if a.kind == EnsureDirectories then old(futures) else old(futures) + [a]
    {
      dispatched := dispatched + [a];
      if a.kind != EnsureDirectories {
        futures := futures + [a];
      }
    }

    /** What a finished task has done to the two maps. */
    method FinishTask(a: Action)
      requires Dispatchable(a)
      modifies `localMap, `s3Map
      ensures Both() == Effect(a, old(Both()))
    {
      match a.kind {
        case EnsureDirectories =>
        case Upload => s3Map := s3Map[a.key := a.local.value];
        case Download => localMap := localMap[a.key := DownloadSource(a).value];
        case DeleteLocal => localMap := localMap - {a.key};
        case DeleteRemote => s3Map := s3Map - {a.key};
      }
    }

    /** The barrier: every task is finished, in whatever order the worker threads got to them. */
    method ProcessFutures() returns (ghost order: seq<Action>)
      requires AllDispatchable(futures)
      modifies `futures, `localMap, `s3Map
      ensures futures == []
      ensures multiset(order) == multiset(old(futures))
      ensures AllDispatchable(order) && Both() == Execute(order, old(Both()))
    {
      hide Effect, Dispatchable;
      order := [];
      while futures != []
        invariant AllDispatchable(futures) && AllDispatchable(order)
        invariant multiset(order) + multiset(futures) == multiset(old(futures))
        invariant Both() == Execute(order, old(Both()))
        decreases |futures|
      {
        var i: nat :| i < |futures|;
        var a := futures[i];
        FinishTask(a);
        assert (order + [a])[..|order|] == order;
        order := order + [a];
        assert futures == futures[..i] + [a] + futures[i + 1..];
        futures := futures[..i] + futures[i + 1..];
      }
    }

    /** One phase: its actions are dispatched in plan order, then the barrier. */
    method RunPhase(plan: seq<Action>, kind: ActionType) returns (ghost order: seq<Action>)
      requires AllDispatchable(plan) && futures == []
      modifies `futures, `dispatched, `localMap, `s3Map
      ensures futures == []
      ensures dispatched == old(dispatched) + OfKind(plan, kind)
      ensures multiset(order) == multiset(OfKind(plan, kind))
      ensures AllDispatchable(order) && Both() == Execute(order, old(Both()))
    {
      hide Effect, Execute, Dispatchable;
      for i := 0 to |plan|
        invariant dispatched == old(dispatched) + OfKind(plan[..i], kind)
        invariant futures == if kind == EnsureDirectories then [] else OfKind(plan[..i], kind)
        invariant AllDispatchable(OfKind(plan[..i], kind))
        invariant Both() == old(Both())
      {
        assert plan[..i + 1][..i] == plan[..i];
        if plan[i].kind == kind {
          Dispatch(plan[i]);
        }
      }
      assert plan[..|plan|] == plan;
      order := ProcessFutures();
      NothingExecuted(old(Both()));
      if kind == EnsureDirectories {
        assert order == [] by {
          assert |order| == |multiset(order)|;
        }
        order := OfKind(plan, kind);
        OfKindKinds(plan, kind);
        DirectoriesTouchNothing(order, old(Both()));
      }
    }

    /**
     Runs a plan in its five phases. The dispatch order is the stable regrouping; the tasks finish in some order
     that respects the phases; and if the plan touches no key twice the outcome is that of the plan run as written.
     */
    method Run(plan: seq<Action>) returns (ghost trace: seq<Action>)
      requires AllDispatchable(plan) && futures == []
      modifies `futures, `dispatched, `localMap, `s3Map
      ensures futures == []
      ensures dispatched == old(dispatched) + Regroup(plan)
      ensures multiset(trace) == multiset(plan) && Phased(trace)
      ensures AllDispatchable(trace) && Both() == Execute(trace, old(Both()))
      ensures OnePerKey(plan) ==> Both() == Execute(plan, old(Both()))
    {
      hide Effect, Dispatchable, Execute, OfKind, Rank;
      hide Grouped, PhasedBelow, OnePerKey;
      trace := [];
      NothingExecuted(Both());
      NoPhaseYet(plan);
      for i := 0 to |PHASES|
        invariant futures == []
        invariant dispatched == old(dispatched) + Grouped(plan, PHASES[..i])
        invariant multiset(trace) == multiset(Grouped(plan, PHASES[..i])) && PhasedBelow(trace, i)
        invariant AllDispatchable(trace) && Both() == Execute(trace, old(Both()))
      {
        ghost var order := RunPhase(plan, PHASES[i]);
        ExecuteConcat(trace, order, old(Both()));
        NextPhase(plan, trace, order, i);
        trace := trace + order;
      }
      assert PHASES[..|PHASES|] == PHASES;
      RegroupIsPermutation(plan);
      InPhases(trace, |PHASES|);
      if OnePerKey(plan) {
        AnyOrderWillDo(plan, trace, old(Both()));
      }
    }

    /**
     A whole sync run. Either the downloads do not fit and nothing moves, or every key ends up as its two files
     and the policy call for; the two sides then agree on exactly the keys the policy settles.
     */
    method Sync(p: Policy)
      returns (r: Result<(), SyncError>, ghost keys: seq<Key>, ghost remoteOrder: seq<Key>, ghost localOrder: seq<Key>)
      requires futures == []
      modifies this
      ensures futures == [] && freeSpace == old(freeSpace)
      ensures r.Err? ==> Both() == old(Both()) && dispatched == old(dispatched)
      ensures r.Ok? ==> forall k: Key :: View(Both(), k) == Synced(p, View(old(Both()), k))
      ensures r.Ok? ==> forall k: Key :: Agree(View(Both(), k)) <==> Settles(p, View(old(Both()), k))
      ensures Walks(old(Both()), keys, remoteOrder, localOrder) && StrictlyAscending(keys)
      ensures var plan := PlanOf(p, old(localMap), old(s3Map), keys, remoteOrder, localOrder);
        r.Ok? ==> dispatched == old(dispatched) + Regroup(plan)
      ensures r.Ok? <==> DownloadBytes(Transfers(p, old(localMap), old(s3Map), keys)) % WIDTH64 <= freeSpace
      ensures conflicts == old(conflicts) + ConflictsOf(p, old(localMap), old(s3Map), keys)
    {
      hide Effect, Execute, OfKind, Rank, PlanOf, KeyPlan, Synced, Settles, Agree, Less, Transfers, ForKey;
      ghost var before := Both();
      var built;
      built, keys, remoteOrder, localOrder := Build(p);
      PlanDownloads(p, before, keys, remoteOrder, localOrder);
      if built.Err? {
        r := Err(built.error);
        return;
      }
      PlanPerKey(p, before, keys, remoteOrder, localOrder);
      SyncConverges(p, before, keys, remoteOrder, localOrder);
      ghost var trace := Run(built.value);
      r := Ok(());
    }
  }
}
