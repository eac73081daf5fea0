/** Regrouping a plan keeps its meaning, and when the two sides of a vault agree after a sync run. */
module SyncMeaning {
  import opened Wrappers
  import opened SyncPlan

  // ---------------------------------------------------------------- one key at a time

  /** What both sides hold under one key. */
  datatype At = At(local: Option<File>, remote: Option<File>)

  function View(s: Sides, k: Key): At {
    At(Lookup(s.local, k), Lookup(s.remote, k))
  }

  function EffectAt(a: Action, v: At): At
    requires Dispatchable(a)
  {
    match a.kind
    case EnsureDirectories => v
    case Upload => v.(remote := a.local)
    case Download => v.(local := DownloadSource(a))
    case DeleteLocal => v.(local := None)
    case DeleteRemote => v.(remote := None)
  }

  function ExecuteAt(plan: seq<Action>, v: At): At
    requires AllDispatchable(plan)
    decreases |plan|
  {
    if plan == [] then v else EffectAt(plan[|plan| - 1], ExecuteAt(plan[..|plan| - 1], v))
  }

  /** The actions of a plan that concern one key, in order. */
  function ForKey(plan: seq<Action>, k: Key): seq<Action> {
    if plan == [] then []
    else
      var last := plan[|plan| - 1];
      ForKey(plan[..|plan| - 1], k) + if last.kind != EnsureDirectories && last.key == k then [last] else []
  }

  lemma {:induction false} ForKeyDispatchable(plan: seq<Action>, k: Key)
    requires AllDispatchable(plan)
    ensures AllDispatchable(ForKey(plan, k))
    decreases |plan|
  {
    if plan != [] {
      ForKeyDispatchable(plan[..|plan| - 1], k);
    }
  }

  /** A plan acts on each key independently: by that key's actions alone. */
  lemma {:induction false} ExecutePointwise(plan: seq<Action>, s: Sides, k: Key)
    requires AllDispatchable(plan)
    ensures AllDispatchable(ForKey(plan, k))
    ensures View(Execute(plan, s), k) == ExecuteAt(ForKey(plan, k), View(s, k))
    decreases |plan|
  {
    ForKeyDispatchable(plan, k);
    if plan != [] {
      var front, last := plan[..|plan| - 1], plan[|plan| - 1];
      ExecutePointwise(front, s, k);
      if last.kind != EnsureDirectories && last.key == k {
        assert ForKey(plan, k)[..|ForKey(plan, k)| - 1] == ForKey(front, k);
      } else {
        assert ForKey(plan, k) == ForKey(front, k);
      }
    }
  }

  lemma SidesByView(s: Sides, t: Sides)
    requires forall k: Key :: View(s, k) == View(t, k)
    ensures s == t
  {
    forall k: Key
      ensures k in s.local <==> k in t.local
      ensures k in s.local ==> s.local[k] == t.local[k]
      ensures k in s.remote <==> k in t.remote
      ensures k in s.remote ==> s.remote[k] == t.remote[k]
    {
      assert View(s, k) == View(t, k);
    }
  }

  // ---------------------------------------------------------------- regrouping

  lemma {:induction false} ForKeyConcat(a: seq<Action>, b: seq<Action>, k: Key)
    ensures ForKey(a + b, k) == ForKey(a, k) + ForKey(b, k)
    decreases |b|
  {
    if b == [] {
      assert a + b == a;
    } else {
      assert (a + b)[..|a + b| - 1] == a + b[..|b| - 1];
      ForKeyConcat(a, b[..|b| - 1], k);
    }
  }

  lemma ForKeyOne(a: Action, k: Key)
    ensures ForKey([a], k) == if a.kind != EnsureDirectories && a.key == k then [a] else []
  {
    assert [a][..0] == [];
  }

  lemma {:induction false} OfKindConcat(a: seq<Action>, b: seq<Action>, kind: ActionType)
    ensures OfKind(a + b, kind) == OfKind(a, kind) + OfKind(b, kind)
    decreases |b|
  {
    if b == [] {
      assert a + b == a;
    } else {
      assert (a + b)[..|a + b| - 1] == a + b[..|b| - 1];
      OfKindConcat(a, b[..|b| - 1], kind);
    }
  }

  lemma OfKindOne(a: Action, kind: ActionType)
    ensures OfKind([a], kind) == if a.kind == kind then [a] else []
  {
    assert [a][..0] == [];
  }

  function Rank(kind: ActionType): nat {
    match kind
    case EnsureDirectories => 0
    case Upload => 1
    case Download => 2
    case DeleteRemote => 3
    case DeleteLocal => 4
  }

  lemma EveryKindHasItsPhase(kind: ActionType)
    ensures kind in PHASES
  {
    assert PHASES[Rank(kind)] == kind;
  }

  /** A plan that does at most one thing to each key. */
  ghost predicate OnePerKey(plan: seq<Action>) {
    forall k: Key :: |ForKey(plan, k)| <= 1
  }

  /** Without that condition it need not: a file deleted and then fetched again would end up deleted. */
  lemma RegroupCanChangeMeaning(l: File, r: File)
    ensures var plan := [Action(DeleteLocal, "k", Some(l), None), Action(Download, "k", None, Some(r))];
      && AllDispatchable(plan) && AllDispatchable(Regroup(plan))
      && View(Execute(plan, Sides(map["k" := l], map["k" := r])), "k") == At(Some(r), Some(r))
      && View(Execute(Regroup(plan), Sides(map["k" := l], map["k" := r])), "k") == At(None, Some(r))
  {
    var d, g := Action(DeleteLocal, "k", Some(l), None), Action(Download, "k", None, Some(r));
    var s := Sides(map["k" := l], map["k" := r]);
    GroupedTwo(d, g);
    ExecuteTwo(d, g, s);
    ExecuteTwo(g, d, s);
  }

  lemma ExecuteTwo(a: Action, b: Action, s: Sides)
    requires Dispatchable(a) && Dispatchable(b)
    ensures AllDispatchable([a, b])
    ensures Execute([a, b], s) == Effect(b, Effect(a, s))
  {
    var both := [a, b];
    assert both[..|both| - 1] == [a];
    assert Execute([a], s) == Effect(a, s) by {
      assert [a][..0] == [];
    }
    assert AllDispatchable([a]);
    assert Execute(both, s) == Effect(both[|both| - 1], Execute(both[..|both| - 1], s));
  }

  lemma GroupedTwo(d: Action, g: Action)
    requires d.kind == DeleteLocal && g.kind == Download
    ensures Regroup([d, g]) == [g, d]
  {
    hide OfKind, Grouped;
    var plan := [d, g];
    OfKindTwo(d, g, EnsureDirectories);
    OfKindTwo(d, g, Upload);
    OfKindTwo(d, g, Download);
    OfKindTwo(d, g, DeleteRemote);
    OfKindTwo(d, g, DeleteLocal);
    var upTo := [EnsureDirectories, Upload, Download];
    GroupedNone(plan);
    GroupedSnoc(plan, [], EnsureDirectories);
    GroupedSnoc(plan, [EnsureDirectories], Upload);
    GroupedSnoc(plan, [EnsureDirectories, Upload], Download);
    GroupedSnoc(plan, upTo, DeleteRemote);
    GroupedSnoc(plan, upTo + [DeleteRemote], DeleteLocal);
    assert [] + [EnsureDirectories] == [EnsureDirectories];
    assert [EnsureDirectories] + [Upload] == [EnsureDirectories, Upload];
    assert [EnsureDirectories, Upload] + [Download] == upTo;
    assert upTo + [DeleteRemote] + [DeleteLocal] == PHASES;
  }

  lemma OfKindTwo(d: Action, g: Action, kind: ActionType)
    ensures OfKind([d, g], kind) == (if d.kind == kind then [d] else []) + (if g.kind == kind then [g] else [])
  {
    assert [d, g] == [d] + [g];
    OfKindConcat([d], [g], kind);
    OfKindOne(d, kind);
    OfKindOne(g, kind);
  }

  lemma GroupedNone(plan: seq<Action>)
    ensures Grouped(plan, []) == []
  {
  }

  lemma GroupedSnoc(plan: seq<Action>, phases: seq<ActionType>, kind: ActionType)
    ensures Grouped(plan, phases + [kind]) == Grouped(plan, phases) + OfKind(plan, kind)
  {
    assert (phases + [kind])[..|phases|] == phases;
  }

  // ---------------------------------------------------------------- regrouping is a stable permutation

  lemma {:induction false} OfKindTwice(plan: seq<Action>, a: ActionType, b: ActionType)
    ensures OfKind(OfKind(plan, a), b) == if a == b then OfKind(plan, a) else []
  {
    if plan != [] {
      var front, last := plan[..|plan| - 1], plan[|plan| - 1];
      OfKindTwice(front, a, b);
      OfKindConcat(OfKind(front, a), if last.kind == a then [last] else [], b);
      OfKindOne(last, b);
    }
  }

  lemma {:induction false} OfKindOfGrouped(plan: seq<Action>, phases: seq<ActionType>, kind: ActionType)
    requires forall i, j :: 0 <= i < j < |phases| ==> phases[i] != phases[j]
    ensures OfKind(Grouped(plan, phases), kind) == if kind in phases then OfKind(plan, kind) else []
  {
    hide OfKind;
    if phases != [] {
      var front, last := phases[..|phases| - 1], phases[|phases| - 1];
      OfKindOfGrouped(plan, front, kind);
      OfKindConcat(Grouped(plan, front), OfKind(plan, last), kind);
      OfKindTwice(plan, last, kind);
      assert phases == front + [last];
      assert kind in front ==> kind != last;
    } else {
      OfKindNone(kind);
    }
  }

  lemma OfKindNone(kind: ActionType)
    ensures OfKind([], kind) == []
  {
  }

  lemma {:induction false} OfKindKinds(plan: seq<Action>, kind: ActionType)
    ensures forall i :: 0 <= i < |OfKind(plan, kind)| ==> OfKind(plan, kind)[i].kind == kind
  {
    if plan != [] {
      OfKindKinds(plan[..|plan| - 1], kind);
    }
  }

  lemma {:induction false} GroupedRanks(plan: seq<Action>, phases: seq<ActionType>)
    requires forall i :: 0 <= i < |phases| ==> Rank(phases[i]) == i
    ensures forall i, j :: 0 <= i < j < |Grouped(plan, phases)| ==>
      Rank(Grouped(plan, phases)[i].kind) <= Rank(Grouped(plan, phases)[j].kind)
    ensures forall i :: 0 <= i < |Grouped(plan, phases)| ==> Rank(Grouped(plan, phases)[i].kind) < |phases|
  {
    if phases != [] {
      GroupedRanks(plan, phases[..|phases| - 1]);
      OfKindKinds(plan, phases[|phases| - 1]);
    }
  }

  /**
   The dispatch order is a stable regrouping by phase: directories, uploads, downloads, remote deletes, local
   deletes; and each kind's actions are the plan's own, all of them, in the plan's order.
   */
  lemma RegroupIsStable(plan: seq<Action>)
    ensures forall kind: ActionType :: OfKind(Regroup(plan), kind) == OfKind(plan, kind)
    ensures forall i, j :: 0 <= i < j < |Regroup(plan)| ==>
      Rank(Regroup(plan)[i].kind) <= Rank(Regroup(plan)[j].kind)
    ensures |Regroup(plan)| == |plan|
  {
    forall kind: ActionType
      ensures OfKind(Regroup(plan), kind) == OfKind(plan, kind)
    {
      EveryKindHasItsPhase(kind);
      OfKindOfGrouped(plan, PHASES, kind);
    }
    GroupedRanks(plan, PHASES);
    KindsPartition(plan);
    KindsPartition(Regroup(plan));
  }

  lemma {:induction false} KindsPartition(plan: seq<Action>)
    ensures |plan| == |OfKind(plan, EnsureDirectories)| + |OfKind(plan, Upload)| + |OfKind(plan, Download)|
                      + |OfKind(plan, DeleteRemote)| + |OfKind(plan, DeleteLocal)|
  {
    if plan != [] {
      KindsPartition(plan[..|plan| - 1]);
    }
  }

  // ---------------------------------------------------------------- any order will do

  lemma {:induction false} CountForKey(plan: seq<Action>, k: Key, a: Action)
    ensures multiset(ForKey(plan, k))[a]
         == if a.kind != EnsureDirectories && a.key == k then multiset(plan)[a] else 0
  {
    if plan != [] {
      var front, last := plan[..|plan| - 1], plan[|plan| - 1];
      assert plan == front + [last];
      CountForKey(front, k, a);
    }
  }

  lemma {:induction false} CountOfKind(plan: seq<Action>, kind: ActionType, a: Action)
    ensures multiset(OfKind(plan, kind))[a] == if a.kind == kind then multiset(plan)[a] else 0
  {
    if plan != [] {
      var front, last := plan[..|plan| - 1], plan[|plan| - 1];
      assert plan == front + [last];
      CountOfKind(front, kind, a);
    }
  }

  lemma {:induction false} CountGrouped(plan: seq<Action>, phases: seq<ActionType>, a: Action)
    requires forall i, j :: 0 <= i < j < |phases| ==> phases[i] != phases[j]
    ensures multiset(Grouped(plan, phases))[a] == if a.kind in phases then multiset(plan)[a] else 0
  {
    if phases != [] {
      var front, last := phases[..|phases| - 1], phases[|phases| - 1];
      assert phases == front + [last];
      assert last !in front;
      CountGrouped(plan, front, a);
      CountOfKind(plan, last, a);
    }
  }

  /** Regrouping neither loses nor repeats an action. */
  lemma RegroupIsPermutation(plan: seq<Action>)
    ensures multiset(Regroup(plan)) == multiset(plan)
  {
    forall a: Action
      ensures multiset(Regroup(plan))[a] == multiset(plan)[a]
    {
      CountGrouped(plan, PHASES, a);
      EveryKindHasItsPhase(a.kind);
    }
  }

  lemma ShortPermutation(a: seq<Action>, b: seq<Action>)
    requires |a| <= 1 && multiset(a) == multiset(b)
    ensures a == b
  {
    assert |a| == |multiset(a)| && |b| == |multiset(b)|;
    if a != [] {
      assert a == [a[0]] && b == [b[0]];
      assert b[0] in multiset(a);
    }
  }

  /**
   The actions of a plan that touches no key twice may be run in any order at all, so neither the phases nor
   the order in which the tasks of one phase happen to finish can change the outcome.
   */
  lemma AnyOrderWillDo(plan: seq<Action>, other: seq<Action>, s: Sides)
    requires AllDispatchable(plan) && OnePerKey(plan)
    requires multiset(plan) == multiset(other)
    ensures AllDispatchable(other)
    ensures Execute(other, s) == Execute(plan, s)
  {
    forall i | 0 <= i < |other|
      ensures Dispatchable(other[i])
    {
      assert other[i] in multiset(plan);
    }
    forall k: Key
      ensures View(Execute(other, s), k) == View(Execute(plan, s), k)
    {
      ExecutePointwise(plan, s, k);
      ExecutePointwise(other, s, k);
      forall a: Action
        ensures multiset(ForKey(plan, k))[a] == multiset(ForKey(other, k))[a]
      {
        CountForKey(plan, k, a);
        CountForKey(other, k, a);
      }
      ShortPermutation(ForKey(plan, k), ForKey(other, k));
    }
    SidesByView(Execute(other, s), Execute(plan, s));
  }

  /** Running a plan phase by phase ends in the same maps as running it in order, if no key is touched twice. */
  lemma RegroupKeepsMeaning(plan: seq<Action>, s: Sides)
    requires AllDispatchable(plan) && OnePerKey(plan)
    ensures AllDispatchable(Regroup(plan))
    ensures Execute(Regroup(plan), s) == Execute(plan, s)
  {
    RegroupIsPermutation(plan);
    AnyOrderWillDo(plan, Regroup(plan), s);
  }

  lemma {:induction false} ExecuteConcat(a: seq<Action>, b: seq<Action>, s: Sides)
    requires AllDispatchable(a) && AllDispatchable(b)
    ensures AllDispatchable(a + b)
    ensures Execute(a + b, s) == Execute(b, Execute(a, s))
    decreases |b|
  {
    if b == [] {
      assert a + b == a;
    } else {
      assert (a + b)[..|a + b| - 1] == a + b[..|b| - 1];
      ExecuteConcat(a, b[..|b| - 1], s);
    }
  }

  // ---------------------------------------------------------------- what a plan does to one key

  /** No policy both transfers and deletes the same one-sided keys. */
  lemma PolicyIsConsistent(p: Policy)
    ensures !(p.UploadLocalOnly() && p.DeleteLocalLeftovers())
    ensures !(p.DownloadRemoteOnly() && p.DeleteRemoteLeftovers())
    ensures p.DownloadRemoteOnly() || p.DeleteRemoteLeftovers()
  {
  }

  /** Everything a plan does to one key. */
  function KeyPlan(p: Policy, k: Key, v: At): seq<Action> {
    TransferFor(p, k, v.local, v.remote)
    + (if p.DeleteRemoteLeftovers() && v.local.None? && v.remote.Some?
       then [Action(DeleteRemote, k, None, v.remote)] else [])
    + (if p.DeleteLocalLeftovers() && v.local.Some? && v.remote.None?
       then [Action(DeleteLocal, k, v.local, None)] else [])
  }

  lemma TransferKey(p: Policy, k: Key, l: Option<File>, r: Option<File>, q: Key)
    ensures ForKey(TransferFor(p, k, l, r), q) == if q == k then TransferFor(p, k, l, r) else []
    ensures |TransferFor(p, k, l, r)| <= 1
    ensures AllDispatchable(TransferFor(p, k, l, r))
  {
  }

  lemma DistinctFront(keys: seq<Key>, k: Key)
    requires Distinct(keys) && keys != []
    ensures Distinct(keys[..|keys| - 1])
    ensures keys[|keys| - 1] !in keys[..|keys| - 1]
    ensures k in keys <==> k in keys[..|keys| - 1] || k == keys[|keys| - 1]
  {
    assert keys == keys[..|keys| - 1] + [keys[|keys| - 1]];
  }

  lemma {:induction false} ForKeyTransfers(p: Policy, local: map<Key, File>, remote: map<Key, File>,
                                           keys: seq<Key>, k: Key)
    requires Distinct(keys)
    ensures ForKey(Transfers(p, local, remote, keys), k)
         == if k in keys then TransferFor(p, k, Lookup(local, k), Lookup(remote, k)) else []
    ensures AllDispatchable(Transfers(p, local, remote, keys))
  {
    hide ForKey, Distinct, TransferFor, Lookup;
    ForKeyNone(k);
    if keys != [] {
      var front, last := keys[..|keys| - 1], keys[|keys| - 1];
      var t := TransferFor(p, last, Lookup(local, last), Lookup(remote, last));
      DistinctFront(keys, k);
      ForKeyTransfers(p, local, remote, front, k);
      TransferKey(p, last, Lookup(local, last), Lookup(remote, last), k);
      ForKeyConcat(Transfers(p, local, remote, front), t, k);
    }
  }

  lemma {:induction false} ForKeyRemoteDeletes(local: map<Key, File>, remote: map<Key, File>, order: seq<Key>, k: Key)
    requires forall q :: q in order ==> q in remote
    requires Distinct(order)
    ensures ForKey(RemoteDeletes(local, remote, order), k)
         == if k in order && k !in local then [Action(DeleteRemote, k, None, Some(remote[k]))] else []
    ensures AllDispatchable(RemoteDeletes(local, remote, order))
  {
    hide ForKey, Distinct;
    ForKeyNone(k);
    if order != [] {
      var front, last := order[..|order| - 1], order[|order| - 1];
      DistinctFront(order, k);
      ForKeyRemoteDeletes(local, remote, front, k);
      var a := Action(DeleteRemote, last, None, Some(remote[last]));
      ForKeyConcat(RemoteDeletes(local, remote, front), if last in local then [] else [a], k);
      ForKeyOne(a, k);
    }
  }

  lemma {:induction false} ForKeyLocalDeletes(local: map<Key, File>, remote: map<Key, File>, order: seq<Key>, k: Key)
    requires forall q :: q in order ==> q in local
    requires Distinct(order)
    ensures ForKey(LocalDeletes(local, remote, order), k)
         == if k in order && k !in remote then [Action(DeleteLocal, k, Some(local[k]), None)] else []
    ensures AllDispatchable(LocalDeletes(local, remote, order))
  {
    hide ForKey, Distinct;
    ForKeyNone(k);
    if order != [] {
      var front, last := order[..|order| - 1], order[|order| - 1];
      DistinctFront(order, k);
      ForKeyLocalDeletes(local, remote, front, k);
      var a := Action(DeleteLocal, last, Some(local[last]), None);
      ForKeyConcat(LocalDeletes(local, remote, front), if last in remote then [] else [a], k);
      ForKeyOne(a, k);
    }
  }

  /** The walks the planner takes: the sorted key list, and each map in some order. */
  ghost predicate Walks(s: Sides, keys: seq<Key>, remoteOrder: seq<Key>, localOrder: seq<Key>) {
    && Enumerates(keys, s.local.Keys + s.remote.Keys)
    && Enumerates(remoteOrder, s.remote.Keys)
    && Enumerates(localOrder, s.local.Keys)
  }

  /** A plan hands no task a null file, and does to each key what that key's two files call for, at most once. */
  lemma PlanPerKey(p: Policy, s: Sides, keys: seq<Key>, remoteOrder: seq<Key>, localOrder: seq<Key>)
    requires Walks(s, keys, remoteOrder, localOrder)
    ensures var plan := PlanOf(p, s.local, s.remote, keys, remoteOrder, localOrder);
      && AllDispatchable(plan)
      && OnePerKey(plan)
      && (forall k: Key :: ForKey(plan, k) == KeyPlan(p, k, View(s, k)))
  {
    var plan := PlanOf(p, s.local, s.remote, keys, remoteOrder, localOrder);
    forall k: Key
      ensures ForKey(plan, k) == KeyPlan(p, k, View(s, k)) && |ForKey(plan, k)| <= 1
      ensures AllDispatchable(plan)
    {
      PlanOneKey(p, s, keys, remoteOrder, localOrder, k);
      KeyPlanShort(p, k, View(s, k));
    }
    assert ForKey(plan, "") == KeyPlan(p, "", View(s, ""));
  }

  lemma KeyPlanShort(p: Policy, k: Key, v: At)
    ensures |KeyPlan(p, k, v)| <= 1
  {
    TransferKey(p, k, v.local, v.remote, k);
    PolicyIsConsistent(p);
  }

  lemma ForKeyFour(a: seq<Action>, b: seq<Action>, c: seq<Action>, d: seq<Action>, k: Key)
    ensures ForKey(a + b + c + d, k) == ForKey(a, k) + ForKey(b, k) + ForKey(c, k) + ForKey(d, k)
  {
    ForKeyConcat(a + b + c, d, k);
    ForKeyConcat(a + b, c, k);
    ForKeyConcat(a, b, k);
  }

  /** The four parts of a plan, for one key. */
  lemma PartsOneKey(p: Policy, s: Sides, keys: seq<Key>, remoteOrder: seq<Key>, localOrder: seq<Key>, k: Key)
    requires Walks(s, keys, remoteOrder, localOrder)
    ensures ForKey(Transfers(p, s.local, s.remote, keys), k)
         == TransferFor(p, k, Lookup(s.local, k), Lookup(s.remote, k))
    ensures AllDispatchable(Transfers(p, s.local, s.remote, keys))
    ensures ForKey(RemoteDeletes(s.local, s.remote, remoteOrder), k)
         == if k in s.remote && k !in s.local then [Action(DeleteRemote, k, None, Some(s.remote[k]))] else []
    ensures AllDispatchable(RemoteDeletes(s.local, s.remote, remoteOrder))
    ensures ForKey(LocalDeletes(s.local, s.remote, localOrder), k)
         == if k in s.local && k !in s.remote then [Action(DeleteLocal, k, Some(s.local[k]), None)] else []
    ensures AllDispatchable(LocalDeletes(s.local, s.remote, localOrder))
  {
    hide TransferFor, Transfers, RemoteDeletes, LocalDeletes, ForKey;
    ForKeyTransfers(p, s.local, s.remote, keys, k);
    ForKeyRemoteDeletes(s.local, s.remote, remoteOrder, k);
    ForKeyLocalDeletes(s.local, s.remote, localOrder, k);
    NothingToTransfer(p, k);
    assert k in keys <==> k in s.local || k in s.remote;
  }

  lemma PlanOneKey(p: Policy, s: Sides, keys: seq<Key>, remoteOrder: seq<Key>, localOrder: seq<Key>, k: Key)
    requires Walks(s, keys, remoteOrder, localOrder)
    ensures AllDispatchable(PlanOf(p, s.local, s.remote, keys, remoteOrder, localOrder))
    ensures ForKey(PlanOf(p, s.local, s.remote, keys, remoteOrder, localOrder), k) == KeyPlan(p, k, View(s, k))
  {
    hide TransferFor, Transfers, RemoteDeletes, LocalDeletes, ForKey;
    var dirs := if p.WantsEnsureDirectories() then [Action(EnsureDirectories, "", None, None)] else [];
    var transfers := Transfers(p, s.local, s.remote, keys);
    var rd := if p.DeleteRemoteLeftovers() then RemoteDeletes(s.local, s.remote, remoteOrder) else [];
    var ld := if p.DeleteLocalLeftovers() then LocalDeletes(s.local, s.remote, localOrder) else [];
    PartsOneKey(p, s, keys, remoteOrder, localOrder, k);
    ForKeyNone(k);
    ForKeyFour(dirs, transfers, rd, ld, k);
    assert ForKey(dirs, k) == [] by {
      ForKeyOne(Action(EnsureDirectories, "", None, None), k);
    }
    hide Walks;
    var v := View(s, k);
    assert ForKey(rd, k) == if p.DeleteRemoteLeftovers() && v.local.None? && v.remote.Some?
                            then [Action(DeleteRemote, k, None, v.remote)] else [];
    assert ForKey(ld, k) == if p.DeleteLocalLeftovers() && v.local.Some? && v.remote.None?
                            then [Action(DeleteLocal, k, v.local, None)] else [];
    assert AllDispatchable(dirs + transfers + rd + ld);
  }

  lemma ForKeyNone(k: Key)
    ensures ForKey([], k) == []
  {
  }

  lemma NothingToTransfer(p: Policy, k: Key)
    ensures TransferFor(p, k, None, None) == []
  {
  }

  // ---------------------------------------------------------------- convergence

  /** What a sync run leaves under a key, given what it found there. */
  function Synced(p: Policy, v: At): At {
    match v
    case At(None, None) => v
    case At(Some(_), None) =>
      if p.UploadLocalOnly() then At(v.local, v.local)
      else if p.DeleteLocalLeftovers() then At(None, None)
      else v
    case At(None, Some(_)) => if p.DownloadRemoteOnly() then At(v.remote, v.remote) else At(None, None)
    case At(Some(l), Some(r)) =>
      (match TwoSided(p, l, r)
       case Some(Upload) => At(v.local, v.local)
       case Some(Download) => At(v.remote, v.remote)
       case _ => v)
  }

  lemma DecidedKinds(p: Policy, l: File, r: File)
    ensures TwoSided(p, l, r).Some? ==> TwoSided(p, l, r).value in {Upload, Download}
  {
  }

  lemma KeyPlanGives(p: Policy, k: Key, v: At)
    ensures AllDispatchable(KeyPlan(p, k, v))
    ensures ExecuteAt(KeyPlan(p, k, v), v) == Synced(p, v)
  {
    hide TwoSided, ForKey;
    PolicyIsConsistent(p);
    TransferKey(p, k, v.local, v.remote, k);
    if v.local.Some? && v.remote.Some? {
      DecidedKinds(p, v.local.value, v.remote.value);
    }
    var kp := KeyPlan(p, k, v);
    assert |kp| <= 1;
    if kp != [] {
      assert kp[..0] == [];
      assert ExecuteAt(kp, v) == EffectAt(kp[0], v);
    }
  }

  predicate Agree(v: At) {
    match v
    case At(None, None) => true
    case At(Some(l), Some(r)) => SameFile(l, r)
    case _ => false
  }

  /** Both files carry a modification time. */
  predicate Dated(l: File, r: File) {
    l.updatedAt != 0 && r.updatedAt != 0
  }

  /**
   When the policy decides between two differing files. Same sizes and no two differing hashes leave it to
   the strategy; anything else is a conflict, which goes to the conflict policy.
   */
  predicate Decided(p: Policy, l: File, r: File) {
    if l.size == r.size && (l.hash.None? || r.hash.None? || l.hash == r.hash) then
      match p.strategy
      case Cache => Dated(l, r) && l.updatedAt < r.updatedAt
      case Sync => Dated(l, r) ==> l.updatedAt != r.updatedAt
      case Mirror =>
        p.conflicts == KeepLocal || p.conflicts == KeepRemote
        || (p.conflicts == KeepNewest && Dated(l, r) && l.updatedAt != r.updatedAt)
    else
      p.conflicts != Ask && (p.conflicts == KeepNewest ==> Dated(l, r))
  }

  /** The keys on which a run brings the two sides together. */
  predicate Settles(p: Policy, v: At) {
    match v
    case At(None, None) => true
    case At(Some(_), None) => p.strategy != Mirror || p.conflicts == KeepLocal || p.conflicts == KeepRemote
    case At(None, Some(_)) => true
    case At(Some(l), Some(r)) => SameFile(l, r) || Decided(p, l, r)
  }

  lemma SettlesExactly(p: Policy, v: At)
    ensures Agree(Synced(p, v)) <==> Settles(p, v)
    ensures v.local.Some? && v.remote.Some? && !Settles(p, v) ==> Synced(p, v) == v
  {
  }

  /**
   The sync theorem. Whatever order the maps are walked in, a run dispatches no null file and leaves each key
   as its two files and the policy call for; the two sides agree on a key afterwards exactly if the policy
   settles it, and a key present on both sides that it does not settle keeps both its files.
   */
  lemma SyncConverges(p: Policy, s: Sides, keys: seq<Key>, remoteOrder: seq<Key>, localOrder: seq<Key>)
    requires Walks(s, keys, remoteOrder, localOrder)
    ensures var plan := PlanOf(p, s.local, s.remote, keys, remoteOrder, localOrder);
      && AllDispatchable(plan) && AllDispatchable(Regroup(plan))
      && Execute(Regroup(plan), s) == Execute(plan, s)
      && (forall k: Key :: View(Execute(Regroup(plan), s), k) == Synced(p, View(s, k)))
      && (forall k: Key :: Agree(View(Execute(Regroup(plan), s), k)) <==> Settles(p, View(s, k)))
  {
    var plan := PlanOf(p, s.local, s.remote, keys, remoteOrder, localOrder);
    PlanPerKey(p, s, keys, remoteOrder, localOrder);
    RegroupKeepsMeaning(plan, s);
    forall k: Key
      ensures View(Execute(Regroup(plan), s), k) == Synced(p, View(s, k))
      ensures Agree(View(Execute(Regroup(plan), s), k)) <==> Settles(p, View(s, k))
    {
      ExecutePointwise(plan, s, k);
      KeyPlanGives(p, k, View(s, k));
      SettlesExactly(p, View(s, k));
    }
  }

  /** The outcome of a run does not depend on the order in which the hash maps are walked. */
  lemma WalkOrderDoesNotMatter(p: Policy, s: Sides, keys: seq<Key>, r1: seq<Key>, l1: seq<Key>,
                               r2: seq<Key>, l2: seq<Key>)
    requires Walks(s, keys, r1, l1) && Walks(s, keys, r2, l2)
    ensures AllDispatchable(Regroup(PlanOf(p, s.local, s.remote, keys, r1, l1)))
    ensures AllDispatchable(Regroup(PlanOf(p, s.local, s.remote, keys, r2, l2)))
    ensures Execute(Regroup(PlanOf(p, s.local, s.remote, keys, r1, l1)), s)
         == Execute(Regroup(PlanOf(p, s.local, s.remote, keys, r2, l2)), s)
  {
    SyncConverges(p, s, keys, r1, l1);
    SyncConverges(p, s, keys, r2, l2);
    var a := Execute(Regroup(PlanOf(p, s.local, s.remote, keys, r1, l1)), s);
    var b := Execute(Regroup(PlanOf(p, s.local, s.remote, keys, r2, l2)), s);
    forall k: Key
      ensures View(a, k) == View(b, k)
    {
    }
    SidesByView(a, b);
  }

  /** What a run leaves under a key a second run leaves as it is. */
  lemma SyncedIsStable(p: Policy, v: At)
    ensures Synced(p, Synced(p, v)) == Synced(p, v)
  {
  }

  /** What a run leaves under a key calls for nothing more. */
  lemma NothingMoreToDo(p: Policy, k: Key, v: At)
    ensures KeyPlan(p, k, Synced(p, v)) == []
  {
    PolicyIsConsistent(p);
  }

  lemma TransferActs(p: Policy, k: Key, l: Option<File>, r: Option<File>)
    ensures forall a :: a in TransferFor(p, k, l, r) ==> a.kind != EnsureDirectories
  {
    hide TwoSided;
    if l.Some? && r.Some? {
      DecidedKinds(p, l.value, r.value);
    }
  }

  lemma {:induction false} TransfersAreActions(p: Policy, local: map<Key, File>, remote: map<Key, File>, keys: seq<Key>)
    ensures forall a :: a in Transfers(p, local, remote, keys) ==> a.kind != EnsureDirectories
  {
    hide TransferFor;
    if keys != [] {
      TransfersAreActions(p, local, remote, keys[..|keys| - 1]);
      var k := keys[|keys| - 1];
      TransferActs(p, k, Lookup(local, k), Lookup(remote, k));
    }
  }

  lemma LastActs(plan: seq<Action>)
    requires plan != [] && plan[|plan| - 1].kind != EnsureDirectories
    ensures ForKey(plan, plan[|plan| - 1].key) != []
  {
  }

  /** A list of actions on keys that does nothing to any key is empty. */
  lemma NoKeyNoAction(plan: seq<Action>)
    requires forall a :: a in plan ==> a.kind != EnsureDirectories
    requires forall k: Key :: ForKey(plan, k) == []
    ensures plan == []
  {
    if plan != [] {
      LastActs(plan);
    }
  }

  /** A run plans nothing but making directories exactly if no key calls for anything. */
  lemma RunIsIdleIff(p: Policy, s: Sides, keys: seq<Key>, remoteOrder: seq<Key>, localOrder: seq<Key>)
    requires Walks(s, keys, remoteOrder, localOrder)
    ensures PlanOf(p, s.local, s.remote, keys, remoteOrder, localOrder)
         == (if p.WantsEnsureDirectories() then [Action(EnsureDirectories, "", None, None)] else [])
         <==> forall k: Key :: KeyPlan(p, k, View(s, k)) == []
    ensures (forall k: Key :: KeyPlan(p, k, View(s, k)) == []) ==> Transfers(p, s.local, s.remote, keys) == []
  {
    hide TransferFor, KeyPlan;
    var plan := PlanOf(p, s.local, s.remote, keys, remoteOrder, localOrder);
    var dirs := Action(EnsureDirectories, "", None, None);
    PlanPerKey(p, s, keys, remoteOrder, localOrder);
    if forall k: Key :: KeyPlan(p, k, View(s, k)) == [] {
      NoKeyNoPlan(p, s, keys, remoteOrder, localOrder);
    } else {
      var k: Key :| KeyPlan(p, k, View(s, k)) != [];
      assert ForKey(plan, k) != [];
      ForKeyOne(dirs, k);
      ForKeyNone(k);
    }
  }

  lemma NoKeyNoPlan(p: Policy, s: Sides, keys: seq<Key>, remoteOrder: seq<Key>, localOrder: seq<Key>)
    requires Walks(s, keys, remoteOrder, localOrder)
    requires forall k: Key :: KeyPlan(p, k, View(s, k)) == []
    ensures Transfers(p, s.local, s.remote, keys) == []
    ensures PlanOf(p, s.local, s.remote, keys, remoteOrder, localOrder)
         == if p.WantsEnsureDirectories() then [Action(EnsureDirectories, "", None, None)] else []
  {
    hide TransferFor, Transfers, RemoteDeletes, LocalDeletes, ForKey;
    var transfers := Transfers(p, s.local, s.remote, keys);
    var rd := if p.DeleteRemoteLeftovers() then RemoteDeletes(s.local, s.remote, remoteOrder) else [];
    var ld := if p.DeleteLocalLeftovers() then LocalDeletes(s.local, s.remote, localOrder) else [];
    forall k: Key
      ensures ForKey(transfers, k) == [] && ForKey(rd, k) == [] && ForKey(ld, k) == []
    {
      PartsOneKey(p, s, keys, remoteOrder, localOrder, k);
      ForKeyNone(k);
      assert KeyPlan(p, k, View(s, k)) == [];
    }
    hide Walks;
    TransfersAreActions(p, s.local, s.remote, keys);
    DeletesAreActions(s, remoteOrder, localOrder);
    NoKeyNoAction(transfers);
    NoKeyNoAction(rd);
    NoKeyNoAction(ld);
  }

  /**
   A run that finds the very records an earlier one left plans nothing but making directories: no transfer, so no
   space either, and no deletion.
   */
  lemma SecondRunIsIdle(p: Policy, before: Sides, s: Sides, keys: seq<Key>, remoteOrder: seq<Key>, localOrder: seq<Key>)
    requires forall k: Key :: View(s, k) == Synced(p, View(before, k))
    requires Walks(s, keys, remoteOrder, localOrder)
    ensures Transfers(p, s.local, s.remote, keys) == []
    ensures PlanOf(p, s.local, s.remote, keys, remoteOrder, localOrder)
         == if p.WantsEnsureDirectories() then [Action(EnsureDirectories, "", None, None)] else []
  {
    hide Synced, PlanOf;
    forall k: Key
      ensures KeyPlan(p, k, View(s, k)) == []
    {
      NothingMoreToDo(p, k, View(before, k));
      assert View(s, k) == Synced(p, View(before, k));
    }
    RunIsIdleIff(p, s, keys, remoteOrder, localOrder);
  }

  // ---------------------------------------------------------------- what a listing shows

  /** The record a listing of the bucket gives of an object: it knows no vector, type, hash or key version. */
  function Listed(path: string, size: nat, at: int): File {
    File(path, size, "", None, None, 0, at)
  }

  /**
   When a local file needs nothing done about the object a listing shows under its key. The two are the same record
   only if the local one was never encrypted, typed or hashed; otherwise it depends on size, times and policy.
   */
  predicate IdleOnListing(p: Policy, l: File, path: string, size: nat, at: int) {
    if l == Listed(path, size, l.updatedAt) then true
    else if l.size != size then
      p.conflicts == Ask || (p.conflicts == KeepNewest && (l.updatedAt == 0 || at == 0))
    else match p.strategy
      case Cache => l.updatedAt == 0 || at == 0 || at <= l.updatedAt
      case Sync => l.updatedAt == at != 0
      case Mirror =>
        p.conflicts == Ask || (p.conflicts == KeepNewest && (l.updatedAt == 0 || at == 0 || l.updatedAt == at))
  }

  lemma IdleOnListingExact(p: Policy, k: Key, l: File, path: string, size: nat, at: int)
    ensures KeyPlan(p, k, At(Some(l), Some(Listed(path, size, at)))) == [] <==> IdleOnListing(p, l, path, size, at)
  {
    PolicyIsConsistent(p);
  }

  /** Every remote record is one a listing gives, as they all are when a run starts. */
  ghost predicate FromListing(s: Sides) {
    forall k :: k in s.remote ==> s.remote[k] == Listed(s.remote[k].path, s.remote[k].size, s.remote[k].updatedAt)
  }

  /** Nothing to do for a key, on sides whose remote records come from a listing. */
  ghost predicate KeyIsIdle(p: Policy, s: Sides, k: Key) {
    if k in s.local && k in s.remote then
      IdleOnListing(p, s.local[k], s.remote[k].path, s.remote[k].size, s.remote[k].updatedAt)
    else if k in s.local then p.strategy == Mirror && p.conflicts != KeepLocal && p.conflicts != KeepRemote
    else k !in s.remote
  }

  /** So a run that starts from a listing, as every run does, is idle exactly if each key is. */
  lemma RunOnListingIsIdleIff(p: Policy, s: Sides, keys: seq<Key>, remoteOrder: seq<Key>, localOrder: seq<Key>)
    requires FromListing(s) && Walks(s, keys, remoteOrder, localOrder)
    ensures PlanOf(p, s.local, s.remote, keys, remoteOrder, localOrder)
         == (if p.WantsEnsureDirectories() then [Action(EnsureDirectories, "", None, None)] else [])
         <==> forall k: Key :: KeyIsIdle(p, s, k)
  {
    RunIsIdleIff(p, s, keys, remoteOrder, localOrder);
    hide PlanOf, Walks;
    forall k: Key
      ensures KeyPlan(p, k, View(s, k)) == [] <==> KeyIsIdle(p, s, k)
    {
      if k in s.local && k in s.remote {
        var r := s.remote[k];
        IdleOnListingExact(p, k, s.local[k], r.path, r.size, r.updatedAt);
      }
    }
  }

  /**
   What a run uploads is not what the next run finds: an encrypted file whose object has its size and was stored
   after its last change is downloaded again by a syncing vault and uploaded again by a local mirror.
   */
  lemma UploadedIsTransferredAgain(p: Policy, k: Key, l: File, at: int)
    requires l.iv != "" && 0 < l.updatedAt < at
    ensures var v := At(Some(l), Some(Listed(l.path, l.size, at)));
      && (p.strategy == Sync ==> KeyPlan(p, k, v) == [Action(Download, k, v.local, v.remote)])
      && (p.strategy == Mirror && p.conflicts == KeepLocal ==>
            KeyPlan(p, k, v) == [Action(Upload, k, v.local, v.remote)])
  {
    hide BuildsConflict;
    var r := Listed(l.path, l.size, at);
    assert !SameFile(l, r) && !BuildsConflict(l, r) by {
      NoConflictWithListing(l, at);
    }
  }

  lemma NoConflictWithListing(l: File, at: int)
    requires l.iv != ""
    ensures !SameFile(l, Listed(l.path, l.size, at)) && !BuildsConflict(l, Listed(l.path, l.size, at))
  {
  }

  lemma {:induction false} DeletesAreActions(s: Sides, remoteOrder: seq<Key>, localOrder: seq<Key>)
    requires forall k :: k in remoteOrder ==> k in s.remote
    requires forall k :: k in localOrder ==> k in s.local
    ensures forall a :: a in RemoteDeletes(s.local, s.remote, remoteOrder) ==> a.kind == DeleteRemote
    ensures forall a :: a in LocalDeletes(s.local, s.remote, localOrder) ==> a.kind == DeleteLocal
    decreases |remoteOrder| + |localOrder|
  {
    if remoteOrder != [] {
      DeletesAreActions(s, remoteOrder[..|remoteOrder| - 1], localOrder);
    } else if localOrder != [] {
      DeletesAreActions(s, remoteOrder, localOrder[..|localOrder| - 1]);
    }
  }
}
