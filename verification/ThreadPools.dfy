/**
 Five pools that lend each other workers. The pools as values, one round of rebalancing, and what any number
 of rounds preserves, including that the branch that throws is never reached.
 */
module ThreadPools {
  import opened Wrappers

  const WIDTH32: nat := 0x1_0000_0000
  const RESERVE_FACTOR: nat := 3
  const NUM_POOLS: nat := 4
  const SAFETY_FLOOR: nat := 8

  type WorkerId = nat

  /**
   `threads` and `flags` are the two parallel vectors of a pool: the worker in a slot, and the worker whose idle
   flag is in that slot. `borrowed` is a 32-bit unsigned counter.
   */
  datatype Pool = Pool(threads: seq<WorkerId>, flags: seq<WorkerId>, borrowed: nat)

  datatype PoolError = NoWorkersToGive

  /** A worker as it is handed over: the thread and the flag taken with it. */
  datatype Worker = Worker(thread: WorkerId, flag: WorkerId)

  function Wrap(x: int): nat {
    x % WIDTH32
  }

  /** Some flag in the pool belongs to a worker that is idle at this moment. */
  predicate HasIdleWorker(p: Pool, idle: set<WorkerId>) {
    exists i :: 0 <= i < |p.flags| && p.flags[i] in idle
  }

  function Give(p: Pool): Result<(Pool, Worker), PoolError>
    requires |p.threads| == |p.flags|
  {
    if p.threads == [] then Err(NoWorkersToGive)
    else
      var n := |p.threads| - 1;
      Ok((Pool(p.threads[..n], p.flags[..n], Wrap(p.borrowed - 1)), Worker(p.threads[n], p.flags[n])))
  }

  function Accept(p: Pool, w: Worker): Pool {
    Pool(p.threads + [w.thread], p.flags + [w.flag], Wrap(p.borrowed + 1))
  }

  function Move(giver: Pool, taker: Pool): Result<(Pool, Pool), PoolError>
    requires |giver.threads| == |giver.flags|
  {
    match Give(giver)
    case Err(e) => Err(e)
    case Ok((g, w)) => Ok((g, Accept(taker, w)))
  }

  /** The hungry and the donor pool after one comparison of their backlogs. */
  function MaybeReassign(hungry: Pool, donor: Pool, hungryRatio: nat, donorRatio: nat, idle: set<WorkerId>)
    : Result<(Pool, Pool), PoolError>
    requires |hungry.threads| == |hungry.flags| && |donor.threads| == |donor.flags|
  {
    if hungryRatio > Wrap(donorRatio * 4) && HasIdleWorker(donor, idle) then
      match Move(donor, hungry)
      case Err(e) => Err(e)
      case Ok((d, h)) => Ok((h, d))
    else if hungryRatio < 2 && hungry.borrowed > 0 then Move(hungry, donor)
    else Ok((hungry, donor))
  }

  datatype Pools = Pools(fuse: Pool, sync: Pool, thumb: Pool, http: Pool, stats: Pool)

  /** What a round sees: the queue depths, and the idle workers at each of its three comparisons. */
  datatype Load = Load(fuseQ: nat, syncQ: nat, thumbQ: nat, httpQ: nat, statsQ: nat,
                       idle1: set<WorkerId>, idle2: set<WorkerId>, idle3: set<WorkerId>)

  /** Backlog per worker; the quotient is passed on as a 32-bit number. */
  function Ratio(queue: nat, p: Pool): nat {
    var workers := Wrap(|p.threads|);
    Wrap(queue / if workers < 1 then 1 else workers)
  }

  function Round(ps: Pools, l: Load): Result<Pools, PoolError>
    requires Paired(ps)
  {
    var fuseRatio, syncRatio := Ratio(l.fuseQ, ps.fuse), Ratio(l.syncQ, ps.sync);
    var httpRatio, thumbRatio, statsRatio :=
      Ratio(l.httpQ, ps.http), Ratio(l.thumbQ, ps.thumb), Ratio(l.statsQ, ps.stats);
    var (f1, http) :- MaybeReassign(ps.fuse, ps.http, fuseRatio, httpRatio, l.idle1);
    ReassignPairs(ps.fuse, ps.http, fuseRatio, httpRatio, l.idle1);
    var (f2, stats) :- MaybeReassign(f1, ps.stats, fuseRatio, statsRatio, l.idle2);
    var (sync, thumb) :- MaybeReassign(ps.sync, ps.thumb, syncRatio, thumbRatio, l.idle3);
    Ok(Pools(f2, sync, thumb, http, stats))
  }

  /** In every slot the flag is that of the thread in the same slot. */
  ghost predicate Paired(ps: Pools) {
    && ps.fuse.threads == ps.fuse.flags && ps.sync.threads == ps.sync.flags && ps.thumb.threads == ps.thumb.flags
    && ps.http.threads == ps.http.flags && ps.stats.threads == ps.stats.flags
  }

  lemma ReassignPairs(hungry: Pool, donor: Pool, hr: nat, dr: nat, idle: set<WorkerId>)
    requires hungry.threads == hungry.flags && donor.threads == donor.flags
    ensures var r := MaybeReassign(hungry, donor, hr, dr, idle);
      r.Ok? ==> r.value.0.threads == r.value.0.flags && r.value.1.threads == r.value.1.flags
  {
  }

  function Rounds(ps: Pools, loads: seq<Load>): Result<Pools, PoolError>
    requires Paired(ps)
    ensures Rounds(ps, loads).Ok? ==> Paired(Rounds(ps, loads).value)
  {
    if loads == [] then Ok(ps)
    else
      var before :- Rounds(ps, loads[..|loads| - 1]);
      RoundPairs(before, loads[|loads| - 1]);
      Round(before, loads[|loads| - 1])
  }

  lemma RoundPairs(ps: Pools, l: Load)
    requires Paired(ps)
    ensures Round(ps, l).Ok? ==> Paired(Round(ps, l).value)
  {
  }

  // ---------------------------------------------------------------- start-up

  function Spawned(from: WorkerId, n: nat): Pool {
    var ids := seq(n, i requires 0 <= i < n => from + i);
    Pool(ids, ids, 0)
  }

  function TotalThreads(hardware: nat): nat {
    var wanted := Wrap(hardware * RESERVE_FACTOR);
    if wanted < SAFETY_FLOOR then SAFETY_FLOOR else wanted
  }

  function Init(hardware: nat): Pools {
    var base, rem := TotalThreads(hardware) / NUM_POOLS, TotalThreads(hardware) % NUM_POOLS;
    var fuseN := base + if rem > 0 then 1 else 0;
    var syncN := base + if rem > 1 then 1 else 0;
    Pools(Spawned(0, fuseN), Spawned(fuseN, syncN), Spawned(fuseN + syncN, base),
          Spawned(fuseN + syncN + base, base), Spawned(fuseN + syncN + 2 * base, base))
  }

  function Workers(ps: Pools): nat {
    |ps.fuse.threads| + |ps.sync.threads| + |ps.thumb.threads| + |ps.http.threads| + |ps.stats.threads|
  }

  /** There are five pools and the total is divided by four: more workers are always spawned than were budgeted. */
  lemma MoreWorkersThanBudgeted(hardware: nat)
    ensures var total := TotalThreads(hardware);
      Workers(Init(hardware)) == total + total / NUM_POOLS - (if total % NUM_POOLS == 3 then 1 else 0)
    ensures Workers(Init(hardware)) > TotalThreads(hardware)
  {
  }

  // ---------------------------------------------------------------- what every round keeps

  ghost function FuseSide(ps: Pools): multiset<WorkerId> {
    multiset(ps.fuse.threads) + multiset(ps.http.threads) + multiset(ps.stats.threads)
  }

  ghost function SyncSide(ps: Pools): multiset<WorkerId> {
    multiset(ps.sync.threads) + multiset(ps.thumb.threads)
  }

  /** The counter of a pool is its growth since the start, modulo 2^32. */
  predicate Counts(p: Pool, start: Pool) {
    p.borrowed == Wrap(|p.threads| - |start.threads|)
  }

  /** The counter of a borrowing pool is its growth exactly: it never went below zero. */
  predicate CountsExactly(p: Pool, start: Pool) {
    |p.threads| == |start.threads| + p.borrowed
  }

  ghost predicate Inv(ps: Pools, start: Pools) {
    && Paired(ps)
    && FuseSide(ps) == FuseSide(start) && SyncSide(ps) == SyncSide(start)
    && CountsExactly(ps.fuse, start.fuse) && CountsExactly(ps.sync, start.sync)
    && Counts(ps.http, start.http) && Counts(ps.stats, start.stats) && Counts(ps.thumb, start.thumb)
  }

  /** Few enough workers to lend that no counter of a borrowing pool reaches 2^32. */
  predicate Small(start: Pools) {
    |start.http.threads| + |start.stats.threads| < WIDTH32 && |start.thumb.threads| < WIDTH32
  }

  lemma WrapSteps(x: int)
    ensures Wrap(Wrap(x) + 1) == Wrap(x + 1) && Wrap(Wrap(x) - 1) == Wrap(x - 1)
  {
  }

  lemma MoveShape(giver: Pool, taker: Pool)
    requires giver.threads == giver.flags && taker.threads == taker.flags && giver.threads != []
    ensures var r := Move(giver, taker);
      && r.Ok?
      && var (g, t) := r.value;
      && g.threads == g.flags && t.threads == t.flags
      && |g.threads| == |giver.threads| - 1 && |t.threads| == |taker.threads| + 1
      && g.borrowed == Wrap(giver.borrowed - 1) && t.borrowed == Wrap(taker.borrowed + 1)
      && multiset(g.threads) + multiset(t.threads) == multiset(giver.threads) + multiset(taker.threads)
  {
    var n := |giver.threads| - 1;
    assert giver.threads == giver.threads[..n] + [giver.threads[n]];
  }

  /**
   One comparison: it never throws, moves at most one worker with its own flag, and keeps both counters in
   step with the sizes of their pools.
   */
  lemma ReassignKeeps(hungry: Pool, donor: Pool, h0: Pool, d0: Pool, hr: nat, dr: nat, idle: set<WorkerId>)
    requires hungry.threads == hungry.flags && donor.threads == donor.flags
    requires CountsExactly(hungry, h0) && Counts(donor, d0)
    requires |hungry.threads| + |donor.threads| - |h0.threads| < WIDTH32
    ensures var r := MaybeReassign(hungry, donor, hr, dr, idle);
      && r.Ok?
      && var (h, d) := r.value;
      && h.threads == h.flags && d.threads == d.flags
      && multiset(h.threads) + multiset(d.threads) == multiset(hungry.threads) + multiset(donor.threads)
      && |h.threads| + |d.threads| == |hungry.threads| + |donor.threads|
      && CountsExactly(h, h0) && Counts(d, d0)
  {
    hide Move, Wrap;
    var growth := |donor.threads| - |d0.threads|;
    WrapSteps(growth);
    if hr > Wrap(dr * 4) && HasIdleWorker(donor, idle) {
      MoveShape(donor, hungry);
      WrapSmall(hungry.borrowed + 1);
      var (d, h) := Move(donor, hungry).value;
      assert multiset(h.threads) + multiset(d.threads) == multiset(d.threads) + multiset(h.threads);
      assert multiset(donor.threads) + multiset(hungry.threads) == multiset(hungry.threads) + multiset(donor.threads);
      assert growth - 1 == |d.threads| - |d0.threads|;
    } else if hr < 2 && hungry.borrowed > 0 {
      MoveShape(hungry, donor);
      WrapSmall(hungry.borrowed - 1);
      var (h, d) := Move(hungry, donor).value;
      assert growth + 1 == |d.threads| - |d0.threads|;
    }
  }

  lemma WrapSmall(x: nat)
    requires x < WIDTH32
    ensures Wrap(x) == x
  {
  }

  lemma Sizes(ps: Pools, start: Pools)
    requires Inv(ps, start)
    ensures |ps.fuse.threads| + |ps.http.threads| + |ps.stats.threads|
         == |start.fuse.threads| + |start.http.threads| + |start.stats.threads|
    ensures |ps.sync.threads| + |ps.thumb.threads| == |start.sync.threads| + |start.thumb.threads|
    ensures Workers(ps) == Workers(start)
  {
    assert |FuseSide(ps)| == |ps.fuse.threads| + |ps.http.threads| + |ps.stats.threads|;
    assert |FuseSide(start)| == |start.fuse.threads| + |start.http.threads| + |start.stats.threads|;
    assert |SyncSide(ps)| == |ps.sync.threads| + |ps.thumb.threads|;
    assert |SyncSide(start)| == |start.sync.threads| + |start.thumb.threads|;
  }

  lemma RoundKeeps(ps: Pools, start: Pools, l: Load)
    requires Inv(ps, start) && Small(start)
    ensures Round(ps, l).Ok? && Inv(Round(ps, l).value, start)
  {
    hide MaybeReassign, Ratio, Counts;
    Sizes(ps, start);
    var fr, sr := Ratio(l.fuseQ, ps.fuse), Ratio(l.syncQ, ps.sync);
    var hr, tr, ar := Ratio(l.httpQ, ps.http), Ratio(l.thumbQ, ps.thumb), Ratio(l.statsQ, ps.stats);
    ReassignKeeps(ps.fuse, ps.http, start.fuse, start.http, fr, hr, l.idle1);
    var first := MaybeReassign(ps.fuse, ps.http, fr, hr, l.idle1).value;
    ReassignKeeps(first.0, ps.stats, start.fuse, start.stats, fr, ar, l.idle2);
    var second := MaybeReassign(first.0, ps.stats, fr, ar, l.idle2).value;
    ReassignKeeps(ps.sync, ps.thumb, start.sync, start.thumb, sr, tr, l.idle3);
    var third := MaybeReassign(ps.sync, ps.thumb, sr, tr, l.idle3).value;
    var after := Pools(second.0, third.0, third.1, first.1, second.1);
    assert Round(ps, l) == Ok(after);
    calc {
      FuseSide(after);
      (multiset(second.0.threads) + multiset(second.1.threads)) + multiset(first.1.threads);
      (multiset(first.0.threads) + multiset(ps.stats.threads)) + multiset(first.1.threads);
      (multiset(first.0.threads) + multiset(first.1.threads)) + multiset(ps.stats.threads);
      FuseSide(ps);
    }
  }

  lemma InitIsInv(hardware: nat)
    ensures Small(Init(hardware)) && Inv(Init(hardware), Init(hardware))
  {
    MoreWorkersThanBudgeted(hardware);
  }

  /**
   The rebalancing theorem. From start-up, through any rounds under any load: no round throws; the same workers
   exist, each with its own flag, and none crosses between the fuse side and the sync side; the two borrowing
   pools' counters are their growth exactly; and each of the others' is its growth modulo 2^32.
   */
  lemma {:induction false} RunKeeps(hardware: nat, loads: seq<Load>)
    ensures Paired(Init(hardware))
    ensures Rounds(Init(hardware), loads).Ok?
    ensures Inv(Rounds(Init(hardware), loads).value, Init(hardware))
  {
    InitIsInv(hardware);
    if loads != [] {
      RunKeeps(hardware, loads[..|loads| - 1]);
      RoundKeeps(Rounds(Init(hardware), loads[..|loads| - 1]).value, Init(hardware), loads[|loads| - 1]);
    }
  }

  /** So the number of workers never changes, and the five wrapping counters always cancel. */
  lemma CountersCancel(hardware: nat, loads: seq<Load>)
    ensures Paired(Init(hardware)) && Rounds(Init(hardware), loads).Ok?
    ensures var ps := Rounds(Init(hardware), loads).value;
      && Workers(ps) == Workers(Init(hardware))
      && Wrap(ps.fuse.borrowed + ps.http.borrowed + ps.stats.borrowed) == 0
      && Wrap(ps.sync.borrowed + ps.thumb.borrowed) == 0
      && Wrap(ps.fuse.borrowed + ps.sync.borrowed + ps.thumb.borrowed + ps.http.borrowed + ps.stats.borrowed) == 0
  {
    var start := Init(hardware);
    hide Rounds, Init, Wrap;
    RunKeeps(hardware, loads);
    var ps := Rounds(start, loads).value;
    Sizes(ps, start);
    var h, t, a := |ps.http.threads| - |start.http.threads|, |ps.thumb.threads| - |start.thumb.threads|,
      |ps.stats.threads| - |start.stats.threads|;
    Cancel(ps.fuse.borrowed, h, a);
    Cancel(ps.sync.borrowed, t, 0);
    WrapSmall(0);
    BothCancel(ps.fuse.borrowed + ps.http.borrowed + ps.stats.borrowed, ps.sync.borrowed + ps.thumb.borrowed);
  }

  lemma Cancel(exact: nat, x: int, y: int)
    requires exact + x + y == 0
    ensures Wrap(exact + Wrap(x) + Wrap(y)) == 0
  {
    var q := x / WIDTH32 + y / WIDTH32;
    assert exact + Wrap(x) + Wrap(y) == -q * WIDTH32;
  }

  lemma BothCancel(a: nat, b: nat)
    requires Wrap(a) == 0 && Wrap(b) == 0
    ensures Wrap(a + b) == 0
  {
  }

  // ---------------------------------------------------------------- what comes back, and what need not

  /** A load with nothing queued anywhere. */
  function Quiet(): Load {
    Load(0, 0, 0, 0, 0, {}, {}, {})
  }

  function Less(x: nat, y: nat): nat {
    if x > y then x - y else 0
  }

  lemma NothingQueued(p: Pool)
    ensures Ratio(0, p) == 0
  {
  }

  lemma QuietRound(ps: Pools, start: Pools)
    requires Inv(ps, start) && Small(start)
    ensures Round(ps, Quiet()).Ok?
    ensures Round(ps, Quiet()).value.fuse.borrowed == Less(ps.fuse.borrowed, 2)
    ensures Round(ps, Quiet()).value.sync.borrowed == Less(ps.sync.borrowed, 1)
  {
    RoundKeeps(ps, start, Quiet());
    Sizes(ps, start);
    NothingQueued(ps.fuse);
    NothingQueued(ps.sync);
    NothingQueued(ps.http);
    NothingQueued(ps.stats);
    NothingQueued(ps.thumb);
  }

  /** Quiet rounds drain the loans: two workers a round from fuse, one from sync, until none is left. */
  lemma {:induction false} QuietDrains(ps: Pools, start: Pools, n: nat)
    requires Inv(ps, start) && Small(start)
    ensures var after := Rounds(ps, seq(n, _ => Quiet()));
      && after.Ok? && Inv(after.value, start)
      && after.value.fuse.borrowed == Less(ps.fuse.borrowed, 2 * n)
      && after.value.sync.borrowed == Less(ps.sync.borrowed, n)
  {
    if n > 0 {
      QuietDrains(ps, start, n - 1);
      var quiet := seq(n, _ => Quiet());
      assert quiet[..n - 1] == seq(n - 1, _ => Quiet());
      assert quiet[n - 1] == Quiet();
      var before := Rounds(ps, quiet[..n - 1]).value;
      RoundKeeps(before, start, Quiet());
      QuietRound(before, start);
    }
  }

  /**
   A donor has its first size exactly if its own counter is 0. With its loans paid back the sync side is as it
   started; the fuse side's two donors only are together.
   */
  lemma PaidBack(ps: Pools, start: Pools)
    requires Inv(ps, start) && Small(start)
    ensures |ps.http.threads| == |start.http.threads| <==> ps.http.borrowed == 0
    ensures |ps.stats.threads| == |start.stats.threads| <==> ps.stats.borrowed == 0
    ensures |ps.thumb.threads| == |start.thumb.threads| <==> ps.thumb.borrowed == 0
    ensures ps.sync.borrowed == 0 <==> |ps.thumb.threads| == |start.thumb.threads|
    ensures ps.fuse.borrowed == 0 <==>
      |ps.http.threads| + |ps.stats.threads| == |start.http.threads| + |start.stats.threads|
  {
    Sizes(ps, start);
    NothingWraps(|ps.http.threads| - |start.http.threads|);
    NothingWraps(|ps.stats.threads| - |start.stats.threads|);
    NothingWraps(|ps.thumb.threads| - |start.thumb.threads|);
  }

  lemma NothingWraps(growth: int)
    requires 0 < growth + WIDTH32 && growth < WIDTH32
    ensures Wrap(growth) == 0 <==> growth == 0
  {
  }

  /** One task queued on fuse for each of its workers, and nothing else to do. */
  ghost function Pressure(ps: Pools, idle1: set<WorkerId>, idle2: set<WorkerId>): Load {
    Load(|ps.fuse.threads|, 0, 0, 0, 0, idle1, idle2, {})
  }

  lemma OneTaskEach(p: Pool)
    requires 0 < |p.threads| < WIDTH32
    ensures Ratio(|p.threads|, p) == 1
  {
    WrapSmall(|p.threads|);
    var n := |p.threads|;
    assert n / n == 1;
    WrapSmall(1);
  }

  lemma PressureRound(ps: Pools, start: Pools, idle1: set<WorkerId>, idle2: set<WorkerId>)
    requires Inv(ps, start) && Small(start) && 0 < |ps.fuse.threads| < WIDTH32 && ps.fuse.borrowed + 2 < WIDTH32
    requires HasIdleWorker(ps.http, idle1) || ps.fuse.borrowed == 0 || ps.http.threads == []
    ensures Round(ps, Pressure(ps, idle1, idle2)).Ok?
    ensures HasIdleWorker(ps.http, idle1) ==>
      |Round(ps, Pressure(ps, idle1, idle2)).value.http.threads| == |ps.http.threads| - 1
    ensures HasIdleWorker(ps.stats, idle2) ==>
      |Round(ps, Pressure(ps, idle1, idle2)).value.stats.threads| == |ps.stats.threads| - 1
    ensures !HasIdleWorker(ps.http, idle1) && ps.fuse.borrowed == 0 ==>
      Round(ps, Pressure(ps, idle1, idle2)).value.http == ps.http
  {
    RoundKeeps(ps, start, Pressure(ps, idle1, idle2));
    OneTaskEach(ps.fuse);
    NothingQueued(ps.http);
    NothingQueued(ps.stats);
  }

  /**
   The two donors of the fuse pool are not restored one by one: a worker lent by stats is handed back to http,
   so with every loan repaid http is one worker larger than before and stats one smaller.
   */
  lemma DonorsDrift(ps: Pools, start: Pools)
    requires Inv(ps, start) && Small(start)
    requires ps.fuse.borrowed == 0 && 0 < |ps.fuse.threads| < WIDTH32 - 1 && ps.stats.threads != []
    ensures var loads := [Pressure(ps, {}, {ps.stats.threads[0]}), Quiet()];
      && Rounds(ps, loads).Ok?
      && Rounds(ps, loads).value.fuse.borrowed == 0
      && |Rounds(ps, loads).value.http.threads| == |ps.http.threads| + 1
      && |Rounds(ps, loads).value.stats.threads| == |ps.stats.threads| - 1
  {
    var lend := Pressure(ps, {}, {ps.stats.threads[0]});
    var loads := [lend, Quiet()];
    assert HasIdleWorker(ps.stats, lend.idle2) by {
      assert ps.stats.flags[0] in lend.idle2;
    }
    PressureRound(ps, start, {}, lend.idle2);
    RoundKeeps(ps, start, lend);
    var lent := Round(ps, lend).value;
    assert loads[..1] == [lend];
    assert [lend][..0] == [];
    assert Rounds(ps, [lend]) == Ok(lent);
    Sizes(ps, start);
    Sizes(lent, start);
    assert lent.fuse.borrowed == 1;
    PayBack(lent, start);
    assert Rounds(ps, loads) == Round(lent, Quiet());
  }

  lemma PayBack(ps: Pools, start: Pools)
    requires Inv(ps, start) && Small(start) && ps.fuse.borrowed == 1
    ensures Round(ps, Quiet()).Ok?
    ensures Round(ps, Quiet()).value.fuse.borrowed == 0
    ensures |Round(ps, Quiet()).value.http.threads| == |ps.http.threads| + 1
    ensures Round(ps, Quiet()).value.stats == ps.stats
  {
  }
}
