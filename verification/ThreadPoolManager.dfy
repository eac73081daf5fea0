/** The pools and their manager as mutable objects; each method is proved to do what `ThreadPools` says of it. */
module ThreadPoolManagers {
  import opened Wrappers
  import opened ThreadPools

  class ThreadPool {
    var threads: seq<WorkerId>
    var idleFlags: seq<WorkerId>
    var borrowedCount: nat

    ghost function View(): Pool
      reads this
    {
      Pool(threads, idleFlags, borrowedCount)
    }

    /** Workers are spawned one at a time, each with a flag of its own. */
    constructor (from: WorkerId, n: nat)
      ensures View() == Spawned(from, n)
    {
      threads, idleFlags, borrowedCount := [], [], 0;
      new;
      for i := 0 to n
        invariant |threads| == i && threads == idleFlags && borrowedCount == 0
        invariant forall j :: 0 <= j < i ==> threads[j] == from + j
      {
        idleFlags := idleFlags + [from + i];
        threads := threads + [from + i];
      }
    }

    method HasIdle(idle: set<WorkerId>) returns (found: bool)
      ensures found <==> HasIdleWorker(View(), idle)
    {
      for i := 0 to |idleFlags|
        invariant forall j :: 0 <= j < i ==> idleFlags[j] !in idle
      {
        if idleFlags[i] in idle {
          return true;
        }
      }
      found := false;
    }

    method GiveWorker() returns (r: Result<Worker, PoolError>)
      requires |threads| == |idleFlags|
      modifies this
      ensures r.Ok? <==> Give(old(View())).Ok?
      ensures r.Ok? ==> Give(old(View())) == Ok((View(), r.value))
      ensures r.Err? ==> View() == old(View()) && Give(old(View())) == Err(r.error)
    {
      if threads == [] {
        return Err(NoWorkersToGive);
      }
      var t := threads[|threads| - 1];
      threads := threads[..|threads| - 1];
      var f := idleFlags[|idleFlags| - 1];
      idleFlags := idleFlags[..|idleFlags| - 1];
      borrowedCount := (borrowedCount - 1) % WIDTH32;
      r := Ok(Worker(t, f));
    }

    method AcceptWorker(w: Worker)
      modifies this
      ensures View() == Accept(old(View()), w)
    {
      threads := threads + [w.thread];
      idleFlags := idleFlags + [w.flag];
      borrowedCount := (borrowedCount + 1) % WIDTH32;
    }
  }

  class ThreadPoolManager {
    const fuse: ThreadPool
    const sync: ThreadPool
    const thumb: ThreadPool
    const http: ThreadPool
    const stats: ThreadPool

    ghost predicate Separate()
      reads this
    {
      && fuse != sync && fuse != thumb && fuse != http && fuse != stats
      && sync != thumb && sync != http && sync != stats
      && thumb != http && thumb != stats && http != stats
    }

    ghost function View(): Pools
      reads this, fuse, sync, thumb, http, stats
    {
      Pools(fuse.View(), sync.View(), thumb.View(), http.View(), stats.View())
    }

    constructor (hardware: nat)
      ensures Separate() && View() == Init(hardware)
      ensures fresh(fuse) && fresh(sync) && fresh(thumb) && fresh(http) && fresh(stats)
    {
      var wanted := (hardware * RESERVE_FACTOR) % WIDTH32;
      var total := if wanted < SAFETY_FLOOR then SAFETY_FLOOR else wanted;
      var base, rem := total / NUM_POOLS, total % NUM_POOLS;
      var fuseN := base + (if rem > 0 then 1 else 0);
      var syncN := base + (if rem > 1 then 1 else 0);
      var f := new ThreadPool(0, fuseN);
      var s := new ThreadPool(fuseN, syncN);
      var t := new ThreadPool(fuseN + syncN, base);
      var h := new ThreadPool(fuseN + syncN + base, base);
      var a := new ThreadPool(fuseN + syncN + 2 * base, base);
      fuse, sync, thumb, http, stats := f, s, t, h, a;
    }

    static method Reassign(hungry: ThreadPool, donor: ThreadPool, hungryRatio: nat, donorRatio: nat,
                           idle: set<WorkerId>) returns (r: Result<(), PoolError>)
      requires hungry != donor
      requires |hungry.threads| == |hungry.idleFlags| && |donor.threads| == |donor.idleFlags|
      modifies hungry, donor
      ensures var spec := MaybeReassign(old(hungry.View()), old(donor.View()), hungryRatio, donorRatio, idle);
        && (spec.Ok? ==> r.Ok? && (hungry.View(), donor.View()) == spec.value)
        && (spec.Err? ==> r == Err(spec.error)
                          && hungry.View() == old(hungry.View()) && donor.View() == old(donor.View()))
    {
      var steal := hungryRatio > (donorRatio * 4) % WIDTH32;
      if steal {
        steal := donor.HasIdle(idle);
      }
      if steal {
        var given := donor.GiveWorker();
        match given {
          case Ok(w) => hungry.AcceptWorker(w);
          case Err(e) => return Err(e);
        }
      } else if hungryRatio < 2 && hungry.borrowedCount > 0 {
        var given := hungry.GiveWorker();
        match given {
          case Ok(w) => donor.AcceptWorker(w);
          case Err(e) => return Err(e);
        }
      }
      r := Ok(());
    }

    method RatioOf(queue: nat, p: ThreadPool) returns (ratio: nat)
      ensures ratio == Ratio(queue, p.View())
    {
      var workers := |p.threads| % WIDTH32;
      ratio := (queue / if workers < 1 then 1 else workers) % WIDTH32;
    }

    /** One pass of the monitor: the ratios once, then three comparisons. `start` is the state at start-up. */
    method Rebalance(l: Load, ghost start: Pools) returns (r: Result<(), PoolError>)
      requires Separate() && Inv(View(), start) && Small(start)
      modifies fuse, sync, thumb, http, stats
      ensures r.Ok?
      ensures Round(old(View()), l) == Ok(View())
      ensures Inv(View(), start)
    {
      RoundKeeps(View(), start, l);
      var fuseRatio := RatioOf(l.fuseQ, fuse);
      var syncRatio := RatioOf(l.syncQ, sync);
      var httpRatio := RatioOf(l.httpQ, http);
      var thumbRatio := RatioOf(l.thumbQ, thumb);
      var statsRatio := RatioOf(l.statsQ, stats);
      hide MaybeReassign, Ratio, Inv;
      ReassignPairs(fuse.View(), http.View(), fuseRatio, httpRatio, l.idle1);
      r := Reassign(fuse, http, fuseRatio, httpRatio, l.idle1);
      if r.Err? {
        return;
      }
      ReassignPairs(fuse.View(), stats.View(), fuseRatio, statsRatio, l.idle2);
      r := Reassign(fuse, stats, fuseRatio, statsRatio, l.idle2);
      if r.Err? {
        return;
      }
      r := Reassign(sync, thumb, syncRatio, thumbRatio, l.idle3);
    }
  }
}
