/** The prune as it runs on a log directory: gather, sort, remove by age, gather and sort again, remove by size. */
module LogRotators {
  import opened Wrappers
  import opened LogPrune

  class Rotator {
    const opts: Options
    var dir: Directory

    constructor (o: Options, d: Directory)
      ensures opts == o && dir == d
    {
      opts, dir := o, d;
    }

    /** The rotated files, in directory order. */
    method Gather() returns (found: seq<Name>)
      ensures forall n :: n in found <==> n in Rotated(opts, dir)
      ensures forall i, j :: 0 <= i < j < |found| ==> found[i] != found[j]
    {
      found := [];
      var ahead := dir.Keys;
      while ahead != {}
        invariant ahead <= dir.Keys
        invariant forall n :: n in found <==> n in Rotated(opts, dir) && n !in ahead
        invariant forall i, j :: 0 <= i < j < |found| ==> found[i] != found[j]
        decreases |ahead|
      {
        var n :| n in ahead;
        ahead := ahead - {n};
        if dir[n].regular && opts.filter.Some? && opts.filter.value(n) {
          found := found + [n];
        }
      }
    }

    method InsertByAge(sorted: seq<Name>, x: Name, ghost files: set<Name>) returns (r: seq<Name>)
      requires OldestFirst(dir, sorted, files) && x !in files && x in dir
      ensures OldestFirst(dir, r, files + {x})
    {
      var i := |sorted|;
      while i > 0 && dir[x].mtime < dir[sorted[i - 1]].mtime
        invariant 0 <= i <= |sorted|
        invariant forall j :: i <= j < |sorted| ==> dir[x].mtime < dir[sorted[j]].mtime
      {
        i := i - 1;
      }
      InsertKeepsOldestFirst(dir, sorted, x, i, files);
      r := sorted[..i] + [x] + sorted[i..];
    }

    method SortByAge(found: seq<Name>) returns (sorted: seq<Name>)
      requires forall n :: n in found ==> n in dir
      requires forall i, j :: 0 <= i < j < |found| ==> found[i] != found[j]
      ensures OldestFirst(dir, sorted, Elements(found))
    {
      sorted := [];
      for i := 0 to |found|
        invariant OldestFirst(dir, sorted, Elements(found[..i]))
      {
        sorted := InsertByAge(sorted, found[i], Elements(found[..i]));
        assert found[..i + 1] == found[..i] + [found[i]];
        assert Elements(found[..i + 1]) == Elements(found[..i]) + {found[i]};
      }
      assert found[..|found|] == found;
    }

    method SortedRotated() returns (sorted: seq<Name>)
      ensures OldestFirst(dir, sorted, Rotated(opts, dir))
    {
      var found := Gather();
      sorted := SortByAge(found);
      assert Elements(found) == Rotated(opts, dir);
    }

    /** Removes what is strictly older than the retention window. */
    method AgePrune(sorted: seq<Name>, now: Time)
      requires OldestFirst(dir, sorted, Rotated(opts, dir))
      modifies this
      ensures dir == old(dir) - Expired(opts, old(dir), now)
    {
      var floor := now - opts.retention;
      for i := 0 to |sorted|
        invariant dir == old(dir) - (Elements(sorted[..i]) * Expired(opts, old(dir), now))
      {
        ghost var expired := Expired(opts, old(dir), now);
        assert sorted[i] !in sorted[..i] && sorted[i] in Rotated(opts, old(dir));
        assert sorted[..i + 1] == sorted[..i] + [sorted[i]];
        assert sorted[i] in expired <==> old(dir)[sorted[i]].mtime < floor;
        assert Elements(sorted[..i + 1]) * expired
            == Elements(sorted[..i]) * expired + if sorted[i] in expired then {sorted[i]} else {};
        if dir[sorted[i]].mtime < floor {
          dir := dir - {sorted[i]};
        }
      }
      assert sorted[..|sorted|] == sorted;
      assert Elements(sorted) * Expired(opts, old(dir), now) == Expired(opts, old(dir), now);
    }

    method TotalBytes(sorted: seq<Name>) returns (total: nat)
      requires forall n :: n in sorted ==> n in dir
      ensures total == Bytes(dir, sorted) % WIDTH64
    {
      total := 0;
      for i := 0 to |sorted|
        invariant total == Bytes(dir, sorted[..i]) % WIDTH64
      {
        assert sorted[..i + 1][..i] == sorted[..i];
        WrappedSum(Bytes(dir, sorted[..i]), dir[sorted[i]].size);
        total := (total + dir[sorted[i]].size) % WIDTH64;
      }
      assert sorted[..|sorted|] == sorted;
    }

    /** Removes the oldest files while the total is over the cap. */
    method SizePrune(sorted: seq<Name>, cap: nat) returns (ghost k: nat)
      requires forall n :: n in sorted ==> n in dir
      requires forall i, j :: 0 <= i < j < |sorted| ==> sorted[i] != sorted[j]
      modifies this
      ensures IsCut(old(dir), sorted, cap, k)
      ensures dir == old(dir) - Elements(sorted[..k])
    {
      var total := TotalBytes(sorted);
      assert sorted[..0] == [];
      var idx := 0;
      while total > cap && idx < |sorted|
        invariant 0 <= idx <= |sorted|
        invariant total == Remaining(old(dir), sorted, idx)
        invariant forall j :: 0 <= j < idx ==> Remaining(old(dir), sorted, j) > cap
        invariant dir == old(dir) - Elements(sorted[..idx])
      {
        var victim := sorted[idx];
        assert victim !in sorted[..idx];
        assert sorted[..idx + 1] == sorted[..idx] + [victim];
        assert Elements(sorted[..idx + 1]) == Elements(sorted[..idx]) + {victim};
        var size := dir[victim].size;
        dir := dir - {victim};
        total := if size > total then 0 else total - size;
        idx := idx + 1;
      }
      k := idx;
      assert sorted[..|sorted|] == sorted;
      NothingRemains(old(dir), sorted);
    }

    /** The whole prune, proved to be one that `LogPrune` describes. */
    method PruneImpl(now: Time) returns (ghost order: seq<Name>, ghost k: nat)
      modifies this
      ensures Prunes(opts, old(dir), now, order, k, dir)
    {
      var before := SortedRotated();
      AgePrune(before, now);
      var sorted := SortedRotated();
      order, k := sorted, 0;
      assert sorted[..0] == [];
      assert dir - {} == dir;
      if !opts.strict && opts.cap.Some? {
        k := SizePrune(sorted, opts.cap.value);
      }
    }
  }

  lemma WrappedSum(sum: nat, more: nat)
    ensures (sum % WIDTH64 + more) % WIDTH64 == (sum + more) % WIDTH64
  {
  }

  lemma NothingRemains(dir: Directory, order: seq<Name>)
    requires forall n :: n in order ==> n in dir
    ensures Remaining(dir, order, |order|) == 0
  {
    assert order[..|order|] == order;
  }
}
