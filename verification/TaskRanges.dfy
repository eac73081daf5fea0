/** How a batch of operations is split into index ranges for worker tasks, and what the ranges cover. */
module TaskRanges {
  import opened Wrappers

  const UINT32_LIMIT := 0x1_0000_0000

  /** The half-open index range `[begin, end)` one task works on. */
  datatype Range = Range(begin: nat, end: nat)

  function Min(a: nat, b: nat): nat {
    if a <= b then a else b
  }

  /** Tasks used; `None` where the source divides by zero. */
  function NumTasks(total: nat, maxThreads: nat, minPerTask: nat): Option<nat> {
    if minPerTask == 0 then None
    else
      var tasks := Min(total / minPerTask, maxThreads);
      if tasks == 0 then None else Some(tasks)
  }

  /** The i-th range: the first `total % tasks` ranges end one index late, but none starts late. */
  function TaskRange(total: nat, tasks: nat, i: nat): Range
    requires 0 < tasks && i < tasks
  {
    var each := total / tasks;
    Range(i * each, i * each + each + if i < total % tasks then 1 else 0)
  }

  function Ranges(total: nat, tasks: nat): (rs: seq<Range>)
    requires 0 < tasks
    ensures |rs| == tasks
  {
    seq(tasks, i requires 0 <= i < tasks => TaskRange(total, tasks, i))
  }

  lemma MulOrder(a: nat, b: nat, c: nat)
    ensures a <= b ==> a * c <= b * c
  {
  }

  lemma DivSplit(total: nat, tasks: nat)
    requires 0 < tasks <= total
    ensures total / tasks >= 1
    ensures tasks * (total / tasks) == total - total % tasks
    ensures total % tasks < tasks
  {
  }

  /** Every range is non-empty and within bounds, so no task is refused and no 32-bit value wraps. */
  lemma RangeInBounds(total: nat, tasks: nat, i: nat)
    requires 0 < tasks <= total && i < tasks
    ensures var r := TaskRange(total, tasks, i);
      r.begin < r.end <= total - total % tasks
  {
    var each := total / tasks;
    DivSplit(total, tasks);
    assert i * each + each == (i + 1) * each;
    MulOrder(i + 1, tasks, each);
    if i < total % tasks {
      MulOrder(i + 2, tasks, each);
      assert (i + 2) * each == (i + 1) * each + each;
    }
  }

  method GetTaskOperationRanges(total: nat, maxThreads: nat, minPerTask: nat) returns (ranges: Option<seq<Range>>)
    requires total < UINT32_LIMIT && maxThreads < UINT32_LIMIT && minPerTask < UINT32_LIMIT
    ensures ranges.None? <==> NumTasks(total, maxThreads, minPerTask).None?
    ensures ranges.Some? ==> ranges.value == Ranges(total, NumTasks(total, maxThreads, minPerTask).value)
  {
    if minPerTask == 0 {
      return None;
    }
    var numThreads := Min(total / minPerTask, maxThreads);
    if numThreads == 0 {
      return None;
    }
    TasksWithinTotal(total, maxThreads, minPerTask);
    var operationsPerTask := total / numThreads;
    var remainder := total % numThreads;
    var out: seq<Range> := [];
    for i := 0 to numThreads
      invariant |out| == i
      invariant forall j :: 0 <= j < i ==> out[j] == TaskRange(total, numThreads, j)
    {
      RangeInBounds(total, numThreads, i);
      var begin := i * operationsPerTask;
      var end := begin + operationsPerTask;
      if i < remainder {
        end := end + 1;
      }
      assert end < UINT32_LIMIT;
      if begin < total {
        out := out + [Range(begin, end)];
      }
    }
    assert out == Ranges(total, numThreads);
    ranges := Some(out);
  }

  lemma TasksWithinTotal(total: nat, maxThreads: nat, minPerTask: nat)
    requires NumTasks(total, maxThreads, minPerTask).Some?
    ensures 0 < NumTasks(total, maxThreads, minPerTask).value <= total
  {
    assert total / minPerTask <= total by {
      if total / minPerTask > total {
        MulOrder(total + 1, total / minPerTask, minPerTask);
        MulOrder(1, minPerTask, total + 1);
      }
    }
  }

  /** The split is defined exactly from `minPerTask` operations on, given a thread to run them. */
  lemma SplitDefined(total: nat, maxThreads: nat, minPerTask: nat)
    ensures NumTasks(total, maxThreads, minPerTask).Some? <==> minPerTask > 0 && total >= minPerTask && maxThreads >= 1
  {
  }

  // ---------------------------------------------------------------- coverage

  function TotalLength(rs: seq<Range>): int {
    if rs == [] then 0 else TotalLength(rs[..|rs| - 1]) + rs[|rs| - 1].end - rs[|rs| - 1].begin
  }

  lemma RangeLength(total: nat, tasks: nat, i: nat)
    requires 0 < tasks <= total && i < tasks
    ensures |Ranges(total, tasks)| == tasks
    ensures Ranges(total, tasks)[i].end - Ranges(total, tasks)[i].begin
         == total / tasks + if i < total % tasks then 1 else 0
  {
  }

  lemma StepLength(each: nat, k: nat)
    requires k > 0
    ensures (k - 1) * each + each == k * each
  {
  }

  lemma {:induction false} PrefixLength(total: nat, tasks: nat, k: nat)
    requires 0 < tasks <= total && k <= tasks
    ensures TotalLength(Ranges(total, tasks)[..k]) == k * (total / tasks) + Min(k, total % tasks)
  {
    if k > 0 {
      var rs := Ranges(total, tasks);
      PrefixLength(total, tasks, k - 1);
      assert rs[..k][..k - 1] == rs[..k - 1];
      RangeLength(total, tasks, k - 1);
      hide Ranges;
      StepLength(total / tasks, k);
    }
  }

  /** The tasks that work on index `k`. */
  function Covering(rs: seq<Range>, k: nat): set<nat> {
    set i: nat | i < |rs| && rs[i].begin <= k < rs[i].end
  }

  /** An inner boundary whose left range runs over it. */
  predicate DoubledBoundary(total: nat, tasks: nat, k: nat)
    requires 0 < tasks <= total
  {
    var each := total / tasks;
    each > 0 && k % each == 0 && 1 <= k / each <= total % tasks
  }

  /** A block of length `each`, run over by `extra` index: which indices it holds. */
  lemma BlockHolds(each: nat, extra: nat, i: nat, k: nat)
    requires each > 0 && extra <= 1
    ensures i * each <= k < i * each + each + extra <==>
      i == k / each || (extra == 1 && k % each == 0 && i + 1 == k / each)
  {
    var q := k / each;
    assert k == q * each + k % each;
    MulOrder(i + 1, q, each);
    MulOrder(i + 2, q, each);
    MulOrder(q + 1, i, each);
    assert (i + 1) * each == i * each + each;
    assert (i + 2) * each == i * each + each + each;
    assert (q + 1) * each == q * each + each;
  }

  lemma BlockIndex(each: nat, tasks: nat, k: nat)
    requires each > 0
    ensures k < tasks * each <==> k / each < tasks
  {
    var q := k / each;
    assert k == q * each + k % each;
    MulOrder(tasks, q, each);
    MulOrder(q + 1, tasks, each);
    assert (q + 1) * each == q * each + each;
  }

  lemma CoversOnly(total: nat, tasks: nat, k: nat, i: nat)
    requires 0 < tasks <= total && i < tasks
    ensures TaskRange(total, tasks, i).begin <= k < TaskRange(total, tasks, i).end <==>
      i == k / (total / tasks) || (DoubledBoundary(total, tasks, k) && i + 1 == k / (total / tasks))
  {
    DivSplit(total, tasks);
    BlockHolds(total / tasks, if i < total % tasks then 1 else 0, i, k);
  }

  /** The tasks that ought to be found at index `k`. */
  function CoverAt(total: nat, tasks: nat, k: nat): set<nat>
    requires 0 < tasks <= total
  {
    var each := total / tasks;
    if each == 0 || k >= total - total % tasks then {}
    else if DoubledBoundary(total, tasks, k) then {k / each, k / each - 1}
    else {k / each}
  }

  lemma CoveringAt(total: nat, tasks: nat, k: nat)
    requires 0 < tasks <= total && k < total
    ensures Covering(Ranges(total, tasks), k) == CoverAt(total, tasks, k)
  {
    var rs, each := Ranges(total, tasks), total / tasks;
    DivSplit(total, tasks);
    BlockIndex(each, tasks, k);
    forall i: nat
      ensures i in Covering(rs, k) <==> i in CoverAt(total, tasks, k)
    {
      if i < tasks {
        assert rs[i] == TaskRange(total, tasks, i);
        CoversOnly(total, tasks, k, i);
      }
    }
  }

  /**
   What the ranges cover. The lengths always add up to the number of operations, but each index is worked
   on by the task of its block, by two tasks at the first `total % tasks` inner block boundaries, and by
   none at all among the last `total % tasks` indices.
   */
  lemma Coverage(total: nat, tasks: nat)
    requires 0 < tasks <= total
    ensures TotalLength(Ranges(total, tasks)) == total
    ensures forall k: nat :: k < total ==> Covering(Ranges(total, tasks), k) == CoverAt(total, tasks, k)
  {
    DivSplit(total, tasks);
    PrefixLength(total, tasks, tasks);
    assert Ranges(total, tasks)[..tasks] == Ranges(total, tasks);
    forall k: nat | k < total
      ensures Covering(Ranges(total, tasks), k) == CoverAt(total, tasks, k)
    {
      CoveringAt(total, tasks, k);
    }
  }

  ghost predicate ExactPartition(rs: seq<Range>, total: nat) {
    forall k: nat :: k < total ==> |Covering(rs, k)| == 1
  }

  /** The split is the partition it is meant to be exactly when the tasks divide the operations evenly. */
  lemma PartitionIffEven(total: nat, tasks: nat)
    requires 0 < tasks <= total
    ensures ExactPartition(Ranges(total, tasks), total) <==> total % tasks == 0
  {
    var rs := Ranges(total, tasks);
    DivSplit(total, tasks);
    Coverage(total, tasks);
    if total % tasks == 0 {
      forall k: nat | k < total
        ensures |Covering(rs, k)| == 1
      {
        assert CoverAt(total, tasks, k) == {k / (total / tasks)};
      }
    } else {
      assert Covering(rs, total - 1) == {};
    }
  }
}
