/**
 Paging through a directory: what one `readdir` call puts in its buffer, and what a reader that follows
 the offsets sees.
 */
module ReadDir {

  /** A name as it goes into the buffer, and the bytes it takes there. */
  datatype DirEntry = DirEntry(name: string, size: nat)

  /** An entry in a page, with the offset a reader passes to continue after it. */
  datatype Record = Record(entry: DirEntry, next: int)

  /** The two links every directory starts with, then its entries. */
  function Listing(dot: DirEntry, dotdot: DirEntry, entries: seq<DirEntry>): seq<DirEntry> {
    [dot, dotdot] + entries
  }

  function Bytes(list: seq<DirEntry>): nat {
    if list == [] then 0 else Bytes(list[..|list| - 1]) + list[|list| - 1].size
  }

  /** Entries `from` up to `to`, as records. */
  function Records(list: seq<DirEntry>, from: nat, to: nat): (r: seq<Record>)
    requires from <= to <= |list|
    ensures |r| == to - from
    ensures forall i :: 0 <= i < |r| ==> r[i] == Record(list[from + i], from + i + 1)
  {
    seq(to - from, i requires 0 <= i < to - from => Record(list[from + i], from + i + 1))
  }

  function Start(off: int): nat {
    if off < 0 then 0 else off
  }

  /** A page stops at `to`: everything up to there fits, and the next entry, if there is one, does not. */
  ghost predicate StopsAt(list: seq<DirEntry>, off: int, size: nat, to: nat) {
    && Start(off) <= to <= |list|
    && Bytes(list[Start(off)..to]) <= size
    && (to < |list| ==> Bytes(list[Start(off)..to + 1]) > size)
  }

  lemma BytesSnoc(list: seq<DirEntry>, from: nat, to: nat)
    requires from <= to < |list|
    ensures Bytes(list[from..to + 1]) == Bytes(list[from..to]) + list[to].size
  {
    assert list[from..to + 1][..to - from] == list[from..to];
  }

  lemma {:induction false} BytesGrow(list: seq<DirEntry>, from: nat, a: nat, b: nat)
    requires from <= a <= b <= |list|
    ensures Bytes(list[from..a]) <= Bytes(list[from..b])
    decreases b - a
  {
    if a < b {
      BytesGrow(list, from, a, b - 1);
      BytesSnoc(list, from, b - 1);
    }
  }

  /** There is one such place, so a page is determined by the offset and the buffer size. */
  lemma StopsAtOnePlace(list: seq<DirEntry>, off: int, size: nat, a: nat, b: nat)
    requires StopsAt(list, off, size, a) && StopsAt(list, off, size, b)
    ensures a == b
  {
    if a < b {
      BytesGrow(list, Start(off), a + 1, b);
    } else if b < a {
      BytesGrow(list, Start(off), b + 1, a);
    }
  }

  /** Where a page that starts at `off` stops. */
  function Stop(list: seq<DirEntry>, from: nat, size: nat): (to: nat)
    requires from <= |list|
    ensures from <= to <= |list|
    decreases |list| - from
  {
    if from < |list| && list[from].size <= size then Stop(list, from + 1, size - list[from].size) else from
  }

  lemma {:induction false} BytesFirst(list: seq<DirEntry>, from: nat, end: nat)
    requires from < end <= |list|
    ensures Bytes(list[from..end]) == list[from].size + Bytes(list[from + 1..end])
    decreases end
  {
    if from + 1 < end {
      BytesFirst(list, from, end - 1);
      BytesSnoc(list, from, end - 1);
      BytesSnoc(list, from + 1, end - 1);
    } else {
      assert list[from..end] == [list[from]];
      assert list[from..end][..0] == [];
      assert list[from + 1..end] == [];
    }
  }

  lemma {:induction false} StopIsTheStop(list: seq<DirEntry>, from: nat, size: nat)
    requires from <= |list|
    ensures StopsAt(list, from, size, Stop(list, from, size))
    decreases |list| - from
  {
    var to := Stop(list, from, size);
    if from < |list| && list[from].size <= size {
      hide Bytes;
      StopIsTheStop(list, from + 1, size - list[from].size);
      BytesFirst(list, from, to);
      if to < |list| {
        BytesFirst(list, from, to + 1);
      }
    } else {
      StopsAtOnce(list, from, size);
    }
  }

  lemma StopsAtOnce(list: seq<DirEntry>, from: nat, size: nat)
    requires from <= |list| && (from < |list| ==> list[from].size > size)
    ensures StopsAt(list, from, size, from)
  {
    assert list[from..from] == [];
    if from < |list| {
      BytesFirst(list, from, from + 1);
      assert list[from + 1..from + 1] == [];
    }
  }

  /** The page one call returns: from the offset on, as far as the buffer goes; past the end, nothing. */
  function Page(list: seq<DirEntry>, off: int, size: nat): seq<Record> {
    var from := Start(off);
    if from > |list| then [] else Records(list, from, Stop(list, from, size))
  }

  lemma PageStopsThere(list: seq<DirEntry>, off: int, size: nat, to: nat)
    requires StopsAt(list, off, size, to)
    ensures Page(list, off, size) == Records(list, Start(off), to)
  {
    StopIsTheStop(list, Start(off), size);
    StopsAtOnePlace(list, off, size, to, Stop(list, Start(off), size));
  }

  /** The reply buffer of one call. */
  class Buffer {
    const size: nat
    var used: nat
    var page: seq<Record>

    constructor (size: nat)
      ensures this.size == size && used == 0 && page == []
    {
      this.size, used, page := size, 0, [];
    }

    /** Appends an entry if it fits in what is left. */
    method AddEntry(e: DirEntry, next: int) returns (fits: bool)
      modifies this
      ensures fits <==> old(used) + e.size <= size
      ensures page == if fits then old(page) + [Record(e, next)] else old(page)
      ensures used == if fits then old(used) + e.size else old(used)
    {
      if used + e.size > size {
        return false;
      }
      page := page + [Record(e, next)];
      used := used + e.size;
      fits := true;
    }
  }

  /** The buffer once the entries before `at` have been considered. */
  ghost predicate FilledTo(page: seq<Record>, used: nat, list: seq<DirEntry>, from: nat, at: nat, size: nat) {
    && at <= |list|
    && (if from <= at then page == Records(list, from, at) && used == Bytes(list[from..at]) <= size
        else page == [] && used == 0)
  }

  lemma NothingYet(list: seq<DirEntry>, from: nat, size: nat)
    ensures FilledTo([], 0, list, from, 0, size)
  {
    if from == 0 {
      assert list[0..0] == [];
    }
  }

  /** Considering one more entry: skipped if it comes before the offset, else added if it fits. */
  lemma Consider(page: seq<Record>, used: nat, list: seq<DirEntry>, off: int, at: nat, size: nat)
    requires FilledTo(page, used, list, Start(off), at, size) && at < |list|
    ensures off > at ==> FilledTo(page, used, list, Start(off), at + 1, size)
    ensures off <= at && used + list[at].size <= size ==>
      FilledTo(page + [Record(list[at], at + 1)], used + list[at].size, list, Start(off), at + 1, size)
    ensures off <= at && used + list[at].size > size ==>
      page == Page(list, off, size)
  {
    var from := Start(off);
    if off > at {
      assert from == at + 1 ==> list[from..at + 1] == [];
    } else {
      BytesSnoc(list, from, at);
      if used + list[at].size > size {
        PageStopsThere(list, off, size, at);
      }
    }
  }

  lemma WholeList(page: seq<Record>, used: nat, list: seq<DirEntry>, off: int, size: nat)
    requires FilledTo(page, used, list, Start(off), |list|, size)
    ensures page == Page(list, off, size)
  {
    if Start(off) <= |list| {
      PageStopsThere(list, off, size, |list|);
    }
  }

  /**
   One call: from the entry at the offset on, every entry that fits, each with the offset of the one after it,
   stopping at the first that does not. Past the end the page is empty.
   */
  method ReadDirectory(dot: DirEntry, dotdot: DirEntry, entries: seq<DirEntry>, size: nat, off: int)
    returns (page: seq<Record>)
    ensures page == Page(Listing(dot, dotdot, entries), off, size)
  {
    hide FilledTo, Bytes, Page;
    ghost var list := Listing(dot, dotdot, entries);
    var buf := new Buffer(size);
    var current := 0;
    NothingYet(list, Start(off), size);
    Consider(buf.page, buf.used, list, off, 0, size);
    if off <= current {
      var fits := buf.AddEntry(dot, current + 1);
      if !fits {
        return buf.page;
      }
    }
    current := current + 1;
    Consider(buf.page, buf.used, list, off, 1, size);
    if off <= current {
      var fits := buf.AddEntry(dotdot, current + 1);
      if !fits {
        return buf.page;
      }
    }
    current := current + 1;
    for i := 0 to |entries|
      invariant current == i + 2
      invariant FilledTo(buf.page, buf.used, list, Start(off), current, size)
    {
      Consider(buf.page, buf.used, list, off, current, size);
      if off <= current {
        assert list[current] == entries[i];
        var fits := buf.AddEntry(entries[i], current + 1);
        if !fits {
          return buf.page;
        }
      }
      current := current + 1;
    }
    WholeList(buf.page, buf.used, list, off, size);
    page := buf.page;
  }

  // ---------------------------------------------------------------- reading a whole directory

  /** What a reader has after a run of calls with these buffer sizes, each starting where the last page ended. */
  function Collected(list: seq<DirEntry>, sizes: seq<nat>): seq<Record> {
    if sizes == [] then []
    else
      var front := sizes[..|sizes| - 1];
      var off := Reached(list, front);
      Collected(list, front) + Records(list, off, Stop(list, off, sizes[|sizes| - 1]))
  }

  /** The offset the reader passes next: the one in the last record it got, or 0 if it has none yet. */
  function Reached(list: seq<DirEntry>, sizes: seq<nat>): (off: nat)
    ensures off <= |list|
  {
    if sizes == [] then 0 else Stop(list, Reached(list, sizes[..|sizes| - 1]), sizes[|sizes| - 1])
  }

  /** Nothing is skipped and nothing repeated, whatever the buffer sizes. */
  lemma {:induction false} CollectsAPrefix(list: seq<DirEntry>, sizes: seq<nat>)
    ensures Collected(list, sizes) == Records(list, 0, Reached(list, sizes))
    ensures Reached(list, sizes) == if Collected(list, sizes) == [] then 0
                                    else Collected(list, sizes)[|Collected(list, sizes)| - 1].next
  {
    if sizes != [] {
      CollectsAPrefix(list, sizes[..|sizes| - 1]);
    }
  }

  /** A page is empty at the end of the directory, or where the next entry alone is too big for the buffer. */
  lemma EmptyPage(list: seq<DirEntry>, from: nat, size: nat)
    requires from <= |list|
    ensures Stop(list, from, size) == from <==> from == |list| || list[from].size > size
  {
    if from < |list| && list[from].size <= size {
      assert Stop(list, from, size) >= from + 1;
    }
  }

  predicate FitsLargest(list: seq<DirEntry>, size: nat) {
    forall i :: 0 <= i < |list| ==> list[i].size <= size
  }

  /**
   The paging theorem. With buffers that hold the largest entry, a reader that goes on until it gets an empty page
   gets one, after at most as many calls as there are entries and one more; and it then has "." and ".." and every
   entry, once each and in order.
   */
  lemma {:induction false} PagingTerminates(list: seq<DirEntry>, sizes: seq<nat>)
    requires forall i :: 0 <= i < |sizes| ==> FitsLargest(list, sizes[i])
    ensures Reached(list, sizes) == |list| || Reached(list, sizes) >= |sizes|
    ensures |sizes| >= |list| ==> Collected(list, sizes) == Records(list, 0, |list|)
  {
    CollectsAPrefix(list, sizes);
    if sizes != [] {
      var front, last := sizes[..|sizes| - 1], sizes[|sizes| - 1];
      PagingTerminates(list, front);
      var off := Reached(list, front);
      EmptyPage(list, off, last);
    }
  }

  lemma EmptyMeansDone(list: seq<DirEntry>, sizes: seq<nat>, size: nat)
    requires FitsLargest(list, size)
    requires Stop(list, Reached(list, sizes), size) == Reached(list, sizes)
    ensures Collected(list, sizes) == Records(list, 0, |list|)
  {
    CollectsAPrefix(list, sizes);
    EmptyPage(list, Reached(list, sizes), size);
  }

  /** The reader: it keeps asking, with one buffer size, until a page comes back empty. */
  method ReadAll(dot: DirEntry, dotdot: DirEntry, entries: seq<DirEntry>, size: nat) returns (all: seq<Record>)
    requires FitsLargest(Listing(dot, dotdot, entries), size)
    ensures all == Records(Listing(dot, dotdot, entries), 0, |entries| + 2)
  {
    ghost var list := Listing(dot, dotdot, entries);
    all := [];
    var off := 0;
    var page := ReadDirectory(dot, dotdot, entries, size, 0);
    while page != []
      invariant 0 <= off <= |list| && page == Page(list, off, size)
      invariant all == Records(list, 0, off)
      decreases |list| - off, |page|
    {
      all := all + page;
      off := page[|page| - 1].next;
      page := ReadDirectory(dot, dotdot, entries, size, off);
    }
    EmptyPage(list, off, size);
  }
}
