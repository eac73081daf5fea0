/** Which rotated log files a prune removes: those past the retention window, then the oldest beyond the size cap. */
module LogPrune {
  import opened Wrappers

  type Name = string
  type Time = int

  const WIDTH64: nat := 0x1_0000_0000_0000_0000

  datatype Stat = Stat(mtime: Time, size: nat, regular: bool)

  type Directory = map<Name, Stat>

  /** `filter` recognises rotated files; without one nothing is ever pruned. */
  datatype Options = Options(filter: Option<Name -> bool>, retention: int, strict: bool, cap: Option<nat>) {
    predicate IsRotated(dir: Directory, n: Name) {
      n in dir && dir[n].regular && filter.Some? && filter.value(n)
    }

    predicate CapsSize() {
      !strict && cap.Some?
    }
  }

  function Rotated(o: Options, dir: Directory): set<Name> {
    set n | n in dir && o.IsRotated(dir, n)
  }

  function Expired(o: Options, dir: Directory, now: Time): set<Name> {
    set n | n in dir && o.IsRotated(dir, n) && dir[n].mtime < now - o.retention
  }

  function Elements(s: seq<Name>): set<Name> {
    set n | n in s
  }

  /** The rotated files, oldest first; files of the same age in any order. */
  ghost predicate OldestFirst(dir: Directory, order: seq<Name>, files: set<Name>) {
    && (forall n :: n in order <==> n in files)
    && (forall i, j :: 0 <= i < j < |order| ==> order[i] != order[j])
    && (forall n :: n in order ==> n in dir)
    && (forall i, j :: 0 <= i < j < |order| ==> dir[order[i]].mtime <= dir[order[j]].mtime)
  }

  /** The bytes of a list of files. */
  function Bytes(dir: Directory, order: seq<Name>): nat
    requires forall n :: n in order ==> n in dir
  {
    if order == [] then 0 else Bytes(dir, order[..|order| - 1]) + dir[order[|order| - 1]].size
  }

  /** The running total after the first `k` removals: 64 bits wide, and held at zero. */
  function Remaining(dir: Directory, order: seq<Name>, k: nat): nat
    requires k <= |order| && forall n :: n in order ==> n in dir
  {
    var total, gone := Bytes(dir, order) % WIDTH64, Bytes(dir, order[..k]);
    if gone > total then 0 else total - gone
  }

  /** The files the size phase removes: `k` of them, as few as bring the running total to the cap. */
  ghost predicate IsCut(dir: Directory, order: seq<Name>, cap: nat, k: nat)
    requires forall n :: n in order ==> n in dir
  {
    && k <= |order|
    && Remaining(dir, order, k) <= cap
    && forall j :: 0 <= j < k ==> Remaining(dir, order, j) > cap
  }

  /** What a prune does to a directory, given the order it sorted the survivors into and where it stopped. */
  ghost predicate Prunes(o: Options, before: Directory, now: Time, order: seq<Name>, k: nat, after: Directory) {
    var aged := before - Expired(o, before, now);
    && OldestFirst(aged, order, Rotated(o, aged))
    && (if o.CapsSize() then IsCut(aged, order, o.cap.value, k) else k == 0)
    && k <= |order|
    && after == aged - Elements(order[..k])
  }

  // ---------------------------------------------------------------- what that guarantees

  /** Which files a prune leaves. */
  lemma WhatIsLeft(o: Options, before: Directory, now: Time, order: seq<Name>, k: nat, after: Directory, n: Name)
    requires Prunes(o, before, now, order, k, after)
    ensures n in after <==>
      n in before && !(o.IsRotated(before, n) && before[n].mtime < now - o.retention) && n !in order[..k]
    ensures n in after ==> after[n] == before[n]
    ensures n in order ==> o.IsRotated(before, n) && before[n].mtime >= now - o.retention
  {
    assert n in Expired(o, before, now) <==>
      n in before && o.IsRotated(before, n) && before[n].mtime < now - o.retention;
    assert n in order ==> n in Rotated(o, before - Expired(o, before, now));
  }

  /** Nothing past the window is left, and only rotated files go. */
  lemma NoneOlderLeft(o: Options, before: Directory, now: Time, order: seq<Name>, k: nat, after: Directory, n: Name)
    requires Prunes(o, before, now, order, k, after)
    ensures o.IsRotated(after, n) ==> after[n].mtime >= now - o.retention
    ensures n in after ==> n in before && after[n] == before[n]
    ensures n in before && !o.IsRotated(before, n) ==> n in after
  {
    WhatIsLeft(o, before, now, order, k, after, n);
  }

  /** Under strict retention, or with no cap, exactly the files past the window go. */
  lemma StrictKeepsTheWindow(o: Options, before: Directory, now: Time, order: seq<Name>, k: nat, after: Directory,
                             n: Name)
    requires Prunes(o, before, now, order, k, after) && !o.CapsSize() && n in before
    ensures n !in after <==> o.IsRotated(before, n) && before[n].mtime < now - o.retention
  {
    WhatIsLeft(o, before, now, order, k, after, n);
  }

  lemma {:induction false} BytesSplit(dir: Directory, order: seq<Name>, k: nat)
    requires k <= |order| && forall n :: n in order ==> n in dir
    ensures Bytes(dir, order) == Bytes(dir, order[..k]) + Bytes(dir, order[k..])
  {
    if k == |order| {
      assert order[..k] == order;
    } else {
      var front := order[..|order| - 1];
      BytesSplit(dir, front, k);
      assert front[..k] == order[..k];
      assert order[k..][..|order| - k - 1] == front[k..];
    }
  }

  lemma {:induction false} BytesElsewhere(dir: Directory, other: Directory, order: seq<Name>)
    requires forall n :: n in order ==> n in dir && n in other && dir[n] == other[n]
    ensures Bytes(dir, order) == Bytes(other, order)
  {
    if order != [] {
      BytesElsewhere(dir, other, order[..|order| - 1]);
    }
  }

  /** The rotated files left are exactly the newer end of the list. */
  lemma SurvivorsAreTheNewest(o: Options, before: Directory, now: Time, order: seq<Name>, k: nat, after: Directory)
    requires Prunes(o, before, now, order, k, after)
    ensures OldestFirst(after, order[k..], Rotated(o, after))
    ensures forall n :: n in order ==> n in before
    ensures forall n :: n in order[..k] ==> n !in after
    ensures forall i, j :: 0 <= i < k <= j < |order| ==> before[order[i]].mtime <= before[order[j]].mtime
  {
    hide Bytes, Remaining, IsCut;
    var aged := before - Expired(o, before, now);
    forall n: Name
      ensures n in order[k..] <==> n in Rotated(o, after)
      ensures n in order[k..] ==> n in after
      ensures n in order ==> n in before && aged[n] == before[n]
    {
      WhatIsLeft(o, before, now, order, k, after, n);
      Halves(order, k, n);
      assert n in order <==> n in Rotated(o, aged);
    }
    forall i, j | 0 <= i < j < |order| - k
      ensures after[order[k..][i]].mtime <= after[order[k..][j]].mtime
    {
      assert order[k..][i] == order[k + i] && order[k..][j] == order[k + j];
    }
  }

  lemma Halves(order: seq<Name>, k: nat, n: Name)
    requires k <= |order| && forall i, j :: 0 <= i < j < |order| ==> order[i] != order[j]
    ensures n in order <==> n in order[..k] || n in order[k..]
    ensures !(n in order[..k] && n in order[k..])
  {
    assert order == order[..k] + order[k..];
  }

  /** A cut leaves no more than the cap exactly if the sum of the sizes did not wrap. */
  lemma CutMeetsCap(dir: Directory, order: seq<Name>, cap: nat, k: nat)
    requires forall n :: n in order ==> n in dir && dir[n].size < WIDTH64
    requires cap < WIDTH64 && IsCut(dir, order, cap, k)
    ensures Bytes(dir, order[k..]) <= cap <==> Bytes(dir, order) < WIDTH64
    ensures Bytes(dir, order) < WIDTH64 ==> forall j :: 0 <= j < k ==> Bytes(dir, order[j..]) > cap
  {
    BytesSplit(dir, order, k);
    forall j | 0 <= j < k
      ensures Bytes(dir, order) < WIDTH64 ==> Bytes(dir, order[j..]) > cap
    {
      BytesSplit(dir, order, j);
      assert Remaining(dir, order, j) > cap;
    }
    if Bytes(dir, order) >= WIDTH64 {
      WrappedShort(Bytes(dir, order));
      if k > 0 {
        LastRemoval(dir, order, cap, k);
      } else {
        assert order[..0] == [];
      }
    }
  }

  lemma WrappedShort(sum: nat)
    requires sum >= WIDTH64
    ensures sum % WIDTH64 + WIDTH64 <= sum
  {
  }

  lemma LastRemoval(dir: Directory, order: seq<Name>, cap: nat, k: nat)
    requires forall n :: n in order ==> n in dir && dir[n].size < WIDTH64
    requires 0 < k && IsCut(dir, order, cap, k)
    ensures Bytes(dir, order[..k]) < Bytes(dir, order) % WIDTH64 - cap + WIDTH64
  {
    assert Remaining(dir, order, k - 1) > cap;
    assert order[..k][..k - 1] == order[..k - 1];
    assert order[..k][k - 1] == order[k - 1];
  }

  /**
   The size theorem. Whether the files left fit the cap depends on one thing only: that the files within the window
   total less than 2^64 bytes, so that the sum did not wrap. Then the removed files are the shortest oldest-first
   run whose removal gets under the cap: stopping one file sooner, or any sooner, would not have done.
   */
  lemma CapIsMetExactly(o: Options, before: Directory, now: Time, order: seq<Name>, k: nat, after: Directory)
    requires Prunes(o, before, now, order, k, after) && o.CapsSize()
    requires o.cap.value < WIDTH64 && forall n :: n in before ==> before[n].size < WIDTH64
    ensures (forall n :: n in order ==> n in before) && (forall n :: n in order[k..] ==> n in after)
    ensures Bytes(after, order[k..]) <= o.cap.value <==> Bytes(before, order) < WIDTH64
    ensures Bytes(before, order) < WIDTH64 ==>
      forall j :: 0 <= j < k ==> Bytes(before, order[j..]) > o.cap.value
  {
    hide Bytes, Remaining, IsCut;
    var aged := before - Expired(o, before, now);
    SurvivorsAreTheNewest(o, before, now, order, k, after);
    CutMeetsCap(aged, order, o.cap.value, k);
    BytesElsewhere(before, aged, order);
    BytesElsewhere(aged, after, order[k..]);
    forall j | 0 <= j < k
      ensures Bytes(before, order[j..]) == Bytes(aged, order[j..])
    {
      BytesElsewhere(before, aged, order[j..]);
    }
  }

  /** Two lists of the same files total the same. */
  lemma {:induction false} BytesOfPermutation(dir: Directory, a: seq<Name>, b: seq<Name>)
    requires (forall n :: n in a ==> n in dir) && (forall n :: n in b ==> n in dir)
    requires multiset(a) == multiset(b)
    ensures Bytes(dir, a) == Bytes(dir, b)
    decreases |a|
  {
    hide Bytes;
    assert |a| == |multiset(a)| && |b| == |multiset(b)|;
    if a == [] {
      assert a == b;
    } else {
      var last := |a| - 1;
      assert a[last] in multiset(b);
      var i :| 0 <= i < |b| && b[i] == a[last];
      RemoveOne(a, last);
      RemoveOne(b, i);
      BytesOfPermutation(dir, a[..last] + a[last + 1..], b[..i] + b[i + 1..]);
      BytesWithout(dir, a, last);
      BytesWithout(dir, b, i);
    }
  }

  lemma RemoveOne(b: seq<Name>, i: nat)
    requires i < |b|
    ensures multiset(b[..i] + b[i + 1..]) == multiset(b) - multiset{b[i]}
  {
    assert b == b[..i] + [b[i]] + b[i + 1..];
  }

  lemma BytesWithout(dir: Directory, b: seq<Name>, i: nat)
    requires i < |b| && forall n :: n in b ==> n in dir
    ensures Bytes(dir, b) == Bytes(dir, b[..i] + b[i + 1..]) + dir[b[i]].size
  {
    var rest := b[..i] + b[i + 1..];
    BytesSplit(dir, b, i + 1);
    BytesSplit(dir, rest, i);
    assert b[..i + 1][..i] == b[..i];
    assert rest[..i] == b[..i] && rest[i..] == b[i + 1..];
  }

  lemma SameFilesPermute(a: seq<Name>, b: seq<Name>)
    requires forall n :: n in a <==> n in b
    requires forall i, j :: 0 <= i < j < |a| ==> a[i] != a[j]
    requires forall i, j :: 0 <= i < j < |b| ==> b[i] != b[j]
    ensures multiset(a) == multiset(b)
  {
    forall n: Name
      ensures multiset(a)[n] == multiset(b)[n]
    {
      CountOnce(a, n);
      CountOnce(b, n);
    }
  }

  lemma {:induction false} CountOnce(a: seq<Name>, n: Name)
    requires forall i, j :: 0 <= i < j < |a| ==> a[i] != a[j]
    ensures multiset(a)[n] == if n in a then 1 else 0
  {
    if a != [] {
      var front, x := a[..|a| - 1], a[|a| - 1];
      assert a == front + [x];
      CountOnce(front, n);
    }
  }

  /**
   Pruning again at the same moment removes nothing more, exactly if the 64-bit total of what the first prune left is
   within the cap; which it is whenever the first prune's total did not wrap.
   */
  lemma PruneIsIdempotent(o: Options, before: Directory, now: Time, order: seq<Name>, k: nat, after: Directory,
                          order2: seq<Name>, k2: nat, after2: Directory)
    requires Prunes(o, before, now, order, k, after) && Prunes(o, after, now, order2, k2, after2)
    requires o.CapsSize() ==> o.cap.value < WIDTH64
    requires forall n :: n in before ==> before[n].size < WIDTH64
    ensures (forall n :: n in order ==> n in before) && forall n :: n in order[k..] ==> n in after
    ensures after2 == after <==> (o.CapsSize() ==> Bytes(after, order[k..]) % WIDTH64 <= o.cap.value)
    ensures Bytes(before, order) < WIDTH64 ==> after2 == after
  {
    hide Bytes, Remaining;
    forall n: Name
      ensures n !in Expired(o, after, now)
    {
      NoneOlderLeft(o, before, now, order, k, after, n);
    }
    assert after - Expired(o, after, now) == after;
    SurvivorsAreTheNewest(o, before, now, order, k, after);
    SameFilesPermute(order[k..], order2);
    BytesOfPermutation(after, order[k..], order2);
    if o.CapsSize() {
      CapIsMetExactly(o, before, now, order, k, after);
      FirstCut(after, order2);
      if Bytes(before, order) < WIDTH64 {
        SmallTotal(Bytes(after, order[k..]), o.cap.value);
      }
    }
    if k2 == 0 {
      assert order2[..k2] == [] && after - {} == after;
      assert o.CapsSize() ==> Remaining(after, order2, 0) <= o.cap.value;
    } else {
      assert Remaining(after, order2, 0) > o.cap.value;
      assert order2[..k2][0] in Elements(order2[..k2]);
      assert order2[0] in after && order2[0] !in after2;
    }
  }

  lemma FirstCut(dir: Directory, order: seq<Name>)
    requires forall n :: n in order ==> n in dir
    ensures Remaining(dir, order, 0) == Bytes(dir, order) % WIDTH64
  {
    assert order[..0] == [];
  }

  lemma SmallTotal(sum: nat, cap: nat)
    requires sum <= cap < WIDTH64
    ensures sum % WIDTH64 == sum
  {
  }

  // ---------------------------------------------------------------- keeping the list in order

  function Inserted(sorted: seq<Name>, x: Name, i: nat): seq<Name>
    requires i <= |sorted|
  {
    sorted[..i] + [x] + sorted[i..]
  }

  lemma InsertedAt(sorted: seq<Name>, x: Name, i: nat, a: nat)
    requires i <= |sorted| && a <= |sorted|
    ensures Inserted(sorted, x, i)[a] == if a < i then sorted[a] else if a == i then x else sorted[a - 1]
  {
  }

  lemma InsertKeepsOldestFirst(dir: Directory, sorted: seq<Name>, x: Name, i: nat, files: set<Name>)
    requires OldestFirst(dir, sorted, files) && x !in files && x in dir && i <= |sorted|
    requires i > 0 ==> dir[sorted[i - 1]].mtime <= dir[x].mtime
    requires i < |sorted| ==> dir[x].mtime <= dir[sorted[i]].mtime
    ensures OldestFirst(dir, Inserted(sorted, x, i), files + {x})
  {
    var r := Inserted(sorted, x, i);
    forall n: Name
      ensures n in r <==> n in files + {x}
      ensures n in r ==> n in dir
    {
      assert sorted == sorted[..i] + sorted[i..];
    }
    forall a, b | 0 <= a < b < |r|
      ensures r[a] != r[b] && dir[r[a]].mtime <= dir[r[b]].mtime
    {
      InsertedAt(sorted, x, i, a);
      InsertedAt(sorted, x, i, b);
      assert b == i ==> dir[sorted[a]].mtime <= dir[sorted[i - 1]].mtime;
      assert a == i ==> dir[sorted[i]].mtime <= dir[sorted[b - 1]].mtime;
    }
  }
}
