/** Upload quotas and upload lifecycles over whole runs of the share manager, whose database may fail anywhere. */
module ShareQuota {
  import opened Wrappers
  import opened ShareRecords
  import opened ShareTables
  import opened ShareProtocol
  import opened ShareInvariant
  import opened ShareInterruption

  // ---------------------------------------------------------------- load: completed plus reserved

  function FileLoad(share: Id): Upload -> nat {
    (u: Upload) => if u.shareId == share && (u.status == Complete || !u.IsTerminal()) then 1 else 0
  }

  function ByteLoad(share: Id): Upload -> nat {
    (u: Upload) =>
      if u.shareId != share then 0
      else if u.status == Complete then u.received
      else if !u.IsTerminal() then u.expected
      else 0
  }

  lemma {:induction false} LoadIsSum(us: seq<Upload>, share: Id)
    ensures Total(us, FileLoad(share)) == Total(us, IsComplete(share)) + Total(us, IsActiveUpload(share))
    ensures Total(us, ByteLoad(share)) == Total(us, CompleteBytes(share)) + Total(us, ActiveBytes(share))
  {
    if us != [] {
      LoadIsSum(us[..|us| - 1], share);
    }
  }

  lemma {:induction false} TotalMonotone(us: seq<Upload>, vs: seq<Upload>, weight: Upload -> nat)
    requires |us| == |vs|
    requires forall i :: 0 <= i < |us| ==> weight(vs[i]) <= weight(us[i])
    ensures Total(vs, weight) <= Total(us, weight)
  {
    if us != [] {
      TotalMonotone(us[..|us| - 1], vs[..|us| - 1], weight);
    }
  }

  lemma {:induction false} ReservedBound(us: seq<Upload>, share: Id, maxSize: nat)
    requires forall i :: 0 <= i < |us| && us[i].shareId == share && !us[i].IsTerminal() ==> us[i].expected <= maxSize
    ensures Total(us, ActiveBytes(share)) <= Total(us, IsActiveUpload(share)) * maxSize
  {
    if us != [] {
      var n := Total(us[..|us| - 1], IsActiveUpload(share));
      ReservedBound(us[..|us| - 1], share, maxSize);
      assert (n + 1) * maxSize == n * maxSize + maxSize;
    }
  }

  // ---------------------------------------------------------------- one step

  predicate IsUploadCall(c: Call) {
    || c.StartUpload? || c.RecordUploadChunk? || c.FinishUpload?
    || c.CancelUpload? || c.FailUpload? || c.SweepStaleUploads?
  }

  /** A result that touches no upload row and no upload counter, and reports no finish. */
  ghost predicate NoUploadEffect(t: Tables, r: (Tables, Outcome)) {
    && r.0.uploads == t.uploads
    && |t.links| <= |r.0.links|
    && (forall i :: 0 <= i < |t.links| ==> r.0.links[i].uploadCount == t.links[i].uploadCount)
    && !(r.1.Ok? && r.1.value.UploadFinished?)
  }

  lemma LinkCallsUntouched(t: Tables, now: Time, c: Call)
    ensures c.CreateLink? ==> NoUploadEffect(t, DoCreateLink(t, now, c))
    ensures c.RevokeLink? ==> NoUploadEffect(t, DoRevokeLink(t, now, c))
    ensures c.RotateLinkToken? ==> NoUploadEffect(t, DoRotateLinkToken(t, now, c))
  {
    hide NormalizeAndValidate, LinkRowOk, PutRecipients;
  }

  lemma UpdateCallUntouched(t: Tables, now: Time, c: Call)
    requires c.UpdateLink?
    ensures NoUploadEffect(t, DoUpdateLink(t, now, c))
  {
    hide DoUpdateLink;
    var _ := UpdateLinkShape(t, now, c);
  }

  lemma SessionCallsUntouched(t: Tables, opts: Options, now: Time, c: Call)
    ensures c.OpenPublicSession? ==> NoUploadEffect(t, DoOpenPublicSession(t, opts, now, c))
    ensures c.StartEmailChallenge? ==> NoUploadEffect(t, DoStartEmailChallenge(t, opts, now, c))
    ensures c.ConfirmEmailChallenge? ==> NoUploadEffect(t, DoConfirmEmailChallenge(t, now, c))
    ensures c.ResolvePrincipal? ==> NoUploadEffect(t, DoResolvePrincipal(t, now, c))
  {
    hide LinkFromPublicToken, SessionFromToken, PrincipalFor;
    if c.StartEmailChallenge? {
      StartChallengeUntouched(t, opts, now, c);
      hide DoStartEmailChallenge;
    } else if c.ConfirmEmailChallenge? {
      ConfirmUntouched(t, now, c);
      hide DoConfirmEmailChallenge;
    }
  }

  lemma StartChallengeUntouched(t: Tables, opts: Options, now: Time, c: Call)
    requires c.StartEmailChallenge?
    ensures NoUploadEffect(t, DoStartEmailChallenge(t, opts, now, c))
  {
    hide LinkFromPublicToken, SessionFromToken;
  }

  lemma ConfirmUntouched(t: Tables, now: Time, c: Call)
    requires c.ConfirmEmailChallenge?
    ensures NoUploadEffect(t, DoConfirmEmailChallenge(t, now, c))
  {
    hide SessionFromToken;
  }

  /** Link, session and challenge calls leave the upload table and every upload counter alone. */
  lemma UploadsUntouched(t: Tables, opts: Options, now: Time, c: Call)
    requires !IsUploadCall(c)
    ensures NoUploadEffect(t, Do(t, opts, now, c))
  {
    hide NoUploadEffect;
    if c.UpdateLink? {
      UpdateCallUntouched(t, now, c);
    } else {
      LinkCallsUntouched(t, now, c);
      SessionCallsUntouched(t, opts, now, c);
    }
  }

  /** A result that completes no upload and counts none. */
  ghost predicate NoCompletion(t: Tables, r: (Tables, Outcome)) {
    && r.0.links == t.links && |r.0.uploads| == |t.uploads|
    && (forall i :: 0 <= i < |t.uploads| ==> (r.0.uploads[i].status == Complete <==> t.uploads[i].status == Complete))
    && !(r.1.Ok? && r.1.value.UploadFinished?)
  }

  lemma CompletesNothing(t: Tables, opts: Options, now: Time, c: Call)
    requires c.RecordUploadChunk? || c.CancelUpload? || c.FailUpload?
    ensures NoCompletion(t, Do(t, opts, now, c))
  {
    hide RequireActiveShareContext, RequireUploadForPrincipal;
  }

  /** Only a successful start adds an upload row. */
  lemma RowsOnlyFromStart(t: Tables, opts: Options, now: Time, c: Call)
    requires !(c.StartUpload? && Do(t, opts, now, c).1.Ok?)
    ensures |Do(t, opts, now, c).0.uploads| == |t.uploads|
  {
    if c.SweepStaleUploads? {
      SweepLength(t, c.batch);
    } else if c.StartUpload? {
      hide DoStartUpload;
      StartUploadShape(t, opts, now, c.request);
    } else if !IsUploadCall(c) {
      hide Do;
      UploadsUntouched(t, opts, now, c);
    } else if c.FinishUpload? {
      hide DoFinishUpload;
      FinishShape(t, now, c.principal, c.upload, c.createdEntry);
    } else {
      hide Do;
      CompletesNothing(t, opts, now, c);
    }
  }

  lemma {:induction false} SweepLength(t: Tables, batch: seq<Id>)
    ensures |SweepBatch(t, batch).uploads| == |t.uploads|
  {
    if batch != [] {
      SweepLength(t, batch[..|batch| - 1]);
    }
  }

  /** Without a start, no step can raise a share's load: a finish only moves it from reserved to completed. */
  lemma LoadNeverGrowsWithoutStart(t: Tables, u: Tables, share: Id)
    requires Evolves(t, u) && |u.uploads| == |t.uploads|
    ensures Total(u.uploads, FileLoad(share)) <= Total(t.uploads, FileLoad(share))
    ensures Total(u.uploads, ByteLoad(share)) <= Total(t.uploads, ByteLoad(share))
  {
    forall i | 0 <= i < |t.uploads|
      ensures FileLoad(share)(u.uploads[i]) <= FileLoad(share)(t.uploads[i])
      ensures ByteLoad(share)(u.uploads[i]) <= ByteLoad(share)(t.uploads[i])
    {
      assert UploadKept(t.uploads[i], u.uploads[i]);
    }
    TotalMonotone(t.uploads, u.uploads, FileLoad(share));
    TotalMonotone(t.uploads, u.uploads, ByteLoad(share));
  }

  /** A start was within both limits when it was made, and adds one reservation of its size. */
  lemma StartAddsOne(t: Tables, opts: Options, now: Time, r: UploadRequest)
    requires DoStartUpload(t, opts, now, r).1.Ok?
    ensures var share := r.principal.shareId;
      var u := DoStartUpload(t, opts, now, r).0;
      && share < |t.links|
      && r.expected <= MaxUploadSize(opts, t.links[share])
      && (t.links[share].maxUploadFiles.Some? ==> CompletedFiles(t, share) < t.links[share].maxUploadFiles.value)
      && (t.links[share].maxUploadTotal.Some? ==>
            CompletedBytes(t, share) + r.expected <= t.links[share].maxUploadTotal.value)
      && u.links == t.links && u.sessions == t.sessions
      && (forall s :: CompletedFiles(u, s) == CompletedFiles(t, s) && CompletedBytes(u, s) == CompletedBytes(t, s))
      && (forall s :: ActiveFiles(u, s) == ActiveFiles(t, s) + (if s == share then 1 else 0))
      && (forall s :: ReservedBytes(u, s) == ReservedBytes(t, s) + (if s == share then r.expected else 0))
  {
  }

  // ---------------------------------------------------------------- the quota over runs

  /** With at most `k` uploads of the share open at once, the load stays within these bounds. */
  ghost predicate WithinQuota(t: Tables, opts: Options, share: Id, k: nat)
    requires share < |t.links| && k >= 1
  {
    var link := t.links[share];
    && (link.maxUploadFiles.Some? ==>
          CompletedFiles(t, share) + ActiveFiles(t, share) <= link.maxUploadFiles.value + (k - 1))
    && (link.maxUploadTotal.Some? ==>
          CompletedBytes(t, share) + ReservedBytes(t, share)
            <= link.maxUploadTotal.value + (k - 1) * MaxUploadSize(opts, link))
  }

  /** No open upload of the share reserves more than the share's size limit. */
  ghost predicate SizesWithin(t: Tables, opts: Options, share: Id)
    requires share < |t.links|
  {
    forall i :: 0 <= i < |t.uploads| && t.uploads[i].shareId == share && !t.uploads[i].IsTerminal() ==>
      t.uploads[i].expected <= MaxUploadSize(opts, t.links[share])
  }

  predicate SameLimits(a: Link, b: Link) {
    a.maxUploadFiles == b.maxUploadFiles && a.maxUploadSize == b.maxUploadSize && a.maxUploadTotal == b.maxUploadTotal
  }

  lemma QuotaWithoutStart(t: Tables, u: Tables, opts: Options, share: Id, k: nat)
    requires share < |t.links| && k >= 1
    requires WithinQuota(t, opts, share, k) && SizesWithin(t, opts, share)
    requires Evolves(t, u) && |u.uploads| == |t.uploads|
    requires SameLimits(t.links[share], u.links[share])
    ensures WithinQuota(u, opts, share, k) && SizesWithin(u, opts, share)
  {
    LoadIsSum(t.uploads, share);
    LoadIsSum(u.uploads, share);
    LoadNeverGrowsWithoutStart(t, u, share);
    assert forall i :: 0 <= i < |t.uploads| ==> UploadKept(t.uploads[i], u.uploads[i]);
  }

  lemma QuotaAfterStart(t: Tables, opts: Options, now: Time, r: UploadRequest, share: Id, k: nat)
    requires share < |t.links| && k >= 1
    requires WithinQuota(t, opts, share, k) && SizesWithin(t, opts, share)
    requires DoStartUpload(t, opts, now, r).1.Ok?
    requires ActiveFiles(DoStartUpload(t, opts, now, r).0, share) <= k
    ensures share < |DoStartUpload(t, opts, now, r).0.links|
    ensures WithinQuota(DoStartUpload(t, opts, now, r).0, opts, share, k)
    ensures SizesWithin(DoStartUpload(t, opts, now, r).0, opts, share)
  {
    hide DoStartUpload;
    StartAddsOne(t, opts, now, r);
    StartUploadShape(t, opts, now, r);
    if r.principal.shareId == share {
      var maxSize := MaxUploadSize(opts, t.links[share]);
      ReservedBound(t.uploads, share, maxSize);
      MulMonotone(ActiveFiles(t, share), k - 1, maxSize);
    }
  }

  /** A cut call that is no successful start adds no upload row. */
  lemma RowsOnlyFromTriedStart(t: Tables, opts: Options, a: Attempt)
    requires !(a.event.call.StartUpload? && Do(t, opts, a.event.now, a.event.call).1.Ok?)
    ensures |Tried(t, opts, a).uploads| == |t.uploads|
  {
    var c := a.event.call;
    hide Do, Interrupted;
    CutTables(t, opts, a.event.now, c, a.done, a.undone);
    RowsOnlyFromStart(t, opts, a.event.now, c);
    if c.SweepStaleUploads? {
      var k: nat :| k <= |c.batch| && Tried(t, opts, a).uploads == SweepBatch(t, c.batch[..k]).uploads;
      SweepTouchesUploads(t, c.batch[..k]);
    }
  }

  lemma TriedStart(t: Tables, opts: Options, a: Attempt)
    requires a.event.call.StartUpload?
    ensures Tried(t, opts, a) == t || Tried(t, opts, a) == DoStartUpload(t, opts, a.event.now, a.event.call.request).0
  {
    hide DoStartUpload;
  }

  lemma QuotaStep(t: Tables, opts: Options, a: Attempt, share: Id, k: nat)
    requires RowsOk(t) && share < |t.links| && k >= 1
    requires WithinQuota(t, opts, share, k) && SizesWithin(t, opts, share)
    requires ActiveFiles(Tried(t, opts, a), share) <= k
    requires share < |Tried(t, opts, a).links| && SameLimits(t.links[share], Tried(t, opts, a).links[share])
    ensures var u := Tried(t, opts, a);
      WithinQuota(u, opts, share, k) && SizesWithin(u, opts, share)
  {
    hide RowsOk, Evolves, WithinQuota, SizesWithin, DoStartUpload, Interrupted;
    var c := a.event.call;
    if c.StartUpload? && Do(t, opts, a.event.now, c).1.Ok? {
      TriedStart(t, opts, a);
      if Tried(t, opts, a) != t {
        QuotaAfterStart(t, opts, a.event.now, c.request, share, k);
      }
    } else {
      hide Do;
      InterruptionKeeps(t, opts, a.event.now, c, a.done, a.undone);
      RowsOnlyFromTriedStart(t, opts, a);
      QuotaWithoutStart(t, Tried(t, opts, a), opts, share, k);
    }
  }

  lemma MulMonotone(a: nat, b: nat, c: nat)
    requires a <= b
    ensures a * c <= b * c
  {
  }

  /**
   The quota theorem. Over every run, wherever the database fails in it, whose calls leave the share's limits alone
   and which never has more than `k` of its uploads open at once, completed plus open files stay within the file
   limit plus `k - 1`, and completed plus reserved bytes within the byte limit plus `k - 1` upload sizes.
   */
  lemma {:induction false} QuotaOverRuns(t: Tables, opts: Options, attempts: seq<Attempt>, share: Id, k: nat)
    requires RowsOk(t) && share < |t.links| && k >= 1
    requires WithinQuota(t, opts, share, k) && SizesWithin(t, opts, share)
    requires forall i :: 0 <= i <= |attempts| ==> ActiveFiles(RunTried(t, opts, attempts[..i]), share) <= k
    requires forall i :: 0 <= i <= |attempts| ==>
      share < |RunTried(t, opts, attempts[..i]).links|
      && SameLimits(t.links[share], RunTried(t, opts, attempts[..i]).links[share])
    ensures var u := RunTried(t, opts, attempts);
      share < |u.links| && WithinQuota(u, opts, share, k) && SizesWithin(u, opts, share)
    decreases |attempts|
  {
    hide RowsOk, WithinQuota, SizesWithin, Tried, Evolves, ActiveFiles;
    assert attempts[..|attempts|] == attempts;
    if attempts != [] {
      var last := |attempts| - 1;
      var front := attempts[..last];
      assert forall i :: 0 <= i <= last ==> front[..i] == attempts[..i];
      QuotaOverRuns(t, opts, front, share, k);
      RunTriedKeeps(t, opts, front);
      var before := RunTried(t, opts, front);
      assert SameLimits(t.links[share], before.links[share]);
      QuotaStep(before, opts, attempts[last], share, k);
    }
  }

  /** One upload at a time: both limits are exact, from the moment the share has no uploads. */
  lemma OneAtATimeIsExact(t: Tables, opts: Options, attempts: seq<Attempt>, share: Id)
    requires RowsOk(t) && share < |t.links|
    requires t.links[share].maxUploadFiles.Some? && t.links[share].maxUploadTotal.Some?
    requires forall i :: 0 <= i < |t.uploads| ==> t.uploads[i].shareId != share
    requires forall i :: 0 <= i <= |attempts| ==> ActiveFiles(RunTried(t, opts, attempts[..i]), share) <= 1
    requires forall i :: 0 <= i <= |attempts| ==>
      share < |RunTried(t, opts, attempts[..i]).links|
      && SameLimits(t.links[share], RunTried(t, opts, attempts[..i]).links[share])
    ensures CompletedFiles(RunTried(t, opts, attempts), share) <= t.links[share].maxUploadFiles.value
    ensures CompletedBytes(RunTried(t, opts, attempts), share) <= t.links[share].maxUploadTotal.value
  {
    hide RowsOk, Do, RunTried, Evolves;
    NoLoad(t.uploads, share);
    LoadIsSum(t.uploads, share);
    QuotaOverRuns(t, opts, attempts, share, 1);
    assert attempts[..|attempts|] == attempts;
    assert SameLimits(t.links[share], RunTried(t, opts, attempts[..|attempts|]).links[share]);
  }

  lemma {:induction false} NoLoad(us: seq<Upload>, share: Id)
    requires forall i :: 0 <= i < |us| ==> us[i].shareId != share
    ensures Total(us, FileLoad(share)) == 0 && Total(us, ByteLoad(share)) == 0
  {
    if us != [] {
      NoLoad(us[..|us| - 1], share);
    }
  }

  function Repeat(e: Event, k: nat): seq<Event> {
    seq(k, _ => e)
  }

  /**
   The bounds are reached: the quota is tested only at start, against completed uploads alone, so the
   same start repeated `k` times with nothing finished in between is accepted `k` times.
   */
  lemma {:induction false} QuotaIsTight(t: Tables, opts: Options, now: Time, r: UploadRequest, k: nat)
    requires DoStartUpload(t, opts, now, r).1.Ok?
    ensures var u := Run(t, opts, Repeat(Event(now, StartUpload(r)), k));
      var share := r.principal.shareId;
      && u.links == t.links && u.sessions == t.sessions
      && CompletedFiles(u, share) == CompletedFiles(t, share)
      && CompletedBytes(u, share) == CompletedBytes(t, share)
      && ActiveFiles(u, share) == ActiveFiles(t, share) + k
      && ReservedBytes(u, share) == ReservedBytes(t, share) + k * r.expected
      && DoStartUpload(u, opts, now, r).1.Ok?
  {
    hide DoStartUpload, CompletedFiles, CompletedBytes, ActiveFiles, ReservedBytes;
    var e := Event(now, StartUpload(r));
    if k > 0 {
      var before := Run(t, opts, Repeat(e, k - 1));
      QuotaIsTight(t, opts, now, r, k - 1);
      assert Repeat(e, k)[..k - 1] == Repeat(e, k - 1);
      StartAddsOne(before, opts, now, r);
      var u := DoStartUpload(before, opts, now, r).0;
      assert Run(t, opts, Repeat(e, k)) == u;
      assert (k - 1) * r.expected + r.expected == k * r.expected;
      StartAgain(before, u, opts, now, r);
    } else {
      assert Repeat(e, 0) == [];
    }
  }

  /** A start depends on the uploads only through the completed totals. */
  lemma StartAgain(t: Tables, u: Tables, opts: Options, now: Time, r: UploadRequest)
    requires u.links == t.links && u.sessions == t.sessions
    requires CompletedFiles(u, r.principal.shareId) == CompletedFiles(t, r.principal.shareId)
    requires CompletedBytes(u, r.principal.shareId) == CompletedBytes(t, r.principal.shareId)
    requires DoStartUpload(t, opts, now, r).1.Ok?
    ensures DoStartUpload(u, opts, now, r).1.Ok?
  {
  }

  // ---------------------------------------------------------------- each upload finishes at most once

  function StatusOf(t: Tables, id: Id): Option<UploadStatus> {
    if id < |t.uploads| then Some(t.uploads[id].status) else None
  }

  predicate Finished(t: Tables, id: Id) {
    StatusOf(t, id) == Some(Complete)
  }

  lemma {:induction false} SweepNeverFinishes(t: Tables, batch: seq<Id>, id: Id)
    ensures Finished(SweepBatch(t, batch), id) <==> Finished(t, id)
    ensures SweepBatch(t, batch).links == t.links
  {
    if batch != [] {
      SweepNeverFinishes(t, batch[..|batch| - 1], id);
    }
  }

  /** An upload becomes complete exactly by a finish that reports it, once, and only with all its bytes. */
  lemma FinishedOnlyByFinish(t: Tables, opts: Options, now: Time, c: Call, id: Id)
    ensures var (u, o) := Do(t, opts, now, c);
      && (o == Ok(UploadFinished(id)) <==> Finished(u, id) && !Finished(t, id))
      && (Finished(t, id) ==> Finished(u, id))
      && (o == Ok(UploadFinished(id)) ==> id < |t.uploads| && t.uploads[id].received == t.uploads[id].expected)
  {
    if c.SweepStaleUploads? {
      SweepNeverFinishes(t, c.batch, id);
    } else if c.StartUpload? {
      hide DoStartUpload;
      StartUploadShape(t, opts, now, c.request);
    } else if c.FinishUpload? {
      hide DoFinishUpload;
      FinishShape(t, now, c.principal, c.upload, c.createdEntry);
    } else if !IsUploadCall(c) {
      hide Do;
      UploadsUntouched(t, opts, now, c);
    } else {
      hide Do;
      CompletesNothing(t, opts, now, c);
    }
  }

  /** The call completes the upload: a finish that goes through, or is cut after its first statement. */
  predicate Completes(t: Tables, opts: Options, a: Attempt, id: Id) {
    a.event.call.FinishUpload? && a.done >= 1
    && Do(t, opts, a.event.now, a.event.call).1 == Ok(UploadFinished(id))
  }

  lemma CompletedOnlyByFinish(t: Tables, opts: Options, a: Attempt, id: Id)
    ensures Completes(t, opts, a, id) <==> Finished(Tried(t, opts, a), id) && !Finished(t, id)
    ensures Finished(t, id) ==> Finished(Tried(t, opts, a), id)
  {
    hide Do, Interrupted;
    var c := a.event.call;
    FinishedOnlyByFinish(t, opts, a.event.now, c, id);
    CutTables(t, opts, a.event.now, c, a.done, a.undone);
    if c.SweepStaleUploads? {
      var k: nat :| k <= |c.batch| && Tried(t, opts, a).uploads == SweepBatch(t, c.batch[..k]).uploads;
      SweepNeverFinishes(t, c.batch[..k], id);
    } else if c.FinishUpload? {
      FinishTables(t, opts, a);
    } else {
      CountersUntouched(t, opts, a.event.now, c);
    }
  }

  lemma FinishTables(t: Tables, opts: Options, a: Attempt)
    requires a.event.call.FinishUpload?
    ensures Tried(t, opts, a).uploads ==
      if a.done >= 1 then Do(t, opts, a.event.now, a.event.call).0.uploads else t.uploads
  {
    hide Do;
    FinishStates(t, opts, a.event.now, a.event.call);
    hide States;
  }

  /** How often a run completes an upload. */
  function CompletionsOf(t: Tables, opts: Options, attempts: seq<Attempt>, id: Id): nat
    decreases |attempts|
  {
    if attempts == [] then 0
    else
      var front := attempts[..|attempts| - 1];
      CompletionsOf(t, opts, front, id)
      + if Completes(RunTried(t, opts, front), opts, attempts[|attempts| - 1], id) then 1 else 0
  }

  /** Over every run an upload is completed at most once, and it is complete at the end iff it was or has been. */
  lemma {:induction false} FinishAtMostOnce(t: Tables, opts: Options, attempts: seq<Attempt>, id: Id)
    ensures CompletionsOf(t, opts, attempts, id)
         == if Finished(RunTried(t, opts, attempts), id) && !Finished(t, id) then 1 else 0
    ensures Finished(t, id) ==> Finished(RunTried(t, opts, attempts), id)
    decreases |attempts|
  {
    hide Completes, Tried, Finished;
    if attempts != [] {
      var front := attempts[..|attempts| - 1];
      FinishAtMostOnce(t, opts, front, id);
      CompletedOnlyByFinish(RunTried(t, opts, front), opts, attempts[|attempts| - 1], id);
    }
  }

  predicate FinishesForShare(before: Tables, o: Outcome, share: Id) {
    o.Ok? && o.value.UploadFinished? && o.value.upload < |before.uploads|
    && before.uploads[o.value.upload].shareId == share
  }

  lemma CounterStep(t: Tables, opts: Options, now: Time, c: Call, share: Id)
    requires share < |t.links|
    ensures var (u, o) := Do(t, opts, now, c);
      && share < |u.links|
      && u.links[share].uploadCount == t.links[share].uploadCount + if FinishesForShare(t, o, share) then 1 else 0
  {
    if c.FinishUpload? {
      hide DoFinishUpload;
      FinishShape(t, now, c.principal, c.upload, c.createdEntry);
    } else {
      hide Do;
      CountersUntouched(t, opts, now, c);
    }
  }

  /** Only a finish moves a counter, and only a finish reports one. */
  lemma CountersUntouched(t: Tables, opts: Options, now: Time, c: Call)
    requires !c.FinishUpload?
    ensures var (u, o) := Do(t, opts, now, c);
      && |t.links| <= |u.links|
      && (forall i :: 0 <= i < |t.links| ==> u.links[i].uploadCount == t.links[i].uploadCount)
      && !(o.Ok? && o.value.UploadFinished?)
  {
    if c.SweepStaleUploads? {
      SweepNeverFinishes(t, c.batch, 0);
    } else if c.StartUpload? {
      hide DoStartUpload;
      StartUploadShape(t, opts, now, c.request);
    } else if !IsUploadCall(c) {
      hide Do;
      UploadsUntouched(t, opts, now, c);
    } else {
      hide Do;
      CompletesNothing(t, opts, now, c);
    }
  }

  function FinishesFor(t: Tables, opts: Options, events: seq<Event>, share: Id): nat
    decreases |events|
  {
    if events == [] then 0
    else
      var last := |events| - 1;
      FinishesFor(t, opts, events[..last], share)
      + if FinishesForShare(Run(t, opts, events[..last]), OutcomeAt(t, opts, events, last), share) then 1 else 0
  }

  /**
   Over every run a link's upload counter moves by exactly the number of finishes reported for the share,
   and it is the number of completed uploads if it was so at the start: what it had missed it still misses.
   */
  lemma {:induction false} CounterCountsFinishes(t: Tables, opts: Options, events: seq<Event>, share: Id)
    requires RowsOk(t) && share < |t.links|
    ensures var u := Run(t, opts, events);
      && share < |u.links|
      && u.links[share].uploadCount == t.links[share].uploadCount + FinishesFor(t, opts, events, share)
      && u.links[share].uploadCount + Lag(t, share) == CompletedFiles(u, share)
    decreases |events|
  {
    hide Do, FinishesForShare, SessionsOk;
    if events != [] {
      var last := |events| - 1;
      CounterCountsFinishes(t, opts, events[..last], share);
      CounterStep(Run(t, opts, events[..last]), opts, events[last].now, events[last].call, share);
    }
    RunKeeps(t, opts, events);
  }

  /**
   Once an upload has ended its row never changes again, an open upload never holds more than it
   announced, and a complete one holds exactly that.
   */
  lemma UploadLifecycle(t: Tables, opts: Options, attempts: seq<Attempt>, id: Id)
    requires RowsOk(t) && id < |t.uploads|
    ensures var u := RunTried(t, opts, attempts);
      && id < |u.uploads|
      && (t.uploads[id].IsTerminal() ==> u.uploads[id] == t.uploads[id])
      && t.uploads[id].received <= u.uploads[id].received <= u.uploads[id].expected == t.uploads[id].expected
      && (u.uploads[id].status == Complete ==> u.uploads[id].received == u.uploads[id].expected)
  {
    hide RunTried;
    RunTriedKeeps(t, opts, attempts);
    var u := RunTried(t, opts, attempts);
    assert UploadKept(t.uploads[id], u.uploads[id]);
    assert UploadOk(u, u.uploads[id]);
  }

  // ---------------------------------------------------------------- the stale sweep

  lemma {:induction false} SweepEffect(t: Tables, batch: seq<Id>)
    ensures var u := SweepBatch(t, batch);
      && u == t.(uploads := u.uploads) && |u.uploads| == |t.uploads|
      && forall id :: 0 <= id < |t.uploads| ==>
           u.uploads[id] == if id in batch && !t.uploads[id].IsTerminal() then t.uploads[id].(status := Failed)
                            else t.uploads[id]
  {
    if batch != [] {
      var last := |batch| - 1;
      SweepEffect(t, batch[..last]);
      assert batch == batch[..last] + [batch[last]];
    }
  }

  /** The age and the limit a sweep works with: the defaults stand in for arguments that are not positive. */
  function SweepAge(opts: Options, olderThan: int): int {
    if olderThan > 0 then olderThan else opts.staleTtl
  }

  function SweepLimit(opts: Options, limit: nat): nat {
    if limit > 0 then limit else opts.staleLimit
  }

  /**
   A sweep fails exactly the uploads the query listed, all of which were stale and still open, and leaves a stale
   upload open only when the limit was reached with uploads at least as old. Without a positive age it throws, and
   with a limit of 0 it does nothing.
   */
  lemma SweepIsExact(t: Tables, opts: Options, now: Time, olderThan: int, limit: nat, batch: seq<Id>)
    requires IsStaleBatch(t.uploads, SweepAge(opts, olderThan), SweepLimit(opts, limit), now, batch)
    ensures var (u, o) := DoSweep(t, opts, olderThan, limit, batch);
      var age := SweepAge(opts, olderThan);
      && (age <= 0 <==> o.Err?) && (age <= 0 ==> o == Err(SweepAgeInvalid) && u == t)
      && (age > 0 ==>
            && o == Ok(Swept(|batch|, |batch|))
            && u == t.(uploads := u.uploads) && |u.uploads| == |t.uploads|
            && (forall id :: 0 <= id < |t.uploads| ==>
                  u.uploads[id] == if id in batch then t.uploads[id].(status := Failed) else t.uploads[id])
            && (forall id: nat :: id < |u.uploads| && IsStale(u.uploads[id], age, now) ==>
                  |batch| == SweepLimit(opts, limit) && NoneOlder(t.uploads, batch, id)))
  {
    SweepEffect(t, batch);
    if SweepLimit(opts, limit) == 0 {
      assert batch == [];
    }
  }
}
