/**
 The share tables as one value, and the effect of each statement the store runs on them.
 A statement that names no row it may change has no result (`None`): the store throws.
 The guards are those of the prepared SQL statements.
 */
module ShareTables {
  import opened Wrappers
  import opened ShareRecords

  /** The rows of every share table, the role assignments, and the count the store draws fresh ids from. */
  datatype Tables = Tables(
    links: seq<Link>,
    sessions: seq<Session>,
    challenges: seq<Challenge>,
    uploads: seq<Upload>,
    publicRoles: map<Id, RoleId>,
    legacyRoles: map<Id, RoleId>,
    recipientRoles: map<(Id, EmailHash), RoleId>,
    nonce: nat)
  {
    // ---- reads

    function GetLink(id: Id): Option<Link> {
      if id < |links| then Some(links[id]) else None
    }

    function GetSession(id: Id): Option<Session> {
      if id < |sessions| then Some(sessions[id]) else None
    }

    function GetUpload(id: Id): Option<Upload> {
      if id < |uploads| then Some(uploads[id]) else None
    }

    function GetRecipientRole(share: Id, email: EmailHash): Option<RoleId> {
      if (share, email) in recipientRoles then Some(recipientRoles[(share, email)]) else None
    }

    /** The public assignment, or the legacy mapping where there is none. */
    function GetShareRole(share: Id): Option<RoleId> {
      if share in publicRoles then Some(publicRoles[share])
      else if share in legacyRoles then Some(legacyRoles[share])
      else None
    }

    // ---- statements

    function RevokeLink(id: Id, now: Time): Option<Tables> {
      if id >= |links| then None
      else Some(this.(links := links[id := links[id].(revokedAt := Some(now))]))
    }

    function RotateLinkToken(id: Id, token: Token): Option<Tables> {
      if id >= |links| then None
      else Some(this.(links := links[id := links[id].(lookup := token.lookup, tokenHash := token.secret)]))
    }

    function IncrementUpload(id: Id): Option<Tables> {
      if id >= |links| then None
      else Some(this.(links := links[id := links[id].(uploadCount := links[id].uploadCount + 1)]))
    }

    function RevokeSessionsForShare(share: Id, now: Time): Tables {
      this.(sessions := RevokedSessions(sessions, share, now))
    }

    function RemoveRoles(share: Id): Tables {
      this.(publicRoles := publicRoles - {share},
            legacyRoles := legacyRoles - {share},
            recipientRoles := map k | k in recipientRoles && k.0 != share :: recipientRoles[k])
    }

    function VerifySession(id: Id, email: EmailHash, now: Time): Option<Tables> {
      if id >= |sessions| then None
      else Some(this.(sessions := sessions[id := sessions[id].(emailHash := Some(email), verifiedAt := Some(now))]))
    }

    function RecordAttempt(id: Id, now: Time): Option<Tables> {
      if id >= |challenges| || !challenges[id].CanAttempt(now) then None
      else Some(this.(challenges := challenges[id := challenges[id].(attempts := challenges[id].attempts + 1)]))
    }

    function ConsumeChallenge(id: Id, now: Time): Option<Tables> {
      if id >= |challenges| || challenges[id].consumedAt.Some? || challenges[id].IsExpired(now) then None
      else Some(this.(challenges := challenges[id := challenges[id].(consumedAt := Some(now))]))
    }

    function CreateChallenge(c: Challenge, now: Time): Option<Tables> {
      if c.maxAttempts == 0 || c.expiresAt <= now then None
      else Some(this.(challenges := challenges + [c]))
    }

    function CreateUpload(u: Upload): Option<Tables> {
      if u.expected >= INT64_LIMIT then None
      else Some(this.(uploads := uploads + [u]))
    }

    function AddReceivedBytes(id: Id, bytes: uint64): Option<Tables> {
      if id >= |uploads| || uploads[id].IsTerminal() || uploads[id].received + bytes > uploads[id].expected then None
      else Some(this.(uploads := uploads[id := uploads[id].(received := uploads[id].received + bytes,
                                                            status := Receiving)]))
    }

    function CompleteUpload(id: Id, entry: nat): Option<Tables> {
      if id >= |uploads| || uploads[id].IsTerminal() then None
      else Some(this.(uploads := uploads[id := uploads[id].(status := Complete, createdEntry := Some(entry))]))
    }

    /** Ends an upload as failed or cancelled. */
    function EndUpload(id: Id, status: UploadStatus): Option<Tables> {
      if id >= |uploads| || uploads[id].IsTerminal() then None
      else Some(this.(uploads := uploads[id := uploads[id].(status := status)]))
    }
  }

  function RevokedSession(s: Session, share: Id, now: Time): Session {
    if s.shareId == share && s.revokedAt.None? then s.(revokedAt := Some(now)) else s
  }

  function RevokedSessions(sessions: seq<Session>, share: Id, now: Time): (r: seq<Session>)
    ensures |r| == |sessions|
    ensures forall i :: 0 <= i < |r| ==> r[i] == RevokedSession(sessions[i], share, now)
  {
    seq(|sessions|, i requires 0 <= i < |sessions| => RevokedSession(sessions[i], share, now))
  }

  /** The link row found under a lookup id. */
  function FindLink(links: seq<Link>, lookup: nat): (r: Option<Id>)
    ensures r.Some? ==> r.value < |links| && links[r.value].lookup == lookup
    ensures r.None? ==> forall i :: 0 <= i < |links| ==> links[i].lookup != lookup
  {
    if links == [] then None
    else
      var last := |links| - 1;
      if links[last].lookup == lookup then Some(last) else FindLink(links[..last], lookup)
  }

  function FindSession(sessions: seq<Session>, lookup: nat): (r: Option<Id>)
    ensures r.Some? ==> r.value < |sessions| && sessions[r.value].lookup == lookup
    ensures r.None? ==> forall i :: 0 <= i < |sessions| ==> sessions[i].lookup != lookup
  {
    if sessions == [] then None
    else
      var last := |sessions| - 1;
      if sessions[last].lookup == lookup then Some(last) else FindSession(sessions[..last], lookup)
  }

  // ---------------------------------------------------------------- totals over the upload table

  function Total(us: seq<Upload>, weight: Upload -> nat): nat {
    if us == [] then 0 else Total(us[..|us| - 1], weight) + weight(us[|us| - 1])
  }

  function IsComplete(share: Id): Upload -> nat {
    (u: Upload) => if u.shareId == share && u.status == Complete then 1 else 0
  }

  function CompleteBytes(share: Id): Upload -> nat {
    (u: Upload) => if u.shareId == share && u.status == Complete then u.received else 0
  }

  function IsActiveUpload(share: Id): Upload -> nat {
    (u: Upload) => if u.shareId == share && !u.IsTerminal() then 1 else 0
  }

  function ActiveBytes(share: Id): Upload -> nat {
    (u: Upload) => if u.shareId == share && !u.IsTerminal() then u.expected else 0
  }

  function CompletedFiles(t: Tables, share: Id): nat { Total(t.uploads, IsComplete(share)) }
  function CompletedBytes(t: Tables, share: Id): nat { Total(t.uploads, CompleteBytes(share)) }
  function ActiveFiles(t: Tables, share: Id): nat { Total(t.uploads, IsActiveUpload(share)) }
  function ReservedBytes(t: Tables, share: Id): nat { Total(t.uploads, ActiveBytes(share)) }

  lemma TotalAppend(us: seq<Upload>, u: Upload, weight: Upload -> nat)
    ensures Total(us + [u], weight) == Total(us, weight) + weight(u)
  {
    assert (us + [u])[..|us|] == us;
  }

  lemma {:induction false} TotalUpdate(us: seq<Upload>, i: nat, u: Upload, weight: Upload -> nat)
    requires i < |us|
    ensures Total(us[i := u], weight) == Total(us, weight) - weight(us[i]) + weight(u)
  {
    var last := |us| - 1;
    if i == last {
      assert us[i := u][..last] == us[..last];
    } else {
      assert us[i := u][..last] == us[..last][i := u];
      TotalUpdate(us[..last], i, u, weight);
    }
  }
}
