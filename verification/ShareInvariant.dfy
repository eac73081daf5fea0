/** What every step of the share manager keeps: the table invariant, and how rows may change. */
module ShareInvariant {
  import opened Wrappers
  import opened ShareRecords
  import opened ShareTables
  import opened ShareProtocol

  // ---------------------------------------------------------------- how rows may change

  ghost predicate LinkKept(a: Link, b: Link, nonce: nat) {
    && b.vaultId == a.vaultId && b.rootEntryId == a.rootEntryId && b.rootPath == a.rootPath
    && b.targetType == a.targetType && b.createdBy == a.createdBy && b.createdAt == a.createdAt
    && (a.revokedAt.Some? ==> b.revokedAt.Some?)
    && ((b.lookup == a.lookup && b.tokenHash == a.tokenHash) || b.lookup >= nonce)
    && b.uploadCount >= a.uploadCount
  }

  ghost predicate SessionKept(a: Session, b: Session) {
    && b.shareId == a.shareId && b.lookup == a.lookup && b.tokenHash == a.tokenHash && b.expiresAt == a.expiresAt
    && (a.revokedAt.Some? ==> b.revokedAt.Some?)
    && (a.verifiedAt.Some? ==> b.verifiedAt.Some?)
  }

  ghost predicate ChallengeKept(a: Challenge, b: Challenge) {
    && b == a.(attempts := b.attempts, consumedAt := b.consumedAt)
    && b.attempts >= a.attempts
    && (a.consumedAt.Some? ==> b == a)
  }

  ghost predicate UploadKept(a: Upload, b: Upload) {
    && b == a.(received := b.received, status := b.status, createdEntry := b.createdEntry)
    && b.received >= a.received
    && (a.IsTerminal() ==> b == a)
    && (b.status == Complete && a.status != Complete ==> b.received == b.expected)
  }

  /** Rows are only added; what a row was for, and every ending it reached, stays. */
  ghost predicate Evolves(t: Tables, u: Tables) {
    && |t.links| <= |u.links| && |t.sessions| <= |u.sessions|
    && |t.challenges| <= |u.challenges| && |t.uploads| <= |u.uploads|
    && t.nonce <= u.nonce
    && (forall i :: 0 <= i < |t.links| ==> LinkKept(t.links[i], u.links[i], t.nonce))
    && (forall i :: |t.links| <= i < |u.links| ==> u.links[i].lookup >= t.nonce)
    && (forall i :: 0 <= i < |t.sessions| ==> SessionKept(t.sessions[i], u.sessions[i]))
    && (forall i :: |t.sessions| <= i < |u.sessions| ==> u.sessions[i].lookup >= t.nonce)
    && (forall i :: 0 <= i < |t.challenges| ==> ChallengeKept(t.challenges[i], u.challenges[i]))
    && (forall i :: 0 <= i < |t.uploads| ==> UploadKept(t.uploads[i], u.uploads[i]))
  }

  lemma EvolvesTransitive(a: Tables, b: Tables, c: Tables)
    requires Evolves(a, b) && Evolves(b, c)
    ensures Evolves(a, c)
  {
  }

  // ---------------------------------------------------------------- the table invariant

  ghost predicate LinksOk(t: Tables) {
    && (forall i :: 0 <= i < |t.links| ==> t.links[i].lookup < t.nonce)
    && (forall i, j :: 0 <= i < j < |t.links| ==> t.links[i].lookup != t.links[j].lookup)
  }

  ghost predicate SessionsOk(t: Tables) {
    && (forall i :: 0 <= i < |t.sessions| ==> t.sessions[i].lookup < t.nonce && t.sessions[i].shareId < |t.links|)
    && (forall i, j :: 0 <= i < j < |t.sessions| ==> t.sessions[i].lookup != t.sessions[j].lookup)
    && (forall i :: 0 <= i < |t.sessions| ==> VerificationBacked(t, i))
  }

  ghost predicate BacksVerification(t: Tables, session: Id, c: Id)
    requires session < |t.sessions|
  {
    && c < |t.challenges|
    && t.challenges[c].consumedAt.Some?
    && t.challenges[c].sessionId == Some(session)
    && t.challenges[c].shareId == t.sessions[session].shareId
    && Some(t.challenges[c].emailHash) == t.sessions[session].emailHash
  }

  /** A session is verified iff it carries an email hash, and then by a challenge consumed for it. */
  ghost predicate VerificationBacked(t: Tables, session: Id)
    requires session < |t.sessions|
  {
    && (t.sessions[session].verifiedAt.Some? <==> t.sessions[session].emailHash.Some?)
    && (t.sessions[session].verifiedAt.Some? ==> exists c: Id :: BacksVerification(t, session, c))
  }

  ghost predicate ChallengeOk(t: Tables, c: Challenge) {
    && c.attempts <= c.maxAttempts
    && c.sessionId.Some? && c.sessionId.value < |t.sessions|
    && c.shareId == t.sessions[c.sessionId.value].shareId
  }

  ghost predicate UploadOk(t: Tables, u: Upload) {
    && u.shareId < |t.links|
    && u.sessionId < |t.sessions|
    && u.received <= u.expected < INT64_LIMIT
    && (u.status == Complete ==> u.received == u.expected)
  }

  /** Everything about the rows but the upload counters. */
  ghost predicate RowsOk(t: Tables) {
    && LinksOk(t)
    && SessionsOk(t)
    && (forall i :: 0 <= i < |t.challenges| ==> ChallengeOk(t, t.challenges[i]))
    && (forall i :: 0 <= i < |t.uploads| ==> UploadOk(t, t.uploads[i]))
  }

  /** How many completed uploads of a link its counter has missed. */
  function Lag(t: Tables, share: Id): int
    requires share < |t.links|
  {
    CompletedFiles(t, share) - t.links[share].uploadCount
  }

  ghost predicate Inv(t: Tables) {
    RowsOk(t) && forall i :: 0 <= i < |t.links| ==> Lag(t, i) == 0
  }

  /** No counter falls further behind or catches up, and new links start level. */
  ghost predicate SameLag(t: Tables, u: Tables) {
    && |t.links| <= |u.links|
    && (forall i :: 0 <= i < |t.links| ==> Lag(u, i) == Lag(t, i))
    && (forall i :: |t.links| <= i < |u.links| ==> Lag(u, i) == 0)
  }

  // ---------------------------------------------------------------- framing

  /** Steps that touch neither uploads nor link counters keep the counters as they are. */
  lemma SameUploads(t: Tables, u: Tables)
    requires RowsOk(t) && u.uploads == t.uploads && |t.links| <= |u.links|
    requires forall i :: 0 <= i < |t.links| ==> u.links[i].uploadCount == t.links[i].uploadCount
    requires forall i :: |t.links| <= i < |u.links| ==> u.links[i].uploadCount == 0
    ensures SameLag(t, u)
  {
    forall i | |t.links| <= i < |u.links|
      ensures CompletedFiles(u, i) == 0
    {
      NoUploadsOfShare(u.uploads, i);
    }
  }

  lemma {:induction false} NoUploadsOfShare(us: seq<Upload>, share: Id)
    requires forall i :: 0 <= i < |us| ==> us[i].shareId != share
    ensures Total(us, IsComplete(share)) == 0
  {
    if us != [] {
      NoUploadsOfShare(us[..|us| - 1], share);
    }
  }

  /** Verification evidence survives any evolution that leaves the session's own email alone. */
  lemma VerificationKept(t: Tables, u: Tables, s: Id)
    requires Evolves(t, u) && s < |t.sessions| && VerificationBacked(t, s)
    requires u.sessions[s].verifiedAt.Some? == t.sessions[s].verifiedAt.Some?
    requires u.sessions[s].emailHash == t.sessions[s].emailHash
    ensures VerificationBacked(u, s)
  {
    if t.sessions[s].verifiedAt.Some? {
      var c: Id :| BacksVerification(t, s, c);
      assert ChallengeKept(t.challenges[c], u.challenges[c]);
      assert SessionKept(t.sessions[s], u.sessions[s]);
      assert BacksVerification(u, s, c);
    }
  }

  /** What a step may do to tables in order. */
  ghost predicate Keeps(t: Tables, u: Tables) {
    Evolves(t, u) && (RowsOk(t) ==> RowsOk(u) && SameLag(t, u))
  }

  lemma KeepsTransitive(a: Tables, b: Tables, c: Tables)
    requires Keeps(a, b) && Keeps(b, c)
    ensures Keeps(a, c)
  {
    EvolvesTransitive(a, b, c);
  }

  // ---------------------------------------------------------------- statements on links and roles

  /** The invariant does not depend on the role tables. */
  lemma RolesKeep(t: Tables, u: Tables)
    requires u == t.(publicRoles := u.publicRoles, legacyRoles := u.legacyRoles, recipientRoles := u.recipientRoles)
    ensures Keeps(t, u)
  {
    if RowsOk(t) {
      RestKept(t, u);
    }
  }

  /** Sessions and challenges stay in order when only other tables change. */
  lemma SessionsAndChallengesKept(t: Tables, u: Tables)
    requires RowsOk(t) && Evolves(t, u)
    requires u.sessions == t.sessions && u.challenges == t.challenges
    ensures SessionsOk(u)
    ensures forall i :: 0 <= i < |u.challenges| ==> ChallengeOk(u, u.challenges[i])
  {
    forall i | 0 <= i < |u.sessions|
      ensures VerificationBacked(u, i)
    {
      VerificationKept(t, u, i);
    }
    forall i | 0 <= i < |u.challenges|
      ensures ChallengeOk(u, u.challenges[i])
    {
      assert ChallengeOk(t, t.challenges[i]);
    }
  }

  lemma RestKept(t: Tables, u: Tables)
    requires RowsOk(t) && Evolves(t, u)
    requires u.sessions == t.sessions && u.challenges == t.challenges && u.uploads == t.uploads
    ensures SessionsOk(u)
    ensures forall i :: 0 <= i < |u.challenges| ==> ChallengeOk(u, u.challenges[i])
    ensures forall i :: 0 <= i < |u.uploads| ==> UploadOk(u, u.uploads[i])
  {
    SessionsAndChallengesKept(t, u);
    forall i | 0 <= i < |u.uploads|
      ensures UploadOk(u, u.uploads[i])
    {
      assert UploadOk(t, t.uploads[i]);
    }
  }

  lemma NonceKeeps(t: Tables)
    ensures Keeps(t, t.(nonce := t.nonce + 1))
  {
    var u := t.(nonce := t.nonce + 1);
    assert Evolves(t, u);
    if RowsOk(t) {
      RestKept(t, u);
      SameUploads(t, u);
    }
  }

  lemma IssueLinkKeeps(t: Tables, row: Link)
    requires row.lookup == t.nonce && row.uploadCount == 0
    ensures Keeps(t, t.(nonce := t.nonce + 1, links := t.links + [row]))
  {
    var u := t.(nonce := t.nonce + 1, links := t.links + [row]);
    assert Evolves(t, u);
    if RowsOk(t) {
      RestKept(t, u);
      SameUploads(t, u);
    }
  }

  lemma SetLinkKeeps(t: Tables, id: Id, row: Link)
    requires id < |t.links|
    requires LinkKept(t.links[id], row, t.nonce)
    requires row.lookup == t.links[id].lookup && row.uploadCount == t.links[id].uploadCount
    ensures Keeps(t, t.(links := t.links[id := row]))
  {
    var u := t.(links := t.links[id := row]);
    assert Evolves(t, u);
    if RowsOk(t) {
      RestKept(t, u);
      SameUploads(t, u);
    }
  }

  lemma RotateRowKeeps(t: Tables, id: Id, row: Link)
    requires id < |t.links|
    requires row == t.links[id].(lookup := t.nonce, tokenHash := row.tokenHash)
    ensures Keeps(t, t.(nonce := t.nonce + 1, links := t.links[id := row]))
  {
    var u := t.(nonce := t.nonce + 1, links := t.links[id := row]);
    assert Evolves(t, u);
    if RowsOk(t) {
      RestKept(t, u);
      SameUploads(t, u);
    }
  }

  lemma RevokeSessionsKeeps(t: Tables, share: Id, now: Time)
    ensures Keeps(t, t.RevokeSessionsForShare(share, now))
  {
    var u := t.RevokeSessionsForShare(share, now);
    assert Evolves(t, u);
    if RowsOk(t) {
      SameUploads(t, u);
      forall i | 0 <= i < |u.sessions|
        ensures VerificationBacked(u, i) && u.sessions[i].lookup < u.nonce && u.sessions[i].shareId < |u.links|
      {
        VerificationKept(t, u, i);
      }
      forall i | 0 <= i < |u.challenges|
        ensures ChallengeOk(u, u.challenges[i])
      {
        assert ChallengeOk(t, t.challenges[i]);
      }
      forall i | 0 <= i < |u.uploads|
        ensures UploadOk(u, u.uploads[i])
      {
        assert UploadOk(t, t.uploads[i]);
      }
    }
  }

  // ---------------------------------------------------------------- link steps

  lemma CreateLinkKeeps(t: Tables, now: Time, c: Call)
    requires c.CreateLink?
    ensures Keeps(t, DoCreateLink(t, now, c).0)
  {
    hide Keeps, Evolves, RowsOk;
    KeepsReflexive(t);
    var valid := NormalizeAndValidate(c.link);
    if valid.Ok? && c.allowed {
      NonceKeeps(t);
      var link := valid.value;
      if link.createdBy != 0 && LinkRowOk(link, now) {
        var row := link.(lookup := t.nonce, tokenHash := t.nonce, createdAt := now,
                         revokedAt := None, disabledAt := None, uploadCount := 0);
        var id := |t.links|;
        var t2 := t.(nonce := t.nonce + 1, links := t.links + [row]);
        IssueLinkKeeps(t, row);
        SetLinkKeeps(t2, id, row.(revokedAt := Some(now)));
        KeepsTransitive(t, t2, t2.RevokeLink(id, now).value);
        if c.publicRole.Some? {
          var t3 := t2.(publicRoles := t2.publicRoles[id := c.publicRole.value]);
          RolesKeep(t2, t3);
          KeepsTransitive(t, t2, t3);
          SetLinkKeeps(t3, id, row.(revokedAt := Some(now)));
          KeepsTransitive(t, t3, t3.RevokeLink(id, now).value);
          if c.recipients.Some? {
            var t4 := t3.(recipientRoles := PutRecipients(t3.recipientRoles, id, c.recipients.value));
            RolesKeep(t3, t4);
            KeepsTransitive(t, t3, t4);
          }
        }
      }
    }
  }

  lemma UpdateLinkShape(t: Tables, now: Time, c: Call) returns (link: Link)
    requires c.UpdateLink?
    ensures !(DoUpdateLink(t, now, c).1.Ok? && DoUpdateLink(t, now, c).1.value.UploadFinished?)
    ensures var u := DoUpdateLink(t, now, c).0;
      && u == t.(publicRoles := u.publicRoles, recipientRoles := u.recipientRoles, links := u.links)
      && (u.links == t.links
          || (c.share < |t.links| && u.links == t.links[c.share := UpdatedRow(t.links[c.share], link)]))
  {
    link := c.link;
    if c.share < |t.links| {
      var v := NormalizeAndValidate(UpdatedRow(t.links[c.share], c.link));
      if v.Ok? {
        link := v.value;
      }
    }
  }

  lemma UpdateLinkKeeps(t: Tables, now: Time, c: Call)
    requires c.UpdateLink?
    ensures Keeps(t, DoUpdateLink(t, now, c).0)
  {
    hide Keeps, Evolves, RowsOk, DoUpdateLink;
    var u := DoUpdateLink(t, now, c).0;
    var link := UpdateLinkShape(t, now, c);
    var t2 := t.(publicRoles := u.publicRoles, recipientRoles := u.recipientRoles);
    RolesKeep(t, t2);
    if u.links != t.links {
      SetLinkKeeps(t2, c.share, UpdatedRow(t.links[c.share], link));
      KeepsTransitive(t, t2, u);
    }
  }

  lemma RevokeLinkKeeps(t: Tables, now: Time, c: Call)
    requires c.RevokeLink?
    ensures Keeps(t, DoRevokeLink(t, now, c).0)
  {
    hide Keeps, Evolves, RowsOk;
    KeepsReflexive(t);
    if c.share < |t.links| && c.allowed {
      var t1 := t.RevokeLink(c.share, now).value;
      var t2 := t1.RevokeSessionsForShare(c.share, now);
      SetLinkKeeps(t, c.share, t.links[c.share].(revokedAt := Some(now)));
      RevokeSessionsKeeps(t1, c.share, now);
      RolesKeep(t2, t2.RemoveRoles(c.share));
      KeepsTransitive(t, t1, t2);
      KeepsTransitive(t, t2, t2.RemoveRoles(c.share));
    }
  }

  lemma RotateLinkTokenKeeps(t: Tables, now: Time, c: Call)
    requires c.RotateLinkToken?
    ensures Keeps(t, DoRotateLinkToken(t, now, c).0)
  {
    hide Keeps, Evolves, RowsOk;
    KeepsReflexive(t);
    if c.share < |t.links| && c.allowed {
      var row := t.links[c.share].(lookup := t.nonce, tokenHash := t.nonce);
      var t1 := t.(nonce := t.nonce + 1, links := t.links[c.share := row]);
      RotateRowKeeps(t, c.share, row);
      RevokeSessionsKeeps(t1, c.share, now);
      KeepsTransitive(t, t1, t1.RevokeSessionsForShare(c.share, now));
    }
  }

  // ---------------------------------------------------------------- session and challenge steps

  lemma CreateSessionKeeps(t: Tables, opts: Options, now: Time, share: Id)
    requires share < |t.links|
    ensures Keeps(t, CreateSessionForLink(t, opts, now, share))
  {
    var u := CreateSessionForLink(t, opts, now, share);
    assert Evolves(t, u);
    if RowsOk(t) {
      SameUploads(t, u);
      forall i | 0 <= i < |u.sessions|
        ensures VerificationBacked(u, i)
      {
        if i < |t.sessions| {
          VerificationKept(t, u, i);
        }
      }
      assert forall i :: 0 <= i < |t.challenges| ==> ChallengeOk(t, t.challenges[i]);
      assert forall i :: 0 <= i < |t.uploads| ==> UploadOk(t, t.uploads[i]);
    }
  }

  lemma AddChallengeKeeps(t: Tables, c: Challenge)
    requires ChallengeOk(t, c)
    ensures Keeps(t, t.(challenges := t.challenges + [c]))
  {
    var u := t.(challenges := t.challenges + [c]);
    assert Evolves(t, u);
    if RowsOk(t) {
      KeepsChallengeChange(t, u);
    }
  }

  lemma SetChallengeKeeps(t: Tables, id: Id, c: Challenge)
    requires id < |t.challenges|
    requires ChallengeKept(t.challenges[id], c) && c.attempts <= c.maxAttempts
    ensures Keeps(t, t.(challenges := t.challenges[id := c]))
  {
    var u := t.(challenges := t.challenges[id := c]);
    assert Evolves(t, u);
    if RowsOk(t) {
      assert ChallengeOk(t, t.challenges[id]);
      KeepsChallengeChange(t, u);
    }
  }

  lemma KeepsChallengeChange(t: Tables, u: Tables)
    requires u == t.(challenges := u.challenges)
    requires Evolves(t, u) && RowsOk(t)
    requires forall i :: 0 <= i < |u.challenges| ==> ChallengeOk(t, u.challenges[i])
    ensures RowsOk(u) && SameLag(t, u)
  {
    SameUploads(t, u);
    forall i | 0 <= i < |u.sessions|
      ensures VerificationBacked(u, i)
    {
      VerificationKept(t, u, i);
    }
    assert forall i :: 0 <= i < |u.challenges| ==> ChallengeOk(u, u.challenges[i]);
    assert forall i :: 0 <= i < |u.uploads| ==> UploadOk(t, u.uploads[i]) && UploadOk(u, u.uploads[i]);
  }

  /** Verifying a session whose evidence is already consumed. */
  lemma VerifySessionKeeps(t: Tables, session: Id, c: Id, now: Time)
    requires session < |t.sessions| && c < |t.challenges|
    requires t.challenges[c].consumedAt.Some? && t.challenges[c].sessionId == Some(session)
    requires t.challenges[c].shareId == t.sessions[session].shareId
    ensures Keeps(t, t.VerifySession(session, t.challenges[c].emailHash, now).value)
  {
    var u := t.VerifySession(session, t.challenges[c].emailHash, now).value;
    assert Evolves(t, u);
    if RowsOk(t) {
      SameUploads(t, u);
      forall i | 0 <= i < |u.sessions|
        ensures VerificationBacked(u, i)
      {
        if i == session {
          assert BacksVerification(u, session, c);
        } else {
          VerificationKept(t, u, i);
        }
      }
      assert forall i :: 0 <= i < |u.challenges| ==> ChallengeOk(t, u.challenges[i]) && ChallengeOk(u, u.challenges[i]);
      assert forall i :: 0 <= i < |u.uploads| ==> UploadOk(t, u.uploads[i]) && UploadOk(u, u.uploads[i]);
    }
  }

  lemma ChallengeSessionKeeps(t: Tables, opts: Options, now: Time, share: Id, session: Id,
                              issued: Option<Token>, email: Option<EmailHash>, code: Code)
    requires share < |t.links| && session < |t.sessions| && t.sessions[session].shareId == share
    ensures Keeps(t, ChallengeSession(t, opts, now, share, session, issued, email, code).0)
  {
    hide Keeps, Evolves, RowsOk;
    KeepsReflexive(t);
    if email.Some? {
      var row := Challenge(share, Some(session), email.value, code, 0, opts.challengeMaxAttempts,
                           now + opts.challengeTtl, None);
      AddChallengeKeeps(t, row);
    }
  }

  lemma OpenPublicSessionKeeps(t: Tables, opts: Options, now: Time, c: Call)
    requires c.OpenPublicSession?
    ensures Keeps(t, DoOpenPublicSession(t, opts, now, c).0)
  {
    hide Keeps, Evolves, RowsOk;
    match LinkFromPublicToken(t, c.publicToken, now)
    case Err(_) => KeepsReflexive(t);
    case Ok(share) => CreateSessionKeeps(t, opts, now, share);
  }

  lemma StartEmailChallengeKeeps(t: Tables, opts: Options, now: Time, c: Call)
    requires c.StartEmailChallenge?
    ensures Keeps(t, DoStartEmailChallenge(t, opts, now, c).0)
  {
    hide Keeps, Evolves, RowsOk;
    KeepsReflexive(t);
    if c.sessionTokenArg.Some? {
      var r := SessionFromToken(t, c.sessionTokenArg.value, now);
      if r.Ok? && t.sessions[r.value].shareId < |t.links| {
        ChallengeSessionKeeps(t, opts, now, t.sessions[r.value].shareId, r.value, None, c.email, c.code);
      }
    } else if c.publicTokenArg.Some? {
      var r := LinkFromPublicToken(t, c.publicTokenArg.value, now);
      if r.Ok? {
        var t1 := CreateSessionForLink(t, opts, now, r.value);
        var issued := Some(Generated(ShareSession, t));
        CreateSessionKeeps(t, opts, now, r.value);
        ChallengeSessionKeeps(t1, opts, now, r.value, |t.sessions|, issued, c.email, c.code);
        KeepsTransitive(t, t1, DoStartEmailChallenge(t, opts, now, c).0);
      }
    }
  }

  lemma ConfirmKeeps(t: Tables, now: Time, c: Call)
    requires c.ConfirmEmailChallenge?
    requires RowsOk(t)
    ensures Keeps(t, DoConfirmEmailChallenge(t, now, c).0)
  {
    KeepsReflexive(t);
    var u := DoConfirmEmailChallenge(t, now, c).0;
    if u != t {
      var ch := t.challenges[c.challenge];
      assert ChallengeOk(t, ch);
      SetChallengeKeeps(t, c.challenge, u.challenges[c.challenge]);
      if u.sessions != t.sessions {
        var t1 := t.(challenges := u.challenges);
        VerifySessionKeeps(t1, c.session, c.challenge, now);
        KeepsTransitive(t, t1, u);
      }
    }
  }

  // ---------------------------------------------------------------- upload steps

  /** Changing one upload row, and the counter of its link if it completes. */
  lemma KeepsUploadChange(t: Tables, u: Tables, id: Id, row: Upload)
    requires id < |t.uploads| && u.uploads == t.uploads[id := row]
    requires UploadKept(t.uploads[id], row) && row.received <= row.expected
    requires row.status == Complete ==> row.received == row.expected
    requires u == t.(uploads := u.uploads, links := u.links)
    requires RowsOk(t)
    requires u.links ==
      if row.status == Complete && t.uploads[id].status != Complete && row.shareId < |t.links|
      then t.links[row.shareId := t.links[row.shareId].(uploadCount := t.links[row.shareId].uploadCount + 1)]
      else t.links
    ensures Keeps(t, u)
  {
    assert UploadOk(t, t.uploads[id]);
    assert Evolves(t, u);
    SessionsAndChallengesKept(t, u);
    forall i | 0 <= i < |u.links|
      ensures Lag(u, i) == Lag(t, i)
    {
      TotalUpdate(t.uploads, id, row, IsComplete(i));
    }
    forall i | 0 <= i < |u.uploads|
      ensures UploadOk(u, u.uploads[i])
    {
      assert UploadOk(t, t.uploads[i]);
    }
  }

  lemma AppendUploadKeeps(t: Tables, row: Upload)
    requires UploadOk(t, row) && row.status != Complete
    ensures Keeps(t, t.(uploads := t.uploads + [row]))
  {
    var u := t.(uploads := t.uploads + [row]);
    assert Evolves(t, u);
    if RowsOk(t) {
      SessionsAndChallengesKept(t, u);
      forall i | 0 <= i < |u.links|
        ensures Lag(u, i) == Lag(t, i)
      {
        TotalAppend(t.uploads, row, IsComplete(i));
      }
      assert forall i :: 0 <= i < |t.uploads| ==> UploadOk(t, t.uploads[i]);
    }
  }

  lemma StartUploadShape(t: Tables, opts: Options, now: Time, r: UploadRequest)
    ensures var (u, o) := DoStartUpload(t, opts, now, r);
      && (o.Err? ==> u == t && o != Err(CodeInvalid))
      && (o.Ok? ==>
            && o == Ok(UploadStarted(|t.uploads|))
            && |u.uploads| == |t.uploads| + 1
            && u == t.(uploads := t.uploads + [u.uploads[|t.uploads|]])
            && var row := u.uploads[|t.uploads|];
               row.shareId == r.principal.shareId && row.sessionId == r.principal.sessionId
               && row.expected == r.expected && row.received == 0 && row.status == Pending && UploadOk(t, row))
  {
  }

  lemma StartUploadKeeps(t: Tables, opts: Options, now: Time, r: UploadRequest)
    ensures Keeps(t, DoStartUpload(t, opts, now, r).0)
  {
    hide Keeps, Evolves, RowsOk, DoStartUpload;
    StartUploadShape(t, opts, now, r);
    KeepsReflexive(t);
    var (u, o) := DoStartUpload(t, opts, now, r);
    if o.Ok? {
      AppendUploadKeeps(t, u.uploads[|t.uploads|]);
    }
  }

  lemma ChunkKeeps(t: Tables, now: Time, p: Principal, id: Id, bytes: uint64)
    requires RowsOk(t)
    ensures Keeps(t, DoRecordUploadChunk(t, now, p, id, bytes).0)
  {
    hide Keeps, Evolves;
    KeepsReflexive(t);
    var (u, o) := DoRecordUploadChunk(t, now, p, id, bytes);
    if o.Ok? {
      assert UploadOk(t, t.uploads[id]);
      KeepsUploadChange(t, u, id, u.uploads[id]);
    }
  }

  lemma FinishShape(t: Tables, now: Time, p: Principal, id: Id, entry: nat)
    ensures var (u, o) := DoFinishUpload(t, now, p, id, entry);
      && (o.Err? ==> u == t && o != Err(CodeInvalid))
      && (o.Ok? ==>
            && o == Ok(UploadFinished(id))
            && id < |t.uploads| && !t.uploads[id].IsTerminal()
            && t.uploads[id].received == t.uploads[id].expected
            && t.uploads[id].shareId < |t.links|
            && var share := t.uploads[id].shareId;
               u == t.(uploads := t.uploads[id := t.uploads[id].(status := Complete, createdEntry := Some(entry))],
                       links := t.links[share := t.links[share].(uploadCount := t.links[share].uploadCount + 1)]))
  {
  }

  lemma FinishKeeps(t: Tables, now: Time, p: Principal, id: Id, entry: nat)
    requires RowsOk(t)
    ensures Keeps(t, DoFinishUpload(t, now, p, id, entry).0)
  {
    hide Keeps, Evolves, DoFinishUpload;
    KeepsReflexive(t);
    FinishShape(t, now, p, id, entry);
    var (u, o) := DoFinishUpload(t, now, p, id, entry);
    if o.Ok? {
      KeepsUploadChange(t, u, id, u.uploads[id]);
    }
  }

  lemma EndUploadKeeps(t: Tables, id: Id, status: UploadStatus)
    requires status == Failed || status == Cancelled
    ensures t.EndUpload(id, status).Some? ==> Keeps(t, t.EndUpload(id, status).value)
  {
    var r := t.EndUpload(id, status);
    if r.Some? {
      assert Evolves(t, r.value);
      if RowsOk(t) {
        assert UploadOk(t, t.uploads[id]);
        KeepsUploadChange(t, r.value, id, r.value.uploads[id]);
      }
    }
  }

  lemma {:induction false} SweepKeeps(t: Tables, batch: seq<Id>)
    ensures Keeps(t, SweepBatch(t, batch))
  {
    hide Keeps, Evolves, RowsOk;
    if batch != [] {
      var last := |batch| - 1;
      var t1 := SweepBatch(t, batch[..last]);
      SweepKeeps(t, batch[..last]);
      EndUploadKeeps(t1, batch[last], Failed);
      KeepsReflexive(t1);
      KeepsTransitive(t, t1, SweepBatch(t, batch));
    } else {
      KeepsReflexive(t);
    }
  }

  lemma KeepsReflexive(t: Tables)
    ensures Keeps(t, t)
  {
  }

  lemma KeepsInv(t: Tables, u: Tables)
    requires Keeps(t, u) && Inv(t)
    ensures Inv(u)
  {
    hide RowsOk, Evolves, Lag;
  }

  lemma CallKeeps(t: Tables, opts: Options, now: Time, c: Call)
    requires RowsOk(t)
    ensures Keeps(t, Do(t, opts, now, c).0)
  {
    hide Keeps, Evolves, RowsOk;
    match c
    case CreateLink(_, _, _, _) => CreateLinkKeeps(t, now, c);
    case UpdateLink(_, _, _, _, _) => UpdateLinkKeeps(t, now, c);
    case RevokeLink(_, _) => RevokeLinkKeeps(t, now, c);
    case RotateLinkToken(_, _) => RotateLinkTokenKeeps(t, now, c);
    case OpenPublicSession(_) => OpenPublicSessionKeeps(t, opts, now, c);
    case StartEmailChallenge(_, _, _, _) => StartEmailChallengeKeeps(t, opts, now, c);
    case ConfirmEmailChallenge(_, _, _, _) => ConfirmKeeps(t, now, c);
    case ResolvePrincipal(_) => KeepsReflexive(t);
    case StartUpload(r) => StartUploadKeeps(t, opts, now, r);
    case RecordUploadChunk(p, id, bytes) => ChunkKeeps(t, now, p, id, bytes);
    case FinishUpload(p, id, entry) => FinishKeeps(t, now, p, id, entry);
    case CancelUpload(p, id) => KeepsReflexive(t); EndUploadKeeps(t, id, Cancelled);
    case FailUpload(p, id) => KeepsReflexive(t); EndUploadKeeps(t, id, Failed);
    case SweepStaleUploads(_, _, batch) => KeepsReflexive(t); SweepKeeps(t, batch);
  }

  /**
   Every public operation keeps the rows in order and every row's ending, whatever its arguments, and no
   counter falls behind: this holds from tables whose counters are already behind as well.
   */
  lemma StepKeeps(t: Tables, opts: Options, now: Time, c: Call)
    requires RowsOk(t)
    ensures Keeps(t, Do(t, opts, now, c).0)
    ensures Inv(t) ==> Inv(Do(t, opts, now, c).0)
  {
    CallKeeps(t, opts, now, c);
    if Inv(t) {
      KeepsInv(t, Do(t, opts, now, c).0);
    }
  }

  lemma {:induction false} RunIsKept(t: Tables, opts: Options, events: seq<Event>)
    requires RowsOk(t)
    ensures Keeps(t, Run(t, opts, events)) && RowsOk(Run(t, opts, events))
    decreases |events|
  {
    hide Evolves, RowsOk;
    KeepsReflexive(t);
    if events != [] {
      var last := |events| - 1;
      var before := Run(t, opts, events[..last]);
      RunIsKept(t, opts, events[..last]);
      CallKeeps(before, opts, events[last].now, events[last].call);
      KeepsTransitive(t, before, Run(t, opts, events));
    }
  }

  /** Over every run: the invariant holds at the end, rows evolved only as allowed, and no counter fell behind. */
  lemma RunKeeps(t: Tables, opts: Options, events: seq<Event>)
    requires RowsOk(t)
    ensures Keeps(t, Run(t, opts, events)) && RowsOk(Run(t, opts, events)) && Evolves(t, Run(t, opts, events))
    ensures Inv(t) ==> Inv(Run(t, opts, events))
  {
    RunIsKept(t, opts, events);
    if Inv(t) {
      KeepsInv(t, Run(t, opts, events));
    }
  }

  lemma EmptyIsInv()
    ensures Inv(EMPTY)
  {
  }
}
