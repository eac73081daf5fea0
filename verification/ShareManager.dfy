/**
 The share manager as it runs: a store of mutable tables, and public methods that read it, check, and
 change it statement by statement. Every method is proved to take the step of `ShareProtocol` that
 carries its name, so every theorem about runs of steps is a theorem about runs of these methods.
 */
module ShareManager {
  import opened Wrappers
  import opened ShareRecords
  import opened ShareTables
  import opened ShareProtocol
  import VaultPath

  class ShareStore {
    var links: seq<Link>
    var sessions: seq<Session>
    var challenges: seq<Challenge>
    var uploads: seq<Upload>
    var publicRoles: map<Id, RoleId>
    var legacyRoles: map<Id, RoleId>
    var recipientRoles: map<(Id, EmailHash), RoleId>
    var nonce: nat

    function Snapshot(): Tables
      reads this
    {
      Tables(links, sessions, challenges, uploads, publicRoles, legacyRoles, recipientRoles, nonce)
    }

    constructor ()
      ensures Snapshot() == EMPTY
    {
      links, sessions, challenges, uploads := [], [], [], [];
      publicRoles, legacyRoles, recipientRoles := map[], map[], map[];
      nonce := 0;
    }

    method GenerateToken(kind: TokenKind) returns (token: Token)
      modifies this`nonce
      ensures token == Generated(kind, old(Snapshot()))
      ensures nonce == old(nonce) + 1
    {
      token := Token(kind, nonce, nonce);
      nonce := nonce + 1;
    }

    // ---- queries

    method GetLinkByLookupId(lookup: nat) returns (id: Option<Id>)
      ensures id == FindLink(links, lookup)
    {
      var i := |links|;
      assert links[..i] == links;
      while i > 0
        invariant 0 <= i <= |links|
        invariant FindLink(links[..i], lookup) == FindLink(links, lookup)
      {
        i := i - 1;
        assert links[..i + 1][..i] == links[..i];
        if links[i].lookup == lookup {
          return Some(i);
        }
      }
      id := None;
    }

    method GetSessionByLookupId(lookup: nat) returns (id: Option<Id>)
      ensures id == FindSession(sessions, lookup)
    {
      var i := |sessions|;
      assert sessions[..i] == sessions;
      while i > 0
        invariant 0 <= i <= |sessions|
        invariant FindSession(sessions[..i], lookup) == FindSession(sessions, lookup)
      {
        i := i - 1;
        assert sessions[..i + 1][..i] == sessions[..i];
        if sessions[i].lookup == lookup {
          return Some(i);
        }
      }
      id := None;
    }

    method CountCompletedUploadFiles(share: Id) returns (n: nat)
      ensures n == CompletedFiles(Snapshot(), share)
    {
      n := 0;
      for i := 0 to |uploads|
        invariant n == Total(uploads[..i], IsComplete(share))
      {
        assert uploads[..i + 1][..i] == uploads[..i];
        if uploads[i].shareId == share && uploads[i].status == Complete {
          n := n + 1;
        }
      }
      assert uploads[..|uploads|] == uploads;
    }

    method SumCompletedUploadBytes(share: Id) returns (n: nat)
      ensures n == CompletedBytes(Snapshot(), share)
    {
      n := 0;
      for i := 0 to |uploads|
        invariant n == Total(uploads[..i], CompleteBytes(share))
      {
        assert uploads[..i + 1][..i] == uploads[..i];
        if uploads[i].shareId == share && uploads[i].status == Complete {
          n := n + uploads[i].received;
        }
      }
      assert uploads[..|uploads|] == uploads;
    }

    /** The oldest stale uploads, oldest first, at most `limit` of them. */
    method ListStaleActiveUploads(olderThan: int, limit: nat, now: Time) returns (batch: seq<Id>)
      ensures IsStaleBatch(uploads, olderThan, limit, now, batch)
    {
      batch := [];
      for id := 0 to |uploads|
        invariant IsStaleBatch(uploads[..id], olderThan, limit, now, batch)
      {
        if IsStale(uploads[id], olderThan, now) {
          batch := InsertByAge(uploads[..id + 1], olderThan, limit, now, batch);
        } else {
          LongerTable(uploads[..id], uploads[id], olderThan, limit, now, batch);
          assert uploads[..id] + [uploads[id]] == uploads[..id + 1];
        }
      }
      assert uploads[..|uploads|] == uploads;
    }

    static method InsertByAge(us: seq<Upload>, olderThan: int, limit: nat, now: Time, batch: seq<Id>)
      returns (out: seq<Id>)
      requires us != [] && IsStale(us[|us| - 1], olderThan, now)
      requires IsStaleBatch(us[..|us| - 1], olderThan, limit, now, batch)
      ensures IsStaleBatch(us, olderThan, limit, now, out)
    {
      var id := |us| - 1;
      var at := 0;
      while at < |batch| && us[batch[at]].startedAt <= us[id].startedAt
        invariant 0 <= at <= |batch|
        invariant forall i :: 0 <= i < at ==> us[batch[i]].startedAt <= us[id].startedAt
      {
        at := at + 1;
      }
      InsertKeepsOrder(us, olderThan, now, batch, at);
      ghost var full := Insert(batch, at, id);
      InsertMembers(batch, at, id);
      out := Insert(batch, at, id);
      if |out| > limit {
        out := out[..limit];
      }
      forall k: nat | k < |us| && IsStale(us[k], olderThan, now) && k !in out
        ensures |out| == limit && NoneOlder(us, out, k)
      {
        if k in full {
          CutDropsYoungest(us, olderThan, now, full, k);
        } else {
          LeftOutStaysOut(us, batch, at, k);
        }
      }
    }

    // ---- statements

    method CreateLink(row: Link) returns (id: Id)
      modifies this`links
      ensures id == |old(links)| && links == old(links) + [row]
    {
      id := |links|;
      links := links + [row];
    }

    method SetLink(id: Id, row: Link)
      requires id < |links|
      modifies this`links
      ensures links == old(links)[id := row]
    {
      links := links[id := row];
    }

    method RevokeLink(id: Id, now: Time) returns (ok: bool)
      modifies this`links
      ensures ok == old(Snapshot()).RevokeLink(id, now).Some?
      ensures Snapshot() == old(Snapshot()).RevokeLink(id, now).GetOr(old(Snapshot()))
    {
      ok := id < |links|;
      if ok {
        links := links[id := links[id].(revokedAt := Some(now))];
      }
    }

    method RotateLinkToken(id: Id, token: Token) returns (ok: bool)
      modifies this`links
      ensures ok == old(Snapshot()).RotateLinkToken(id, token).Some?
      ensures Snapshot() == old(Snapshot()).RotateLinkToken(id, token).GetOr(old(Snapshot()))
    {
      ok := id < |links|;
      if ok {
        links := links[id := links[id].(lookup := token.lookup, tokenHash := token.secret)];
      }
    }

    method IncrementUpload(id: Id) returns (ok: bool)
      modifies this`links
      ensures ok == old(Snapshot()).IncrementUpload(id).Some?
      ensures Snapshot() == old(Snapshot()).IncrementUpload(id).GetOr(old(Snapshot()))
    {
      ok := id < |links|;
      if ok {
        links := links[id := links[id].(uploadCount := links[id].uploadCount + 1)];
      }
    }

    method RevokeSessionsForShare(share: Id, now: Time)
      modifies this`sessions
      ensures Snapshot() == old(Snapshot()).RevokeSessionsForShare(share, now)
    {
      for i := 0 to |sessions|
        invariant |sessions| == |old(sessions)|
        invariant forall j :: 0 <= j < i ==> sessions[j] == RevokedSession(old(sessions)[j], share, now)
        invariant forall j :: i <= j < |sessions| ==> sessions[j] == old(sessions)[j]
      {
        if sessions[i].shareId == share && sessions[i].revokedAt.None? {
          sessions := sessions[i := sessions[i].(revokedAt := Some(now))];
        }
      }
      assert sessions == RevokedSessions(old(sessions), share, now);
    }

    method RemoveVaultRoleForShare(share: Id)
      modifies this`publicRoles, this`legacyRoles, this`recipientRoles
      ensures Snapshot() == old(Snapshot()).RemoveRoles(share)
    {
      publicRoles := publicRoles - {share};
      legacyRoles := legacyRoles - {share};
      recipientRoles := map k | k in recipientRoles && k.0 != share :: recipientRoles[k];
    }

    method UpsertPublicRole(share: Id, role: RoleId)
      modifies this`publicRoles
      ensures publicRoles == old(publicRoles)[share := role]
    {
      publicRoles := publicRoles[share := role];
    }

    /** Upserts every recipient in turn; with `replace`, the share's other recipients are dropped. */
    method PutRecipientRoles(share: Id, rs: seq<(EmailHash, RoleId)>, replace: bool)
      modifies this`recipientRoles
      ensures recipientRoles ==
        PutRecipients(if replace then map k | k in old(recipientRoles) && k.0 != share :: old(recipientRoles)[k]
                      else old(recipientRoles), share, rs)
    {
      if replace {
        recipientRoles := map k | k in recipientRoles && k.0 != share :: recipientRoles[k];
      }
      ghost var base := recipientRoles;
      for i := 0 to |rs|
        invariant recipientRoles == PutRecipients(base, share, rs[..i])
      {
        assert rs[..i + 1][..i] == rs[..i];
        recipientRoles := recipientRoles[(share, rs[i].0) := rs[i].1];
      }
      assert rs[..|rs|] == rs;
    }

    method CreateSession(row: Session) returns (id: Id)
      modifies this`sessions
      ensures id == |old(sessions)| && sessions == old(sessions) + [row]
    {
      id := |sessions|;
      sessions := sessions + [row];
    }

    method VerifySession(id: Id, email: EmailHash, now: Time) returns (ok: bool)
      modifies this`sessions
      ensures ok == old(Snapshot()).VerifySession(id, email, now).Some?
      ensures Snapshot() == old(Snapshot()).VerifySession(id, email, now).GetOr(old(Snapshot()))
    {
      ok := id < |sessions|;
      if ok {
        sessions := sessions[id := sessions[id].(emailHash := Some(email), verifiedAt := Some(now))];
      }
    }

    method CreateEmailChallenge(row: Challenge, now: Time) returns (ok: bool)
      modifies this`challenges
      ensures ok == old(Snapshot()).CreateChallenge(row, now).Some?
      ensures Snapshot() == old(Snapshot()).CreateChallenge(row, now).GetOr(old(Snapshot()))
    {
      ok := row.maxAttempts != 0 && row.expiresAt > now;
      if ok {
        challenges := challenges + [row];
      }
    }

    method RecordEmailChallengeAttempt(id: Id, now: Time) returns (ok: bool)
      modifies this`challenges
      ensures ok == old(Snapshot()).RecordAttempt(id, now).Some?
      ensures Snapshot() == old(Snapshot()).RecordAttempt(id, now).GetOr(old(Snapshot()))
    {
      ok := id < |challenges| && challenges[id].CanAttempt(now);
      if ok {
        challenges := challenges[id := challenges[id].(attempts := challenges[id].attempts + 1)];
      }
    }

    method ConsumeEmailChallenge(id: Id, now: Time) returns (ok: bool)
      modifies this`challenges
      ensures ok == old(Snapshot()).ConsumeChallenge(id, now).Some?
      ensures Snapshot() == old(Snapshot()).ConsumeChallenge(id, now).GetOr(old(Snapshot()))
    {
      ok := id < |challenges| && challenges[id].consumedAt.None? && !challenges[id].IsExpired(now);
      if ok {
        challenges := challenges[id := challenges[id].(consumedAt := Some(now))];
      }
    }

    method CreateUpload(row: Upload) returns (ok: bool)
      modifies this`uploads
      ensures ok == old(Snapshot()).CreateUpload(row).Some?
      ensures Snapshot() == old(Snapshot()).CreateUpload(row).GetOr(old(Snapshot()))
    {
      ok := row.expected < INT64_LIMIT;
      if ok {
        uploads := uploads + [row];
      }
    }

    method AddUploadReceivedBytes(id: Id, bytes: uint64) returns (ok: bool)
      modifies this`uploads
      ensures ok == old(Snapshot()).AddReceivedBytes(id, bytes).Some?
      ensures Snapshot() == old(Snapshot()).AddReceivedBytes(id, bytes).GetOr(old(Snapshot()))
    {
      ok := id < |uploads| && !uploads[id].IsTerminal() && uploads[id].received + bytes <= uploads[id].expected;
      if ok {
        uploads := uploads[id := uploads[id].(received := uploads[id].received + bytes, status := Receiving)];
      }
    }

    method CompleteUpload(id: Id, entry: nat) returns (ok: bool)
      modifies this`uploads
      ensures ok == old(Snapshot()).CompleteUpload(id, entry).Some?
      ensures Snapshot() == old(Snapshot()).CompleteUpload(id, entry).GetOr(old(Snapshot()))
    {
      ok := id < |uploads| && !uploads[id].IsTerminal();
      if ok {
        uploads := uploads[id := uploads[id].(status := Complete, createdEntry := Some(entry))];
      }
    }

    method EndUpload(id: Id, status: UploadStatus) returns (ok: bool)
      modifies this`uploads
      ensures ok == old(Snapshot()).EndUpload(id, status).Some?
      ensures Snapshot() == old(Snapshot()).EndUpload(id, status).GetOr(old(Snapshot()))
    {
      ok := id < |uploads| && !uploads[id].IsTerminal();
      if ok {
        uploads := uploads[id := uploads[id].(status := status)];
      }
    }
  }

  lemma LongerTable(us: seq<Upload>, u: Upload, olderThan: int, limit: nat, now: Time, batch: seq<Id>)
    requires IsStaleBatch(us, olderThan, limit, now, batch) && !IsStale(u, olderThan, now)
    ensures IsStaleBatch(us + [u], olderThan, limit, now, batch)
  {
  }

  function Insert(batch: seq<Id>, at: nat, id: Id): (full: seq<Id>)
    requires at <= |batch|
    ensures |full| == |batch| + 1 && full[at] == id
    ensures forall i :: 0 <= i < at ==> full[i] == batch[i]
    ensures forall i :: at < i < |full| ==> full[i] == batch[i - 1]
  {
    batch[..at] + [id] + batch[at..]
  }

  lemma InsertMembers(batch: seq<Id>, at: nat, id: Id)
    requires at <= |batch|
    ensures forall x :: x in Insert(batch, at, id) <==> x in batch || x == id
  {
    assert batch == batch[..at] + batch[at..];
  }

  /** Inserting the table's last row after the last batch entry that is not younger keeps the batch ordered. */
  lemma InsertKeepsOrder(us: seq<Upload>, olderThan: int, now: Time, batch: seq<Id>, at: nat)
    requires us != [] && IsStale(us[|us| - 1], olderThan, now)
    requires StaleAndOrdered(us[..|us| - 1], olderThan, now, batch)
    requires at <= |batch|
    requires forall i :: 0 <= i < at ==> us[batch[i]].startedAt <= us[|us| - 1].startedAt
    requires at < |batch| ==> us[batch[at]].startedAt > us[|us| - 1].startedAt
    ensures StaleAndOrdered(us, olderThan, now, Insert(batch, at, |us| - 1))
  {
  }

  /** Cutting an ordered batch by one drops its youngest upload. */
  lemma CutDropsYoungest(us: seq<Upload>, olderThan: int, now: Time, full: seq<Id>, id: Id)
    requires full != [] && StaleAndOrdered(us, olderThan, now, full)
    requires id in full && id !in full[..|full| - 1]
    ensures id < |us| && NoneOlder(us, full[..|full| - 1], id)
  {
    assert full == full[..|full| - 1] + [full[|full| - 1]];
    assert id == full[|full| - 1];
  }

  /** An upload the shorter batch left out is no older than anything the longer one keeps. */
  lemma LeftOutStaysOut(us: seq<Upload>, batch: seq<Id>, at: nat, id: Id)
    requires us != [] && id < |us| - 1 && at <= |batch|
    requires forall i :: 0 <= i < |batch| ==> batch[i] < |us| - 1
    requires NoneOlder(us[..|us| - 1], batch, id)
    requires at < |batch| ==> us[batch[at]].startedAt > us[|us| - 1].startedAt
    ensures NoneOlder(us, Insert(batch, at, |us| - 1)[..|batch|], id)
  {
  }

  class Manager {
    const store: ShareStore
    const opts: Options

    constructor (store: ShareStore, opts: Options)
      ensures this.store == store && this.opts == opts
    {
      this.store := store;
      this.opts := opts;
    }

    // ---- links

    method CreateLink(now: Time, allowed: bool, request: Link, publicRole: Option<RoleId>, recipients: Recipients)
      returns (o: Outcome)
      modifies store
      ensures (store.Snapshot(), o)
           == DoCreateLink(old(store.Snapshot()), now, Call.CreateLink(allowed, request, publicRole, recipients))
    {
      var link :- NormalizeAndValidate(request);
      if !allowed {
        return Err(AuthorizationDenied);
      }
      var token := store.GenerateToken(PublicShare);
      if link.createdBy == 0 || !LinkRowOk(link, now) {
        return Err(RowRejected);
      }
      var id := store.CreateLink(link.(lookup := token.lookup, tokenHash := token.secret, createdAt := now,
                                       revokedAt := None, disabledAt := None, uploadCount := 0));
      if publicRole.None? {
        var _ := store.RevokeLink(id, now);
        return Err(RoleTemplateMissing);
      }
      store.UpsertPublicRole(id, publicRole.value);
      if recipients.None? {
        var _ := store.RevokeLink(id, now);
        return Err(RecipientInvalid);
      }
      store.PutRecipientRoles(id, recipients.value, false);
      o := Ok(LinkIssued(id, token));
    }

    method UpdateLink(now: Time, share: Id, allowed: bool, request: Link,
                      newPublicRole: Option<Option<RoleId>>, newRecipients: Option<Recipients>)
      returns (o: Outcome)
      modifies store
      ensures (store.Snapshot(), o)
           == DoUpdateLink(old(store.Snapshot()), now,
                           Call.UpdateLink(share, allowed, request, newPublicRole, newRecipients))
    {
      if share >= |store.links| {
        return Err(LinkNotFound);
      }
      var existing := store.links[share];
      var updated :- NormalizeAndValidate(UpdatedRow(existing, request));
      if !allowed {
        return Err(AuthorizationDenied);
      }
      if newPublicRole.Some? {
        if newPublicRole.value.None? {
          return Err(RoleTemplateMissing);
        }
        store.UpsertPublicRole(share, newPublicRole.value.value);
      }
      if newRecipients.Some? {
        if newRecipients.value.None? {
          return Err(RecipientInvalid);
        }
        store.PutRecipientRoles(share, newRecipients.value.value, true);
      }
      if !LinkRowOk(updated, existing.createdAt) {
        return Err(RowRejected);
      }
      store.SetLink(share, UpdatedRow(existing, updated));
      o := Ok(LinkSaved(share));
    }

    method RevokeLink(now: Time, share: Id, allowed: bool) returns (o: Outcome)
      modifies store
      ensures (store.Snapshot(), o) == DoRevokeLink(old(store.Snapshot()), now, Call.RevokeLink(share, allowed))
    {
      if share >= |store.links| {
        return Err(LinkNotFound);
      }
      if !allowed {
        return Err(AuthorizationDenied);
      }
      var _ := store.RevokeLink(share, now);
      store.RevokeSessionsForShare(share, now);
      store.RemoveVaultRoleForShare(share);
      o := Ok(LinkRevoked(share));
    }

    method RotateLinkToken(now: Time, share: Id, allowed: bool) returns (o: Outcome)
      modifies store
      ensures (store.Snapshot(), o)
           == DoRotateLinkToken(old(store.Snapshot()), now, Call.RotateLinkToken(share, allowed))
    {
      if share >= |store.links| {
        return Err(LinkNotFound);
      }
      if !allowed {
        return Err(AuthorizationDenied);
      }
      var token := store.GenerateToken(PublicShare);
      var _ := store.RotateLinkToken(share, token);
      store.RevokeSessionsForShare(share, now);
      o := Ok(LinkIssued(share, token));
    }

    // ---- sessions

    method LinkOfPublicToken(token: Option<Token>, now: Time) returns (r: Result<Id, ShareError>)
      ensures r == LinkFromPublicToken(store.Snapshot(), token, now)
    {
      if token.None? {
        return Err(MalformedToken);
      }
      if token.value.kind != PublicShare {
        return Err(WrongTokenKind);
      }
      var id := store.GetLinkByLookupId(token.value.lookup);
      if id.None? || store.links[id.value].tokenHash != token.value.secret {
        return Err(InvalidToken);
      }
      if !store.links[id.value].IsActive(now) {
        return Err(LinkInactive);
      }
      r := Ok(id.value);
    }

    method SessionOfToken(token: Option<Token>, now: Time) returns (r: Result<Id, ShareError>)
      ensures r == SessionFromToken(store.Snapshot(), token, now)
    {
      if token.None? {
        return Err(MalformedToken);
      }
      if token.value.kind != ShareSession {
        return Err(WrongTokenKind);
      }
      var id := store.GetSessionByLookupId(token.value.lookup);
      if id.None? || store.sessions[id.value].tokenHash != token.value.secret {
        return Err(InvalidToken);
      }
      if !store.sessions[id.value].IsActive(now) {
        return Err(SessionInactive);
      }
      r := Ok(id.value);
    }

    method OpenSessionFor(share: Id, now: Time) returns (session: Id, token: Token)
      modifies store
      ensures session == |old(store.sessions)| && token == Generated(ShareSession, old(store.Snapshot()))
      ensures store.Snapshot() == CreateSessionForLink(old(store.Snapshot()), opts, now, share)
    {
      token := store.GenerateToken(ShareSession);
      session := store.CreateSession(
        Session(share, token.lookup, token.secret, None, None, now + opts.sessionTtl, None));
    }

    method OpenPublicSession(now: Time, publicToken: Option<Token>) returns (o: Outcome)
      modifies store
      ensures (store.Snapshot(), o)
           == DoOpenPublicSession(old(store.Snapshot()), opts, now, Call.OpenPublicSession(publicToken))
    {
      var share :- LinkOfPublicToken(publicToken, now);
      var session, token := OpenSessionFor(share, now);
      o := Ok(SessionOpened(session, token, store.links[share].RequiresEmail()));
    }

    method StartEmailChallenge(now: Time, publicToken: Option<Option<Token>>, sessionToken: Option<Option<Token>>,
                               email: Option<EmailHash>, code: Code)
      returns (o: Outcome)
      modifies store
      ensures (store.Snapshot(), o)
           == DoStartEmailChallenge(old(store.Snapshot()), opts, now,
                                    Call.StartEmailChallenge(publicToken, sessionToken, email, code))
    {
      if publicToken.None? && sessionToken.None? {
        return Err(TokenRequired);
      }
      var share, session: Id;
      var issued: Option<Token> := None;
      if sessionToken.Some? {
        session :- SessionOfToken(sessionToken.value, now);
        share := store.sessions[session].shareId;
        if share >= |store.links| {
          return Err(LinkNotFound);
        }
      } else {
        share :- LinkOfPublicToken(publicToken.value, now);
        var token;
        session, token := OpenSessionFor(share, now);
        issued := Some(token);
      }
      var link := store.links[share];
      if !link.RequiresEmail() {
        return Err(EmailNotRequired);
      }
      if !link.IsActive(now) {
        return Err(LinkInactive);
      }
      if !store.sessions[session].IsActive(now) {
        return Err(SessionInactive);
      }
      if email.None? {
        return Err(EmailInvalid);
      }
      var id := |store.challenges|;
      var created := store.CreateEmailChallenge(
        Challenge(share, Some(session), email.value, code, 0, opts.challengeMaxAttempts,
                  now + opts.challengeTtl, None), now);
      if !created {
        return Err(RowRejected);
      }
      o := Ok(ChallengeStarted(id, session, issued));
    }

    method ConfirmEmailChallenge(now: Time, challenge: Id, sessionId: Id, sessionToken: Option<Token>, answer: Code)
      returns (o: Outcome)
      modifies store
      ensures (store.Snapshot(), o)
           == DoConfirmEmailChallenge(old(store.Snapshot()), now,
                                      Call.ConfirmEmailChallenge(challenge, sessionId, sessionToken, answer))
    {
      if challenge >= |store.challenges| {
        return Err(ChallengeNotFound);
      }
      var loaded := store.challenges[challenge];
      var session :- SessionOfToken(sessionToken, now);
      if session != sessionId {
        return Err(SessionTokenMismatch);
      }
      if loaded.shareId >= |store.links| {
        return Err(LinkNotFound);
      }
      var link := store.links[loaded.shareId];
      if !link.RequiresEmail() {
        return Err(EmailNotRequired);
      }
      if !link.IsActive(now) {
        return Err(LinkInactive);
      }
      if loaded.shareId != store.sessions[session].shareId {
        return Err(ChallengeShareMismatch);
      }
      if loaded.sessionId.Some? && loaded.sessionId.value != session {
        return Err(ChallengeSessionMismatch);
      }
      if (loaded.shareId, loaded.emailHash) !in store.recipientRoles {
        return Err(RecipientNotAuthorized);
      }
      if !loaded.CanAttempt(now) {
        return Err(ChallengeNotAttemptable);
      }
      if loaded.codeHash != answer {
        var recorded := store.RecordEmailChallengeAttempt(challenge, now);
        return Err(if recorded then CodeInvalid else RowRejected);
      }
      var consumed := store.ConsumeEmailChallenge(challenge, now);
      if !consumed {
        return Err(RowRejected);
      }
      var verified := store.VerifySession(session, loaded.emailHash, now);
      o := if verified then Ok(SessionVerified(session, challenge)) else Err(RowRejected);
    }

    method ResolvePrincipal(now: Time, sessionToken: Option<Token>) returns (o: Outcome)
      ensures (store.Snapshot(), o) == DoResolvePrincipal(store.Snapshot(), now, Call.ResolvePrincipal(sessionToken))
    {
      var session :- SessionOfToken(sessionToken, now);
      var principal :- PrincipalFor(store.Snapshot(), now, session);
      o := Ok(PrincipalResolved(principal));
    }

    // ---- uploads

    method CheckUploadQuota(share: Id, link: Link, expected: uint64) returns (r: Result<(), ShareError>)
      ensures r == RequireUploadQuota(store.Snapshot(), share, link, expected)
    {
      if link.maxUploadFiles.Some? {
        var files := store.CountCompletedUploadFiles(share);
        if files >= link.maxUploadFiles.value {
          return Err(FileLimitReached);
        }
      }
      if link.maxUploadTotal.Some? {
        var completed := store.SumCompletedUploadBytes(share);
        if completed >= UINT64_LIMIT {
          return Err(RowRejected);
        }
        if expected > link.maxUploadTotal.value || completed > link.maxUploadTotal.value - expected {
          return Err(ByteLimitExceeded);
        }
      }
      r := Ok(());
    }

    method StartUpload(now: Time, r: UploadRequest) returns (o: Outcome)
      modifies store
      ensures (store.Snapshot(), o) == DoStartUpload(old(store.Snapshot()), opts, now, r)
    {
      var link :- RequireActiveShareContext(store.Snapshot(), r.principal, now);
      var _ :- RequireUploadAllowedByGrant(opts, link, r);
      var _ :- CheckUploadQuota(r.principal.shareId, link, r.expected);
      var path := VaultPath.NormalizeVaultPath(r.targetPath);
      if path.None? {
        return Err(InvalidPath);
      }
      var id := |store.uploads|;
      var created := store.CreateUpload(
        Upload(r.principal.shareId, r.principal.sessionId, r.targetParent, path.value, r.expected, 0,
               Pending, None, now));
      o := if created then Ok(UploadStarted(id)) else Err(RowRejected);
    }

    method RecordUploadChunk(now: Time, p: Principal, id: Id, bytes: uint64) returns (o: Outcome)
      modifies store
      ensures (store.Snapshot(), o) == DoRecordUploadChunk(old(store.Snapshot()), now, p, id, bytes)
    {
      if bytes == 0 {
        return Err(BadUploadRequest);
      }
      var _ :- RequireActiveShareContext(store.Snapshot(), p, now);
      var upload :- RequireUploadForPrincipal(store.Snapshot(), p, id);
      if upload.IsTerminal() {
        return Err(AlreadyTerminal);
      }
      if upload.ExceedsExpectedSize(bytes) {
        return Err(ExceedsExpected);
      }
      var added := store.AddUploadReceivedBytes(id, bytes);
      o := if added then Ok(ChunkRecorded(id)) else Err(RowRejected);
    }

    method FinishUpload(now: Time, p: Principal, id: Id, createdEntry: nat) returns (o: Outcome)
      modifies store
      ensures (store.Snapshot(), o) == DoFinishUpload(old(store.Snapshot()), now, p, id, createdEntry)
    {
      var _ :- RequireActiveShareContext(store.Snapshot(), p, now);
      var upload :- RequireUploadForPrincipal(store.Snapshot(), p, id);
      if upload.IsTerminal() {
        return Err(AlreadyTerminal);
      }
      if upload.received != upload.expected {
        return Err(SizeMismatch);
      }
      if createdEntry == 0 {
        return Err(BadUploadRequest);
      }
      var completed := store.CompleteUpload(id, createdEntry);
      if !completed {
        return Err(RowRejected);
      }
      var counted := store.IncrementUpload(p.shareId);
      o := if counted then Ok(UploadFinished(id)) else Err(RowRejected);
    }

    method CancelUpload(now: Time, p: Principal, id: Id) returns (o: Outcome)
      modifies store
      ensures (store.Snapshot(), o) == DoCancelUpload(old(store.Snapshot()), now, p, id)
    {
      var _ :- RequireActiveShareContext(store.Snapshot(), p, now);
      var _ :- RequireUploadForPrincipal(store.Snapshot(), p, id);
      var cancelled := store.EndUpload(id, Cancelled);
      o := if cancelled then Ok(UploadCancelled(id)) else Err(RowRejected);
    }

    method FailUpload(p: Principal, id: Id) returns (o: Outcome)
      modifies store
      ensures (store.Snapshot(), o) == DoFailUpload(old(store.Snapshot()), p, id)
    {
      var _ :- RequireUploadForPrincipal(store.Snapshot(), p, id);
      var failed := store.EndUpload(id, Failed);
      o := if failed then Ok(UploadFailed(id)) else Err(RowRejected);
    }

    /** Returns the batch the query listed beside the outcome. */
    method SweepStaleUploads(now: Time, olderThan: int, limit: nat) returns (o: Outcome, batch: seq<Id>)
      modifies store
      ensures (store.Snapshot(), o) == DoSweep(old(store.Snapshot()), opts, olderThan, limit, batch)
      ensures o.Ok? ==> IsStaleBatch(old(store.uploads),
                                     if olderThan > 0 then olderThan else opts.staleTtl,
                                     if limit > 0 then limit else opts.staleLimit, now, batch)
    {
      batch := [];
      var age := if olderThan > 0 then olderThan else opts.staleTtl;
      var cap := if limit > 0 then limit else opts.staleLimit;
      if age <= 0 {
        o := Err(SweepAgeInvalid);
        return;
      }
      batch := store.ListStaleActiveUploads(age, cap, now);
      if cap == 0 {
        o := Ok(Swept(0, 0));
        return;
      }
      for i := 0 to |batch|
        invariant store.Snapshot() == SweepBatch(old(store.Snapshot()), batch[..i])
      {
        assert batch[..i + 1][..i] == batch[..i];
        var _ := store.EndUpload(batch[i], Failed);
      }
      assert batch[..|batch|] == batch;
      o := Ok(Swept(|batch|, |batch|));
    }
  }
}
