/**
 Email verification over whole runs, whose database may fail anywhere: when a session becomes verified, and how
 often a challenge serves.
 */
module ShareVerification {
  import opened Wrappers
  import opened ShareRecords
  import opened ShareTables
  import opened ShareProtocol
  import opened ShareInvariant
  import opened ShareInterruption

  /** The token opens this very session. */
  ghost predicate Presents(t: Tables, token: Option<Token>, session: Id, now: Time) {
    && token.Some? && token.value.kind == ShareSession
    && session < |t.sessions|
    && t.sessions[session].lookup == token.value.lookup
    && t.sessions[session].tokenHash == token.value.secret
    && t.sessions[session].IsActive(now)
  }

  /** A challenge that may be answered for this session at this moment, whatever the code. */
  ghost predicate Answerable(t: Tables, now: Time, challenge: Id, session: Id) {
    && challenge < |t.challenges| && session < |t.sessions|
    && var c := t.challenges[challenge];
       && c.shareId == t.sessions[session].shareId && c.shareId < |t.links|
       && (c.sessionId.Some? ==> c.sessionId.value == session)
       && t.links[c.shareId].RequiresEmail() && t.links[c.shareId].IsActive(now)
       && (c.shareId, c.emailHash) in t.recipientRoles
       && c.consumedAt.None? && c.expiresAt > now
       && c.attempts < c.maxAttempts
  }

  lemma PresentsIsToken(t: Tables, token: Option<Token>, session: Id, now: Time)
    requires SessionsOk(t)
    ensures SessionFromToken(t, token, now) == Ok(session) <==> Presents(t, token, session, now)
  {
  }

  /**
   When a confirmation verifies: exactly when the caller presents the session, the challenge may be
   answered for it, and the code is right. A wrong code on an answerable challenge costs one attempt.
   */
  lemma ConfirmIsExact(t: Tables, opts: Options, now: Time, challenge: Id, session: Id,
                       token: Option<Token>, answer: Code)
    requires SessionsOk(t)
    ensures var (u, o) := Do(t, opts, now, ConfirmEmailChallenge(challenge, session, token, answer));
      var may := Presents(t, token, session, now) && Answerable(t, now, challenge, session);
      && (o == Ok(SessionVerified(session, challenge)) <==> may && t.challenges[challenge].codeHash == answer)
      && (o == Err(CodeInvalid) <==> may && t.challenges[challenge].codeHash != answer)
      && (o.Ok? ==>
            && o == Ok(SessionVerified(session, challenge))
            && u == t.(challenges := t.challenges[challenge := t.challenges[challenge].(consumedAt := Some(now))],
                       sessions := t.sessions[session := t.sessions[session].(
                         emailHash := Some(t.challenges[challenge].emailHash), verifiedAt := Some(now))]))
      && (o == Err(CodeInvalid) ==>
            u == t.(challenges := t.challenges[challenge :=
                      t.challenges[challenge].(attempts := t.challenges[challenge].attempts + 1)]))
      && (o.Err? && o != Err(CodeInvalid) ==> u == t)
  {
    PresentsIsToken(t, token, session, now);
  }

  // ---------------------------------------------------------------- no other way in

  ghost predicate SameVerification(a: Session, b: Session) {
    a.verifiedAt == b.verifiedAt && a.emailHash == b.emailHash
  }

  ghost predicate NoVerification(t: Tables, r: (Tables, Outcome)) {
    && |t.sessions| <= |r.0.sessions| && |t.challenges| <= |r.0.challenges|
    && (forall i :: 0 <= i < |t.sessions| ==> SameVerification(t.sessions[i], r.0.sessions[i]))
    && (forall i :: |t.sessions| <= i < |r.0.sessions| ==> r.0.sessions[i].verifiedAt.None?)
    && (forall i :: 0 <= i < |t.challenges| ==> r.0.challenges[i] == t.challenges[i])
    && (forall i :: |t.challenges| <= i < |r.0.challenges| ==>
          r.0.challenges[i].attempts == 0 && r.0.challenges[i].consumedAt.None?)
    && !(r.1.Ok? && r.1.value.SessionVerified?)
    && r.1 != Err(CodeInvalid)
  }

  lemma CreateVerifiesNothing(t: Tables, now: Time, c: Call)
    requires c.CreateLink?
    ensures NoVerification(t, DoCreateLink(t, now, c))
  {
    hide LinkRowOk, PutRecipients;
  }

  lemma LinkCallsVerifyNothing(t: Tables, now: Time, c: Call)
    ensures c.RevokeLink? ==> NoVerification(t, DoRevokeLink(t, now, c))
    ensures c.RotateLinkToken? ==> NoVerification(t, DoRotateLinkToken(t, now, c))
  {
  }

  lemma UpdateVerifiesNothing(t: Tables, now: Time, c: Call)
    requires c.UpdateLink?
    ensures NoVerification(t, DoUpdateLink(t, now, c))
  {
    hide LinkRowOk, PutRecipients;
  }

  lemma SessionCallsVerifyNothing(t: Tables, opts: Options, now: Time, c: Call)
    ensures c.OpenPublicSession? ==> NoVerification(t, DoOpenPublicSession(t, opts, now, c))
    ensures c.ResolvePrincipal? ==> NoVerification(t, DoResolvePrincipal(t, now, c))
  {
  }

  lemma ChallengeSessionVerifiesNothing(t: Tables, opts: Options, now: Time, share: Id, session: Id,
                                        issued: Option<Token>, email: Option<EmailHash>, code: Code)
    requires share < |t.links| && session < |t.sessions|
    ensures NoVerification(t, ChallengeSession(t, opts, now, share, session, issued, email, code))
  {
  }

  lemma StartChallengeVerifiesNothing(t: Tables, opts: Options, now: Time, c: Call)
    requires c.StartEmailChallenge?
    ensures NoVerification(t, DoStartEmailChallenge(t, opts, now, c))
  {
    hide ChallengeSession;
    if c.sessionTokenArg.Some? {
      var r := SessionFromToken(t, c.sessionTokenArg.value, now);
      if r.Ok? && t.sessions[r.value].shareId < |t.links| {
        ChallengeSessionVerifiesNothing(t, opts, now, t.sessions[r.value].shareId, r.value, None, c.email, c.code);
      }
    } else if c.publicTokenArg.Some? {
      var r := LinkFromPublicToken(t, c.publicTokenArg.value, now);
      if r.Ok? {
        ChallengeSessionVerifiesNothing(CreateSessionForLink(t, opts, now, r.value), opts, now, r.value,
                                        |t.sessions|, Some(Generated(ShareSession, t)), c.email, c.code);
      }
    }
  }

  lemma StartVerifiesNothing(t: Tables, opts: Options, now: Time, r: UploadRequest)
    ensures NoVerification(t, DoStartUpload(t, opts, now, r))
  {
    hide DoStartUpload;
    StartUploadShape(t, opts, now, r);
  }

  lemma UploadCallsVerifyNothing(t: Tables, now: Time, c: Call)
    ensures c.RecordUploadChunk? ==> NoVerification(t, DoRecordUploadChunk(t, now, c.principal, c.upload, c.bytes))
    ensures c.FinishUpload? ==> NoVerification(t, DoFinishUpload(t, now, c.principal, c.upload, c.createdEntry))
    ensures c.CancelUpload? ==> NoVerification(t, DoCancelUpload(t, now, c.principal, c.upload))
    ensures c.FailUpload? ==> NoVerification(t, DoFailUpload(t, c.principal, c.upload))
  {
    if c.FinishUpload? {
      hide DoFinishUpload;
      FinishShape(t, now, c.principal, c.upload, c.createdEntry);
    }
  }

  lemma {:induction false} SweepVerifiesNothing(t: Tables, batch: seq<Id>)
    ensures SweepBatch(t, batch).sessions == t.sessions && SweepBatch(t, batch).challenges == t.challenges
  {
    if batch != [] {
      SweepVerifiesNothing(t, batch[..|batch| - 1]);
    }
  }

  /** Only a confirmation changes a session's verification or a challenge's attempts and consumption. */
  lemma OnlyConfirmVerifies(t: Tables, opts: Options, now: Time, c: Call)
    requires !c.ConfirmEmailChallenge?
    ensures NoVerification(t, Do(t, opts, now, c))
  {
    if c.SweepStaleUploads? {
      SweepVerifiesNothing(t, c.batch);
    } else {
      hide NoVerification;
      LinkCallsVerifyNothing(t, now, c);
      if c.CreateLink? {
        CreateVerifiesNothing(t, now, c);
      } else if c.UpdateLink? {
        UpdateVerifiesNothing(t, now, c);
      } else if c.StartEmailChallenge? {
        StartChallengeVerifiesNothing(t, opts, now, c);
      }
      SessionCallsVerifyNothing(t, opts, now, c);
      UploadCallsVerifyNothing(t, now, c);
      if c.StartUpload? {
        StartVerifiesNothing(t, opts, now, c.request);
      }
    }
  }

  // ---------------------------------------------------------------- over runs

  function Attempts(t: Tables, c: Id): nat {
    if c < |t.challenges| then t.challenges[c].attempts else 0
  }

  predicate Consumed(t: Tables, c: Id) {
    c < |t.challenges| && t.challenges[c].consumedAt.Some?
  }

  /** A wrong code that the store records: a confirmation cut before its first statement costs nothing. */
  predicate IsWrongCode(t: Tables, opts: Options, a: Attempt, c: Id) {
    && a.event.call.ConfirmEmailChallenge? && a.event.call.challenge == c && a.done >= 1
    && Do(t, opts, a.event.now, a.event.call).1 == Err(CodeInvalid)
  }

  /** A right code that uses the challenge up, and verifies the session unless it is cut there. */
  predicate IsConsumption(t: Tables, opts: Options, a: Attempt, c: Id) {
    && a.event.call.ConfirmEmailChallenge? && a.event.call.challenge == c && a.done >= 1
    && Do(t, opts, a.event.now, a.event.call).1.Ok?
  }

  /** Wrong codes a run gave to a challenge. */
  function WrongCodes(t: Tables, opts: Options, attempts: seq<Attempt>, c: Id): nat
    decreases |attempts|
  {
    if attempts == [] then 0
    else
      var front := attempts[..|attempts| - 1];
      WrongCodes(t, opts, front, c)
      + if IsWrongCode(RunTried(t, opts, front), opts, attempts[|attempts| - 1], c) then 1 else 0
  }

  /** How often a run used a challenge up. */
  function Consumptions(t: Tables, opts: Options, attempts: seq<Attempt>, c: Id): nat
    decreases |attempts|
  {
    if attempts == [] then 0
    else
      var front := attempts[..|attempts| - 1];
      Consumptions(t, opts, front, c)
      + if IsConsumption(RunTried(t, opts, front), opts, attempts[|attempts| - 1], c) then 1 else 0
  }

  /** A confirmation cut after `done` statements: the challenge is written first, then the session. */
  lemma TriedConfirm(t: Tables, opts: Options, a: Attempt)
    requires a.event.call.ConfirmEmailChallenge?
    ensures var u := Do(t, opts, a.event.now, a.event.call).0;
      Tried(t, opts, a) ==
        if a.done == 0 then t else if a.done == 1 then t.(challenges := u.challenges) else u
  {
    hide Do;
    ConfirmStates(t, opts, a.event.now, a.event.call);
    hide States;
  }

  /** A call that confirms nothing verifies nothing, cut or not. */
  lemma OnlyTriedConfirmVerifies(t: Tables, opts: Options, a: Attempt)
    requires !a.event.call.ConfirmEmailChallenge?
    ensures NoVerification(t, (Tried(t, opts, a), Err(RowRejected)))
  {
    hide Do, Interrupted;
    OnlyConfirmVerifies(t, opts, a.event.now, a.event.call);
    CutTables(t, opts, a.event.now, a.event.call, a.done, a.undone);
  }

  lemma ChallengeCounters(t: Tables, opts: Options, a: Attempt, c: Id)
    requires SessionsOk(t)
    ensures var u := Tried(t, opts, a);
      && Attempts(u, c) == Attempts(t, c) + (if IsWrongCode(t, opts, a, c) then 1 else 0)
      && (Consumed(u, c) <==> Consumed(t, c) || IsConsumption(t, opts, a, c))
      && !(Consumed(t, c) && IsConsumption(t, opts, a, c))
  {
    hide Do, Tried, SessionsOk;
    var e := a.event;
    if e.call.ConfirmEmailChallenge? {
      ConfirmIsExact(t, opts, e.now, e.call.challenge, e.call.session, e.call.sessionToken, e.call.answer);
      TriedConfirm(t, opts, a);
    } else {
      OnlyTriedConfirmVerifies(t, opts, a);
    }
  }

  /**
   Over every run, wherever the database fails in it, the stored attempts are the wrong codes recorded, which never
   exceed the maximum, and a challenge is used up at most once: exactly when it ends up consumed without having
   been so.
   */
  lemma {:induction false} AttemptsCountWrongCodes(t: Tables, opts: Options, attempts: seq<Attempt>, c: Id)
    requires RowsOk(t)
    ensures var u := RunTried(t, opts, attempts);
      && Attempts(u, c) == Attempts(t, c) + WrongCodes(t, opts, attempts, c)
      && (c < |u.challenges| ==> Attempts(u, c) <= u.challenges[c].maxAttempts)
      && Consumptions(t, opts, attempts, c) == (if Consumed(u, c) && !Consumed(t, c) then 1 else 0)
      && (Consumed(t, c) ==> Consumed(u, c))
    decreases |attempts|
  {
    hide Tried, IsWrongCode, IsConsumption, Evolves, LinksOk, SessionsOk;
    if attempts != [] {
      var front := attempts[..|attempts| - 1];
      AttemptsCountWrongCodes(t, opts, front, c);
      RunTriedKeeps(t, opts, front);
      ChallengeCounters(RunTried(t, opts, front), opts, attempts[|attempts| - 1], c);
    }
    RunTriedKeeps(t, opts, attempts);
    var u := RunTried(t, opts, attempts);
    assert c < |u.challenges| ==> ChallengeOk(u, u.challenges[c]);
  }

  /**
   Soundness of email verification, from an empty store on and wherever the database fails. If call `i` of a run
   changes what a session's verification says, then it is a confirmation that presented that session and the right
   code for a challenge answerable at that moment, bound to that session and share, not used before, with fewer
   wrong codes so far than its maximum; and the session's new email is that challenge's.
   */
  lemma VerificationIsSound(opts: Options, attempts: seq<Attempt>, i: nat, s: Id)
    requires i < |attempts|
    requires s < |RunTried(EMPTY, opts, attempts[..i + 1]).sessions|
    requires var before, after := RunTried(EMPTY, opts, attempts[..i]), RunTried(EMPTY, opts, attempts[..i + 1]);
      if s < |before.sessions| then !SameVerification(before.sessions[s], after.sessions[s])
      else after.sessions[s].verifiedAt.Some?
    ensures var before, after := RunTried(EMPTY, opts, attempts[..i]), RunTried(EMPTY, opts, attempts[..i + 1]);
      var e := attempts[i].event;
      && e.call.ConfirmEmailChallenge? && e.call.session == s
      && var c := e.call.challenge;
         && Presents(before, e.call.sessionToken, s, e.now)
         && Answerable(before, e.now, c, s)
         && before.challenges[c].sessionId == Some(s)
         && before.challenges[c].codeHash == e.call.answer
         && after.sessions[s].emailHash == Some(before.challenges[c].emailHash)
         && WrongCodes(EMPTY, opts, attempts[..i], c) < before.challenges[c].maxAttempts
         && Consumptions(EMPTY, opts, attempts[..i], c) == 0
  {
    hide Do, Tried, Evolves, LinksOk, SessionsOk;
    var front := attempts[..i];
    assert attempts[..i + 1][..i] == front;
    EmptyIsInv();
    RunTriedKeeps(EMPTY, opts, front);
    var before := RunTried(EMPTY, opts, front);
    var e := attempts[i].event;
    assert RunTried(EMPTY, opts, attempts[..i + 1]) == Tried(before, opts, attempts[i]);
    if e.call.ConfirmEmailChallenge? {
      var c := e.call.challenge;
      ConfirmIsExact(before, opts, e.now, c, e.call.session, e.call.sessionToken, e.call.answer);
      TriedConfirm(before, opts, attempts[i]);
      AttemptsCountWrongCodes(EMPTY, opts, front, c);
      assert ChallengeOk(before, before.challenges[c]);
    } else {
      OnlyTriedConfirmVerifies(before, opts, attempts[i]);
    }
  }

  /** In every state reached so a verified session carries the email of a challenge consumed for it. */
  lemma VerifiedEmailIsBacked(opts: Options, attempts: seq<Attempt>, s: Id)
    requires s < |RunTried(EMPTY, opts, attempts).sessions|
    ensures var t := RunTried(EMPTY, opts, attempts);
      && (t.sessions[s].IsVerified() <==> t.sessions[s].emailHash.Some?)
      && (t.sessions[s].IsVerified() ==> exists c: Id :: BacksVerification(t, s, c))
  {
    hide RunTried, Evolves, LinksOk;
    EmptyIsInv();
    RunTriedKeeps(EMPTY, opts, attempts);
    assert VerificationBacked(RunTried(EMPTY, opts, attempts), s);
  }
}
