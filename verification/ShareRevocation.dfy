/** Revocation and token rotation are final: nothing issued before them works again, in any later run. */
module ShareRevocation {
  import opened Wrappers
  import opened ShareRecords
  import opened ShareTables
  import opened ShareProtocol
  import opened ShareInvariant

  /** The first `n` sessions no longer serve the share: each of them that belongs to it is revoked. */
  ghost predicate Cut(t: Tables, share: Id, n: nat) {
    && n <= |t.sessions|
    && forall i :: 0 <= i < n && t.sessions[i].shareId == share ==> t.sessions[i].revokedAt.Some?
  }

  ghost predicate LinkDead(t: Tables, share: Id) {
    share < |t.links| && t.links[share].revokedAt.Some?
  }

  /** No link answers to the lookup id, and none ever will again because it has been drawn already. */
  ghost predicate LookupRetired(t: Tables, lookup: nat) {
    && lookup < t.nonce
    && forall i :: 0 <= i < |t.links| ==> t.links[i].lookup != lookup
  }

  /** A successful revoke or rotation cuts off every session the share has. */
  lemma EndingCuts(t: Tables, opts: Options, now: Time, c: Call)
    requires c.RevokeLink? || c.RotateLinkToken?
    requires Do(t, opts, now, c).1.Ok?
    ensures Cut(Do(t, opts, now, c).0, c.share, |t.sessions|)
    ensures c.RevokeLink? ==> LinkDead(Do(t, opts, now, c).0, c.share)
    ensures c.share < |t.links|
  {
  }

  /** A successful rotation retires the token the share had, and the new token opens the share. */
  lemma RotationRetires(t: Tables, opts: Options, now: Time, share: Id, allowed: bool)
    requires RowsOk(t)
    requires Do(t, opts, now, RotateLinkToken(share, allowed)).1.Ok?
    ensures var (u, o) := Do(t, opts, now, RotateLinkToken(share, allowed));
      && share < |t.links|
      && LookupRetired(u, t.links[share].lookup)
      && o.value.LinkIssued? && o.value.share == share
      && (t.links[share].IsActive(now) ==> LinkFromPublicToken(u, Some(o.value.token), now) == Ok(share))
  {
    var (u, o) := Do(t, opts, now, RotateLinkToken(share, allowed));
    var token := o.value.token;
    var found := FindLink(u.links, token.lookup);
    assert u.links[share].lookup == token.lookup;
    assert found.Some?;
    assert forall i :: 0 <= i < |t.links| ==> t.links[i].lookup < t.nonce;
    assert found == Some(share);
  }

  lemma EvolutionKeepsEndings(t: Tables, u: Tables, share: Id, n: nat, lookup: nat)
    requires Evolves(t, u)
    ensures Cut(t, share, n) ==> Cut(u, share, n)
    ensures LinkDead(t, share) ==> LinkDead(u, share)
    ensures LookupRetired(t, lookup) ==> LookupRetired(u, lookup)
  {
    assert forall i :: 0 <= i < |t.sessions| ==> SessionKept(t.sessions[i], u.sessions[i]);
    assert forall i :: 0 <= i < |t.links| ==> LinkKept(t.links[i], u.links[i], t.nonce);
  }

  // ---------------------------------------------------------------- what is refused afterwards

  /** A call that would use the share on a principal's behalf. */
  predicate UsesPrincipal(c: Call, p: Principal) {
    || (c.StartUpload? && c.request.principal == p)
    || (c.RecordUploadChunk? && c.principal == p)
    || (c.FinishUpload? && c.principal == p)
    || (c.CancelUpload? && c.principal == p)
  }

  lemma ContextRefused(t: Tables, p: Principal, now: Time, n: nat)
    requires (Cut(t, p.shareId, n) && p.sessionId < n) || LinkDead(t, p.shareId)
    ensures RequireActiveShareContext(t, p, now).Err?
  {
  }

  /** Uploads of a cut-off principal: refused, and nothing changes. */
  lemma PrincipalRefused(t: Tables, opts: Options, now: Time, c: Call, p: Principal, n: nat)
    requires UsesPrincipal(c, p)
    requires (Cut(t, p.shareId, n) && p.sessionId < n) || LinkDead(t, p.shareId)
    ensures Do(t, opts, now, c).1.Err? && Do(t, opts, now, c).0 == t
  {
    ContextRefused(t, p, now, n);
  }

  /** A session token of a cut-off session resolves to no principal and starts or confirms no challenge. */
  lemma SessionTokenRefused(t: Tables, token: Option<Token>, now: Time, share: Id, n: nat)
    requires Cut(t, share, n)
    ensures var r := SessionFromToken(t, token, now);
      r.Ok? && t.sessions[r.value].shareId == share ==> r.value >= n
  {
  }

  /** A resolved principal speaks for an active session of an active link, verified where that is required. */
  lemma ResolvedIsCurrent(t: Tables, opts: Options, now: Time, token: Option<Token>, p: Principal)
    requires Do(t, opts, now, ResolvePrincipal(token)).1 == Ok(PrincipalResolved(p))
    ensures p.sessionId < |t.sessions| && p.shareId < |t.links|
    ensures SessionFromToken(t, token, now) == Ok(p.sessionId)
    ensures t.sessions[p.sessionId].shareId == p.shareId
    ensures t.sessions[p.sessionId].IsActive(now) && t.links[p.shareId].IsActive(now)
    ensures t.links[p.shareId].RequiresEmail() ==> t.sessions[p.sessionId].IsVerified()
    ensures p.vaultId == t.links[p.shareId].vaultId && p.rootEntryId == t.links[p.shareId].rootEntryId
    ensures p.expiresAt <= t.sessions[p.sessionId].expiresAt
    ensures p.expiresAt != 0 ==> p.IsActive(now)
  {
  }

  /** A dead link, or a share whose first `n` sessions are cut off, serves none of those sessions. */
  lemma EndedRefuses(u: Tables, opts: Options, share: Id, n: nat)
    requires Cut(u, share, n) || LinkDead(u, share)
    ensures forall at: Time, token: Option<Token>, p: Principal ::
      Do(u, opts, at, ResolvePrincipal(token)).1 == Ok(PrincipalResolved(p)) && p.shareId == share ==>
        !LinkDead(u, share) && p.sessionId >= n
    ensures forall at: Time, c: Call, p: Principal ::
      UsesPrincipal(c, p) && p.shareId == share && (LinkDead(u, share) || p.sessionId < n) ==>
        Do(u, opts, at, c).1.Err? && Do(u, opts, at, c).0 == u
  {
    hide Do, SessionFromToken, LinkFromPublicToken;
    forall at: Time, token: Option<Token>, p: Principal
      | Do(u, opts, at, ResolvePrincipal(token)).1 == Ok(PrincipalResolved(p)) && p.shareId == share
      ensures !LinkDead(u, share) && p.sessionId >= n
    {
      ResolvedIsCurrent(u, opts, at, token, p);
    }
    forall at: Time, c: Call, p: Principal
      | UsesPrincipal(c, p) && p.shareId == share && (LinkDead(u, share) || p.sessionId < n)
      ensures Do(u, opts, at, c).1.Err? && Do(u, opts, at, c).0 == u
    {
      PrincipalRefused(u, opts, at, c, p, n);
    }
  }

  // ---------------------------------------------------------------- over runs

  /**
   Finality of revocation and rotation. Take any state, end a share's access by either call, and run any
   calls at all: every session the share had before is dead, so no later call resolves it to a principal,
   and every upload operation of a principal resolved for it is refused without effect.
   */
  lemma EndedForGood(t: Tables, opts: Options, now: Time, ending: Call, events: seq<Event>)
    requires RowsOk(t)
    requires ending.RevokeLink? || ending.RotateLinkToken?
    requires Do(t, opts, now, ending).1.Ok?
    ensures var u := Run(Do(t, opts, now, ending).0, opts, events);
      && Cut(u, ending.share, |t.sessions|)
      && (ending.RevokeLink? ==> LinkDead(u, ending.share))
      && (forall at: Time, token: Option<Token>, p: Principal ::
            Do(u, opts, at, ResolvePrincipal(token)).1 == Ok(PrincipalResolved(p)) && p.shareId == ending.share ==>
              ending.RotateLinkToken? && p.sessionId >= |t.sessions|)
      && (forall at: Time, c: Call, p: Principal ::
            UsesPrincipal(c, p) && p.shareId == ending.share
            && (ending.RevokeLink? || p.sessionId < |t.sessions|) ==>
              Do(u, opts, at, c).1.Err? && Do(u, opts, at, c).0 == u)
  {
    hide Do, RowsOk, Evolves, Run, SessionFromToken, LinkFromPublicToken;
    var t1 := Do(t, opts, now, ending).0;
    EndingCuts(t, opts, now, ending);
    StepKeeps(t, opts, now, ending);
    RunKeeps(t1, opts, events);
    var u := Run(t1, opts, events);
    EvolutionKeepsEndings(t1, u, ending.share, |t.sessions|, 0);
    EndedRefuses(u, opts, ending.share, |t.sessions|);
  }

  /**
   Finality of the token. A public token that opened the share just before a rotation opens nothing in
   any later state, whatever calls follow; `updateLink` is among them.
   */
  lemma OldTokenOpensNothing(t: Tables, opts: Options, now: Time, share: Id, allowed: bool,
                             token: Token, before: Time, events: seq<Event>, later: Time)
    requires RowsOk(t)
    requires LinkFromPublicToken(t, Some(token), before) == Ok(share)
    requires Do(t, opts, now, RotateLinkToken(share, allowed)).1.Ok?
    ensures var u := Run(Do(t, opts, now, RotateLinkToken(share, allowed)).0, opts, events);
      && LinkFromPublicToken(u, Some(token), later) == Err(InvalidToken)
      && Do(u, opts, later, OpenPublicSession(Some(token))) == (u, Err(InvalidToken))
  {
    hide RowsOk, Evolves, Run;
    var rotate := RotateLinkToken(share, allowed);
    var t1 := Do(t, opts, now, rotate).0;
    RotationRetires(t, opts, now, share, allowed);
    StepKeeps(t, opts, now, rotate);
    RunKeeps(t1, opts, events);
    var u := Run(t1, opts, events);
    EvolutionKeepsEndings(t1, u, share, 0, token.lookup);
    assert token.kind == PublicShare && token.lookup == t.links[share].lookup;
    assert FindLink(u.links, token.lookup).None?;
  }

  /** After a revoke no token at all opens the link again. */
  lemma RevokedLinkNeverOpens(t: Tables, opts: Options, now: Time, share: Id, allowed: bool,
                              events: seq<Event>, token: Option<Token>, later: Time)
    requires RowsOk(t)
    requires Do(t, opts, now, RevokeLink(share, allowed)).1.Ok?
    ensures var u := Run(Do(t, opts, now, RevokeLink(share, allowed)).0, opts, events);
      LinkFromPublicToken(u, token, later) != Ok(share)
  {
    hide Do, RowsOk, Evolves, Run;
    var revoke := RevokeLink(share, allowed);
    EndingCuts(t, opts, now, revoke);
    StepKeeps(t, opts, now, revoke);
    RunKeeps(Do(t, opts, now, revoke).0, opts, events);
    EvolutionKeepsEndings(Do(t, opts, now, revoke).0, Run(Do(t, opts, now, revoke).0, opts, events), share, 0, 0);
  }

  /** The one upload call that still acts for a cut-off principal: failing its own open upload. */
  lemma FailIsNotGated(t: Tables, opts: Options, now: Time, p: Principal, id: Id)
    ensures Do(t, opts, now, FailUpload(p, id)).1.Ok? <==>
      && id < |t.uploads|
      && t.uploads[id].shareId == p.shareId && t.uploads[id].sessionId == p.sessionId
      && !t.uploads[id].IsTerminal()
  {
  }
}
