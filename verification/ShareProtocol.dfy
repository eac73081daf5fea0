/**
 Every public operation of the share manager as one step over the share tables.
 A step returns the new tables and either a reply or the error it throws; an error can
 leave earlier statements of the same step in force, exactly as in the source.
 */
module ShareProtocol {
  import opened Wrappers
  import opened ShareRecords
  import opened ShareTables
  import VaultPath

  datatype Options = Options(
    sessionTtl: int,
    challengeTtl: int,
    challengeMaxAttempts: nat,
    defaultMaxUploadSize: uint64,
    staleTtl: int,
    staleLimit: nat)

  const DEFAULTS := Options(3600, 900, 6, 64 * 1024 * 1024, 6 * 60 * 60, 100)

  datatype ShareError =
    | LinkNotFound | SessionNotFound | UploadNotFound | ChallengeNotFound
    | AuthorizationDenied | InvalidPath | InvalidGrant | RowRejected | RoleTemplateMissing | RecipientInvalid
    | MalformedToken | WrongTokenKind | InvalidToken | TokenRequired
    | PrincipalInactive | LinkInactive | SessionInactive | PrincipalLinkMismatch | SessionLinkMismatch
    | EmailNotRequired | EmailInvalid | SessionTokenMismatch | ChallengeShareMismatch | ChallengeSessionMismatch
    | RecipientNotAuthorized | ChallengeNotAttemptable | CodeInvalid
    | VerificationRequired | RoleMissing
    | UploadNotGranted | NotADirectory | BadUploadRequest | TooLarge | ContentRefused
    | FileLimitReached | ByteLimitExceeded | NotYourUpload | AlreadyTerminal | ExceedsExpected | SizeMismatch
    | SweepAgeInvalid

  datatype Reply =
    | LinkIssued(share: Id, token: Token)
    | LinkSaved(share: Id)
    | LinkRevoked(share: Id)
    | SessionOpened(session: Id, token: Token, emailRequired: bool)
    | ChallengeStarted(challenge: Id, session: Id, sessionToken: Option<Token>)
    | SessionVerified(session: Id, challenge: Id)
    | PrincipalResolved(principal: Principal)
    | UploadStarted(upload: Id)
    | ChunkRecorded(upload: Id)
    | UploadFinished(upload: Id)
    | UploadCancelled(upload: Id)
    | UploadFailed(upload: Id)
    | Swept(scanned: nat, failed: nat)

  type Outcome = Result<Reply, ShareError>

  datatype UploadRequest = UploadRequest(
    principal: Principal,
    targetParent: nat,
    targetPath: string,
    originalFilename: string,
    resolvedFilename: string,
    extension: string,
    expected: uint64,
    mime: Option<string>)

  /** A role or recipient list that cannot be resolved to stored templates is `None`. */
  type Recipients = Option<seq<(EmailHash, RoleId)>>

  datatype Call =
    | CreateLink(allowed: bool, link: Link, publicRole: Option<RoleId>, recipients: Recipients)
    | UpdateLink(share: Id, allowed: bool, link: Link,
                 newPublicRole: Option<Option<RoleId>>, newRecipients: Option<Recipients>)
    | RevokeLink(share: Id, allowed: bool)
    | RotateLinkToken(share: Id, allowed: bool)
    | OpenPublicSession(publicToken: Option<Token>)
    | StartEmailChallenge(publicTokenArg: Option<Option<Token>>, sessionTokenArg: Option<Option<Token>>,
                          email: Option<EmailHash>, code: Code)
    | ConfirmEmailChallenge(challenge: Id, session: Id, sessionToken: Option<Token>, answer: Code)
    | ResolvePrincipal(sessionToken: Option<Token>)
    | StartUpload(request: UploadRequest)
    | RecordUploadChunk(principal: Principal, upload: Id, bytes: uint64)
    | FinishUpload(principal: Principal, upload: Id, createdEntry: nat)
    | CancelUpload(principal: Principal, upload: Id)
    | FailUpload(principal: Principal, upload: Id)
    | SweepStaleUploads(olderThan: int, limit: nat, batch: seq<Id>)

  // ---------------------------------------------------------------- helpers that only read

  function RequireActiveShareContext(t: Tables, p: Principal, now: Time): Result<Link, ShareError> {
    if !p.IsActive(now) then Err(PrincipalInactive)
    else match t.GetLink(p.shareId)
      case None => Err(LinkNotFound)
      case Some(link) =>
        if !link.IsActive(now) then Err(LinkInactive)
        else if link.vaultId != p.vaultId || link.rootEntryId != p.rootEntryId then Err(PrincipalLinkMismatch)
        else match t.GetSession(p.sessionId)
          case None => Err(SessionNotFound)
          case Some(session) =>
            if !session.IsActive(now) then Err(SessionInactive)
            else if session.shareId != p.shareId then Err(SessionLinkMismatch)
            else Ok(link)
  }

  function Lower(s: string): string {
    seq(|s|, i requires 0 <= i < |s| =>
      if 'A' <= s[i] <= 'Z' then (s[i] as int + 32) as char else s[i])
  }

  predicate ContainsInsensitive(values: seq<string>, needle: string) {
    exists i :: 0 <= i < |values| && Lower(values[i]) == Lower(needle)
  }

  function NormalizeExtension(e: string): string {
    var lower := Lower(e);
    if lower == "" || lower[0] == '.' then lower else "." + lower
  }

  predicate ContainsExtension(values: seq<string>, e: string) {
    exists i :: 0 <= i < |values| && NormalizeExtension(values[i]) == NormalizeExtension(e)
  }

  predicate ContentAllowed(link: Link, r: UploadRequest) {
    var ext := NormalizeExtension(r.extension);
    && (r.mime.None? ==> link.allowedMime == [])
    && (r.mime.Some? ==> !ContainsInsensitive(link.blockedMime, r.mime.value))
    && (r.mime.Some? && link.allowedMime != [] ==> ContainsInsensitive(link.allowedMime, r.mime.value))
    && !(ext != "" && ContainsExtension(link.blockedExtensions, ext))
    && (link.allowedExtensions != [] ==> ext != "" && ContainsExtension(link.allowedExtensions, ext))
  }

  function MaxUploadSize(opts: Options, link: Link): uint64 {
    link.maxUploadSize.GetOr(opts.defaultMaxUploadSize)
  }

  function RequireUploadAllowedByGrant(opts: Options, link: Link, r: UploadRequest): Result<(), ShareError> {
    if !link.ToGrant().Allows(UploadFile) then Err(UploadNotGranted)
    else if link.targetType != DirectoryTarget then Err(NotADirectory)
    else if r.targetParent == 0 || r.targetPath == "" || r.targetPath[0] != '/'
         || r.originalFilename == "" || r.resolvedFilename == "" then Err(BadUploadRequest)
    else if r.expected > MaxUploadSize(opts, link) then Err(TooLarge)
    else if !ContentAllowed(link, r) then Err(ContentRefused)
    else Ok(())
  }

  /** The store's sum must fit `uint64_t`; the byte test is the source's subtraction form. */
  function RequireUploadQuota(t: Tables, share: Id, link: Link, expected: uint64): Result<(), ShareError> {
    if link.maxUploadFiles.Some? && CompletedFiles(t, share) >= link.maxUploadFiles.value then Err(FileLimitReached)
    else if link.maxUploadTotal.None? then Ok(())
    else if CompletedBytes(t, share) >= UINT64_LIMIT then Err(RowRejected)
    else
      var completed: uint64 := CompletedBytes(t, share);
      if expected > link.maxUploadTotal.value then Err(ByteLimitExceeded)
      else
        var room: uint64 := link.maxUploadTotal.value - expected;
        if completed > room then Err(ByteLimitExceeded) else Ok(())
  }

  /**
   The quota test never wraps and is the unbounded one: a start passes exactly when the completed
   files are under the file limit and the completed bytes plus the new size are within the byte limit.
   */
  lemma QuotaIsExact(t: Tables, share: Id, link: Link, expected: uint64)
    ensures RequireUploadQuota(t, share, link, expected).Ok? <==>
      && (link.maxUploadFiles.Some? ==> CompletedFiles(t, share) < link.maxUploadFiles.value)
      && (link.maxUploadTotal.Some? ==> CompletedBytes(t, share) + expected <= link.maxUploadTotal.value)
  {
    if link.maxUploadTotal.Some? && CompletedBytes(t, share) >= UINT64_LIMIT {
      assert link.maxUploadTotal.value < UINT64_LIMIT;
    }
  }

  function RequireUploadForPrincipal(t: Tables, p: Principal, id: Id): Result<Upload, ShareError> {
    match t.GetUpload(id)
    case None => Err(UploadNotFound)
    case Some(u) =>
      if u.shareId != p.shareId || u.sessionId != p.sessionId then Err(NotYourUpload) else Ok(u)
  }

  function LinkFromPublicToken(t: Tables, token: Option<Token>, now: Time): (r: Result<Id, ShareError>)
    ensures r.Ok? ==> r.value < |t.links| && t.links[r.value].IsActive(now)
  {
    if token.None? then Err(MalformedToken)
    else if token.value.kind != PublicShare then Err(WrongTokenKind)
    else match FindLink(t.links, token.value.lookup)
      case None => Err(InvalidToken)
      case Some(id) =>
        if t.links[id].tokenHash != token.value.secret then Err(InvalidToken)
        else if !t.links[id].IsActive(now) then Err(LinkInactive)
        else Ok(id)
  }

  function SessionFromToken(t: Tables, token: Option<Token>, now: Time): (r: Result<Id, ShareError>)
    ensures r.Ok? ==> r.value < |t.sessions| && t.sessions[r.value].IsActive(now)
  {
    if token.None? then Err(MalformedToken)
    else if token.value.kind != ShareSession then Err(WrongTokenKind)
    else match FindSession(t.sessions, token.value.lookup)
      case None => Err(InvalidToken)
      case Some(id) =>
        if t.sessions[id].tokenHash != token.value.secret then Err(InvalidToken)
        else if !t.sessions[id].IsActive(now) then Err(SessionInactive)
        else Ok(id)
  }

  /** A link in normal form with a valid grant, or the error the source throws. */
  function NormalizeAndValidate(link: Link): Result<Link, ShareError> {
    match VaultPath.Normalized(link.rootPath)
    case None => Err(InvalidPath)
    case Some(path) =>
      var fixed := link.(rootPath := path);
      if fixed.ToGrant().IsValid() then Ok(fixed) else Err(InvalidGrant)
  }

  /** The CHECK constraints and column widths of the link table. */
  predicate LinkRowOk(link: Link, createdAt: Time) {
    && (link.expiresAt.Some? ==> link.expiresAt.value > createdAt)
    && (link.maxUploadFiles.Some? ==> link.maxUploadFiles.value > 0)
    && (link.maxUploadSize.Some? ==> 0 < link.maxUploadSize.value < INT64_LIMIT)
    && (link.maxUploadTotal.Some? ==> 0 < link.maxUploadTotal.value < INT64_LIMIT)
  }

  function Generated(kind: TokenKind, t: Tables): Token {
    Token(kind, t.nonce, t.nonce)
  }

  function PutRecipients(roles: map<(Id, EmailHash), RoleId>, share: Id, rs: seq<(EmailHash, RoleId)>)
    : map<(Id, EmailHash), RoleId>
  {
    if rs == [] then roles
    else PutRecipients(roles, share, rs[..|rs| - 1])[(share, rs[|rs| - 1].0) := rs[|rs| - 1].1]
  }

  // ---------------------------------------------------------------- links

  function DoCreateLink(t: Tables, now: Time, c: Call): (Tables, Outcome)
    requires c.CreateLink?
  {
    match NormalizeAndValidate(c.link)
    case Err(e) => (t, Err(e))
    case Ok(link) =>
      if !c.allowed then (t, Err(AuthorizationDenied))
      else
        var token := Generated(PublicShare, t);
        var t1 := t.(nonce := t.nonce + 1);
        if link.createdBy == 0 || !LinkRowOk(link, now) then (t1, Err(RowRejected))
        else
          var id := |t.links|;
          var row := link.(lookup := token.lookup, tokenHash := token.secret, createdAt := now,
                           revokedAt := None, disabledAt := None, uploadCount := 0);
          var t2 := t1.(links := t1.links + [row]);
          if c.publicRole.None? then (t2.RevokeLink(id, now).value, Err(RoleTemplateMissing))
          else
            var t3 := t2.(publicRoles := t2.publicRoles[id := c.publicRole.value]);
            if c.recipients.None? then (t3.RevokeLink(id, now).value, Err(RecipientInvalid))
            else
              (t3.(recipientRoles := PutRecipients(t3.recipientRoles, id, c.recipients.value)),
               Ok(LinkIssued(id, token)))
  }

  /** The columns an update may set; identity, token, target, revocation and counters are not among them. */
  function UpdatedRow(existing: Link, link: Link): Link {
    existing.(accessMode := link.accessMode, allowedOps := link.allowedOps, expiresAt := link.expiresAt,
              disabledAt := link.disabledAt, maxUploadFiles := link.maxUploadFiles,
              maxUploadSize := link.maxUploadSize, maxUploadTotal := link.maxUploadTotal,
              duplicatePolicy := link.duplicatePolicy, allowedMime := link.allowedMime,
              blockedMime := link.blockedMime, allowedExtensions := link.allowedExtensions,
              blockedExtensions := link.blockedExtensions)
  }

  function DoUpdateLink(t: Tables, now: Time, c: Call): (Tables, Outcome)
    requires c.UpdateLink?
  {
    match t.GetLink(c.share)
    case None => (t, Err(LinkNotFound))
    case Some(existing) =>
      match NormalizeAndValidate(UpdatedRow(existing, c.link))
      case Err(e) => (t, Err(e))
      case Ok(updated) =>
        if !c.allowed then (t, Err(AuthorizationDenied))
        else if c.newPublicRole == Some(None) then (t, Err(RoleTemplateMissing))
        else
          var t1 := if c.newPublicRole.None? then t
                    else t.(publicRoles := t.publicRoles[c.share := c.newPublicRole.value.value]);
          if c.newRecipients == Some(None) then (t1, Err(RecipientInvalid))
          else
            var t2 := if c.newRecipients.None? then t1
                      else t1.(recipientRoles :=
                        PutRecipients(map k | k in t1.recipientRoles && k.0 != c.share :: t1.recipientRoles[k],
                                      c.share, c.newRecipients.value.value));
            if !LinkRowOk(updated, existing.createdAt) then (t2, Err(RowRejected))
            else (t2.(links := t2.links[c.share := UpdatedRow(existing, updated)]), Ok(LinkSaved(c.share)))
  }

  function DoRevokeLink(t: Tables, now: Time, c: Call): (Tables, Outcome)
    requires c.RevokeLink?
  {
    if c.share >= |t.links| then (t, Err(LinkNotFound))
    else if !c.allowed then (t, Err(AuthorizationDenied))
    else
      var t1 := t.RevokeLink(c.share, now).value;
      (t1.RevokeSessionsForShare(c.share, now).RemoveRoles(c.share), Ok(LinkRevoked(c.share)))
  }

  function DoRotateLinkToken(t: Tables, now: Time, c: Call): (Tables, Outcome)
    requires c.RotateLinkToken?
  {
    if c.share >= |t.links| then (t, Err(LinkNotFound))
    else if !c.allowed then (t, Err(AuthorizationDenied))
    else
      var token := Generated(PublicShare, t);
      var t1 := t.(nonce := t.nonce + 1).RotateLinkToken(c.share, token).value;
      (t1.RevokeSessionsForShare(c.share, now), Ok(LinkIssued(c.share, token)))
  }

  // ---------------------------------------------------------------- sessions and challenges

  /** Opens a session; its id is the old length of the session table. */
  function CreateSessionForLink(t: Tables, opts: Options, now: Time, share: Id): Tables {
    var token := Generated(ShareSession, t);
    t.(nonce := t.nonce + 1,
       sessions := t.sessions + [Session(share, token.lookup, token.secret, None, None, now + opts.sessionTtl, None)])
  }

  function DoOpenPublicSession(t: Tables, opts: Options, now: Time, c: Call): (Tables, Outcome)
    requires c.OpenPublicSession?
  {
    match LinkFromPublicToken(t, c.publicToken, now)
    case Err(e) => (t, Err(e))
    case Ok(share) =>
      (CreateSessionForLink(t, opts, now, share),
       Ok(SessionOpened(|t.sessions|, Generated(ShareSession, t), t.links[share].RequiresEmail())))
  }

  /** The part of a challenge start after link and session are known. */
  function ChallengeSession(t: Tables, opts: Options, now: Time, share: Id, session: Id,
                            issued: Option<Token>, email: Option<EmailHash>, code: Code): (Tables, Outcome)
    requires share < |t.links| && session < |t.sessions|
  {
    var link := t.links[share];
    if !link.RequiresEmail() then (t, Err(EmailNotRequired))
    else if !link.IsActive(now) then (t, Err(LinkInactive))
    else if !t.sessions[session].IsActive(now) then (t, Err(SessionInactive))
    else if email.None? then (t, Err(EmailInvalid))
    else
      var row := Challenge(share, Some(session), email.value, code, 0, opts.challengeMaxAttempts,
                           now + opts.challengeTtl, None);
      match t.CreateChallenge(row, now)
      case None => (t, Err(RowRejected))
      case Some(t1) => (t1, Ok(ChallengeStarted(|t.challenges|, session, issued)))
  }

  function DoStartEmailChallenge(t: Tables, opts: Options, now: Time, c: Call): (Tables, Outcome)
    requires c.StartEmailChallenge?
  {
    if c.publicTokenArg.None? && c.sessionTokenArg.None? then (t, Err(TokenRequired))
    else if c.sessionTokenArg.Some? then
      match SessionFromToken(t, c.sessionTokenArg.value, now)
      case Err(e) => (t, Err(e))
      case Ok(session) =>
        var share := t.sessions[session].shareId;
        if share >= |t.links| then (t, Err(LinkNotFound))
        else ChallengeSession(t, opts, now, share, session, None, c.email, c.code)
    else
      match LinkFromPublicToken(t, c.publicTokenArg.value, now)
      case Err(e) => (t, Err(e))
      case Ok(share) =>
        var issued := Some(Generated(ShareSession, t));
        var t1 := CreateSessionForLink(t, opts, now, share);
        ChallengeSession(t1, opts, now, share, |t.sessions|, issued, c.email, c.code)
  }

  function DoConfirmEmailChallenge(t: Tables, now: Time, c: Call): (Tables, Outcome)
    requires c.ConfirmEmailChallenge?
  {
    if c.challenge >= |t.challenges| then (t, Err(ChallengeNotFound))
    else match SessionFromToken(t, c.sessionToken, now)
      case Err(e) => (t, Err(e))
      case Ok(session) =>
        var ch := t.challenges[c.challenge];
        if session != c.session then (t, Err(SessionTokenMismatch))
        else if ch.shareId >= |t.links| then (t, Err(LinkNotFound))
        else if !t.links[ch.shareId].RequiresEmail() then (t, Err(EmailNotRequired))
        else if !t.links[ch.shareId].IsActive(now) then (t, Err(LinkInactive))
        else if ch.shareId != t.sessions[session].shareId then (t, Err(ChallengeShareMismatch))
        else if ch.sessionId.Some? && ch.sessionId.value != session then (t, Err(ChallengeSessionMismatch))
        else if t.GetRecipientRole(ch.shareId, ch.emailHash).None? then (t, Err(RecipientNotAuthorized))
        else if !ch.CanAttempt(now) then (t, Err(ChallengeNotAttemptable))
        else if ch.codeHash != c.answer then
          match t.RecordAttempt(c.challenge, now)
          case None => (t, Err(RowRejected))
          case Some(t1) => (t1, Err(CodeInvalid))
        else
          match t.ConsumeChallenge(c.challenge, now)
          case None => (t, Err(RowRejected))
          case Some(t1) =>
            match t1.VerifySession(session, ch.emailHash, now)
            case None => (t1, Err(RowRejected))
            case Some(t2) => (t2, Ok(SessionVerified(session, c.challenge)))
  }

  /** `PrincipalResolver::resolve` followed by the role lookup; reads only. */
  function PrincipalFor(t: Tables, now: Time, session: Id): Result<Principal, ShareError>
    requires session < |t.sessions|
  {
    var s := t.sessions[session];
    if s.shareId >= |t.links| then Err(LinkNotFound)
    else
      var link := t.links[s.shareId];
      if !link.IsActive(now) then Err(LinkInactive)
      else if !s.IsActive(now) then Err(SessionInactive)
      else if link.RequiresEmail() && !s.IsVerified() then Err(VerificationRequired)
      else
        var fixed :- NormalizeAndValidate(link);
        var role :- ScopedRole(t, s.shareId, link, s);
        var expires := if link.expiresAt.Some? then Min(link.expiresAt.value, s.expiresAt) else s.expiresAt;
        Ok(Principal(s.shareId, session, link.vaultId, link.rootEntryId, fixed.rootPath, fixed.ToGrant(),
                     s.IsVerified(), expires, role))
  }

  function ScopedRole(t: Tables, share: Id, link: Link, s: Session): Result<RoleId, ShareError> {
    if link.RequiresEmail() && s.emailHash.Some? then
      match t.GetRecipientRole(share, s.emailHash.value)
      case Some(role) => Ok(role)
      case None =>
        if share !in t.publicRoles && share in t.legacyRoles then Ok(t.legacyRoles[share]) else Err(RoleMissing)
    else if link.RequiresEmail() then Err(VerificationRequired)
    else match t.GetShareRole(share)
      case Some(role) => Ok(role)
      case None => Err(RoleMissing)
  }

  function DoResolvePrincipal(t: Tables, now: Time, c: Call): (Tables, Outcome)
    requires c.ResolvePrincipal?
  {
    match SessionFromToken(t, c.sessionToken, now)
    case Err(e) => (t, Err(e))
    case Ok(session) =>
      match PrincipalFor(t, now, session)
      case Err(e) => (t, Err(e))
      case Ok(p) => (t, Ok(PrincipalResolved(p)))
  }

  // ---------------------------------------------------------------- uploads

  function DoStartUpload(t: Tables, opts: Options, now: Time, r: UploadRequest): (Tables, Outcome) {
    match RequireActiveShareContext(t, r.principal, now)
    case Err(e) => (t, Err(e))
    case Ok(link) =>
      match RequireUploadAllowedByGrant(opts, link, r)
      case Err(e) => (t, Err(e))
      case Ok(_) =>
        match RequireUploadQuota(t, r.principal.shareId, link, r.expected)
        case Err(e) => (t, Err(e))
        case Ok(_) =>
          match VaultPath.Normalized(r.targetPath)
          case None => (t, Err(InvalidPath))
          case Some(path) =>
            var row := Upload(r.principal.shareId, r.principal.sessionId, r.targetParent, path, r.expected, 0,
                              Pending, None, now);
            match t.CreateUpload(row)
            case None => (t, Err(RowRejected))
            case Some(t1) => (t1, Ok(UploadStarted(|t.uploads|)))
  }

  function DoRecordUploadChunk(t: Tables, now: Time, p: Principal, id: Id, bytes: uint64): (Tables, Outcome) {
    if bytes == 0 then (t, Err(BadUploadRequest))
    else match RequireActiveShareContext(t, p, now)
      case Err(e) => (t, Err(e))
      case Ok(_) =>
        match RequireUploadForPrincipal(t, p, id)
        case Err(e) => (t, Err(e))
        case Ok(u) =>
          if u.IsTerminal() then (t, Err(AlreadyTerminal))
          else if u.ExceedsExpectedSize(bytes) then (t, Err(ExceedsExpected))
          else match t.AddReceivedBytes(id, bytes)
            case None => (t, Err(RowRejected))
            case Some(t1) => (t1, Ok(ChunkRecorded(id)))
  }

  function DoFinishUpload(t: Tables, now: Time, p: Principal, id: Id, entry: nat): (Tables, Outcome) {
    match RequireActiveShareContext(t, p, now)
    case Err(e) => (t, Err(e))
    case Ok(_) =>
      match RequireUploadForPrincipal(t, p, id)
      case Err(e) => (t, Err(e))
      case Ok(u) =>
        if u.IsTerminal() then (t, Err(AlreadyTerminal))
        else if u.received != u.expected then (t, Err(SizeMismatch))
        else if entry == 0 then (t, Err(BadUploadRequest))
        else match t.CompleteUpload(id, entry)
          case None => (t, Err(RowRejected))
          case Some(t1) =>
            match t1.IncrementUpload(p.shareId)
            case None => (t1, Err(RowRejected))
            case Some(t2) => (t2, Ok(UploadFinished(id)))
  }

  function DoCancelUpload(t: Tables, now: Time, p: Principal, id: Id): (Tables, Outcome) {
    match RequireActiveShareContext(t, p, now)
    case Err(e) => (t, Err(e))
    case Ok(_) =>
      match RequireUploadForPrincipal(t, p, id)
      case Err(e) => (t, Err(e))
      case Ok(_) =>
        match t.EndUpload(id, Cancelled)
        case None => (t, Err(RowRejected))
        case Some(t1) => (t1, Ok(UploadCancelled(id)))
  }

  /** Unlike the other upload operations this one checks neither the link nor the session. */
  function DoFailUpload(t: Tables, p: Principal, id: Id): (Tables, Outcome) {
    match RequireUploadForPrincipal(t, p, id)
    case Err(e) => (t, Err(e))
    case Ok(_) =>
      match t.EndUpload(id, Failed)
      case None => (t, Err(RowRejected))
      case Some(t1) => (t1, Ok(UploadFailed(id)))
  }

  /** What a sweep does to a listed upload: fails it unless it has ended meanwhile. */
  function SweepOne(t: Tables, id: Id): Tables {
    t.EndUpload(id, Failed).GetOr(t)
  }

  function SweepBatch(t: Tables, batch: seq<Id>): Tables {
    if batch == [] then t else SweepOne(SweepBatch(t, batch[..|batch| - 1]), batch[|batch| - 1])
  }

  predicate IsStale(u: Upload, olderThan: int, now: Time) {
    !u.IsTerminal() && u.startedAt < now - olderThan
  }

  /** Distinct stale uploads, oldest first. */
  ghost predicate StaleAndOrdered(us: seq<Upload>, olderThan: int, now: Time, batch: seq<Id>) {
    && (forall i :: 0 <= i < |batch| ==> batch[i] < |us| && IsStale(us[batch[i]], olderThan, now))
    && (forall i, j :: 0 <= i < j < |batch| ==>
          batch[i] != batch[j] && us[batch[i]].startedAt <= us[batch[j]].startedAt)
  }

  /** A stale upload is left out only if every listed one is at least as old. */
  ghost predicate NoneOlder(us: seq<Upload>, batch: seq<Id>, id: Id)
    requires id < |us|
  {
    forall i :: 0 <= i < |batch| && batch[i] < |us| ==> us[batch[i]].startedAt <= us[id].startedAt
  }

  /** What the stale-upload query may answer: the oldest stale uploads in order, at most `limit` of them. */
  ghost predicate IsStaleBatch(us: seq<Upload>, olderThan: int, limit: nat, now: Time, batch: seq<Id>) {
    && |batch| <= limit
    && StaleAndOrdered(us, olderThan, now, batch)
    && (forall id: nat :: id < |us| && IsStale(us[id], olderThan, now) && id !in batch ==>
          |batch| == limit && NoneOlder(us, batch, id))
  }

  function DoSweep(t: Tables, opts: Options, olderThan: int, limit: nat, batch: seq<Id>): (Tables, Outcome) {
    var age := if olderThan > 0 then olderThan else opts.staleTtl;
    var cap := if limit > 0 then limit else opts.staleLimit;
    if age <= 0 then (t, Err(SweepAgeInvalid))
    else if cap == 0 then (t, Ok(Swept(0, 0)))
    else (SweepBatch(t, batch), Ok(Swept(|batch|, |batch|)))
  }

  // ---------------------------------------------------------------- runs

  function Do(t: Tables, opts: Options, now: Time, c: Call): (Tables, Outcome) {
    match c
    case CreateLink(_, _, _, _) => DoCreateLink(t, now, c)
    case UpdateLink(_, _, _, _, _) => DoUpdateLink(t, now, c)
    case RevokeLink(_, _) => DoRevokeLink(t, now, c)
    case RotateLinkToken(_, _) => DoRotateLinkToken(t, now, c)
    case OpenPublicSession(_) => DoOpenPublicSession(t, opts, now, c)
    case StartEmailChallenge(_, _, _, _) => DoStartEmailChallenge(t, opts, now, c)
    case ConfirmEmailChallenge(_, _, _, _) => DoConfirmEmailChallenge(t, now, c)
    case ResolvePrincipal(_) => DoResolvePrincipal(t, now, c)
    case StartUpload(r) => DoStartUpload(t, opts, now, r)
    case RecordUploadChunk(p, id, bytes) => DoRecordUploadChunk(t, now, p, id, bytes)
    case FinishUpload(p, id, entry) => DoFinishUpload(t, now, p, id, entry)
    case CancelUpload(p, id) => DoCancelUpload(t, now, p, id)
    case FailUpload(p, id) => DoFailUpload(t, p, id)
    case SweepStaleUploads(olderThan, limit, batch) => DoSweep(t, opts, olderThan, limit, batch)
  }

  /** One call of a run, at the clock value it reads. */
  datatype Event = Event(now: Time, call: Call)

  function Run(t: Tables, opts: Options, events: seq<Event>): Tables
    decreases |events|
  {
    if events == [] then t
    else
      var last := |events| - 1;
      Do(Run(t, opts, events[..last]), opts, events[last].now, events[last].call).0
  }

  /** The outcome of the i-th call of a run. */
  function OutcomeAt(t: Tables, opts: Options, events: seq<Event>, i: nat): Outcome
    requires i < |events|
  {
    Do(Run(t, opts, events[..i]), opts, events[i].now, events[i].call).1
  }

  const EMPTY := Tables([], [], [], [], map[], map[], map[], 0)
}
