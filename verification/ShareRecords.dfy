/**
 The rows of the share tables and the values built from them.

 A row's id is its position in its table: the tables are append-only, because the
 statements that delete share rows have no caller in the program. The rows also go with
 the vault, entry or link they refer to, by the schema's cascades; that is not modelled.
 An id string that names no row (an empty or malformed one included) is an id past the end.
 Hashes are injective, so the hashed value itself stands for its hash.
 */
module ShareRecords {
  import opened Wrappers

  type Id = nat
  type Time = int
  type RoleId = nat
  type EmailHash = nat
  type Code = nat

  const UINT64_LIMIT: int := 0x1_0000_0000_0000_0000
  const INT64_LIMIT: int := 0x8000_0000_0000_0000

  /** `uint64_t`. */
  type uint64 = n: int | 0 <= n < 0x1_0000_0000_0000_0000

  datatype Operation = Metadata | ListDir | Preview | Download | UploadFile | Mkdir | Overwrite
  datatype TargetType = FileTarget | DirectoryTarget
  datatype AccessMode = Public | EmailValidated
  datatype DuplicatePolicy = RejectDuplicate | RenameDuplicate | OverwriteDuplicate
  datatype UploadStatus = Pending | Receiving | Complete | Failed | Cancelled

  datatype TokenKind = PublicShare | ShareSession

  /** A parsed token: `lookup` finds the row, `secret` must hash to the row's hash. */
  datatype Token = Token(kind: TokenKind, lookup: nat, secret: nat)

  datatype Grant = Grant(
    vaultId: nat,
    rootEntryId: nat,
    rootPath: string,
    targetType: TargetType,
    allowedOps: set<Operation>,
    duplicatePolicy: DuplicatePolicy)
  {
    predicate Allows(op: Operation) {
      op in allowedOps
    }

    /** False where the source throws. */
    predicate IsValid() {
      && vaultId != 0
      && rootEntryId != 0
      && rootPath != "" && rootPath[0] == '/'
      && !(targetType == FileTarget && Allows(Mkdir))
      && !(duplicatePolicy == OverwriteDuplicate && !Allows(Overwrite))
    }
  }

  datatype Link = Link(
    lookup: nat,
    tokenHash: nat,
    createdBy: nat,
    createdAt: Time,
    vaultId: nat,
    rootEntryId: nat,
    rootPath: string,
    targetType: TargetType,
    accessMode: AccessMode,
    allowedOps: set<Operation>,
    expiresAt: Option<Time>,
    revokedAt: Option<Time>,
    disabledAt: Option<Time>,
    uploadCount: nat,
    maxUploadFiles: Option<nat>,
    maxUploadSize: Option<uint64>,
    maxUploadTotal: Option<uint64>,
    duplicatePolicy: DuplicatePolicy,
    allowedMime: seq<string>,
    blockedMime: seq<string>,
    allowedExtensions: seq<string>,
    blockedExtensions: seq<string>)
  {
    predicate IsExpired(now: Time) {
      expiresAt.Some? && expiresAt.value <= now
    }

    predicate IsActive(now: Time) {
      !IsExpired(now) && revokedAt.None? && disabledAt.None?
    }

    predicate RequiresEmail() {
      accessMode == EmailValidated
    }

    function ToGrant(): Grant {
      Grant(vaultId, rootEntryId, rootPath, targetType, allowedOps, duplicatePolicy)
    }
  }

  datatype Session = Session(
    shareId: Id,
    lookup: nat,
    tokenHash: nat,
    emailHash: Option<EmailHash>,
    verifiedAt: Option<Time>,
    expiresAt: Time,
    revokedAt: Option<Time>)
  {
    predicate IsExpired(now: Time) {
      expiresAt <= now
    }

    predicate IsActive(now: Time) {
      !IsExpired(now) && revokedAt.None?
    }

    predicate IsVerified() {
      verifiedAt.Some?
    }
  }

  datatype Challenge = Challenge(
    shareId: Id,
    sessionId: Option<Id>,
    emailHash: EmailHash,
    codeHash: Code,
    attempts: nat,
    maxAttempts: nat,
    expiresAt: Time,
    consumedAt: Option<Time>)
  {
    predicate IsExpired(now: Time) {
      expiresAt <= now
    }

    predicate CanAttempt(now: Time) {
      consumedAt.None? && !IsExpired(now) && attempts < maxAttempts
    }
  }

  function Min(a: int, b: int): int {
    if a <= b then a else b
  }

  datatype Upload = Upload(
    shareId: Id,
    sessionId: Id,
    targetParent: nat,
    targetPath: string,
    expected: uint64,
    received: uint64,
    status: UploadStatus,
    createdEntry: Option<nat>,
    startedAt: Time)
  {
    predicate IsTerminal() {
      status == Complete || status == Failed || status == Cancelled
    }

    /** The overflow-free test of the source, in unsigned 64-bit arithmetic. */
    predicate ExceedsExpectedSize(nextBytes: uint64) {
      var room: uint64 := expected - Min(received, expected);
      nextBytes > room
    }

    /**
     The subtraction form is the unbounded comparison `received + next > expected`,
     except for an empty chunk on an upload that is already past its size.
     */
    lemma ExceedsIsUnboundedComparison(nextBytes: uint64)
      ensures (ExceedsExpectedSize(nextBytes) <==> received + nextBytes > expected)
              <==> !(nextBytes == 0 && received > expected)
    {
      if nextBytes == 0 && received > expected {
        assert !ExceedsExpectedSize(nextBytes);
      }
    }
  }

  /** A session's authority over one share, as handed to every later request. */
  datatype Principal = Principal(
    shareId: Id,
    sessionId: Id,
    vaultId: nat,
    rootEntryId: nat,
    rootPath: string,
    grant: Grant,
    emailVerified: bool,
    expiresAt: Time,
    role: RoleId)
  {
    predicate IsExpired(now: Time) {
      expiresAt != 0 && expiresAt <= now
    }

    predicate IsActive(now: Time) {
      vaultId != 0 && rootEntryId != 0 && !IsExpired(now)
    }

    predicate HasVault(id: nat) {
      vaultId == id
    }
  }
}
