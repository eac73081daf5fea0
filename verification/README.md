# Verified models of the vault server

Dafny models of the parts of Vaulthalla that carry state across calls or must agree with a simpler meaning, with
proofs of what holds over every run. The mutable objects of the program are classes whose methods are proved to
take the steps of a functional specification; the theorems about runs are proved on the specification.

| area | specification and theorems | objects and loops |
|---|---|---|
| shares: links, sessions, email challenges, uploads | `ShareRecords`, `ShareTables`, `ShareProtocol`, `ShareInvariant`, `ShareQuota`, `ShareRevocation`, `ShareVerification`, `ShareInterruption` | `ShareManager` |
| share paths | `VaultPath`, `TargetResolver` | loops in the same files |
| vault keys and their rotation | `TaskRanges`, `VaultKeys`, `KeyRotation` | `EncryptionManager` |
| cloud sync | `SyncPlan`, `SyncMeaning` | `SyncExecutor` |
| rate limiting | `RateLimits` | `RateLimiter` |
| worker pools | `ThreadPools` | `ThreadPoolManager` |
| directory paging | `ReadDir` | in the same file |
| log pruning | `LogPrune` | `LogRotator` |
| command lines | `CliLine` | in the same file |

`dafny verify dfyconfig.toml` checks the whole project. Big definitions are hidden where a proof does not need them.

## How the program is modelled

**Store.** The share tables are sequences of rows; a row's id is its position, because the statements that delete
share rows have no caller. Each statement has the guard of its prepared SQL text: an update that matches no row
throws. `CURRENT_TIMESTAMP` is the manager's clock, passed to each call. A call is atomic, but an error in the
middle leaves the statements before it in force, as in the program, which opens no transaction around a call:
`ShareProtocol` has the errors of the row guards, `ShareInterruption` a failing database between any two statements.
Token lookups are fresh draws; hashes are injective, so a hashed value stands for its hash. What a call takes from
outside (the role policy's verdict, resolved role templates, normalised email hashes, an upload's file extension)
is an input, so the theorems hold for every answer.

**Encryption** is symbolic: a ciphertext opens only under the key and vector it was sealed with, and bytes that were
never encrypted open under none. Keys and vectors are fresh draws. Reading a file is the engine's `decrypt`.

**Concurrency.** A locked method or a public call is one step. The tasks of one sync phase finish in an arbitrary
order. The tasks of a key rotation interleave in any way between reading a blob, re-sealing it, writing it and storing
the row; they share the file objects of their list, and each may break off between two of these.

**Widths.** Upload sizes are 64-bit, and the store refuses sizes of 2^63 and above; the worker counters and the
`donorRatio * 4` product wrap at 2^32; download totals and the prune total wrap at 2^64; task ranges are 32-bit and
proved not to wrap. `std::chrono` truncation to seconds is written out.

**Environment.** Clocks, free space, queue depths, idle flags, I/O faults, directory sizes of names and hash-map
iteration order are parameters or arbitrary choices.

## What the proofs found

These are facts about the program as written, each with its exact condition or a concrete run:

- Upload limits are tested at start against completed uploads alone, so with k uploads open they can be overrun by
  k - 1 uploads, and that happens (`ShareQuota.QuotaOverRuns`, `ShareQuota.QuotaIsTight`).
- `failUpload` checks neither link nor session (`ShareRevocation.FailIsNotGated`).
- `getTaskOperationRanges` advances each range's end but not the next range's begin: it is a partition only if the
  tasks divide the operations. After a key rotation the files it misses are unreadable until rewritten, although
  every task reported success (`TaskRanges.PartitionIffEven`, `KeyRotation.RotationCompleteIffEven`,
  `VaultKeys.StrandedForGood`). The next rotation lists them again, and they stop its tasks short of healthy files, as
  every empty file does (`KeyRotation.StrandedCascade`, `KeyRotation.EmptyFileNeverOpens`). Where two ranges share a
  file, one task can write the old blob back over the other's new one (`KeyRotation.BoundaryRace`).
- One file to rotate makes the split divide by zero (`KeyRotation.CrashExact`).
- `prepare_key_rotation` moves the key fields before the store accepts the key, and `finish_key_rotation` clears the
  old key before the store marks the rotation finished, after which nothing can be read until a restart
  (`VaultKeys.StepKeeps`, `VaultKeys.WriteAfterFailedStoreIsLost`, `VaultKeys.NoReadsAfterFailedFinish`).
- A blob is written before its row is stored, so a failing statement between the two loses the file
  (`VaultKeys.UnstoredRowLosesFile`).
- Saving through the file system stores no key version, so what it saves after a vault's first rotation is readable
  only where the row happens to name the current version; a new file's row does not (`VaultKeys.SavedIsReadableIff`).
  The next rotation puts it right (`KeyRotation.SavedFileOpens`).
- A listing of the bucket knows neither vector nor key version, hash or type, and file equality compares them, so an
  encrypted file is transferred again run after run (`SyncMeaning.UploadedIsTransferredAgain`).
- `finishUpload` completes the upload and counts it in two transactions, and `rotateLinkToken` replaces the token and
  revokes the sessions in two: a failure between them leaves the counter behind, or the old sessions in force
  (`ShareInterruption.InterruptionKeeps`, `ShareInterruption.CutRotationLeavesSessions`).
- In any interval of window length the limiter lets through up to 2 max - 1 calls, not 2 max, and windows longer
  than the thirty-minute idle limit can be cut short by eviction (`RateLimits.TwoWindowsWorthHappens`,
  `RateLimits.LongWindowsAreForgotten`). A key evicted for room starts afresh (`RateLimits.EvictionForgets`).
- There are five pools but `NUM_POOLS` is 4, so more workers are spawned than budgeted; and the fuse pool's loans go
  back to http first, whoever lent them (`ThreadPools.MoreWorkersThanBudgeted`, `ThreadPools.DonorsDrift`).
- The size phase of pruning meets its cap exactly if the sum of sizes does not wrap (`LogPrune.CapIsMetExactly`).
- `needs_quotes` does not know the single quote, which the server's tokenizer treats as a quote
  (`CliLine.TokenizerRoundTrip`), and the tokenizer drops the first flag of a bundle (`CliLine.BundleDropsFirstFlag`).
- A comment in the planner calls unresolved conflicts "Ask mode"; the keep-newest policy with an undated file ends
  up there too. The model follows the code (`SyncMeaning.SettlesExactly`).

## Model

| member | source | states |
|---|---|---|
| `ShareRecords.Upload.ExceedsIsUnboundedComparison` | core/src/share/Upload.cpp:52-54 | The 64-bit subtraction form of the size test is the unbounded comparison `received + next > expected`, exactly unless the chunk is empty on an upload already past its size. |
| `ShareProtocol.QuotaIsExact` | core/src/share/Manager.cpp:659-668 | The start-time quota test passes exactly when completed files are below the file limit and completed bytes plus the new size are within the byte limit; the subtraction never wraps. |
| `ShareInvariant.StepKeeps` | core/src/share/Manager.cpp:745-1289 | Every public call, successful or refused at any statement's row guard, keeps the rows in order and lets them change only forwards: endings stay, received bytes grow, tokens change only to freshly drawn ones. No link's upload counter falls further behind its completed uploads, and none catches up. |
| `ShareInvariant.RunKeeps` | core/src/share/Manager.cpp:745-1289 | The same over every run of calls in any order; from level counters the counters are level at the end. |
| `ShareInterruption.StatesAreStatements` | core/src/share/Manager.cpp:840-1219 | The states a revoke, rotation, confirmation or finish passes through are those of its store statements run one after another on the tables it finds; `StatesSpanTheCall` adds that every call ends at the tables of its protocol step. |
| `ShareInterruption.InterruptionKeeps` | core/src/share/Manager.cpp:745-1289 | A database failure between any two statements of any call, the revocation that a failed creation attempts included, keeps rows and endings in order; the counters stay level too, except that a finish cut between completing the upload and counting it leaves its counter one further behind. |
| `ShareInterruption.CutTables` | core/src/share/Manager.cpp:745-1289 | A call cut anywhere leaves sessions, challenges and uploads each as they were or as the whole call leaves them, except that a sweep fails the front of its batch. |
| `ShareInterruption.RunTriedKeeps` | core/src/share/Manager.cpp:745-1289 | Over every run in which the database may fail anywhere: rows and endings stay in order, and each counter misses exactly the finishes that were cut between their two statements. |
| `ShareInterruption.UncutRunIsRun` | core/src/share/Manager.cpp:745-1289 | A run in which nothing is cut is a run of the protocol. |
| `ShareInterruption.InvIffNoCountLost` | core/src/share/Manager.cpp:1205-1213 | From an empty store the whole invariant holds at the end exactly if no finish was cut there. |
| `ShareInterruption.EndedDespiteFailures` | core/src/share/Manager.cpp:840-871 | Revocation is final from its first statement on and rotation from its second: whatever fails then or later, no earlier session resolves and no upload call of its principals has any effect. |
| `ShareInterruption.CutRotationLeavesSessions` | core/src/share/Manager.cpp:861-862 | A rotation cut after its first statement has replaced the token, and every session token resolves as before. |
| `ShareQuota.StartAddsOne` | core/src/share/Manager.cpp:1129-1166 | A start that succeeds was within both limits at that moment and adds one reservation of its own size to its share, and nothing else. |
| `ShareQuota.LoadNeverGrowsWithoutStart` | core/src/share/Manager.cpp:1168-1289 | Chunks, finishes, cancels, failures and sweeps never raise a share's completed-plus-reserved load. |
| `ShareQuota.QuotaOverRuns` | core/src/share/Manager.cpp:637-668 | Over every run, the database failing anywhere, that leaves the limits alone and never has more than k uploads of the share open: completed + open files <= limit + (k-1), completed + reserved bytes <= limit + (k-1) times the size limit. |
| `ShareQuota.OneAtATimeIsExact` | core/src/share/Manager.cpp:659-668 | With one upload open at a time both limits hold exactly at the end of every run, the database failing anywhere. |
| `ShareQuota.QuotaIsTight` | core/src/share/Manager.cpp:1129-1166 | The slack is real: an accepted start repeated k times is accepted k times, reserving k times its size. |
| `ShareQuota.FinishedOnlyByFinish` | core/src/share/Manager.cpp:1191-1219 | In any one call an upload becomes complete exactly if that call reports its finish. |
| `ShareQuota.FinishAtMostOnce` | core/src/share/Manager.cpp:1191-1219 | Over every run, the database failing anywhere, an upload is completed at most once, and is complete at the end exactly if it was before or has been. |
| `ShareQuota.CounterCountsFinishes` | core/src/share/Manager.cpp:1191-1219 | A link's upload counter moves by the number of finishes reported for it, and stays the number of its completed uploads; what it has missed before it goes on missing. |
| `ShareQuota.UploadLifecycle` | core/src/share/Manager.cpp:1168-1253 | Over every run, the database failing anywhere: a terminal row never changes; received never falls and stays within expected; a complete upload holds exactly what it announced. |
| `ShareQuota.SweepIsExact` | core/src/share/Manager.cpp:1255-1289 | With the default age and limit where the request has none: a sweep fails exactly the uploads listed as stale, leaves a stale one open only when it hit its limit, and throws exactly without a positive age. |
| `ShareRevocation.EndedForGood` | core/src/share/Manager.cpp:608-730 | After a revoke or a rotation, in every later state, no earlier session of the share resolves to a principal and no upload call of its principals has any effect. |
| `ShareRevocation.RotationRetires` | core/src/share/Manager.cpp:853-871 | A rotation retires the old public token and hands out one that opens the link. |
| `ShareRevocation.OldTokenOpensNothing` | core/src/share/Manager.cpp:682-696 | A token that opened the share before a rotation opens nothing afterwards, whatever calls follow, updates included. |
| `ShareRevocation.RevokedLinkNeverOpens` | core/src/share/Manager.cpp:840-851 | After a revoke no token opens the link, in any later state. |
| `ShareRevocation.ResolvedIsCurrent` | core/src/share/Manager.cpp:1018-1042 | A resolved principal speaks for an active session of an active link, verified where the link requires it, and expires no later than the session. |
| `ShareRevocation.PrincipalRefused` | core/src/share/Manager.cpp:608-625 | Start, chunk, finish and cancel for a cut-off principal are refused and change nothing. |
| `ShareRevocation.SessionTokenRefused` | core/src/share/Manager.cpp:716-730 | A session token resolves to no session of a cut-off share among those it had when it was cut off. |
| `ShareRevocation.FailIsNotGated` | core/src/share/Manager.cpp:1241-1253 | Failing an upload checks only ownership and openness: it works for a cut-off principal too. |
| `ShareVerification.ConfirmIsExact` | core/src/share/Manager.cpp:968-1016 | A confirmation verifies exactly if the caller presents the session, the challenge is answerable for it and the code is right; a wrong code on an answerable challenge costs exactly one attempt; anything else changes nothing. |
| `ShareVerification.OnlyConfirmVerifies` | core/src/share/Manager.cpp:745-1289 | No other call touches a session's verification or a challenge's attempts and consumption. |
| `ShareVerification.AttemptsCountWrongCodes` | core/src/share/EmailChallenge.cpp:77-81 | Over every run, the database failing anywhere, the stored attempts are the wrong codes recorded, never above the maximum, and a challenge is used up at most once. |
| `ShareVerification.VerificationIsSound` | core/src/share/Manager.cpp:968-1016 | From an empty store, the database failing anywhere, a session's verification changes only through a confirmation of a challenge bound to that session and share, answerable then, unused, with fewer wrong codes than its maximum, and the right code. |
| `ShareVerification.VerifiedEmailIsBacked` | core/src/share/Manager.cpp:1003-1007 | In every state reached so a verified session's email hash is that of a challenge consumed for it. |
| `ShareManager.Manager.CreateLink` | core/src/share/Manager.cpp:745-779 | The statement-by-statement method takes the protocol step of its name, new tables and outcome both: insert, role assignment and recipient roles. |
| `ShareManager.Manager.UpdateLink` | core/src/share/Manager.cpp:805-838 | The statement-by-statement method takes the protocol step of its name, new tables and outcome both: the edited row and only the role assignments that were sent. |
| `ShareManager.Manager.RevokeLink` | core/src/share/Manager.cpp:840-851 | The statement-by-statement method takes the protocol step of its name, new tables and outcome both: row, sessions and role assignments. |
| `ShareManager.Manager.RotateLinkToken` | core/src/share/Manager.cpp:853-871 | The statement-by-statement method takes the protocol step of its name, new tables and outcome both: new token and revoked sessions. |
| `ShareManager.Manager.OpenPublicSession` | core/src/share/Manager.cpp:877-906 | The statement-by-statement method takes the protocol step of its name, new tables and outcome both: token check and new session. |
| `ShareManager.Manager.StartEmailChallenge` | core/src/share/Manager.cpp:908-966 | The statement-by-statement method takes the protocol step of its name, new tables and outcome both: session found or opened, recipient check, challenge row. |
| `ShareManager.Manager.ConfirmEmailChallenge` | core/src/share/Manager.cpp:968-1016 | The statement-by-statement method takes the protocol step of its name, new tables and outcome both: attempt counting, consumption and verification. |
| `ShareManager.Manager.ResolvePrincipal` | core/src/share/Manager.cpp:1018-1042 | The statement-by-statement method takes the protocol step of its name, new tables and outcome both: session, link, role and principal. |
| `ShareManager.Manager.StartUpload` | core/src/share/Manager.cpp:1129-1166 | The statement-by-statement method takes the protocol step of its name, new tables and outcome both: context, grant, quota and the new row. |
| `ShareManager.Manager.RecordUploadChunk` | core/src/share/Manager.cpp:1168-1189 | The statement-by-statement method takes the protocol step of its name, new tables and outcome both: size test and received bytes. |
| `ShareManager.Manager.FinishUpload` | core/src/share/Manager.cpp:1191-1219 | The statement-by-statement method takes the protocol step of its name, new tables and outcome both: completion and the link counter. |
| `ShareManager.Manager.CancelUpload` | core/src/share/Manager.cpp:1221-1239 | The statement-by-statement method takes the protocol step of its name, new tables and outcome both: cancellation. |
| `ShareManager.Manager.FailUpload` | core/src/share/Manager.cpp:1241-1253 | The statement-by-statement method takes the protocol step of its name, new tables and outcome both: failure. |
| `ShareManager.Manager.SweepStaleUploads` | core/src/share/Manager.cpp:1255-1289 | The statement-by-statement method takes the protocol step of its name, new tables and outcome both: the stale query and the failures; the batch it lists is one the query may answer. |
| `ShareManager.ShareStore.ListStaleActiveUploads` | core/src/db/preparedStatements/share/uploads.cpp:44-52 | The stale query lists the oldest open uploads past the age, in order, at most `limit` of them. |
| `ShareManager.ShareStore.RevokeSessionsForShare` | core/src/db/preparedStatements/share/sessions.cpp:18 | Marks exactly the share's sessions not yet revoked. |
| `VaultPath.NormalizeMeaning` | core/src/share/Scope.cpp:10-62 | Normalisation keeps the component list a path means, is idempotent and absolute, and leaves ".." only at the front. |
| `VaultPath.ComponentsOfRender` | core/src/share/Scope.cpp:45-62 | Reading a rendered normal list gives the list back. |
| `VaultPath.ContainsIsPrefix` | core/src/share/Scope.cpp:64-73 | String containment is true exactly if neither side has ".." and the root's component list is a prefix of the candidate's; it throws exactly on a NUL byte. |
| `VaultPath.InsideIsPartialOrder` | core/src/share/Scope.cpp:64-73 | Containment is transitive, and antisymmetric up to normal form. |
| `VaultPath.SplitComponents` | core/src/share/Scope.cpp:10-28 | The splitting loop computes the component list a path means. |
| `VaultPath.NormalizeVaultPath` | core/src/share/Scope.cpp:45-62 | The string-building loop computes the normal form. |
| `TargetResolver.AuthorizeExact` | core/src/share/Scope.cpp:75-107 | A decision allows exactly granted operations inside the root in the principal's vault, and mkdir only on directories. |
| `TargetResolver.RequestMeaning` | core/src/share/TargetResolver.cpp:42-56 | A request path is accepted exactly if it is non-empty, without NUL and without any ".." piece, and then means its component list. |
| `TargetResolver.ShareVaultRoundTrip` | core/src/share/TargetResolver.cpp:69-126 | Share path to vault path lands inside the root exactly if the root has no ".." and the way back gives the normalised request. |
| `TargetResolver.VaultShareRoundTrip` | core/src/share/TargetResolver.cpp:108-126 | Vault path to share path and back gives the normalised vault path. |
| `TargetResolver.ResolveIsScoped` | core/src/share/TargetResolver.cpp:132-193 | Whatever resolves lies inside the principal's root and vault, was granted, is the entry stored under the path, and passed the role policy. |
| `TargetResolver.SplitStrict` | core/src/share/TargetResolver.cpp:42-56 | The strict splitting loop, including which error it throws. |
| `TargetResolver.NormalizeRequestedPath` | core/src/share/TargetResolver.cpp:104-106 | Splitting and assembling gives the normalised request, or the error. |
| `TargetResolver.AssembleAbsolutePath` | core/src/share/TargetResolver.cpp:58-67 | The assembling loop renders the component list. |
| `TargetResolver.ListChildren` | core/src/share/TargetResolver.cpp:201-218 | Lists all children, in order, exactly if each is present, in the vault and inside the root. |
| `TaskRanges.GetTaskOperationRanges` | core/include/concurrency/taskOpRanges.hpp:10-28 | The loop computes the ranges; it has no result exactly where the source divides by zero. |
| `TaskRanges.SplitDefined` | core/include/concurrency/taskOpRanges.hpp:10-28 | The split is defined exactly from `minOperationsPerTask` operations on, with at least one thread. |
| `TaskRanges.Coverage` | core/include/concurrency/taskOpRanges.hpp:10-28 | Lengths sum to n; each index belongs to its block's task, the first n mod t inner boundaries to two tasks, the last n mod t indices to none. |
| `TaskRanges.PartitionIffEven` | core/include/concurrency/taskOpRanges.hpp:10-28 | The ranges are an exact partition if and only if t divides n. |
| `VaultKeys.StepKeeps` | core/src/vault/EncryptionManager.cpp:28-202 | `key_` is the key of `version_`, while rotating `old_key_` is that of the version before, and every file is sealed under its row's version: a step keeps this exactly unless it is a load, preparation or finish whose statement fails with something to do, a blob written without its row, contents the file system saves under a row that names another version, or an empty new file. |
| `VaultKeys.RunKeeps` | core/src/vault/EncryptionManager.cpp:28-202 | It holds throughout a run exactly if no step of the run is one of those. |
| `VaultKeys.RunSurvives` | core/src/vault/EncryptionManager.cpp:28-202 | Over every run, whatever fails in it: the key tables stay in order, and so does every file that no step damaged or that a rotation has put right since. |
| `VaultKeys.RotateRowMeaning` | core/src/vault/EncryptionManager.cpp:128-167 | Rotating a file changes only its vector, version and ciphertext, and succeeds exactly for current files and, while rotating, files of the previous version. |
| `VaultKeys.ReadExact` | core/src/vault/EncryptionManager.cpp:178-202 | With the right keys, reading an undamaged file gives the plaintext last written exactly at the current version or, while rotating, the one before; which error it gives otherwise. |
| `VaultKeys.UndamagedFilesReadBack` | core/src/vault/EncryptionManager.cpp:169-202 | File by file, whatever happens to other files: over every run in which no key statement fails, a file that no step damaged reads back as last written exactly if it is live. |
| `VaultKeys.LiveFilesReadBack` | core/src/vault/EncryptionManager.cpp:169-202 | From the first start on, over every run without a harmful step, all live files read back. |
| `VaultKeys.RestartRepairs` | core/src/vault/EncryptionManager.cpp:28-80 | After any run, whatever failed in it, a restart that loads restores the keys: every undamaged file reads back exactly if live, and the invariant is back if no file was damaged, which failed loads, preparations and finishes never do. |
| `VaultKeys.NoReadsAfterFailedFinish` | core/src/vault/EncryptionManager.cpp:111-120 | A finish whose mark statement fails has already cleared the old key: whatever state the files are in, every read of any file fails, whatever steps follow, until a restart that loads or a finish that is stored. |
| `VaultKeys.UnstoredRowLosesFile` | core/src/sync/tasks/RotateKey.cpp:73-74 | If the row is not stored after the blob is written, in a rotation or a write, neither the old nor the new contents can be read. |
| `VaultKeys.SavedIsReadableIff` | core/src/fs/Filesystem.cpp:437-490 | The file system stores the vector but no key version: once no rotation is open, non-empty contents it saves are readable exactly if the row, which keeps its version or gets the column's default, names the current one. |
| `VaultKeys.WriteAfterFailedStoreIsLost` | core/src/vault/EncryptionManager.cpp:82-109 | A file written between a failed preparation and the restart reads back before the restart and not after it. |
| `VaultKeys.StrandedForGood` | core/src/vault/EncryptionManager.cpp:111-202 | From any state a run can leave: a file a finished rotation left behind is unreadable and unchanged in every later state, whatever runs and whatever fails, until it is written again. |
| `VaultKeys.NotLiveIsStranded` | core/src/vault/EncryptionManager.cpp:178-202 | With the right keys, a file in order is left behind exactly if it is not live, and then reading it fails. |
| `VaultKeys.FirstStart` | core/src/vault/EncryptionManager.cpp:28-80 | The first start stores version 1 and establishes the invariant. |
| `KeyRotation.PassedExactly` | core/src/sync/tasks/RotateKey.cpp:107-129 | Once all tasks have ended, a task is through with exactly the files of its range up to the first that does not open under the old key or at which it broke off, in every interleaving and whatever state the files are in. |
| `KeyRotation.RotationOutcome` | core/src/sync/Local.cpp:232-250 | With both keys at hand, for any interleaving of the tasks, any of them breaking off, and any state of the files: a listed file cannot be read if no task got through with it, gives what was under its blob if only one had it and got through, else is readable exactly if the blob written last is the new one; any other file reads as before at the current version, and not otherwise. |
| `KeyRotation.UnmarkedOutcome` | core/src/sync/Local.cpp:250-258 | If the statement that marks the rotation finished fails, the rotation stays open and no file at all can be read, whatever state the files are in. |
| `KeyRotation.RotationCompleteIffEven` | core/src/sync/Local.cpp:232-250 | When no task breaks off, then in every interleaving and from any state of the files: every file can be read afterwards if and only if the task count divides the file count, every listed file opens under the old key, and every other file is current and could be read before; and what is read is what was under the blob. |
| `KeyRotation.RotationOfSoundVault` | core/src/sync/Local.cpp:232-250 | In any vault a run can leave, failures and saves included, every file reads as last written afterwards under exactly that condition. |
| `KeyRotation.RotationOfOrderlyVault` | core/src/sync/Local.cpp:232-250 | In a vault whose files are all in order: exactly if the task count divides the file count and every file was live before. |
| `KeyRotation.SavedFileOpens` | core/src/vault/EncryptionManager.cpp:145-149 | The next rotation puts right what the file system saved under a row naming another version: whatever that version, the file opens under the old key. |
| `KeyRotation.EmptyFileNeverOpens` | core/src/fs/Filesystem.cpp:479 | An empty file, created unencrypted, is in the list of every rotation and opens in none. |
| `KeyRotation.ListedOutcome` | core/src/sync/Local.cpp:232-250 | The same file by file: not readable if it does not open or is among the last n mod t; if all listed files open, readable unless it is one of those or one of the first n mod t inner boundaries, which two tasks rewrite. |
| `KeyRotation.StrandedCascade` | core/src/sync/tasks/RotateKey.cpp:107-129 | A listed file that does not open costs the files after it in its range: a healthy one that only this task has is lost too, without any failure. |
| `KeyRotation.BoundaryRace` | core/src/sync/tasks/RotateKey.cpp:66-75 | Two tasks at one boundary file that share its object: one takes the other's mark for its own and writes the old blob back over the new one; both report success and the file is unreadable. |
| `KeyRotation.UndisturbedIsRotateFile` | core/src/sync/tasks/RotateKey.cpp:66-75 | A task left alone with its file takes the rotation step of the key model in four turns, and the step without its row if it breaks off before the last. |
| `KeyRotation.CrashExact` | core/src/sync/Local.cpp:232-258 | The handler ends in the division by zero exactly with a rotation open and one file to rotate, or no thread reported; nothing has changed then. |
| `EncryptionManagers.EncryptionManager.LoadKey` | core/src/vault/EncryptionManager.cpp:28-80 | The method takes the step of the key model for loading, fields, tables and result. |
| `EncryptionManagers.EncryptionManager.PrepareKeyRotation` | core/src/vault/EncryptionManager.cpp:82-109 | The method takes the step of the key model for preparation; the key fields move before the store is asked, fields, tables and result. |
| `EncryptionManagers.EncryptionManager.FinishKeyRotation` | core/src/vault/EncryptionManager.cpp:111-126 | The method takes the step of the key model for finishing; the old key is gone before the store is asked, fields, tables and result. |
| `EncryptionManagers.EncryptionManager.RotateDecryptEncrypt` | core/src/vault/EncryptionManager.cpp:128-167 | The method takes the step of the key model for rotating one file, fields, tables and result. |
| `EncryptionManagers.EncryptionManager.EncryptFile` | core/src/vault/EncryptionManager.cpp:169-176 | The method takes the step of the key model for encryption, fields, tables and result. |
| `EncryptionManagers.EncryptionManager.DecryptFile` | core/src/vault/EncryptionManager.cpp:178-202 | The method takes the step of the key model for decryption, fields, tables and result. |
| `EncryptionManagers.LocalSync.Write` | core/src/sync/Local.cpp:215-217 | Seals, writes the blob, then stores vector and version: the write of the key model, with or without its row. |
| `EncryptionManagers.LocalSync.Save` | core/src/fs/Filesystem.cpp:437-490 | Seals, writes the blob, then stores the vector alone: the save of the key model, with or without its row. |
| `EncryptionManagers.LocalSync.Work` | core/src/sync/tasks/RotateKey.cpp:66-75 | One piece of a task's work on a file and its shared object is one turn of the interleaving model. |
| `EncryptionManagers.LocalSync.RunTasks` | core/src/sync/tasks/RotateKey.cpp:107-129 | Running the pushed tasks to their ends, giving any task the next turn and breaking off anywhere, is a play of the interleaving model, and ends. |
| `EncryptionManagers.LocalSync.HandleVaultKeyRotation` | core/src/sync/Local.cpp:232-258 | The handler, with any order of turns and any failures of tasks or of the mark statement, does to the vault what `KeyRotation` reasons about. |
| `SyncPlan.ConflictAlwaysHasReason` | core/src/sync/Cloud.cpp:150-186 | A possible conflict always has a recorded reason: the branch that gives up on one without reasons is never taken. |
| `SyncMeaning.RegroupIsStable` | core/src/sync/Executor.cpp:7-18 | The dispatch order is a stable regrouping by phase: each kind's actions, all of them, in plan order. |
| `SyncMeaning.RegroupIsPermutation` | core/src/sync/Executor.cpp:7-18 | No action is lost or repeated by it. |
| `SyncMeaning.AnyOrderWillDo` | core/src/sync/Executor.cpp:7-39 | A plan that touches no key twice has one outcome in every order of its actions. |
| `SyncMeaning.RegroupKeepsMeaning` | core/src/sync/Executor.cpp:7-18 | Phase order gives the maps that plan order gives, if no key is touched twice. |
| `SyncMeaning.RegroupCanChangeMeaning` | core/src/sync/Executor.cpp:7-18 | Without that condition it need not: a concrete plan whose outcome the phases change. |
| `SyncMeaning.PolicyIsConsistent` | core/src/sync/model/RemotePolicy.cpp:50-128 | No policy both transfers and deletes the same one-sided keys. |
| `SyncMeaning.PlanPerKey` | core/src/sync/Planner.cpp:12-85 | A plan dispatches no null file, touches each key at most once, and does to it what its two files call for. |
| `SyncMeaning.SettlesExactly` | core/src/sync/model/RemotePolicy.cpp:34-183 | For which policies and files a run makes the two sides of a key agree, as an equivalence; an unsettled two-sided key keeps both files. |
| `SyncMeaning.SyncConverges` | core/src/sync/Planner.cpp:22-85 | After a run every key is as the policy calls for, and the sides agree on a key exactly if the policy settles it. |
| `SyncMeaning.WalkOrderDoesNotMatter` | core/src/sync/Planner.cpp:73-81 | The order in which the hash maps are walked does not change the outcome. |
| `SyncMeaning.SyncedIsStable` | core/src/sync/Planner.cpp:22-85 | What a run leaves under a key, a second run leaves as it is. |
| `SyncMeaning.SecondRunIsIdle` | core/src/sync/Planner.cpp:12-85 | A run that finds the very records an earlier run left plans nothing but making directories. |
| `SyncMeaning.IdleOnListingExact` | core/src/fs/model/File.cpp:21-33 | For every policy, local file and listed object (path, size and time only), when the planner leaves the key alone, as an equivalence. |
| `SyncMeaning.RunOnListingIsIdleIff` | core/src/sync/Cloud.cpp:67-72 | A run that starts from a listing, as every run does, plans nothing but making directories exactly if each key meets that condition, or is on one side only and the policy leaves it there. |
| `SyncMeaning.UploadedIsTransferredAgain` | core/src/fs/model/File.cpp:27-33 | An encrypted file whose listed object has its size and a later time is downloaded again by a syncing vault and uploaded again by a local mirror. |
| `SyncExecutor.SecondSyncIsIdle` | core/src/sync/model/RemotePolicy.cpp:185-249 | A run that finds the very records an earlier run left asks for no download bytes, so it cannot fail for space, and every action it dispatches makes directories. |
| `SyncExecutor.AscendingListIsUnique` | core/src/sync/Cloud.cpp:119-129 | A set of keys has only one strictly ascending list, so the key list is determined. |
| `SyncExecutor.PlanDownloads` | core/src/sync/model/RemotePolicy.cpp:185-215 | The space check sees the transfers' downloads and nothing else of the plan. |
| `SyncExecutor.Unique` | core/src/sync/Cloud.cpp:126-127 | Dropping adjacent duplicates of a sorted list leaves each key once, strictly ascending. |
| `SyncExecutor.Cloud.AllKeysSorted` | core/src/sync/Cloud.cpp:119-129 | Collect, sort and deduplicate: each key of either side once, strictly ascending. |
| `SyncExecutor.Cloud.HandleConflict` | core/src/sync/Cloud.cpp:188-193 | Records the conflict with its resolution; true exactly if the policy resolves nothing. |
| `SyncExecutor.Cloud.PreflightSpace` | core/src/sync/model/RemotePolicy.cpp:185-249 | Fails exactly if the downloads' total, kept in 64 bits, exceeds the free space. |
| `SyncExecutor.Cloud.Build` | core/src/sync/Planner.cpp:12-85 | The planning loops build the plan, log the conflicts in key order, and fail exactly if the downloads do not fit. |
| `SyncExecutor.Cloud.Dispatch` | core/src/sync/Executor.cpp:20-39 | One action becomes one task with a file that is not null; directories are made at once. |
| `SyncExecutor.Cloud.ProcessFutures` | core/src/sync/Local.cpp:151-156 | The barrier: every task of the phase is finished, in an arbitrary order. |
| `SyncExecutor.Cloud.Run` | core/src/sync/Executor.cpp:7-18 | Nested phase and plan loops: dispatches the stable regrouping; tasks finish in some order within phases; the outcome is that of the plan as written if no key is touched twice. |
| `SyncExecutor.Cloud.Sync` | core/src/sync/Cloud.cpp:62-65 | A whole run on the object: fails with both maps untouched exactly when space is short; otherwise dispatches the regrouped plan of the sides it found and leaves each key as its files and the policy call for, agreeing exactly where the policy settles it. |
| `RateLimits.TableStaysBounded` | core/src/share/RateLimiter.cpp:21-40 | The table never holds more than 4096 buckets, over every run. |
| `RateLimits.BoundedRefinesUnbounded` | core/src/share/RateLimiter.cpp:21-40 | Key by key: with windows of at most thirty minutes on the key and its own bucket never the one evicted for room, every answer on it is that of a limiter that never forgets, whatever happens to other keys. |
| `RateLimits.EvictionForgets` | core/src/share/RateLimiter.cpp:27-32 | A bucket evicted for room is forgotten however long its window had to run: the next call on it is let through. |
| `RateLimits.LongWindowsAreForgotten` | core/src/share/RateLimiter.cpp:65-71 | For every longer window a run, without capacity eviction of the key, in which idle eviction changes an answer. |
| `RateLimits.AtMostMaxPerWindow` | core/src/share/RateLimiter.cpp:21-57 | On the bounded table, under the same condition on the key: at most `max_attempts` calls get through from a window's opening call to its end. |
| `RateLimits.AtMostTwoWindowsWorth` | core/src/share/RateLimiter.cpp:21-57 | On the bounded table, under the same condition on the key: at most 2 max - 1 calls get through in any half-open interval of window length. |
| `RateLimits.TwoWindowsWorthHappens` | core/src/share/RateLimiter.cpp:35-57 | That bound is reached, for every policy. |
| `RateLimits.RetryHintIsExact` | core/src/share/RateLimiter.cpp:42-50 | A denial's hint is in (0, window]; a call after it is let through whatever other keys do; a whole second earlier it is denied unless the bucket was evicted. |
| `RateLimiters.RateLimiter.Check` | core/src/share/RateLimiter.cpp:12-58 | The method takes the step and gives the answer of the model; the bucket evicted for room is an oldest one. |
| `RateLimiters.RateLimiter.EraseIdle` | core/src/share/RateLimiter.cpp:22-25 | The erasing loop removes exactly the idle buckets. |
| `RateLimiters.RateLimiter.Prune` | core/src/share/RateLimiter.cpp:65-71 | The same, as its own step. |
| `ThreadPools.MoreWorkersThanBudgeted` | core/include/concurrency/ThreadPoolManager.hpp:21-47 | Five pools share a total divided by four: the workers spawned always exceed the total, and by how much. |
| `ThreadPools.RunKeeps` | core/include/concurrency/ThreadPoolManager.hpp:88-131 | From start-up through any rounds under any load: no round throws, no worker is lost, duplicated or parted from its flag, none crosses sides, borrowing pools' counters are their exact growth and the others' their growth modulo 2^32. |
| `ThreadPools.CountersCancel` | core/src/concurrency/ThreadPool.cpp:78-103 | The worker total is constant and the five wrapping counters sum to 0 modulo 2^32, each side by itself too. |
| `ThreadPools.QuietDrains` | core/include/concurrency/ThreadPoolManager.hpp:117-131 | n quiet rounds return two workers each from fuse and one from sync, until none is on loan. |
| `ThreadPools.PaidBack` | core/include/concurrency/ThreadPoolManager.hpp:117-131 | Each donor has its first size exactly if its own counter is 0; loans repaid restore thumb, and http and stats exactly in sum. |
| `ThreadPools.DonorsDrift` | core/include/concurrency/ThreadPoolManager.hpp:110-113 | But not each by itself: a worker lent by stats is handed back to http. |
| `ThreadPoolManagers.ThreadPoolManager.constructor` | core/include/concurrency/ThreadPoolManager.hpp:21-47 | Start-up sizes, with the wrapping product and the floor of 8. |
| `ThreadPoolManagers.ThreadPoolManager.Reassign` | core/include/concurrency/ThreadPoolManager.hpp:117-131 | One comparison on two pool objects does what the value model says, including the wrapping ratio test. |
| `ThreadPoolManagers.ThreadPoolManager.Rebalance` | core/include/concurrency/ThreadPoolManager.hpp:88-115 | One pass of the monitor never throws and takes the round of the value model. |
| `ThreadPoolManagers.ThreadPool.GiveWorker` | core/src/concurrency/ThreadPool.cpp:82-93 | Takes the last worker with the last flag and lowers the wrapping counter, or throws on an empty pool. |
| `ThreadPoolManagers.ThreadPool.AcceptWorker` | core/src/concurrency/ThreadPool.cpp:95-99 | Appends worker and flag and raises the wrapping counter. |
| `ReadDir.ReadDirectory` | core/src/fuse/Bridge.cpp:121-155 | One call gives, from the offset on, everything that fits, in order, each with the offset after it, and stops at the first that does not; nothing past the end. |
| `ReadDir.StopsAtOnePlace` | core/src/fuse/Bridge.cpp:121-155 | Offset and buffer size determine the page. |
| `ReadDir.CollectsAPrefix` | core/src/fuse/Bridge.cpp:121-155 | Following the offsets, with any buffer sizes, skips nothing and repeats nothing. |
| `ReadDir.EmptyPage` | core/src/fuse/Bridge.cpp:121-155 | A page is empty exactly at the end or where the next entry alone is too big for the buffer. |
| `ReadDir.PagingTerminates` | core/src/fuse/Bridge.cpp:121-155 | With buffers that hold the largest entry, as many calls as there are entries deliver ".", ".." and every entry once, in order. |
| `ReadDir.EmptyMeansDone` | core/src/fuse/Bridge.cpp:121-155 | An empty page from such a buffer means the reader has the whole listing. |
| `ReadDir.ReadAll` | core/src/fuse/Bridge.cpp:121-155 | A reader that asks until a page is empty stops and has the whole listing. |
| `LogPrune.NoneOlderLeft` | core/src/log/Rotator.cpp:220-315 | No rotated file past the retention window is left, nothing but rotated files goes, and what stays is unchanged. |
| `LogPrune.StrictKeepsTheWindow` | core/src/log/Rotator.cpp:241-262 | Under strict retention, or without a cap, exactly the files past the window go. |
| `LogPrune.SurvivorsAreTheNewest` | core/src/log/Rotator.cpp:281-313 | The size phase removes an oldest-first run: what is left is the newer end. |
| `LogPrune.CapIsMetExactly` | core/src/log/Rotator.cpp:281-313 | The survivors fit the cap if and only if the files in the window total less than 2^64 bytes, and then no shorter run would have done. |
| `LogPrune.PruneIsIdempotent` | core/src/log/Rotator.cpp:220-315 | Pruning again at the same moment removes nothing more exactly if the 64-bit total of what is left is within the cap, which holds whenever the first total did not wrap. |
| `LogRotators.Rotator.PruneImpl` | core/src/log/Rotator.cpp:220-315 | The whole routine on a mutable directory is one of the prunes above. |
| `LogRotators.Rotator.SizePrune` | core/src/log/Rotator.cpp:281-313 | The loop over `idx` and the clamped 64-bit total stops at the least sufficient prefix. |
| `CliLine.BuildLine` | core/main/cli.cpp:146-153 | The appending loop builds the line. |
| `CliLine.DqQuote` | core/main/cli.cpp:71-81 | The appending loop escapes quotes and backslashes between two quotes. |
| `CliLine.SplitRecovers` | core/main/cli.cpp:66-81 | A splitter that knows double quotes recovers every argument list from its line. |
| `CliLine.LineIsInjective` | core/main/cli.cpp:146-153 | No two argument lists share a line. |
| `CliLine.TokenizerRoundTrip` | core/include/protocols/shell/Token.hpp:81-205 | The server's own tokenizer reads the arguments back as words if and only if no alias of the root command is a prefix of the line and each argument is quoted, or has no single quote and does not start with a dash (with the exact dash exceptions). |
| `CliLine.BundleDropsFirstFlag` | core/include/protocols/shell/Token.hpp:158-170 | A bundle of short flags loses its first: "-abc" is read as the flags b and c, in front of anything. |
| `CliLine.AliasPrefixIsEaten` | core/include/protocols/shell/Token.hpp:88-96 | A plain first argument that merely starts with an alias loses that prefix. |

## Left out

- Share rows that go with the vault, entry or link they refer to, by the schema's `ON DELETE CASCADE` and `SET NULL`.
- ShareInterruption.InterruptionKeeps: a failing database is modelled on the tables, not in the methods of
  `ShareManager.Manager`; a failing read changes nothing and is not modelled.
- The SQL engine, row parsing, audit events, IP addresses, user agents and access counters; listing and lookup calls
  that only read; purge statements, which nothing calls; the `link_type` column and its checks.
- Role resolution and role templates: their verdicts and results are inputs of the calls.
- Email normalisation, sending mail, token and code generation: inputs, or fresh draws.
- AES-GCM, libsodium and the TPM, beyond decryption undoing encryption under the same key and vector.
- The cloud variants of the rotation task, which rewrite remote objects; the local variant is modelled.
- EncryptionManagers.LocalSync.HandleVaultKeyRotation: nobody else writes or reads the listed files while the tasks
  run, and a failing list query, which leaves everything as it was, is not modelled; file objects are reloaded for
  each rotation.
- KeyRotation.RotationOutcome: re-sealing, from the version test to the new vector and version of the file object, is
  one turn, so two tasks that both pass the version test of one boundary file before either sets its object are not
  modelled; nor is a blob written only in part.
- VaultKeys.SavedIsReadableIff: contents written through an open FUSE handle go to disk unencrypted until a rename
  seals them; no step does that, but a vault may hold such files, and the theorems of `KeyRotation` cover them.
- KeyRotation.RotationCompleteIffEven: the schedule runs all tasks to their ends, as the handler does, which waits for
  them; a task that never ends is not modelled.
- SyncExecutor.Cloud.ProcessFutures: every task succeeds; what a failed upload or download leaves on the two sides
  is not modelled. A file's entry is keyed by its action's key, and the record a transfer leaves on the other side is
  the file it moved; what the next listing says of it is an input of the next run.
- SyncExecutor.Cloud.Dispatch: creating directories changes no file map and is otherwise not modelled.
- `Cloud::initBins` with its hash prefetch, cache eviction after downloads (`freeAfterDownload`) and the decryption
  failure flag of a conflict, which planning never sets.
- RateLimiters.RateLimiter.Check: `reset` is not a step of a run; it empties the table and so starts a run afresh.
- ThreadPools.RunKeeps: concerns the bookkeeping of worker handles; which queue a lent thread goes on serving, and
  `shutdown`, are not modelled.
- ReadDir.ReadDirectory: the resolver's permission check and the error reply come before the modelled part; the bytes
  an entry takes in the buffer are an input, being decided by libfuse.
- LogRotators.Rotator.PruneImpl: no file operation fails; the diagnostic callback is not modelled.
- CliLine.TokenizerRoundTrip: aliases are plain words, as the shell's own are. Splitting `--key=value` before the line
  is built is not modelled.
- FUSE operations other than `readdir`, S3, HTTP and socket handling, previews, the web client, the installer and
  the configuration formats.
