/**
 Share operations whose database fails between two statements. The manager runs its statements one by
 one, each in a transaction of its own, so a failing one leaves the earlier ones in force.
 */
module ShareInterruption {
  import opened Wrappers
  import opened ShareRecords
  import opened ShareTables
  import opened ShareProtocol
  import opened ShareInvariant
  import opened ShareRevocation

  /** The tables while the recipients of a new link are stored, one after another. */
  function RecipientStates(t: Tables, share: Id, rs: seq<(EmailHash, RoleId)>): (r: seq<Tables>)
    ensures |r| == |rs| + 1 && r[0] == t
    ensures forall i :: 0 <= i < |r| ==>
      r[i] == t.(recipientRoles := PutRecipients(t.recipientRoles, share, rs[..i]))
  {
    assert rs[..|rs|] == rs;
    assert forall i :: 0 <= i < |rs| ==> rs[..|rs| - 1][..i] == rs[..i];
    if rs == [] then [t]
    else
      RecipientStates(t, share, rs[..|rs| - 1])
      + [t.(recipientRoles := PutRecipients(t.recipientRoles, share, rs))]
  }

  /** The tables of a sweep after each upload of its batch. */
  function SweepStates(t: Tables, batch: seq<Id>): (r: seq<Tables>)
    ensures |r| == |batch| + 1 && r[0] == t
    ensures forall i :: 0 <= i < |r| ==> r[i] == SweepBatch(t, batch[..i])
  {
    assert batch[..|batch|] == batch;
    assert forall i :: 0 <= i < |batch| ==> batch[..|batch| - 1][..i] == batch[..i];
    if batch == [] then [t] else SweepStates(t, batch[..|batch| - 1]) + [SweepBatch(t, batch)]
  }

  /**
   The tables a call passes through, one more for each statement it has run, from those it found to those
   it leaves. Each statement writes one table, so the states are cut out of the final tables `u` in the
   order in which the call writes them.
   */
  function States(t: Tables, opts: Options, now: Time, c: Call): (r: seq<Tables>)
    ensures r != []
  {
    var u := Do(t, opts, now, c).0;
    match c
    case CreateLink(_, _, publicRole, recipients) =>
      var id := |t.links|;
      if |u.links| <= id then [t, u]
      else
        var t2 := t.(nonce := u.nonce, links := t.links + [u.links[id].(revokedAt := None)]);
        if publicRole.None? then [t, t2, u]
        else
          var t3 := t2.(publicRoles := u.publicRoles);
          if recipients.None? then [t, t2, t3, u] else [t, t2] + RecipientStates(t3, id, recipients.value)
    case UpdateLink(_, _, _, _, _) =>
      var t1 := t.(publicRoles := u.publicRoles);
      [t, t1, t1.(recipientRoles := u.recipientRoles), u]
    case RevokeLink(_, _) =>
      var t1 := t.(links := u.links);
      [t, t1, t1.(sessions := u.sessions), u]
    case RotateLinkToken(_, _) => [t, t.(nonce := u.nonce, links := u.links), u]
    case StartEmailChallenge(_, _, _, _) => [t, t.(nonce := u.nonce, sessions := u.sessions), u]
    case ConfirmEmailChallenge(_, _, _, _) => [t, t.(challenges := u.challenges), u]
    case FinishUpload(_, _, _) => [t, t.(uploads := u.uploads), u]
    case SweepStaleUploads(_, _, batch) => if u == t then [t] else SweepStates(t, batch)
    case _ => [t, u]
  }

  /**
   The tables after a call whose database fails once `done` statements have run; a call with no statement
   left has gone through. A creation then tries to revoke the link it has stored, which works or not.
   */
  function Interrupted(t: Tables, opts: Options, now: Time, c: Call, done: nat, undone: bool): Tables {
    var states := States(t, opts, now, c);
    if done >= |states| - 1 then states[|states| - 1]
    else if c.CreateLink? && undone && |t.links| < |states[done].links| then
      states[done].RevokeLink(|t.links|, now).value
    else states[done]
  }

  /** The states start where the call starts and end where it ends: uncut, a call is the protocol's step. */
  lemma StatesSpanTheCall(t: Tables, opts: Options, now: Time, c: Call)
    ensures States(t, opts, now, c)[0] == t
    ensures States(t, opts, now, c)[|States(t, opts, now, c)| - 1] == Do(t, opts, now, c).0
  {
    if c.CreateLink? {
      CreateStatesSpan(t, opts, now, c);
    } else if c.SweepStaleUploads? {
      assert c.batch[..|c.batch|] == c.batch;
    } else {
      hide Do;
    }
  }

  lemma CreateStatesSpan(t: Tables, opts: Options, now: Time, c: Call)
    requires c.CreateLink?
    ensures States(t, opts, now, c)[|States(t, opts, now, c)| - 1] == Do(t, opts, now, c).0
  {
    hide NormalizeAndValidate, LinkRowOk, PutRecipients;
    if c.recipients.Some? {
      assert c.recipients.value[..|c.recipients.value|] == c.recipients.value;
    }
  }

  /**
   Where a call that goes through runs several statements, each state is the one before with the next statement
   of the store run on it.
   */
  lemma StatesAreStatements(t: Tables, opts: Options, now: Time, c: Call)
    requires Do(t, opts, now, c).1.Ok?
    ensures c.RevokeLink? ==>
      var t1 := t.RevokeLink(c.share, now);
      t1.Some? && var t2 := t1.value.RevokeSessionsForShare(c.share, now);
      States(t, opts, now, c) == [t, t1.value, t2, t2.RemoveRoles(c.share)]
    ensures c.RotateLinkToken? ==>
      var t1 := t.(nonce := t.nonce + 1).RotateLinkToken(c.share, Generated(PublicShare, t));
      t1.Some? && States(t, opts, now, c) == [t, t1.value, t1.value.RevokeSessionsForShare(c.share, now)]
    ensures c.ConfirmEmailChallenge? ==>
      var t1 := t.ConsumeChallenge(c.challenge, now);
      t1.Some? && var t2 := t1.value.VerifySession(c.session, t.challenges[c.challenge].emailHash, now);
      t2.Some? && States(t, opts, now, c) == [t, t1.value, t2.value]
    ensures c.FinishUpload? ==>
      var t1 := t.CompleteUpload(c.upload, c.createdEntry);
      t1.Some? && var t2 := t1.value.IncrementUpload(c.principal.shareId);
      t2.Some? && States(t, opts, now, c) == [t, t1.value, t2.value]
  {
    match c
    case FinishUpload(p, id, entry) => FinishShape(t, now, p, id, entry);
    case _ =>
  }

  lemma {:induction false} SweepTouchesUploads(t: Tables, batch: seq<Id>)
    ensures var u := SweepBatch(t, batch);
      u == t.(uploads := u.uploads) && |u.uploads| == |t.uploads|
  {
    if batch != [] {
      SweepTouchesUploads(t, batch[..|batch| - 1]);
    }
  }

  /**
   A call cut anywhere leaves sessions, challenges and uploads each as they were or as the whole call leaves them,
   except that a sweep fails the front of its batch.
   */
  lemma CutTables(t: Tables, opts: Options, now: Time, c: Call, done: nat, undone: bool)
    ensures var u := Do(t, opts, now, c).0; var w := Interrupted(t, opts, now, c, done, undone);
      && (w.sessions == t.sessions || w.sessions == u.sessions)
      && (w.challenges == t.challenges || w.challenges == u.challenges)
      && (if c.SweepStaleUploads?
          then exists k: nat :: k <= |c.batch| && w.uploads == SweepBatch(t, c.batch[..k]).uploads
          else w.uploads == t.uploads || w.uploads == u.uploads)
  {
    StatesSpanTheCall(t, opts, now, c);
    hide Do;
    var u := Do(t, opts, now, c).0;
    var states := States(t, opts, now, c);
    var k := if done >= |states| - 1 then |states| - 1 else done;
    if c.SweepStaleUploads? {
      var n := if u == t then 0 else k;
      assert states[k] == SweepBatch(t, c.batch[..n]);
      SweepTouchesUploads(t, c.batch[..n]);
    } else {
      StateTables(t, opts, now, c, k);
      hide States;
    }
  }

  lemma StateTables(t: Tables, opts: Options, now: Time, c: Call, k: nat)
    requires k < |States(t, opts, now, c)| && !c.SweepStaleUploads?
    ensures var u := Do(t, opts, now, c).0; var s := States(t, opts, now, c)[k];
      && (s.sessions == t.sessions || s.sessions == u.sessions)
      && (s.challenges == t.challenges || s.challenges == u.challenges)
      && (s.uploads == t.uploads || s.uploads == u.uploads)
  {
    hide Do;
    if c.CreateLink? {
      CreateStateTables(t, opts, now, c, k);
      hide States;
    }
  }

  lemma CreateStateTables(t: Tables, opts: Options, now: Time, c: Call, k: nat)
    requires c.CreateLink? && k < |States(t, opts, now, c)|
    ensures var s := States(t, opts, now, c)[k];
      s == Do(t, opts, now, c).0
      || (s.sessions == t.sessions && s.challenges == t.challenges && s.uploads == t.uploads)
  {
    hide Do, PutRecipients;
  }

  // ---------------------------------------------------------------- one interrupted call

  /** A finish cut between completing the upload and counting it: the one cut that parts the two. */
  predicate LosesCount(t: Tables, opts: Options, now: Time, c: Call, done: nat, share: Id) {
    c.FinishUpload? && done == 1 && Do(t, opts, now, c).1.Ok? && c.principal.shareId == share
  }

  lemma CreateStateKeeps(t: Tables, opts: Options, now: Time, c: Call, k: nat)
    requires c.CreateLink? && RowsOk(t)
    requires k < |States(t, opts, now, c)|
    ensures Keeps(t, States(t, opts, now, c)[k])
  {
    hide Keeps, Evolves, RowsOk;
    var u := Do(t, opts, now, c).0;
    var id := |t.links|;
    KeepsReflexive(t);
    CallKeeps(t, opts, now, c);
    if |u.links| > id {
      var row := u.links[id].(revokedAt := None);
      var t2 := t.(nonce := u.nonce, links := t.links + [row]);
      IssueLinkKeeps(t, row);
      RolesKeep(t2, t2.(publicRoles := u.publicRoles));
      KeepsTransitive(t, t2, t2.(publicRoles := u.publicRoles));
      var s := States(t, opts, now, c)[k];
      if c.publicRole.Some? && c.recipients.Some? && k >= 2 {
        RolesKeep(t2, s);
        KeepsTransitive(t, t2, s);
      }
    }
  }

  lemma UndoneKeeps(t: Tables, s: Tables, now: Time)
    requires Keeps(t, s) && |t.links| < |s.links|
    ensures Keeps(t, s.RevokeLink(|t.links|, now).value)
  {
    hide Keeps, Evolves, RowsOk;
    var id := |t.links|;
    SetLinkKeeps(s, id, s.links[id].(revokedAt := Some(now)));
    KeepsTransitive(t, s, s.RevokeLink(id, now).value);
  }

  lemma UpdateStateKeeps(t: Tables, opts: Options, now: Time, c: Call, k: nat)
    requires c.UpdateLink? && RowsOk(t)
    requires k < |States(t, opts, now, c)|
    ensures Keeps(t, States(t, opts, now, c)[k])
  {
    hide Keeps, Evolves, RowsOk, DoUpdateLink;
    CallKeeps(t, opts, now, c);
    if k < 3 {
      RolesKeep(t, States(t, opts, now, c)[k]);
    }
  }

  lemma RevokeStateKeeps(t: Tables, opts: Options, now: Time, c: Call, k: nat)
    requires c.RevokeLink? && RowsOk(t)
    requires k < |States(t, opts, now, c)|
    ensures Keeps(t, States(t, opts, now, c)[k])
  {
    hide Keeps, Evolves, RowsOk;
    KeepsReflexive(t);
    CallKeeps(t, opts, now, c);
    if c.share < |t.links| && c.allowed {
      var t1 := t.RevokeLink(c.share, now).value;
      SetLinkKeeps(t, c.share, t.links[c.share].(revokedAt := Some(now)));
      RevokeSessionsKeeps(t1, c.share, now);
      KeepsTransitive(t, t1, t1.RevokeSessionsForShare(c.share, now));
    }
  }

  lemma RotateStateKeeps(t: Tables, opts: Options, now: Time, c: Call, k: nat)
    requires c.RotateLinkToken? && RowsOk(t)
    requires k < |States(t, opts, now, c)|
    ensures Keeps(t, States(t, opts, now, c)[k])
  {
    hide Keeps, Evolves, RowsOk;
    KeepsReflexive(t);
    CallKeeps(t, opts, now, c);
    if c.share < |t.links| && c.allowed {
      RotateRowKeeps(t, c.share, t.links[c.share].(lookup := t.nonce, tokenHash := t.nonce));
    }
  }

  lemma StartStateKeeps(t: Tables, opts: Options, now: Time, c: Call, k: nat)
    requires c.StartEmailChallenge? && RowsOk(t)
    requires k < |States(t, opts, now, c)|
    ensures Keeps(t, States(t, opts, now, c)[k])
  {
    hide Keeps, Evolves, RowsOk;
    KeepsReflexive(t);
    CallKeeps(t, opts, now, c);
    if c.sessionTokenArg.None? && c.publicTokenArg.Some? {
      var r := LinkFromPublicToken(t, c.publicTokenArg.value, now);
      if r.Ok? {
        CreateSessionKeeps(t, opts, now, r.value);
      }
    }
  }

  lemma ConfirmChallengeShape(t: Tables, now: Time, c: Call)
    requires c.ConfirmEmailChallenge?
    ensures var u := DoConfirmEmailChallenge(t, now, c).0;
      u.challenges == t.challenges
      || (&& c.challenge < |t.challenges| == |u.challenges|
          && u.challenges == t.challenges[c.challenge := u.challenges[c.challenge]]
          && ChallengeKept(t.challenges[c.challenge], u.challenges[c.challenge])
          && (u.challenges[c.challenge].attempts > t.challenges[c.challenge].attempts ==>
                t.challenges[c.challenge].attempts < t.challenges[c.challenge].maxAttempts
                && u.challenges[c.challenge].attempts == t.challenges[c.challenge].attempts + 1))
  {
  }

  lemma ConfirmStateKeeps(t: Tables, opts: Options, now: Time, c: Call, k: nat)
    requires c.ConfirmEmailChallenge? && RowsOk(t)
    requires k < |States(t, opts, now, c)|
    ensures Keeps(t, States(t, opts, now, c)[k])
  {
    hide Keeps, Evolves, DoConfirmEmailChallenge, LinksOk, SessionsOk;
    KeepsReflexive(t);
    CallKeeps(t, opts, now, c);
    ConfirmChallengeShape(t, now, c);
    var u := Do(t, opts, now, c).0;
    if u.challenges != t.challenges {
      assert ChallengeOk(t, t.challenges[c.challenge]);
      SetChallengeKeeps(t, c.challenge, u.challenges[c.challenge]);
    }
  }

  /** What the lost count costs: the upload is complete, and its link's counter is one further behind. */
  lemma LostCount(t: Tables, opts: Options, now: Time, c: Call)
    requires c.FinishUpload? && RowsOk(t) && Do(t, opts, now, c).1.Ok?
    ensures var u := t.(uploads := Do(t, opts, now, c).0.uploads);
      && Evolves(t, u) && RowsOk(u)
      && c.principal.shareId < |t.links|
      && (forall i :: 0 <= i < |t.links| ==> Lag(u, i) == Lag(t, i) + if i == c.principal.shareId then 1 else 0)
  {
    var full := Do(t, opts, now, c).0;
    var u := t.(uploads := full.uploads);
    FinishShape(t, now, c.principal, c.upload, c.createdEntry);
    assert UploadOk(t, t.uploads[c.upload]);
    assert Evolves(t, u);
    SessionsAndChallengesKept(t, u);
    forall i | 0 <= i < |t.links|
      ensures Lag(u, i) == Lag(t, i) + if i == c.principal.shareId then 1 else 0
    {
      TotalUpdate(t.uploads, c.upload, full.uploads[c.upload], IsComplete(i));
    }
    forall i | 0 <= i < |u.uploads|
      ensures UploadOk(u, u.uploads[i])
    {
      assert UploadOk(t, t.uploads[i]);
    }
  }

  lemma StateKeeps(t: Tables, opts: Options, now: Time, c: Call, k: nat)
    requires RowsOk(t) && k < |States(t, opts, now, c)|
    requires !(c.FinishUpload? && k == 1 && Do(t, opts, now, c).1.Ok?)
    ensures Keeps(t, States(t, opts, now, c)[k])
  {
    hide Keeps, Evolves, RowsOk;
    KeepsReflexive(t);
    CallKeeps(t, opts, now, c);
    match c
    case CreateLink(_, _, _, _) => CreateStateKeeps(t, opts, now, c, k);
    case UpdateLink(_, _, _, _, _) => UpdateStateKeeps(t, opts, now, c, k);
    case RevokeLink(_, _) => RevokeStateKeeps(t, opts, now, c, k);
    case RotateLinkToken(_, _) => RotateStateKeeps(t, opts, now, c, k);
    case StartEmailChallenge(_, _, _, _) => StartStateKeeps(t, opts, now, c, k);
    case ConfirmEmailChallenge(_, _, _, _) => ConfirmStateKeeps(t, opts, now, c, k);
    case FinishUpload(p, id, entry) => FinishShape(t, now, p, id, entry);
    case SweepStaleUploads(_, _, batch) =>
      if Do(t, opts, now, c).0 != t {
        SweepKeeps(t, batch[..k]);
      }
    case _ =>
  }

  /** How many completed uploads the counter of a link has missed; none before the link is there. */
  function Missed(t: Tables, share: Id): int {
    if share < |t.links| then Lag(t, share) else 0
  }

  /**
   A database failure between any two statements of any call keeps the rows in order and every row's
   ending. The counters stay level too, except that a finish cut between its two statements leaves the
   counter of its link one further behind.
   */
  lemma InterruptionKeeps(t: Tables, opts: Options, now: Time, c: Call, done: nat, undone: bool)
    requires RowsOk(t)
    ensures var u := Interrupted(t, opts, now, c, done, undone);
      && Evolves(t, u) && RowsOk(u)
      && forall i: Id :: Missed(u, i) == Missed(t, i) + if LosesCount(t, opts, now, c, done, i) then 1 else 0
  {
    hide Do, States, RowsOk, Lag;
    StatesSpanTheCall(t, opts, now, c);
    var states := States(t, opts, now, c);
    var k := if done >= |states| - 1 then |states| - 1 else done;
    if c.FinishUpload? && done == 1 && Do(t, opts, now, c).1.Ok? {
      FinishStates(t, opts, now, c);
      LostCount(t, opts, now, c);
    } else {
      if c.FinishUpload? {
        FinishStates(t, opts, now, c);
      }
      StateKeeps(t, opts, now, c, k);
      if c.CreateLink? && undone && k < |states| - 1 && |t.links| < |states[k].links| {
        UndoneKeeps(t, states[k], now);
      }
    }
  }

  lemma ConfirmStates(t: Tables, opts: Options, now: Time, c: Call)
    requires c.ConfirmEmailChallenge?
    ensures States(t, opts, now, c)
         == [t, t.(challenges := Do(t, opts, now, c).0.challenges), Do(t, opts, now, c).0]
  {
  }

  lemma FinishStates(t: Tables, opts: Options, now: Time, c: Call)
    requires c.FinishUpload?
    ensures States(t, opts, now, c) == [t, t.(uploads := Do(t, opts, now, c).0.uploads), Do(t, opts, now, c).0]
  {
  }

  // ---------------------------------------------------------------- runs in which the database may fail

  /** One call of a run, and how many of its statements run before the database fails, if it does. */
  datatype Attempt = Attempt(event: Event, done: nat, undone: bool)

  function Tried(t: Tables, opts: Options, a: Attempt): Tables {
    Interrupted(t, opts, a.event.now, a.event.call, a.done, a.undone)
  }

  function RunTried(t: Tables, opts: Options, attempts: seq<Attempt>): Tables
    decreases |attempts|
  {
    if attempts == [] then t
    else Tried(RunTried(t, opts, attempts[..|attempts| - 1]), opts, attempts[|attempts| - 1])
  }

  /** The attempt runs all of its statements. */
  predicate Uncut(t: Tables, opts: Options, a: Attempt) {
    a.done >= |States(t, opts, a.event.now, a.event.call)| - 1
  }

  function Events(attempts: seq<Attempt>): seq<Event> {
    seq(|attempts|, i requires 0 <= i < |attempts| => attempts[i].event)
  }

  lemma UncutIsDo(t: Tables, opts: Options, a: Attempt)
    requires Uncut(t, opts, a)
    ensures Tried(t, opts, a) == Do(t, opts, a.event.now, a.event.call).0
  {
    hide Do, States;
    StatesSpanTheCall(t, opts, a.event.now, a.event.call);
  }

  /** A run in which nothing is cut is a run of the protocol. */
  lemma {:induction false} UncutRunIsRun(t: Tables, opts: Options, attempts: seq<Attempt>)
    requires forall i :: 0 <= i < |attempts| ==> Uncut(RunTried(t, opts, attempts[..i]), opts, attempts[i])
    ensures RunTried(t, opts, attempts) == Run(t, opts, Events(attempts))
    decreases |attempts|
  {
    hide Do, Tried, Uncut;
    if attempts != [] {
      var last := |attempts| - 1;
      var front := attempts[..last];
      assert forall i :: 0 <= i < last ==> front[..i] == attempts[..i];
      UncutRunIsRun(t, opts, front);
      assert Events(attempts)[..last] == Events(front);
      UncutIsDo(RunTried(t, opts, front), opts, attempts[last]);
    }
  }

  /** How many finishes of a share were cut between their two statements. */
  function LostCounts(t: Tables, opts: Options, attempts: seq<Attempt>, share: Id): nat
    decreases |attempts|
  {
    if attempts == [] then 0
    else
      var front := attempts[..|attempts| - 1];
      var a := attempts[|attempts| - 1];
      LostCounts(t, opts, front, share)
      + if LosesCount(RunTried(t, opts, front), opts, a.event.now, a.event.call, a.done, share) then 1 else 0
  }

  /**
   Over every run in which the database may fail anywhere: the rows stay in order, every ending stays, and
   the counter of each link misses exactly the finishes that were cut between their two statements.
   */
  lemma {:induction false} RunTriedKeeps(t: Tables, opts: Options, attempts: seq<Attempt>)
    requires RowsOk(t)
    ensures var u := RunTried(t, opts, attempts);
      && Evolves(t, u) && RowsOk(u)
      && forall i: Id :: Missed(u, i) == Missed(t, i) + LostCounts(t, opts, attempts, i)
    decreases |attempts|
  {
    hide Interrupted, Evolves, RowsOk, Missed, LosesCount;
    if attempts == [] {
      EvolvesReflexive(t);
    } else {
      var a := attempts[|attempts| - 1];
      var before := RunTried(t, opts, attempts[..|attempts| - 1]);
      RunTriedKeeps(t, opts, attempts[..|attempts| - 1]);
      InterruptionKeeps(before, opts, a.event.now, a.event.call, a.done, a.undone);
      EvolvesTransitive(t, before, RunTried(t, opts, attempts));
    }
  }

  lemma EvolvesReflexive(t: Tables)
    ensures Evolves(t, t)
  {
  }

  /** From an empty store the whole invariant holds at the end exactly when no count was lost. */
  lemma InvIffNoCountLost(opts: Options, attempts: seq<Attempt>)
    ensures var u := RunTried(EMPTY, opts, attempts);
      Inv(u) <==> forall i :: 0 <= i < |u.links| ==> LostCounts(EMPTY, opts, attempts, i) == 0
  {
    hide RowsOk, Lag, RunTried, LostCounts;
    EmptyIsInv();
    RunTriedKeeps(EMPTY, opts, attempts);
    var u := RunTried(EMPTY, opts, attempts);
    forall i: Id | i < |u.links|
      ensures Lag(u, i) == LostCounts(EMPTY, opts, attempts, i)
    {
      assert Missed(u, i) == Lag(u, i) && Missed(EMPTY, i) == 0;
    }
    if Inv(u) {
      assert forall i: Id :: i < |u.links| ==> LostCounts(EMPTY, opts, attempts, i) == 0;
    } else {
      var i :| 0 <= i < |u.links| && Lag(u, i) != 0;
      assert LostCounts(EMPTY, opts, attempts, i) != 0;
    }
  }

  // ---------------------------------------------------------------- interrupted endings

  /**
   Revocation holds from its first statement on: once the link's row is written, whatever else fails then or
   later, no session of the share resolves and no principal of it gets an upload call through. A rotation
   needs its second statement for that.
   */
  lemma EndedDespiteFailures(t: Tables, opts: Options, now: Time, ending: Call, done: nat, undone: bool,
                             attempts: seq<Attempt>)
    requires RowsOk(t)
    requires (ending.RevokeLink? && done >= 1) || (ending.RotateLinkToken? && done >= 2)
    requires Do(t, opts, now, ending).1.Ok?
    ensures var u := RunTried(Interrupted(t, opts, now, ending, done, undone), opts, attempts);
      && (forall at: Time, token: Option<Token>, p: Principal ::
            Do(u, opts, at, ResolvePrincipal(token)).1 == Ok(PrincipalResolved(p)) && p.shareId == ending.share ==>
              ending.RotateLinkToken? && p.sessionId >= |t.sessions|)
      && (forall at: Time, c: Call, p: Principal ::
            UsesPrincipal(c, p) && p.shareId == ending.share
            && (ending.RevokeLink? || p.sessionId < |t.sessions|) ==>
              Do(u, opts, at, c).1.Err? && Do(u, opts, at, c).0 == u)
  {
    hide Do, States, RowsOk, Evolves, RunTried, SessionFromToken, LinkFromPublicToken;
    var t1 := Interrupted(t, opts, now, ending, done, undone);
    InterruptedEnding(t, opts, now, ending, done, undone);
    InterruptionKeeps(t, opts, now, ending, done, undone);
    RunTriedKeeps(t1, opts, attempts);
    var u := RunTried(t1, opts, attempts);
    EvolutionKeepsEndings(t1, u, ending.share, |t.sessions|, 0);
    EndedRefuses(u, opts, ending.share, |t.sessions|);
  }

  lemma InterruptedEnding(t: Tables, opts: Options, now: Time, ending: Call, done: nat, undone: bool)
    requires (ending.RevokeLink? && done >= 1) || (ending.RotateLinkToken? && done >= 2)
    requires Do(t, opts, now, ending).1.Ok?
    ensures var u := Interrupted(t, opts, now, ending, done, undone);
      if ending.RevokeLink? then LinkDead(u, ending.share) else Cut(u, ending.share, |t.sessions|)
  {
    EndingCuts(t, opts, now, ending);
  }

  /**
   A rotation cut after its first statement has replaced the token and left the old sessions in force: every
   session token resolves as it did before the call.
   */
  lemma CutRotationLeavesSessions(t: Tables, opts: Options, now: Time, share: Id, undone: bool,
                                  at: Time, token: Option<Token>)
    requires Do(t, opts, now, RotateLinkToken(share, true)).1.Ok?
    ensures var u := Interrupted(t, opts, now, RotateLinkToken(share, true), 1, undone);
      && u.links[share].lookup == t.nonce && u.sessions == t.sessions
      && Do(u, opts, at, ResolvePrincipal(token)).1 == Do(t, opts, at, ResolvePrincipal(token)).1
  {
    var u := Interrupted(t, opts, now, RotateLinkToken(share, true), 1, undone);
    match SessionFromToken(t, token, at)
    case Err(_) =>
    case Ok(s) => SameGrant(t, u, s, at);
  }

  /** Resolution does not look at the link's token. */
  lemma SameGrant(t: Tables, u: Tables, s: Id, at: Time)
    requires s < |t.sessions| && |u.links| == |t.links|
    requires u == t.(nonce := u.nonce, links := u.links)
    requires forall i :: 0 <= i < |t.links| ==>
      u.links[i] == t.links[i].(lookup := u.links[i].lookup, tokenHash := u.links[i].tokenHash)
    ensures PrincipalFor(u, at, s) == PrincipalFor(t, at, s)
  {
  }
}
