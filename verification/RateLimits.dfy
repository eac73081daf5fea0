/**
 The fixed-window rate limiter on a bounded table of buckets, as steps over runs; the limiter without eviction
 that it stands for; and what every run of either guarantees.
 */
module RateLimits {
  import opened Wrappers

  /** Nanoseconds of the steady clock. */
  type Time = int

  const SECOND: int := 1_000_000_000
  const MAX_BUCKETS: nat := 4096
  const IDLE_TTL: int := 30 * 60 * SECOND

  /** The window is a number of whole seconds. */
  datatype Policy = Policy(maxAttempts: nat, window: int) {
    function Span(): int {
      window * SECOND
    }
  }

  datatype Bucket = Bucket(windowStart: Time, lastSeen: Time, count: nat)

  datatype Decision = Decision(allowed: bool, remaining: nat, retryAfter: int)

  datatype LimitError = KeyRequired | MaxAttemptsRequired | WindowRequired

  type Table = map<string, Bucket>

  /** `victim` is the bucket that goes if the table is full of live ones; ties are broken by the hash map. */
  datatype Event =
    | Check(key: string, policy: Policy, now: Time, victim: string)
    | Prune(now: Time)

  function Find(t: Table, key: string): Option<Bucket> {
    if key in t then Some(t[key]) else None
  }

  predicate Idle(b: Bucket, now: Time) {
    now - b.lastSeen >= IDLE_TTL
  }

  function DropIdle(t: Table, now: Time): Table {
    map k | k in t && !Idle(t[k], now) :: t[k]
  }

  /** The table is full even after the idle buckets have gone. */
  predicate Crowded(t: Table, now: Time) {
    |t| >= MAX_BUCKETS && |DropIdle(t, now)| >= MAX_BUCKETS
  }

  predicate IsOldest(t: Table, victim: string) {
    victim in t && forall k :: k in t ==> t[victim].lastSeen <= t[k].lastSeen
  }

  function MakeRoom(t: Table, now: Time, victim: string): Table {
    if |t| < MAX_BUCKETS then t
    else if Crowded(t, now) then DropIdle(t, now) - {victim}
    else DropIdle(t, now)
  }

  /** The bucket a call counts against: a fresh one, a restarted one, or the running one. */
  function Current(b: Option<Bucket>, p: Policy, now: Time): Bucket {
    if b.None? || b.value.count == 0 || now - b.value.windowStart >= p.Span() then Bucket(now, now, 0)
    else b.value.(lastSeen := now)
  }

  function Counted(b: Bucket, p: Policy): Bucket {
    if b.count >= p.maxAttempts then b else b.(count := b.count + 1)
  }

  /** C++ duration_cast to seconds: towards zero. */
  function WholeSeconds(d: int): int {
    if d >= 0 then d / SECOND else -(-d / SECOND)
  }

  function Decide(b: Bucket, p: Policy, now: Time): Decision {
    if b.count >= p.maxAttempts then
      var elapsed := WholeSeconds(now - b.windowStart);
      Decision(false, 0, if elapsed >= p.window then 0 else p.window - elapsed)
    else
      Decision(true, p.maxAttempts - (b.count + 1), 0)
  }

  function Refusal(key: string, p: Policy): Option<LimitError> {
    if key == "" then Some(KeyRequired)
    else if p.maxAttempts == 0 then Some(MaxAttemptsRequired)
    else if p.window <= 0 then Some(WindowRequired)
    else None
  }

  predicate Counts(e: Event) {
    e.Check? && Refusal(e.key, e.policy).None?
  }

  /** One call on the table; `bounded` is false for the limiter that never forgets a bucket. */
  function Step(bounded: bool, t: Table, e: Event): Table {
    match e
    case Check(key, p, now, victim) =>
      if Refusal(key, p).Some? then t
      else
        var room := if bounded then MakeRoom(t, now, victim) else t;
        room[key := Counted(Current(Find(room, key), p, now), p)]
    case Prune(now) => if bounded then DropIdle(t, now) else t
  }

  function Answer(bounded: bool, t: Table, e: Event): Result<Decision, LimitError>
    requires e.Check?
  {
    if Refusal(e.key, e.policy).Some? then Err(Refusal(e.key, e.policy).value)
    else
      var room := if bounded then MakeRoom(t, e.now, e.victim) else t;
      Ok(Decide(Current(Find(room, e.key), e.policy, e.now), e.policy, e.now))
  }

  function After(bounded: bool, events: seq<Event>): Table {
    if events == [] then map[] else Step(bounded, After(bounded, events[..|events| - 1]), events[|events| - 1])
  }

  /** The answer to the `i`-th event of a run. */
  function AnswerAt(bounded: bool, events: seq<Event>, i: nat): Result<Decision, LimitError>
    requires i < |events| && events[i].Check?
  {
    Answer(bounded, After(bounded, events[..i]), events[i])
  }

  ghost predicate InOrder(events: seq<Event>) {
    forall i, j :: 0 <= i < j < |events| ==> events[i].now <= events[j].now
  }

  // ---------------------------------------------------------------- the table stays small

  /** In a run, every evicted bucket is an oldest one. */
  ghost predicate OldestGo(events: seq<Event>) {
    forall i :: 0 <= i < |events| && Counts(events[i]) && Crowded(After(true, events[..i]), events[i].now) ==>
      IsOldest(DropIdle(After(true, events[..i]), events[i].now), events[i].victim)
  }

  lemma SmallerTable(t: Table, now: Time)
    ensures |DropIdle(t, now)| <= |t|
  {
    SubsetIsSmaller(DropIdle(t, now).Keys, t.Keys);
  }

  lemma {:induction false} SubsetIsSmaller(a: set<string>, b: set<string>)
    requires a <= b
    ensures |a| <= |b|
  {
    if a != {} {
      var x :| x in a;
      SubsetIsSmaller(a - {x}, b - {x});
    }
  }

  lemma SizeAfterInsert(t: Table, key: string, b: Bucket)
    ensures |t[key := b]| <= |t| + 1
  {
  }

  lemma SizeAfterRemoval(t: Table, key: string)
    requires key in t
    ensures |t - {key}| == |t| - 1
  {
    assert (t - {key}).Keys == t.Keys - {key};
    assert |t - {key}| == |(t - {key}).Keys|;
  }

  /** However many keys are checked, the table never holds more than 4096 buckets. */
  lemma {:induction false} TableStaysBounded(events: seq<Event>)
    requires OldestGo(events)
    ensures |After(true, events)| <= MAX_BUCKETS
  {
    if events != [] {
      var front, e := events[..|events| - 1], events[|events| - 1];
      forall i | 0 <= i < |front|
        ensures events[..i] == front[..i]
      {
      }
      assert events[..|front|] == front;
      TableStaysBounded(front);
      var t := After(true, front);
      SmallerTable(t, e.now);
      if Counts(e) {
        if Crowded(t, e.now) {
          assert events[|front|] == e;
          SizeAfterRemoval(DropIdle(t, e.now), e.victim);
        }
        var room := MakeRoom(t, e.now, e.victim);
        SizeAfterInsert(room, e.key, Counted(Current(Find(room, e.key), e.policy, e.now), e.policy));
      }
    }
  }

  // ---------------------------------------------------------------- refinement of the unbounded limiter

  /** No call of the run, on whatever key, evicts this key's bucket for want of room. */
  ghost predicate Spares(events: seq<Event>, key: string) {
    forall i :: 0 <= i < |events| && Counts(events[i]) && Crowded(After(true, events[..i]), events[i].now) ==>
      events[i].victim != key
  }

  ghost predicate ShortWindows(events: seq<Event>, key: string) {
    forall i :: 0 <= i < |events| && Counts(events[i]) && events[i].key == key ==>
      events[i].policy.Span() <= IDLE_TTL
  }

  /** The bounded table has the key's bucket, or has dropped it and it is idle by now. */
  ghost predicate Shadows(t: Table, u: Table, key: string, now: Time) {
    && (key in t ==> key in u && t[key] == u[key])
    && (key in u && key !in t ==> Idle(u[key], now))
    && (key in u ==> u[key].windowStart <= u[key].lastSeen <= now)
  }

  /** A step on both tables that spares the key: the same answer to a call on it, and the tables stay related. */
  lemma StepShadows(t: Table, u: Table, key: string, e: Event)
    requires Shadows(t, u, key, e.now)
    requires Counts(e) && Crowded(t, e.now) ==> e.victim != key
    requires Counts(e) && e.key == key ==> e.policy.Span() <= IDLE_TTL
    ensures Shadows(Step(true, t, e), Step(false, u, e), key, e.now)
    ensures e.Check? && e.key == key ==> Answer(true, t, e) == Answer(false, u, e)
  {
  }

  lemma RunFront(events: seq<Event>, key: string)
    requires events != []
    requires InOrder(events) && Spares(events, key) && ShortWindows(events, key)
    ensures var front, e := events[..|events| - 1], events[|events| - 1];
      && InOrder(front) && Spares(front, key) && ShortWindows(front, key)
      && (Counts(e) && Crowded(After(true, front), e.now) ==> e.victim != key)
      && (Counts(e) && e.key == key ==> e.policy.Span() <= IDLE_TTL)
  {
    var front, e := events[..|events| - 1], events[|events| - 1];
    forall i | 0 <= i < |front|
      ensures events[..i] == front[..i]
    {
    }
    assert events[|front|] == e && events[..|front|] == front;
  }

  lemma {:induction false} RunShadows(events: seq<Event>, key: string, now: Time)
    requires InOrder(events) && Spares(events, key) && ShortWindows(events, key)
    requires events != [] ==> events[|events| - 1].now <= now
    ensures Shadows(After(true, events), After(false, events), key, now)
  {
    if events != [] {
      var front, e := events[..|events| - 1], events[|events| - 1];
      RunFront(events, key);
      RunShadows(front, key, e.now);
      StepShadows(After(true, front), After(false, front), key, e);
    }
  }

  lemma RunUpTo(events: seq<Event>, key: string, i: nat)
    requires InOrder(events) && Spares(events, key) && ShortWindows(events, key)
    requires i < |events|
    ensures InOrder(events[..i]) && Spares(events[..i], key) && ShortWindows(events[..i], key)
  {
    forall j | 0 <= j < i
      ensures events[..i][..j] == events[..j]
    {
    }
  }

  /**
   The refinement theorem, key by key. In any run in time order, if the key's windows are at most thirty minutes and
   its bucket is never the one evicted for want of room, every answer to a call on it is that of the limiter that
   never forgets a bucket: idle eviction, and whatever happens to other keys, changes nothing.
   */
  lemma BoundedRefinesUnbounded(events: seq<Event>, key: string, i: nat)
    requires InOrder(events) && Spares(events, key) && ShortWindows(events, key)
    requires i < |events| && events[i].Check? && events[i].key == key
    ensures AnswerAt(true, events, i) == AnswerAt(false, events, i)
  {
    RunUpTo(events, key, i);
    RunShadows(events[..i], key, events[i].now);
    StepShadows(After(true, events[..i]), After(false, events[..i]), key, events[i]);
  }

  /**
   A bucket evicted for want of room is forgotten, however long its window had to run: the call that evicts it is
   let through if it is on the same key, and otherwise the next call on the evicted key is.
   */
  lemma EvictionForgets(t: Table, e: Event, again: Event)
    requires Counts(e) && Crowded(t, e.now)
    requires Counts(again) && again.key == e.victim
    ensures e.key == e.victim ==> Lets(true, t, e)
    ensures e.key != e.victim ==> Lets(true, Step(true, t, e), again)
  {
    var u := Step(true, t, e);
    assert e.key != e.victim ==> again.key !in MakeRoom(u, again.now, again.victim);
  }

  /** A block of calls on one key at one time. */
  function Block(p: Policy, now: Time, n: nat): seq<Event> {
    seq(n, _ => Check("k", p, now, "k"))
  }

  function Holding(b: Option<Bucket>): Table {
    match b
    case None => map[]
    case Some(b) => map["k" := b]
  }

  lemma CallOnSmallTable(bounded: bool, b: Option<Bucket>, p: Policy, now: Time)
    requires p.maxAttempts > 0 && p.window > 0
    ensures var c := Current(b, p, now); var e := Check("k", p, now, "k");
      && Step(bounded, Holding(b), e) == Holding(Some(Counted(c, p)))
      && (Lets(bounded, Holding(b), e) <==> c.count < p.maxAttempts)
  {
    var t := Holding(b);
    assert |t| <= 1;
    assert MakeRoom(t, now, "k") == t;
  }

  /** The bucket after `n` of those calls. */
  function Filled(b: Option<Bucket>, p: Policy, now: Time, n: nat): Option<Bucket> {
    if n == 0 then b else Some(Current(b, p, now).(count := Current(b, p, now).count + n))
  }

  lemma FilledStep(b: Option<Bucket>, p: Policy, now: Time, n: nat)
    requires p.maxAttempts > 0 && p.window > 0 && Current(b, p, now).count + n < p.maxAttempts
    ensures var c := Current(Filled(b, p, now, n), p, now);
      c.count < p.maxAttempts && Some(Counted(c, p)) == Filled(b, p, now, n + 1)
  {
  }

  lemma OneMoreCall(bounded: bool, events: seq<Event>, e: Event, from: Time, to: Time)
    requires e.Check? && e.key == "k"
    ensures After(bounded, events + [e]) == Step(bounded, After(bounded, events), e)
    ensures AllowedIn(bounded, events + [e], "k", from, to)
         == AllowedIn(bounded, events, "k", from, to)
            + if from <= e.now < to && Lets(bounded, After(bounded, events), e) then 1 else 0
  {
    hide Step, Lets;
    assert (events + [e])[..|events + [e]| - 1] == events;
  }

  /** A block that fits in what is left of the window is let through whole. */
  lemma {:induction false} BlockGetsThrough(bounded: bool, events: seq<Event>, b: Option<Bucket>,
                                            p: Policy, now: Time, n: nat, from: Time, to: Time)
    requires p.maxAttempts > 0 && p.window > 0
    requires After(bounded, events) == Holding(b) && Current(b, p, now).count + n <= p.maxAttempts
    ensures var run := events + Block(p, now, n);
      && After(bounded, run) == Holding(Filled(b, p, now, n))
      && AllowedIn(bounded, run, "k", from, to)
         == AllowedIn(bounded, events, "k", from, to) + if from <= now < to then n else 0
  {
    hide Step, Holding, Lets, Current, Filled, Counted, After, AllowedIn;
    var run := events + Block(p, now, n);
    if n == 0 {
      assert run == events;
      FilledNone(b, p, now);
    } else {
      var front := events + Block(p, now, n - 1);
      BlockGetsThrough(bounded, events, b, p, now, n - 1, from, to);
      assert run == front + [Check("k", p, now, "k")];
      OneMoreCall(bounded, front, Check("k", p, now, "k"), from, to);
      FilledStep(b, p, now, n - 1);
      CallOnSmallTable(bounded, Filled(b, p, now, n - 1), p, now);
    }
  }

  lemma FilledNone(b: Option<Bucket>, p: Policy, now: Time)
    ensures Filled(b, p, now, 0) == b
  {
  }

  lemma {:induction false} OnlyOneBucket(events: seq<Event>)
    requires forall i :: 0 <= i < |events| && events[i].Check? ==> events[i].key == "k"
    ensures After(true, events).Keys <= {"k"}
  {
    if events != [] {
      OnlyOneBucket(events[..|events| - 1]);
    }
  }

  /** A run on one key never crowds the table, so it spares the key. */
  lemma OneKeyIsSpared(events: seq<Event>)
    requires forall i :: 0 <= i < |events| && events[i].Check? ==> events[i].key == "k"
    ensures Spares(events, "k")
  {
    forall i | 0 <= i < |events| && Counts(events[i])
      ensures !Crowded(After(true, events[..i]), events[i].now)
    {
      OnlyOneBucket(events[..i]);
      SubsetIsSmaller(After(true, events[..i]).Keys, {"k"});
      assert |After(true, events[..i])| == |After(true, events[..i]).Keys|;
    }
  }

  function LongWindowRun(p: Policy): seq<Event> {
    Block(p, 0, p.maxAttempts) + [Prune(IDLE_TTL)] + [Check("k", p, IDLE_TTL, "k")]
  }

  lemma LongRunIsSpared(p: Policy)
    ensures Spares(LongWindowRun(p), "k")
  {
    hide Spares;
    OneKeyIsSpared(LongWindowRun(p));
  }

  lemma LongRunTables(p: Policy)
    requires p.maxAttempts > 0 && p.Span() > IDLE_TTL
    ensures var n := p.maxAttempts; var events := LongWindowRun(p);
      && After(true, events[..n + 1]) == map[]
      && After(false, events[..n + 1]) == map["k" := Bucket(0, 0, n)]
  {
    hide Spares;
    var n := p.maxAttempts;
    var events, block, full := LongWindowRun(p), Block(p, 0, n), Bucket(0, 0, n);
    assert p.window > 0;
    assert [] + block == block;
    BlockGetsThrough(true, [], None, p, 0, n, 0, 0);
    BlockGetsThrough(false, [], None, p, 0, n, 0, 0);
    assert Filled(None, p, 0, n) == Some(full);
    assert events[..n + 1] == block + [Prune(IDLE_TTL)];
    assert events[..n + 1][..n] == block;
    assert events[..n + 1][n] == Prune(IDLE_TTL);
    assert DropIdle(map["k" := full], IDLE_TTL) == map[];
  }

  /** For a window longer than that, idle eviction does change answers: it lifts a block that still has time to run. */
  lemma LongWindowsAreForgotten(p: Policy)
    requires p.maxAttempts > 0 && p.Span() > IDLE_TTL
    ensures var events := LongWindowRun(p);
      && |events| == p.maxAttempts + 2
      && InOrder(events) && Spares(events, "k")
      && events[|events| - 1].Check?
      && AnswerAt(true, events, |events| - 1).Ok? && AnswerAt(true, events, |events| - 1).value.allowed
      && AnswerAt(false, events, |events| - 1).Ok? && !AnswerAt(false, events, |events| - 1).value.allowed
  {
    hide Spares, After;
    assert p.window > 0;
    LongRunIsSpared(p);
    LongRunTables(p);
    assert LongWindowRun(p)[p.maxAttempts + 1] == Check("k", p, IDLE_TTL, "k");
  }

  // ---------------------------------------------------------------- how many calls get through

  /** Every check of the key uses this policy, and the policy is one the limiter accepts. */
  ghost predicate UsesPolicy(events: seq<Event>, key: string, p: Policy) {
    && key != "" && p.maxAttempts > 0 && p.window > 0
    && forall i :: 0 <= i < |events| && events[i].Check? && events[i].key == key ==> events[i].policy == p
  }

  /** The calls on the key between two times, the second excluded, that were allowed. */
  function AllowedIn(bounded: bool, events: seq<Event>, key: string, from: Time, to: Time): nat {
    if events == [] then 0
    else
      var front, e := events[..|events| - 1], events[|events| - 1];
      AllowedIn(bounded, front, key, from, to)
      + if e.Check? && e.key == key && from <= e.now < to && Lets(bounded, After(bounded, front), e) then 1 else 0
  }

  predicate Lets(bounded: bool, t: Table, e: Event)
    requires e.Check?
  {
    Answer(bounded, t, e).Ok? && Answer(bounded, t, e).value.allowed
  }

  /** What a bucket says about the calls allowed in an interval of window length. */
  ghost predicate Bounds(b: Option<Bucket>, p: Policy, from: Time, now: Time, allowed: nat) {
    match b
    case None => allowed == 0
    case Some(b) =>
      && b.windowStart <= b.lastSeen <= now
      && 1 <= b.count <= p.maxAttempts
      && (b.lastSeen < from ==> allowed == 0)
      && (b.windowStart < from ==> allowed <= b.count - 1)
      && (from <= b.windowStart < from + p.Span() ==> allowed <= p.maxAttempts - 1 + b.count)
      && (from + p.Span() <= b.windowStart ==> allowed <= 2 * p.maxAttempts - 1)
  }

  lemma BoundsStep(b: Option<Bucket>, p: Policy, from: Time, earlier: Time, now: Time, allowed: nat)
    requires p.maxAttempts > 0 && p.window > 0 && earlier <= now
    requires Bounds(b, p, from, earlier, allowed)
    ensures var c := Current(b, p, now);
      Bounds(Some(Counted(c, p)), p, from, now,
             allowed + if from <= now < from + p.Span() && Decide(c, p, now).allowed then 1 else 0)
  {
  }

  lemma {:induction false} UnboundedBounds(events: seq<Event>, key: string, p: Policy, from: Time, now: Time)
    requires InOrder(events) && UsesPolicy(events, key, p)
    requires events != [] ==> events[|events| - 1].now <= now
    ensures Bounds(Find(After(false, events), key), p, from, now,
                   AllowedIn(false, events, key, from, from + p.Span()))
  {
    if events != [] {
      var front, e := events[..|events| - 1], events[|events| - 1];
      UnboundedBounds(front, key, p, from, e.now);
      if e.Check? && e.key == key {
        assert events[|front|] == e;
        BoundsStep(Find(After(false, front), key), p, from, e.now, e.now,
                   AllowedIn(false, front, key, from, from + p.Span()));
      }
    }
  }

  /** Both limiters let the same calls on the key through. */
  lemma {:induction false} SameCallsAllowed(events: seq<Event>, key: string, from: Time, to: Time)
    requires InOrder(events) && Spares(events, key) && ShortWindows(events, key)
    ensures AllowedIn(true, events, key, from, to) == AllowedIn(false, events, key, from, to)
  {
    if events != [] {
      var front, e := events[..|events| - 1], events[|events| - 1];
      RunFront(events, key);
      SameCallsAllowed(front, key, from, to);
      if e.Check? && e.key == key {
        BoundedRefinesUnbounded(events, key, |front|);
        assert events[..|front|] == front;
      }
    }
  }

  /**
   The burst theorem: in no interval of window length, wherever it starts, are more than 2 max - 1 calls of a key
   let through.
   */
  lemma AtMostTwoWindowsWorth(events: seq<Event>, key: string, p: Policy, from: Time)
    requires InOrder(events) && Spares(events, key) && ShortWindows(events, key) && UsesPolicy(events, key, p)
    ensures AllowedIn(true, events, key, from, from + p.Span()) <= 2 * p.maxAttempts - 1
  {
    if events != [] {
      UnboundedBounds(events, key, p, from, events[|events| - 1].now);
      SameCallsAllowed(events, key, from, from + p.Span());
    }
  }

  function TwoWindowsRun(p: Policy): seq<Event>
    requires p.maxAttempts > 0
  {
    Block(p, 0, 1) + Block(p, p.Span() - 1, p.maxAttempts - 1) + Block(p, p.Span(), p.maxAttempts)
  }

  /** The bound is reached: a call, the rest of its window just before the end, and a full window right after. */
  lemma TwoWindowsWorthHappens(p: Policy)
    requires p.maxAttempts > 0 && p.window > 0
    ensures InOrder(TwoWindowsRun(p)) && Spares(TwoWindowsRun(p), "k") && UsesPolicy(TwoWindowsRun(p), "k", p)
    ensures AllowedIn(true, TwoWindowsRun(p), "k", p.Span() - 1, p.Span() - 1 + p.Span()) == 2 * p.maxAttempts - 1
  {
    hide Step, AllowedIn, Spares, After, Holding, InOrder, UsesPolicy;
    var n, span := p.maxAttempts, p.Span();
    var first, second, third := Block(p, 0, 1), Block(p, span - 1, n - 1), Block(p, span, n);
    var from := span - 1;
    TwoWindowsShape(p);
    NothingAllowedYet(from, from + span);
    assert [] + first == first;
    BlockGetsThrough(true, [], None, p, 0, 1, from, from + span);
    var running := Some(Bucket(0, 0, 1));
    BlockGetsThrough(true, first, running, p, span - 1, n - 1, from, from + span);
    BlockGetsThrough(true, first + second, Filled(running, p, span - 1, n - 1), p, span, n, from, from + span);
  }

  lemma TwoWindowsShape(p: Policy)
    requires p.maxAttempts > 0 && p.window > 0
    ensures InOrder(TwoWindowsRun(p)) && Spares(TwoWindowsRun(p), "k") && UsesPolicy(TwoWindowsRun(p), "k", p)
  {
    hide Spares;
    OneKeyIsSpared(TwoWindowsRun(p));
  }

  lemma NothingAllowedYet(from: Time, to: Time)
    ensures AllowedIn(true, [], "k", from, to) == 0
    ensures After(true, []) == Holding(None)
  {
  }

  // ---------------------------------------------------------------- one window

  /** The call finds no running window and starts one. */
  predicate Opens(bounded: bool, t: Table, e: Event)
    requires e.Check?
  {
    Current(Find(if bounded then MakeRoom(t, e.now, e.victim) else t, e.key), e.policy, e.now).count == 0
  }

  /** The calls on the key from the `i`-th event on and before a time, that were allowed. */
  function AllowedSince(bounded: bool, events: seq<Event>, key: string, i: nat, to: Time): nat {
    if |events| <= i then 0
    else
      var front, e := events[..|events| - 1], events[|events| - 1];
      AllowedSince(bounded, front, key, i, to)
      + if e.Check? && e.key == key && e.now < to && Lets(bounded, After(bounded, front), e) then 1 else 0
  }

  /** While the window is running its bucket counts exactly the calls allowed since it opened. */
  lemma {:induction false} WindowCounts(events: seq<Event>, key: string, p: Policy, i: nat)
    requires InOrder(events) && UsesPolicy(events, key, p)
    requires i < |events| && events[i].Check? && events[i].key == key
    requires Opens(false, After(false, events[..i]), events[i])
    ensures var start := events[i].now; var allowed := AllowedSince(false, events, key, i, start + p.Span());
      && key in After(false, events)
      && var b := After(false, events)[key];
      && start <= b.windowStart
      && allowed <= p.maxAttempts
      && (b.windowStart < start + p.Span() ==> b.windowStart == start && 1 <= b.count && b.count == allowed)
  {
    var front, e := events[..|events| - 1], events[|events| - 1];
    var start := events[i].now;
    if i == |front| {
      assert events[..i] == front;
      assert AllowedSince(false, front, key, i, start + p.Span()) == 0;
    } else {
      assert events[..i] == front[..i];
      WindowCounts(front, key, p, i);
      BucketsAreWellFormed(false, front, key, e.now);
      assert events[|front|] == e;
      assert start <= e.now;
    }
  }

  lemma {:induction false} SameCallsSince(events: seq<Event>, key: string, i: nat, to: Time)
    requires InOrder(events) && Spares(events, key) && ShortWindows(events, key)
    ensures AllowedSince(true, events, key, i, to) == AllowedSince(false, events, key, i, to)
  {
    if |events| > i {
      var front, e := events[..|events| - 1], events[|events| - 1];
      RunFront(events, key);
      SameCallsSince(front, key, i, to);
      if e.Check? && e.key == key {
        BoundedRefinesUnbounded(events, key, |front|);
        assert events[..|front|] == front;
      }
    }
  }

  /** A call opens a window on the one table exactly if it does on the other. */
  lemma SameOpening(events: seq<Event>, key: string, i: nat)
    requires InOrder(events) && Spares(events, key) && ShortWindows(events, key)
    requires i < |events| && Counts(events[i]) && events[i].key == key
    ensures Opens(true, After(true, events[..i]), events[i]) <==> Opens(false, After(false, events[..i]), events[i])
  {
    RunUpTo(events, key, i);
    RunShadows(events[..i], key, events[i].now);
  }

  /**
   The fixed-window law: no more than `maxAttempts` calls on a key get through in a window, counted from the call
   that opens it; on the bounded table too, full or not, as long as the key's own bucket is not evicted for room.
   */
  lemma AtMostMaxPerWindow(events: seq<Event>, key: string, p: Policy, i: nat)
    requires InOrder(events) && Spares(events, key) && ShortWindows(events, key) && UsesPolicy(events, key, p)
    requires i < |events| && events[i].Check? && events[i].key == key
    requires Opens(true, After(true, events[..i]), events[i])
    ensures AllowedSince(true, events, key, i, events[i].now + p.Span()) <= p.maxAttempts
  {
    SameOpening(events, key, i);
    WindowCounts(events, key, p, i);
    SameCallsSince(events, key, i, events[i].now + p.Span());
  }

  // ---------------------------------------------------------------- the retry hint

  /** Any bucket a run leaves, on either table. */
  lemma {:induction false} BucketsAreWellFormed(bounded: bool, events: seq<Event>, key: string, now: Time)
    requires InOrder(events)
    requires events != [] ==> events[|events| - 1].now <= now
    requires key in After(bounded, events)
    ensures After(bounded, events)[key].windowStart <= After(bounded, events)[key].lastSeen <= now
    ensures After(bounded, events)[key].count >= 1
  {
    if events != [] {
      var front, e := events[..|events| - 1], events[|events| - 1];
      if key in After(bounded, front) {
        BucketsAreWellFormed(bounded, front, key, e.now);
      }
    }
  }

  /** Calls for other keys, and prunes, either leave a bucket alone or remove it. */
  lemma {:induction false} OthersOnlyRemove(bounded: bool, t: Table, others: seq<Event>, key: string)
    requires forall i :: 0 <= i < |others| && others[i].Check? ==> others[i].key != key
    ensures Find(Onward(bounded, t, others), key) in {Find(t, key), None}
  {
    if others != [] {
      OthersOnlyRemove(bounded, t, others[..|others| - 1], key);
    }
  }

  function Onward(bounded: bool, t: Table, events: seq<Event>): Table {
    if events == [] then t else Step(bounded, Onward(bounded, t, events[..|events| - 1]), events[|events| - 1])
  }

  /**
   A refused caller is told a positive number of seconds, at most the window. Whatever happens to other keys in
   the meantime, a call after that many seconds is let through; and unless the bucket was evicted, a call one
   whole second or more earlier is not.
   */
  lemma RetryHintIsExact(bounded: bool, events: seq<Event>, e: Event, others: seq<Event>, retry: Event)
    requires InOrder(events) && e.Check? && retry.Check? && Counts(e)
    requires events != [] ==> events[|events| - 1].now <= e.now
    requires !Lets(bounded, After(bounded, events), e)
    requires forall i :: 0 <= i < |others| && others[i].Check? ==> others[i].key != e.key
    requires retry.key == e.key && retry.policy == e.policy
    ensures var hint := Answer(bounded, After(bounded, events), e).value.retryAfter;
      var later := Onward(bounded, Step(bounded, After(bounded, events), e), others);
      && 0 < hint <= e.policy.window
      && (retry.now >= e.now + hint * SECOND ==> Lets(bounded, later, retry))
      && (e.now <= retry.now <= e.now + (hint - 1) * SECOND
          && e.key in (if bounded then MakeRoom(later, retry.now, retry.victim) else later)
          ==> !Lets(bounded, later, retry))
  {
    var t := After(bounded, events);
    var room := if bounded then MakeRoom(t, e.now, e.victim) else t;
    if e.key in room {
      BucketsAreWellFormed(bounded, events, e.key, e.now);
    }
    var b := Current(Find(room, e.key), e.policy, e.now);
    assert b.count >= e.policy.maxAttempts && b.windowStart <= e.now < b.windowStart + e.policy.Span();
    SecondsOf(e.now - b.windowStart, e.policy.window);
    var next := Step(bounded, t, e);
    assert next[e.key] == b;
    OthersOnlyRemove(bounded, next, others, e.key);
  }

  lemma SecondsOf(elapsed: int, window: int)
    requires 0 <= elapsed < window * SECOND
    ensures WholeSeconds(elapsed) < window
    ensures WholeSeconds(elapsed) * SECOND <= elapsed < (WholeSeconds(elapsed) + 1) * SECOND
  {
  }
}
