/**
  The claim ceremony under concurrency (packages/service/src/claim.ts:83-198 over
  packages/service/src/repository.ts:80-87, 236-252, 255-290).

  Any number of operations are in flight.  Each reads a record, reads the clock to see whether to write
  it as expired by compare-and-set, and reads the clock again for its own change, written by
  compare-and-set; between any two of those steps the others run, and a swap may come long after the
  reading it was decided by, as it does with a remote store.  Nothing but the version protects a record.
 */
module ClaimInterleaving {
  import opened Wrappers
  import opened ClaimRules

  /** `Ticket` is an exchange that consumed its claim and has yet to create the token. */
  datatype Thread =
    | Holding(op: Op, claim: Claim)
    | Expiring(op: Op, claim: Claim, at: int)
    | Checked(op: Op, claim: Claim, checkedAt: int)
    | Writing(op: Op, claim: Claim, checkedAt: int, at: int)
    | Ticket(id: string)
    | Finished

  datatype Kind = Created | Verified | LockedOut | ApprovedIt | DeniedIt | ExpiredIt | Polled | Slowed | Used | Token

  /**
    A successful write with the record it left behind, or a token made from a claim.  `checkedAt` is the
    reading the deadline was checked by, and `at` the one the write was decided by.
   */
  datatype Entry = Entry(kind: Kind, id: string, checkedAt: int, at: int, claim: Claim)

  datatype State = State(
    clock: int,
    issued: set<string>,
    claims: map<string, Claim>,
    threads: seq<Thread>,
    log: seq<Entry>)

  datatype Action =
    | Tick(elapsed: nat)
    | Start(id: string, identityId: string, userCodeHash: string, deviceCodeHash: string, scopes: seq<string>,
            resource: Option<string>)
    | Read(op: Op, id: string)
    | CheckExpiry(t: nat)
    | Act(t: nat)
    | Swap(t: nat)
    | CreateToken(t: nat)
    | Abandon(t: nat)
    | RemoveExpired

  const Initial := State(0, {}, map[], [], [])

  /**
    Reading by id and reading through a code hash both find the stored record.  A verification
    reaches the record only if the rate limiter let it pass, and that refuses every call when the
    limit, which is `maxVerificationAttempts`, is below one.
   */
  predicate Enabled(options: Options, s: State, a: Action) {
    match a
    case Tick(_) => true
    case Start(id, _, _, _, _, _) => id !in s.issued
    case Read(op, id) => id in s.claims && (op.Verify? ==> options.maxVerificationAttempts >= 1)
    case CheckExpiry(t) => t < |s.threads| && s.threads[t].Holding?
    case Act(t) => t < |s.threads| && s.threads[t].Checked?
    case Swap(t) => t < |s.threads| && (s.threads[t].Expiring? || s.threads[t].Writing?)
    case CreateToken(t) => t < |s.threads| && s.threads[t].Ticket?
    case Abandon(t) => t < |s.threads|
    case RemoveExpired => true
  }

  /** `compareAndSet` succeeds: the record is stored and its version is the one that was read. */
  predicate Matches(s: State, previous: Claim) {
    previous.id in s.claims && s.claims[previous.id].version == previous.version
  }

  function Store(s: State, next: Claim, kind: Kind, checkedAt: int, at: int): State {
    s.(claims := s.claims[next.id := next], log := s.log + [Entry(kind, next.id, checkedAt, at, next)])
  }

  function KindOf(op: Op, d: Decision): Kind
    requires d.Write?
  {
    match op
    case Verify => if d.reply.Some? then LockedOut else Verified
    case Decide(approve) => if approve then ApprovedIt else DeniedIt
    case Poll => if d.reply.Some? then Slowed else Polled
    case Consume => Used
  }

  function MoveTo(s: State, t: nat, thread: Thread): State
    requires t < |s.threads|
  {
    s.(threads := s.threads[t := thread])
  }

  /** `compareAndSet` of the write decided on before. */
  function SwapIn(options: Options, s: State, t: nat): State
    requires t < |s.threads| && (s.threads[t].Expiring? || s.threads[t].Writing?)
  {
    var c := s.threads[t].claim;
    if !Matches(s, c) then MoveTo(s, t, Finished)
    else
      match s.threads[t]
      case Expiring(op, _, at) => MoveTo(Store(s, Expire(c), ExpiredIt, at, at), t, Checked(op, Expire(c), at))
      case Writing(op, _, checkedAt, at) =>
        var d := Answer(options, op, c, at);
        if d.Refuse? then MoveTo(s, t, Finished)
        else MoveTo(Store(s, d.next, KindOf(op, d), checkedAt, at), t, if op.Consume? then Ticket(c.id) else Finished)
  }

  function Apply(options: Options, s: State, a: Action): State
    requires Enabled(options, s, a)
  {
    match a
    case Tick(elapsed) => s.(clock := s.clock + elapsed)
    case Start(id, identityId, userCodeHash, deviceCodeHash, scopes, resource) =>
      var c := NewClaim(options, id, identityId, userCodeHash, deviceCodeHash, scopes, resource, s.clock);
      Store(s, c, Created, s.clock, s.clock).(issued := s.issued + {id})
    case Read(op, id) => s.(threads := s.threads + [Holding(op, s.claims[id])])
    case CheckExpiry(t) =>
      var Holding(op, c) := s.threads[t];
      MoveTo(s, t, if NeedsExpiry(c, s.clock) then Expiring(op, c, s.clock) else Checked(op, c, s.clock))
    case Act(t) =>
      var Checked(op, c, checkedAt) := s.threads[t];
      MoveTo(s, t, if Answer(options, op, c, s.clock).Refuse? then Finished else Writing(op, c, checkedAt, s.clock))
    case Swap(t) => SwapIn(options, s, t)
    case CreateToken(t) =>
      var id := s.threads[t].id;
      MoveTo(s, t, Finished).(log := s.log + [Entry(Token, id, s.clock, s.clock, NewClaim(options, id, "", "", "", [], None, 0))])
    case Abandon(t) => MoveTo(s, t, Finished)
    case RemoveExpired => s.(claims := s.claims - set id | id in s.claims && s.claims[id].expiresAt <= s.clock)
  }

  predicate Legal(options: Options, acts: seq<Action>)
    decreases |acts|, 0
  {
    acts == [] ||
    (Legal(options, acts[..|acts| - 1]) && Enabled(options, After(options, acts[..|acts| - 1]), acts[|acts| - 1]))
  }

  function After(options: Options, acts: seq<Action>): State
    requires Legal(options, acts)
    decreases |acts|, 1
  {
    if acts == [] then Initial else Apply(options, After(options, acts[..|acts| - 1]), acts[|acts| - 1])
  }

  // --- histories ---

  function Count(log: seq<Entry>, id: string, kind: Kind): nat {
    if log == [] then 0
    else Count(log[..|log| - 1], id, kind) +
         if log[|log| - 1].id == id && log[|log| - 1].kind == kind then 1 else 0
  }

  /** The time of the last accepted poll. */
  function LastPoll(log: seq<Entry>, id: string): Option<int> {
    if log == [] then None
    else if log[|log| - 1].id == id && log[|log| - 1].kind.Polled? then Some(log[|log| - 1].at)
    else LastPoll(log[..|log| - 1], id)
  }

  lemma Appended(log: seq<Entry>, e: Entry, id: string)
    ensures forall kind {:trigger Count(log + [e], id, kind)} ::
              Count(log + [e], id, kind) == Count(log, id, kind) + if e.id == id && e.kind == kind then 1 else 0
    ensures LastPoll(log + [e], id) == if e.id == id && e.kind.Polled? then Some(e.at) else LastPoll(log, id)
  {
    assert (log + [e])[..|log|] == log;
  }

  // --- the invariant ---

  /** A record read some time ago is no newer than the stored one, and equal to it if the versions are. */
  ghost predicate SnapshotOk(s: State, c: Claim) {
    && c.id in s.issued
    && (c.id in s.claims ==>
          c.version <= s.claims[c.id].version && (c.version == s.claims[c.id].version ==> c == s.claims[c.id]))
  }

  /** The record was made, and last polled, no later than that. */
  predicate Known(c: Claim, at: int) {
    c.createdAt <= at && (c.lastPollAt.Some? ==> c.lastPollAt.value <= at)
  }

  ghost predicate Reads(options: Options, s: State, op: Op, c: Claim) {
    SnapshotOk(s, c) && (op.Verify? ==> options.maxVerificationAttempts >= 1)
  }

  ghost predicate ThreadOk(options: Options, s: State, thread: Thread) {
    match thread
    case Holding(op, c) => Reads(options, s, op, c) && Known(c, s.clock)
    case Expiring(op, c, at) => Reads(options, s, op, c) && Known(c, at) && at <= s.clock && NeedsExpiry(c, at)
    case Checked(op, c, checkedAt) =>
      Reads(options, s, op, c) && Known(c, checkedAt) && checkedAt <= s.clock && !NeedsExpiry(c, checkedAt)
    case Writing(op, c, checkedAt, at) =>
      Reads(options, s, op, c) && Known(c, checkedAt) && checkedAt <= at <= s.clock && !NeedsExpiry(c, checkedAt)
    case Ticket(id) => Count(s.log, id, Used) == 1 && Count(s.log, id, Token) == 0
    case Finished => true
  }

  ghost predicate TicketsDiffer(threads: seq<Thread>) {
    forall t, u {:trigger threads[t], threads[u]} :: 0 <= t < u < |threads| && threads[t].Ticket? && threads[u].Ticket? ==>
      threads[t].id != threads[u].id
  }

  /** How often each thing happened to a claim, by the state it is in. */
  ghost predicate CountsOk(log: seq<Entry>, c: Claim) {
    var verified, approved, used := Count(log, c.id, Verified), Count(log, c.id, ApprovedIt), Count(log, c.id, Used);
    && Count(log, c.id, LockedOut) == 0
    && used == (if c.grantUsedAt.Some? then 1 else 0)
    && match c.status
       case Pending => verified == approved == used == 0 && c.verificationAttempts == 0 && c.userCodeUsedAt.None?
       case UserVerified => verified == 1 && approved == used == 0
       case Approved => verified == approved == 1
       case Denied => verified <= 1 && approved == used == 0
       case Expired => verified <= 1 && approved <= verified && used == 0
  }

  ghost predicate PacingOk(options: Options, log: seq<Entry>, c: Claim) {
    && c.lastPollAt == LastPoll(log, c.id)
    && c.intervalSeconds == options.initialIntervalSeconds + 5 * Count(log, c.id, Slowed)
    && c.expiresAt == c.createdAt + options.expiresInSeconds * 1000
    && (c.lastPollAt.None? <==> Count(log, c.id, Polled) == 0)
    && (c.lastPollAt.Some? && options.initialIntervalSeconds >= 0 ==>
          c.lastPollAt.value >= c.createdAt + (Count(log, c.id, Polled) - 1) * options.initialIntervalSeconds * 1000)
  }

  ghost predicate ClaimOk(options: Options, s: State, id: string) {
    && (id in s.claims ==>
          && s.claims[id].id == id && id in s.issued && Known(s.claims[id], s.clock)
          && CountsOk(s.log, s.claims[id]) && PacingOk(options, s.log, s.claims[id]))
    && (id !in s.issued ==> forall kind :: Count(s.log, id, kind) == 0)
    && Count(s.log, id, Token) <= Count(s.log, id, Used) <= 1
    && Count(s.log, id, LockedOut) == 0
  }

  /** A poll of an unused claim was checked, and the poll before it made, ahead of the deadline. */
  ghost predicate UnusedInTime(options: Options, before: seq<Entry>, e: Entry) {
    var last, n := LastPoll(before, e.id), Count(before, e.id, Polled);
    && (e.claim.grantUsedAt.None? <==> Count(before, e.id, Used) == 0)
    && (last.None? <==> n == 0)
    && (e.claim.grantUsedAt.None? ==> e.checkedAt < e.claim.expiresAt && (last.Some? ==> last.value < e.claim.expiresAt))
    && (last.Some? && options.initialIntervalSeconds >= 0 ==>
          last.value >= e.claim.createdAt + (n - 1) * options.initialIntervalSeconds * 1000)
  }

  /** What had happened to the claim when an entry was logged. */
  ghost predicate EntryOk(options: Options, before: seq<Entry>, e: Entry) {
    var id := e.id;
    match e.kind
    case Verified => Count(before, id, Verified) == 0
    case ApprovedIt => Count(before, id, Verified) == 1 && Count(before, id, ApprovedIt) == 0
    case Used =>
      Count(before, id, Verified) == 1 && Count(before, id, ApprovedIt) == 1 && Count(before, id, Used) == 0
    case Token => Count(before, id, Used) == 1 && Count(before, id, Token) == 0
    case LockedOut => false
    case Polled =>
      && e.claim.expiresAt == e.claim.createdAt + options.expiresInSeconds * 1000 && e.claim.createdAt <= e.at
      && (LastPoll(before, id).Some? ==>
            e.at - LastPoll(before, id).value >= (options.initialIntervalSeconds + 5 * Count(before, id, Slowed)) * 1000)
      && (options.initialIntervalSeconds >= 0 ==>
            e.at >= e.claim.createdAt + Count(before, id, Polled) * options.initialIntervalSeconds * 1000)
      && e.claim.createdAt <= e.checkedAt && UnusedInTime(options, before, e)
    case _ => true
  }

  ghost predicate ThreadsOk(options: Options, s: State) {
    TicketsDiffer(s.threads) && forall t {:trigger s.threads[t]} :: 0 <= t < |s.threads| ==> ThreadOk(options, s, s.threads[t])
  }

  ghost predicate ClaimsOk(options: Options, s: State) {
    forall id :: ClaimOk(options, s, id)
  }

  ghost predicate LogOk(options: Options, log: seq<Entry>) {
    forall k {:trigger log[k]} :: 0 <= k < |log| ==> EntryOk(options, log[..k], log[k])
  }

  ghost predicate Inv(options: Options, s: State) {
    ThreadsOk(options, s) && ClaimsOk(options, s) && LogOk(options, s.log)
  }

  lemma LogAppendOk(options: Options, log: seq<Entry>, e: Entry)
    requires LogOk(options, log) && EntryOk(options, log, e)
    ensures LogOk(options, log + [e])
  {
    forall k | 0 <= k < |log| + 1 ensures EntryOk(options, (log + [e])[..k], (log + [e])[k]) {
      assert (log + [e])[..k] == if k < |log| then log[..k] else log;
    }
  }

  /** A legal write of the stored record keeps the invariant, whoever makes it. */
  lemma StoreKeepsInv(options: Options, s: State, next: Claim, kind: Kind, checkedAt: int, at: int)
    requires Inv(options, s) && next.id in s.claims && !kind.Token? && !kind.LockedOut?
    requires LegalWrite(s.claims[next.id], next, at) && Known(next, s.clock)
    requires EntryOk(options, s.log, Entry(kind, next.id, checkedAt, at, next))
    requires CountsOk(Store(s, next, kind, checkedAt, at).log, next) && PacingOk(options, Store(s, next, kind, checkedAt, at).log, next)
    ensures Inv(options, Store(s, next, kind, checkedAt, at))
  {
    hide EntryOk, PacingOk, LegalWrite, ThreadOk, ClaimOk;
    LogAppendOk(options, s.log, Entry(kind, next.id, checkedAt, at, next));
    StoredClaims(options, s, next, kind, checkedAt, at);
    StoredThreads(options, s, next, kind, checkedAt, at);
  }

  lemma StoredClaims(options: Options, s: State, next: Claim, kind: Kind, checkedAt: int, at: int)
    requires ClaimsOk(options, s) && next.id in s.claims && !kind.Token? && !kind.LockedOut?
    requires LegalWrite(s.claims[next.id], next, at) && Known(next, s.clock)
    requires CountsOk(Store(s, next, kind, checkedAt, at).log, next) && PacingOk(options, Store(s, next, kind, checkedAt, at).log, next)
    ensures ClaimsOk(options, Store(s, next, kind, checkedAt, at))
  {
    hide PacingOk;
    var s' := Store(s, next, kind, checkedAt, at);
    var e := Entry(kind, next.id, checkedAt, at, next);
    forall id ensures ClaimOk(options, s', id) {
      assert ClaimOk(options, s, id);
      Appended(s.log, e, id);
      if id in s.claims && id != next.id {
        OtherClaimUnchanged(options, s.log, e, s.claims[id]);
      }
    }
  }

  lemma StoredThreads(options: Options, s: State, next: Claim, kind: Kind, checkedAt: int, at: int)
    requires ThreadsOk(options, s) && ClaimsOk(options, s) && next.id in s.claims && !kind.Token?
    requires LegalWrite(s.claims[next.id], next, at) && Known(next, s.clock)
    requires Count(Store(s, next, kind, checkedAt, at).log, next.id, Used) <= 1
    ensures ThreadsOk(options, Store(s, next, kind, checkedAt, at))
  {
    hide PacingOk, CountsOk;
    var s' := Store(s, next, kind, checkedAt, at);
    forall t | 0 <= t < |s.threads| ensures ThreadOk(options, s', s.threads[t]) {
      assert ThreadOk(options, s, s.threads[t]);
      if s.threads[t].Ticket? {
        Appended(s.log, Entry(kind, next.id, checkedAt, at, next), s.threads[t].id);
      }
    }
  }

  lemma OtherClaimUnchanged(options: Options, log: seq<Entry>, e: Entry, c: Claim)
    requires e.id != c.id && CountsOk(log, c) && PacingOk(options, log, c)
    ensures CountsOk(log + [e], c) && PacingOk(options, log + [e], c)
  {
    Appended(log, e, c.id);
  }

  /** A request moves on without touching a record. */
  lemma MoveKeepsInv(options: Options, s: State, t: nat, thread: Thread)
    requires Inv(options, s) && t < |s.threads| && ThreadOk(options, s, thread)
    requires thread.Ticket? ==> forall u :: 0 <= u < |s.threads| && s.threads[u].Ticket? ==> s.threads[u].id != thread.id
    ensures Inv(options, MoveTo(s, t, thread))
  {
    var s' := MoveTo(s, t, thread);
    forall id ensures ClaimOk(options, s', id) { assert ClaimOk(options, s, id); }
    forall u | 0 <= u < |s'.threads| ensures ThreadOk(options, s', s'.threads[u]) {
      assert ThreadOk(options, s, s.threads[u]);
    }
  }

  /** The counts and the pacing after each kind of write. */
  lemma AnswerIsOk(options: Options, log: seq<Entry>, op: Op, c: Claim, checkedAt: int, now: int)
    requires CountsOk(log, c) && PacingOk(options, log, c) && Known(c, checkedAt) && checkedAt <= now && !NeedsExpiry(c, checkedAt)
    requires op.Verify? ==> options.maxVerificationAttempts >= 1
    requires Count(log, c.id, Verified) <= 1
    requires Answer(options, op, c, now).Write?
    ensures
      var d := Answer(options, op, c, now);
      var e := Entry(KindOf(op, d), c.id, checkedAt, now, d.next);
      && LegalWrite(c, d.next, now) && d.next.id == c.id && !e.kind.LockedOut? && !e.kind.Token?
      && EntryOk(options, log, e) && CountsOk(log + [e], d.next) && PacingOk(options, log + [e], d.next)
      && Known(d.next, now)
  {
    hide LegalWrite, CountsOk, PacingOk, EntryOk, Answer, NeedsExpiry;
    AnswerIsLegal(options, log, op, c, now);
    AnswerCounts(options, log, op, c, checkedAt, now);
    AnswerPaces(options, log, op, c, checkedAt, now);
    AnswerEntry(options, log, op, c, checkedAt, now);
  }

  lemma AnswerIsLegal(options: Options, log: seq<Entry>, op: Op, c: Claim, now: int)
    requires CountsOk(log, c) && (op.Verify? ==> options.maxVerificationAttempts >= 1) && Answer(options, op, c, now).Write?
    ensures LegalWrite(c, Answer(options, op, c, now).next, now) && Answer(options, op, c, now).next.id == c.id
    ensures op.Verify? ==> Answer(options, op, c, now).reply.None?
    ensures (c.lastPollAt.Some? ==> c.lastPollAt.value <= now) && c.createdAt <= now ==> Known(Answer(options, op, c, now).next, now)
  {
  }

  lemma AnswerCounts(options: Options, log: seq<Entry>, op: Op, c: Claim, checkedAt: int, now: int)
    requires CountsOk(log, c) && (op.Verify? ==> options.maxVerificationAttempts >= 1) && Answer(options, op, c, now).Write?
    requires Count(log, c.id, Verified) <= 1
    ensures
      var d := Answer(options, op, c, now);
      CountsOk(log + [Entry(KindOf(op, d), c.id, checkedAt, now, d.next)], d.next)
  {
    var d := Answer(options, op, c, now);
    Appended(log, Entry(KindOf(op, d), c.id, checkedAt, now, d.next), c.id);
  }

  lemma AnswerPaces(options: Options, log: seq<Entry>, op: Op, c: Claim, checkedAt: int, now: int)
    requires PacingOk(options, log, c) && c.createdAt <= now && Answer(options, op, c, now).Write?
    ensures
      var d := Answer(options, op, c, now);
      PacingOk(options, log + [Entry(KindOf(op, d), c.id, checkedAt, now, d.next)], d.next)
  {
    var d := Answer(options, op, c, now);
    Appended(log, Entry(KindOf(op, d), c.id, checkedAt, now, d.next), c.id);
    if op.Poll? && d.reply.None? && options.initialIntervalSeconds >= 0 {
      PollsAddUp(options, log, c, now);
    }
  }

  lemma AnswerEntry(options: Options, log: seq<Entry>, op: Op, c: Claim, checkedAt: int, now: int)
    requires CountsOk(log, c) && PacingOk(options, log, c) && Known(c, checkedAt) && checkedAt <= now && !NeedsExpiry(c, checkedAt)
    requires Answer(options, op, c, now).Write? && (op.Verify? ==> options.maxVerificationAttempts >= 1)
    requires Count(log, c.id, Verified) <= 1
    ensures
      var d := Answer(options, op, c, now);
      EntryOk(options, log, Entry(KindOf(op, d), c.id, checkedAt, now, d.next))
  {
    hide UnusedInTime;
    var d := Answer(options, op, c, now);
    if op.Poll? && d.reply.None? {
      AnswerInTime(options, log, c, checkedAt, now);
      if options.initialIntervalSeconds >= 0 {
        PollsAddUp(options, log, c, now);
      }
    }
  }

  lemma AnswerInTime(options: Options, log: seq<Entry>, c: Claim, checkedAt: int, now: int)
    requires CountsOk(log, c) && PacingOk(options, log, c) && Known(c, checkedAt) && !NeedsExpiry(c, checkedAt)
    requires Answer(options, Poll, c, now).Write? && Answer(options, Poll, c, now).reply.None?
    ensures UnusedInTime(options, log, Entry(Polled, c.id, checkedAt, now, Answer(options, Poll, c, now).next))
  {
  }

  /** One more accepted poll is at least one more initial interval away from the start. */
  lemma PollsAddUp(options: Options, log: seq<Entry>, c: Claim, now: int)
    requires PacingOk(options, log, c) && c.createdAt <= now && !TooEarly(c, now)
    requires options.initialIntervalSeconds >= 0
    ensures now >= c.createdAt + Count(log, c.id, Polled) * options.initialIntervalSeconds * 1000
  {
    var n, i := Count(log, c.id, Polled), options.initialIntervalSeconds;
    if n > 0 {
      assert n * i * 1000 == (n - 1) * i * 1000 + i * 1000;
      assert c.intervalSeconds >= i;
    } else {
      assert n * i * 1000 == 0;
    }
  }

  lemma ExpireIsOk(options: Options, log: seq<Entry>, c: Claim, now: int)
    requires CountsOk(log, c) && PacingOk(options, log, c) && NeedsExpiry(c, now) && Known(c, now)
    ensures
      var e := Entry(ExpiredIt, c.id, now, now, Expire(c));
      && LegalWrite(c, Expire(c), now) && Known(Expire(c), now)
      && EntryOk(options, log, e) && CountsOk(log + [e], Expire(c)) && PacingOk(options, log + [e], Expire(c))
  {
    Appended(log, Entry(ExpiredIt, c.id, now, now, Expire(c)), c.id);
  }

  // --- the steps ---

  lemma StartKeepsInv(options: Options, s: State, a: Action)
    requires Inv(options, s) && Enabled(options, s, a) && a.Start?
    ensures Inv(options, Apply(options, s, a))
  {
    hide ClaimOk, ThreadOk, EntryOk;
    var s' := Apply(options, s, a);
    var e := Entry(Created, a.id, s.clock, s.clock, s'.claims[a.id]);
    LogAppendOk(options, s.log, e);
    StartClaims(options, s, a);
    StartThreads(options, s, a);
  }

  lemma StartClaims(options: Options, s: State, a: Action)
    requires ClaimsOk(options, s) && Enabled(options, s, a) && a.Start?
    ensures ClaimsOk(options, Apply(options, s, a))
  {
    hide CountsOk, PacingOk;
    var s' := Apply(options, s, a);
    var e := Entry(Created, a.id, s.clock, s.clock, s'.claims[a.id]);
    StartedClaim(options, s, a);
    forall id ensures ClaimOk(options, s', id) {
      assert ClaimOk(options, s, id);
      Appended(s.log, e, id);
      if id in s.claims && id != a.id {
        OtherClaimUnchanged(options, s.log, e, s.claims[id]);
      }
    }
  }

  /** Nothing has happened to a claim that was just made. */
  lemma StartedClaim(options: Options, s: State, a: Action)
    requires ClaimsOk(options, s) && Enabled(options, s, a) && a.Start?
    ensures
      var s' := Apply(options, s, a);
      CountsOk(s'.log, s'.claims[a.id]) && PacingOk(options, s'.log, s'.claims[a.id])
  {
    var s' := Apply(options, s, a);
    assert ClaimOk(options, s, a.id);
    NeverPolled(s.log, a.id);
    Appended(s.log, Entry(Created, a.id, s.clock, s.clock, s'.claims[a.id]), a.id);
  }

  lemma StartThreads(options: Options, s: State, a: Action)
    requires ThreadsOk(options, s) && Enabled(options, s, a) && a.Start?
    ensures ThreadsOk(options, Apply(options, s, a))
  {
    var s' := Apply(options, s, a);
    forall t | 0 <= t < |s.threads| ensures ThreadOk(options, s', s.threads[t]) {
      assert ThreadOk(options, s, s.threads[t]);
      if s.threads[t].Ticket? {
        Appended(s.log, Entry(Created, a.id, s.clock, s.clock, s'.claims[a.id]), s.threads[t].id);
      }
    }
  }

  lemma {:induction false} NeverPolled(log: seq<Entry>, id: string)
    requires Count(log, id, Polled) == 0
    ensures LastPoll(log, id).None?
  {
    if log != [] {
      NeverPolled(log[..|log| - 1], id);
    }
  }

  lemma CheckExpiryKeepsInv(options: Options, s: State, t: nat)
    requires Inv(options, s) && Enabled(options, s, CheckExpiry(t))
    ensures Inv(options, Apply(options, s, CheckExpiry(t)))
  {
    hide Inv;
    var Holding(op, c) := s.threads[t];
    ThreadFacts(options, s, t);
    MoveKeepsInv(options, s, t, if NeedsExpiry(c, s.clock) then Expiring(op, c, s.clock) else Checked(op, c, s.clock));
  }

  lemma ActKeepsInv(options: Options, s: State, t: nat)
    requires Inv(options, s) && Enabled(options, s, Act(t))
    ensures Inv(options, Apply(options, s, Act(t)))
  {
    hide Answer, Inv;
    var Checked(op, c, checkedAt) := s.threads[t];
    ThreadFacts(options, s, t);
    MoveKeepsInv(options, s, t, if Answer(options, op, c, s.clock).Refuse? then Finished else Writing(op, c, checkedAt, s.clock));
  }

  lemma SwapKeepsInv(options: Options, s: State, t: nat)
    requires Inv(options, s) && Enabled(options, s, Swap(t))
    ensures Inv(options, Apply(options, s, Swap(t)))
  {
    hide Answer, Inv;
    ThreadFacts(options, s, t);
    var c := s.threads[t].claim;
    if !Matches(s, c) {
      MoveKeepsInv(options, s, t, Finished);
    } else if s.threads[t].Expiring? {
      ExpiringSwaps(options, s, t);
    } else if Answer(options, s.threads[t].op, c, s.threads[t].at).Refuse? {
      MoveKeepsInv(options, s, t, Finished);
    } else {
      WritingSwaps(options, s, t);
    }
  }

  lemma ExpiringSwaps(options: Options, s: State, t: nat)
    requires Inv(options, s) && t < |s.threads| && s.threads[t].Expiring? && Matches(s, s.threads[t].claim)
    ensures
      var Expiring(op, c, at) := s.threads[t];
      Inv(options, MoveTo(Store(s, Expire(c), ExpiredIt, at, at), t, Checked(op, Expire(c), at)))
  {
    hide Inv, EntryOk, CountsOk, PacingOk, LegalWrite;
    var Expiring(op, c, at) := s.threads[t];
    ThreadFacts(options, s, t);
    ClaimFacts(options, s, c.id);
    ExpireIsOk(options, s.log, c, at);
    StoreKeepsInv(options, s, Expire(c), ExpiredIt, at, at);
    MoveKeepsInv(options, Store(s, Expire(c), ExpiredIt, at, at), t, Checked(op, Expire(c), at));
  }

  lemma WritingSwaps(options: Options, s: State, t: nat)
    requires Inv(options, s) && t < |s.threads| && s.threads[t].Writing? && Matches(s, s.threads[t].claim)
    requires Answer(options, s.threads[t].op, s.threads[t].claim, s.threads[t].at).Write?
    ensures
      var Writing(op, c, checkedAt, at) := s.threads[t];
      var d := Answer(options, op, c, at);
      Inv(options, MoveTo(Store(s, d.next, KindOf(op, d), checkedAt, at), t, if op.Consume? then Ticket(c.id) else Finished))
  {
    hide Answer, Inv, EntryOk, CountsOk, PacingOk, LegalWrite, NeedsExpiry;
    var Writing(op, c, checkedAt, at) := s.threads[t];
    var d := Answer(options, op, c, at);
    ThreadFacts(options, s, t);
    ClaimFacts(options, s, c.id);
    AtMostOnce(options, s, c);
    AnswerIsOk(options, s.log, op, c, checkedAt, at);
    StoreKeepsInv(options, s, d.next, KindOf(op, d), checkedAt, at);
    if op.Consume? {
      UsedBefore(options, s.log, Entry(Used, c.id, checkedAt, at, d.next));
      TicketIsNew(options, s, t, d.next, checkedAt, at);
    }
    MoveKeepsInv(options, Store(s, d.next, KindOf(op, d), checkedAt, at), t, if op.Consume? then Ticket(c.id) else Finished);
  }

  lemma AtMostOnce(options: Options, s: State, c: Claim)
    requires Inv(options, s) && c.id in s.claims && s.claims[c.id] == c
    ensures Count(s.log, c.id, Verified) <= 1
  {
    assert ClaimOk(options, s, c.id);
  }

  lemma UsedBefore(options: Options, before: seq<Entry>, e: Entry)
    requires EntryOk(options, before, e) && e.kind.Used?
    ensures Count(before, e.id, Used) == 0
  {
  }

  lemma ThreadFacts(options: Options, s: State, t: nat)
    requires Inv(options, s) && t < |s.threads|
    ensures ThreadOk(options, s, s.threads[t])
  {
  }

  lemma ClaimFacts(options: Options, s: State, id: string)
    requires Inv(options, s)
    ensures ClaimOk(options, s, id)
  {
  }

  /** The consume that succeeds is the first, so nobody else holds a ticket for the claim. */
  lemma TicketIsNew(options: Options, s: State, t: nat, next: Claim, checkedAt: int, at: int)
    requires Inv(options, s) && next.id in s.claims && Count(s.log, next.id, Used) == 0
    requires Inv(options, Store(s, next, Used, checkedAt, at))
    ensures ThreadOk(options, Store(s, next, Used, checkedAt, at), Ticket(next.id))
    ensures forall u :: 0 <= u < |s.threads| && s.threads[u].Ticket? ==> s.threads[u].id != next.id
  {
    hide CountsOk, PacingOk, EntryOk;
    assert ClaimOk(options, s, next.id);
    Appended(s.log, Entry(Used, next.id, checkedAt, at, next), next.id);
    forall u | 0 <= u < |s.threads| && s.threads[u].Ticket? ensures s.threads[u].id != next.id {
      assert ThreadOk(options, s, s.threads[u]);
    }
  }

  lemma CreateTokenKeepsInv(options: Options, s: State, t: nat)
    requires Inv(options, s) && Enabled(options, s, CreateToken(t))
    ensures Inv(options, Apply(options, s, CreateToken(t)))
  {
    var s' := Apply(options, s, CreateToken(t));
    assert ThreadOk(options, s, s.threads[t]);
    LogAppendOk(options, s.log, s'.log[|s.log|]);
    TokenClaims(options, s, s', t);
    TokenThreads(options, s, s', t);
  }

  lemma TokenClaims(options: Options, s: State, s': State, t: nat)
    requires ClaimsOk(options, s) && Enabled(options, s, CreateToken(t)) && ThreadOk(options, s, s.threads[t])
    requires s' == Apply(options, s, CreateToken(t))
    ensures ClaimsOk(options, s')
  {
    hide CountsOk, PacingOk;
    forall id ensures ClaimOk(options, s', id) {
      assert ClaimOk(options, s, id);
      Appended(s.log, s'.log[|s.log|], id);
      if id in s.claims {
        TokenLeavesClaim(options, s.log, s'.log[|s.log|], s.claims[id]);
      }
    }
  }

  lemma TokenLeavesClaim(options: Options, log: seq<Entry>, e: Entry, c: Claim)
    requires e.kind.Token? && CountsOk(log, c) && PacingOk(options, log, c)
    ensures CountsOk(log + [e], c) && PacingOk(options, log + [e], c)
  {
    Appended(log, e, c.id);
  }

  lemma TokenThreads(options: Options, s: State, s': State, t: nat)
    requires ThreadsOk(options, s) && Enabled(options, s, CreateToken(t))
    requires s' == Apply(options, s, CreateToken(t))
    ensures ThreadsOk(options, s')
  {
    var ticket := s.threads[t].id;
    forall u | 0 <= u < |s'.threads| ensures ThreadOk(options, s', s'.threads[u]) {
      assert ThreadOk(options, s, s.threads[u]);
      if u != t && s.threads[u].Ticket? {
        assert s.threads[u].id != ticket;
        Appended(s.log, s'.log[|s.log|], s.threads[u].id);
      }
    }
  }

  lemma StepKeepsInv(options: Options, s: State, a: Action)
    requires Inv(options, s) && Enabled(options, s, a)
    ensures Inv(options, Apply(options, s, a))
  {
    match a
    case Start(_, _, _, _, _, _) => StartKeepsInv(options, s, a);
    case CheckExpiry(t) => CheckExpiryKeepsInv(options, s, t);
    case Act(t) => ActKeepsInv(options, s, t);
    case Swap(t) => SwapKeepsInv(options, s, t);
    case CreateToken(t) => CreateTokenKeepsInv(options, s, t);
    case Abandon(t) => MoveKeepsInv(options, s, t, Finished);
    case Read(op, id) => ReadKeepsInv(options, s, op, id);
    case Tick(_) => FewerClaims(options, s, Apply(options, s, a));
    case RemoveExpired => FewerClaims(options, s, Apply(options, s, a));
  }

  lemma ReadKeepsInv(options: Options, s: State, op: Op, id: string)
    requires Inv(options, s) && Enabled(options, s, Read(op, id))
    ensures Inv(options, Apply(options, s, Read(op, id)))
  {
    var s' := Apply(options, s, Read(op, id));
    forall i ensures ClaimOk(options, s', i) { assert ClaimOk(options, s, i); }
    assert ClaimOk(options, s, id);
    forall t | 0 <= t < |s'.threads| ensures ThreadOk(options, s', s'.threads[t]) {
      assert t < |s.threads| ==> ThreadOk(options, s, s.threads[t]);
    }
  }

  /** Time passes and records may disappear. */
  lemma FewerClaims(options: Options, s: State, s': State)
    requires Inv(options, s) && s' == s.(clock := s'.clock, claims := s'.claims) && s.clock <= s'.clock
    requires forall id :: id in s'.claims ==> id in s.claims && s'.claims[id] == s.claims[id]
    ensures Inv(options, s')
  {
    forall i ensures ClaimOk(options, s', i) { assert ClaimOk(options, s, i); }
    forall t | 0 <= t < |s'.threads| ensures ThreadOk(options, s', s'.threads[t]) {
      assert ThreadOk(options, s, s.threads[t]);
    }
  }

  lemma {:induction false} Reachable(options: Options, acts: seq<Action>)
    requires Legal(options, acts)
    ensures Inv(options, After(options, acts))
  {
    if acts == [] {
      forall id ensures ClaimOk(options, Initial, id) { }
    } else {
      Reachable(options, acts[..|acts| - 1]);
      StepKeepsInv(options, After(options, acts[..|acts| - 1]), acts[|acts| - 1]);
    }
  }

  // --- safety over every schedule ---

  /** A record held by an operation is never ahead of the store, and is the stored one if the versions agree. */
  lemma SnapshotsAreSound(options: Options, acts: seq<Action>, t: nat)
    requires Legal(options, acts) && t < |After(options, acts).threads|
    requires !After(options, acts).threads[t].Ticket? && !After(options, acts).threads[t].Finished?
    ensures SnapshotOk(After(options, acts), After(options, acts).threads[t].claim)
  {
    Reachable(options, acts);
    assert ThreadOk(options, After(options, acts), After(options, acts).threads[t]);
  }

  /**
    Every swap changes a stored record along a legal edge from its true current state, decided by an earlier
    reading of the clock; nothing else changes one, except that expired ones are removed.
   */
  lemma WritesAreLegal(options: Options, acts: seq<Action>, a: Action, id: string)
    requires Legal(options, acts) && Enabled(options, After(options, acts), a) && id in After(options, acts).claims
    ensures
      var s, s' := After(options, acts), Apply(options, After(options, acts), a);
      if id !in s'.claims then a.RemoveExpired? && s.claims[id].expiresAt <= s.clock
      else
        || s'.claims[id] == s.claims[id]
        || (a.Swap? && s.threads[a.t].at <= s.clock && LegalWrite(s.claims[id], s'.claims[id], s.threads[a.t].at))
  {
    Reachable(options, acts);
    var s := After(options, acts);
    ClaimFacts(options, s, id);
    if a.Swap? {
      ThreadFacts(options, s, a.t);
      AtMostOnce(options, s, s.claims[id]);
      SwapIsLegal(options, s, a.t, id);
    }
  }

  lemma SwapIsLegal(options: Options, s: State, t: nat, id: string)
    requires Enabled(options, s, Swap(t)) && ThreadOk(options, s, s.threads[t])
    requires id in s.claims && ClaimOk(options, s, id) && Count(s.log, id, Verified) <= 1
    ensures
      var s' := SwapIn(options, s, t);
      && id in s'.claims && s.threads[t].at <= s.clock
      && (s'.claims[id] == s.claims[id] || LegalWrite(s.claims[id], s'.claims[id], s.threads[t].at))
  {
    hide Answer, LegalWrite, CountsOk, PacingOk, EntryOk;
    var op, c := s.threads[t].op, s.threads[t].claim;
    if Matches(s, c) && c.id == id {
      if s.threads[t].Expiring? {
        ExpireIsOk(options, s.log, c, s.threads[t].at);
      } else if Answer(options, op, c, s.threads[t].at).Write? {
        AnswerIsOk(options, s.log, op, c, s.threads[t].checkedAt, s.threads[t].at);
      }
    } else if Matches(s, c) && s.threads[t].Writing? && Answer(options, op, c, s.threads[t].at).Write? {
      AnswerKeepsId(options, op, c, s.threads[t].at);
    }
  }

  lemma AnswerKeepsId(options: Options, op: Op, c: Claim, now: int)
    requires Answer(options, op, c, now).Write?
    ensures Answer(options, op, c, now).next.id == c.id
  {
  }

  /**
    A claim is used at most once, after exactly one verification and then exactly one approval; so at
    most one token is ever created from it, however many exchanges hold a claim grant for it.
   */
  lemma UsedOnceAfterApproval(options: Options, acts: seq<Action>, k: nat)
    requires Legal(options, acts) && k < |After(options, acts).log|
    ensures
      var log := After(options, acts).log;
      var id := log[k].id;
      && (log[k].kind.Used? ==>
            && Count(log[..k], id, Verified) == 1 && Count(log[..k], id, ApprovedIt) == 1 && Count(log[..k], id, Used) == 0)
      && (log[k].kind.ApprovedIt? ==> Count(log[..k], id, Verified) == 1 && Count(log[..k], id, ApprovedIt) == 0)
      && (log[k].kind.Token? ==> Count(log[..k], id, Used) == 1 && Count(log[..k], id, Token) == 0)
  {
    Reachable(options, acts);
    var log := After(options, acts).log;
    assert EntryOk(options, log[..k], log[k]);
  }

  lemma OneTokenPerClaim(options: Options, acts: seq<Action>, id: string)
    requires Legal(options, acts)
    ensures Count(After(options, acts).log, id, Token) <= Count(After(options, acts).log, id, Used) <= 1
  {
    Reachable(options, acts);
    assert ClaimOk(options, After(options, acts), id);
  }

  /** A pending claim has no attempt and an unused code, so no verification is ever locked out. */
  lemma LockOutIsUnreachable(options: Options, acts: seq<Action>, id: string)
    requires Legal(options, acts)
    ensures Count(After(options, acts).log, id, LockedOut) == 0
    ensures id in After(options, acts).claims && After(options, acts).claims[id].status.Pending? ==>
              After(options, acts).claims[id].verificationAttempts == 0 && After(options, acts).claims[id].userCodeUsedAt.None?
  {
    Reachable(options, acts);
    assert ClaimOk(options, After(options, acts), id);
  }

  /** The polling interval is the initial one plus five seconds for every early poll so far. */
  lemma IntervalCountsEarlyPolls(options: Options, acts: seq<Action>, id: string)
    requires Legal(options, acts) && id in After(options, acts).claims
    ensures After(options, acts).claims[id].intervalSeconds
         == options.initialIntervalSeconds + 5 * Count(After(options, acts).log, id, Slowed)
  {
    Reachable(options, acts);
    assert ClaimOk(options, After(options, acts), id);
  }

  /** An accepted poll comes at least the interval then in force after the accepted poll before it. */
  lemma PollsAreSpaced(options: Options, acts: seq<Action>, k: nat)
    requires Legal(options, acts) && k < |After(options, acts).log| && After(options, acts).log[k].kind.Polled?
    requires LastPoll(After(options, acts).log[..k], After(options, acts).log[k].id).Some?
    ensures
      var log := After(options, acts).log;
      log[k].at - LastPoll(log[..k], log[k].id).value
      >= (options.initialIntervalSeconds + 5 * Count(log[..k], log[k].id, Slowed)) * 1000
  {
    Reachable(options, acts);
    assert EntryOk(options, After(options, acts).log[..k], After(options, acts).log[k]);
  }
}
