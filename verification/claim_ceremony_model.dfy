/**
  One uninterrupted operation of the claim ceremony (packages/service/src/claim.ts:50-198) as a function
  of the stored claims, and the proof that it is one schedule of the interleaved machine.
 */
module ClaimCeremonyModel {
  import opened Wrappers
  import opened ClaimRules
  import opened ClaimStateModel
  import I = ClaimInterleaving
  import L = RateLimitModel

  datatype CeremonyOptions = CeremonyOptions(
    claim: Options,
    verificationWindowSeconds: int,
    maxStartsPerWindow: int,
    startWindowSeconds: int)

  type Reply = Result<Claim, OAuthError>

  /** What `expireIfNeeded` leaves when nobody interferes. */
  function Current(c: Claim, checkedAt: int): Claim {
    if NeedsExpiry(c, checkedAt) then Expire(c) else c
  }

  /** An operation that found the claim `id`: checked against its deadline at `checkedAt`, answered at `now`. */
  function Perform(options: Options, claims: Claims, op: Op, id: string, checkedAt: int, now: int): (Claims, Reply) {
    if id !in claims then (claims, Err(InvalidGrant))
    else
      var c := Current(claims[id], checkedAt);
      var claims' := if NeedsExpiry(claims[id], checkedAt) then claims[id := c] else claims;
      match Answer(options, op, c, now)
      case Refuse(error) => (claims', Err(error))
      case Write(next, reply) => (claims'[id := next], if reply.Some? then Err(reply.value) else Ok(next))
  }

  /** The claim a code belongs to. */
  ghost function UserCodeOwner(claims: Claims, hash: string): (owner: Option<string>)
    ensures owner.None? <==> forall id :: id in claims ==> claims[id].userCodeHash != hash
    ensures owner.Some? ==> owner.value in claims && claims[owner.value].userCodeHash == hash
  {
    if id :| id in claims && claims[id].userCodeHash == hash then Some(id) else None
  }

  ghost function DeviceCodeOwner(claims: Claims, hash: string): (owner: Option<string>)
    ensures owner.None? <==> forall id :: id in claims ==> claims[id].deviceCodeHash != hash
    ensures owner.Some? ==> owner.value in claims && claims[owner.value].deviceCodeHash == hash
  {
    if id :| id in claims && claims[id].deviceCodeHash == hash then Some(id) else None
  }

  ghost predicate WellKeyed(claims: Claims) {
    && (forall id :: id in claims ==> claims[id].id == id)
    && (forall a, b :: a in claims && b in claims && a != b ==> Unrelated(claims[a], claims[b]))
  }

  // --- an uninterrupted operation is a schedule ---

  /** Read the record and check the deadline, writing the record as expired if it is over. */
  function CheckSteps(c: Claim, op: Op, id: string, thread: nat, wait: nat, checkedAt: int): seq<I.Action> {
    [I.Read(op, id), I.Tick(wait), I.CheckExpiry(thread)] + if NeedsExpiry(c, checkedAt) then [I.Swap(thread)] else []
  }

  /** Decide some time later, and write what was decided. */
  function ActSteps(options: Options, c: Claim, op: Op, thread: nat, work: nat, now: int): seq<I.Action> {
    [I.Tick(work), I.Act(thread)] + if Answer(options, op, c, now).Write? then [I.Swap(thread)] else []
  }

  /** One operation of the interleaved machine with nobody else moving. */
  function Schedule(options: Options, s: I.State, op: Op, id: string, wait: nat, work: nat): seq<I.Action>
    requires id in s.claims
  {
    CheckSteps(s.claims[id], op, id, |s.threads|, wait, s.clock + wait)
    + ActSteps(options, Current(s.claims[id], s.clock + wait), op, |s.threads|, work, s.clock + wait + work)
  }

  /** The machine over a list of actions, from any state. */
  ghost predicate Runs(options: Options, s: I.State, acts: seq<I.Action>, s': I.State)
    decreases |acts|
  {
    if acts == [] then s == s'
    else I.Enabled(options, s, acts[0]) && Runs(options, I.Apply(options, s, acts[0]), acts[1..], s')
  }

  lemma {:induction false} RunsOn(options: Options, s: I.State, first: seq<I.Action>, mid: I.State, rest: seq<I.Action>, s': I.State)
    requires Runs(options, s, first, mid) && Runs(options, mid, rest, s')
    ensures Runs(options, s, first + rest, s')
    decreases |first|
  {
    hide I.Enabled, I.Apply;
    if first == [] {
      assert first + rest == rest;
    } else {
      assert (first + rest)[1..] == first[1..] + rest;
      RunsOn(options, I.Apply(options, s, first[0]), first[1..], mid, rest, s');
    }
  }

  lemma RunsOne(options: Options, s: I.State, a: I.Action)
    requires I.Enabled(options, s, a)
    ensures Runs(options, s, [a], I.Apply(options, s, a))
  {
    hide I.Enabled, I.Apply;
    assert [a][1..] == [];
    assert Runs(options, I.Apply(options, s, a), [], I.Apply(options, s, a));
  }

  /** One more step at the end of a run. */
  lemma RunsThen(options: Options, s: I.State, acts: seq<I.Action>, mid: I.State, a: I.Action)
    requires Runs(options, s, acts, mid) && I.Enabled(options, mid, a)
    ensures Runs(options, s, acts + [a], I.Apply(options, mid, a))
  {
    hide I.Enabled, I.Apply, Runs;
    RunsOne(options, mid, a);
    RunsOn(options, s, acts, mid, [a], I.Apply(options, mid, a));
  }

  lemma ChecksAlone(options: Options, s: I.State, op: Op, id: string, wait: nat) returns (s': I.State)
    requires I.Enabled(options, s, I.Read(op, id)) && s.claims[id].id == id
    ensures
      var c, checkedAt := s.claims[id], s.clock + wait;
      && Runs(options, s, CheckSteps(c, op, id, |s.threads|, wait, checkedAt), s')
      && s'.clock == checkedAt && |s'.threads| == |s.threads| + 1
      && s'.threads[|s.threads|] == I.Checked(op, Current(c, checkedAt), checkedAt)
      && s'.claims == if NeedsExpiry(c, checkedAt) then s.claims[id := Current(c, checkedAt)] else s.claims
  {
    hide Runs, NeedsExpiry;
    var t := |s.threads|;
    RunsOne(options, s, I.Read(op, id));
    var s1 := I.Apply(options, s, I.Read(op, id));
    RunsThen(options, s, [I.Read(op, id)], s1, I.Tick(wait));
    var s2 := I.Apply(options, s1, I.Tick(wait));
    RunsThen(options, s, [I.Read(op, id)] + [I.Tick(wait)], s2, I.CheckExpiry(t));
    s' := I.Apply(options, s2, I.CheckExpiry(t));
    var acts := [I.Read(op, id)] + [I.Tick(wait)] + [I.CheckExpiry(t)];
    assert acts == [I.Read(op, id), I.Tick(wait), I.CheckExpiry(t)];
    if NeedsExpiry(s.claims[id], s2.clock) {
      RunsThen(options, s, acts, s', I.Swap(t));
      s' := I.Apply(options, s', I.Swap(t));
    } else {
      assert acts + [] == acts;
    }
  }

  lemma ActsAlone(options: Options, s: I.State, t: nat, work: nat) returns (s': I.State)
    requires t < |s.threads| && s.threads[t].Checked? && s.threads[t].claim.id in s.claims
    requires s.claims[s.threads[t].claim.id] == s.threads[t].claim
    ensures
      var op, c := s.threads[t].op, s.threads[t].claim;
      var now := s.clock + work;
      && Runs(options, s, ActSteps(options, c, op, t, work, now), s') && |s'.threads| == |s.threads|
      && match Answer(options, op, c, now)
         case Refuse(_) => s'.claims == s.claims && s'.threads[t].Finished?
         case Write(next, _) =>
           s'.claims == s.claims[next.id := next] && s'.threads[t] == if op.Consume? then I.Ticket(c.id) else I.Finished
  {
    hide Runs, Answer;
    var op, c := s.threads[t].op, s.threads[t].claim;
    RunsOne(options, s, I.Tick(work));
    var s1 := I.Apply(options, s, I.Tick(work));
    RunsThen(options, s, [I.Tick(work)], s1, I.Act(t));
    s' := I.Apply(options, s1, I.Act(t));
    var acts := [I.Tick(work)] + [I.Act(t)];
    assert acts == [I.Tick(work), I.Act(t)];
    if Answer(options, op, c, s1.clock).Write? {
      RunsThen(options, s, acts, s', I.Swap(t));
      s' := I.Apply(options, s', I.Swap(t));
    } else {
      assert acts + [] == acts;
    }
  }

  /**
    The interleaved machine, left alone for one operation, stores exactly what the operation stores:
    no answer of the sequential ceremony is outside the schedules the safety theorems range over.
   */
  lemma PerformIsASchedule(options: Options, s: I.State, op: Op, id: string, wait: nat, work: nat) returns (s': I.State)
    requires I.Enabled(options, s, I.Read(op, id)) && s.claims[id].id == id
    ensures Runs(options, s, Schedule(options, s, op, id, wait, work), s')
    ensures s'.claims == Perform(options, s.claims, op, id, s.clock + wait, s.clock + wait + work).0
    ensures |s'.threads| == |s.threads| + 1
    ensures s'.threads[|s.threads|].Ticket? <==>
              op.Consume? && Perform(options, s.claims, op, id, s.clock + wait, s.clock + wait + work).1.Ok?
  {
    hide Runs, Answer;
    var mid := ChecksAlone(options, s, op, id, wait);
    var c := Current(s.claims[id], s.clock + wait);
    s' := ActsAlone(options, mid, |s.threads|, work);
    RunsOn(options, s, CheckSteps(s.claims[id], op, id, |s.threads|, wait, s.clock + wait), mid,
           ActSteps(options, c, op, |s.threads|, work, s.clock + wait + work), s');
    if Answer(options, op, c, s.clock + wait + work).Write? {
      AnswerProgresses(options, op, c, s.clock + wait + work);
      ConsumeReplies(options, c, s.clock + wait + work);
    }
  }

  lemma ConsumeReplies(options: Options, c: Claim, now: int)
    ensures Answer(options, Consume, c, now).Write? ==> Answer(options, Consume, c, now).reply.None?
  {
  }

  // --- what holds of every operation ---

  /**
    Once a claim is past its deadline nothing succeeds on it any more and it is left expired, whatever
    it was before (a denied claim too), unless it is approved and its grant was used.
   */
  lemma NothingAfterDeadline(options: Options, claims: Claims, op: Op, id: string, checkedAt: int, now: int)
    requires id in claims && claims[id].expiresAt <= checkedAt
    ensures
      var (claims', reply) := Perform(options, claims, op, id, checkedAt, now);
      if claims[id].status.Approved? && claims[id].grantUsedAt.Some? then claims'[id].status.Approved?
      else
        && claims'[id].status.Expired?
        && reply == Err(if op.Poll? || op.Consume? then ExpiredToken else InvalidGrant)
  {
  }

  /** With one clock reading per operation, a poll of an unused claim is accepted before its deadline only. */
  lemma AcceptedPollsAreInTime(options: Options, claims: Claims, id: string, now: int)
    requires id in claims && claims[id].grantUsedAt.None?
    requires Perform(options, claims, Poll, id, now, now).1.Ok?
    ensures now < claims[id].expiresAt
    ensures claims[id].status.Pending? || claims[id].status.UserVerified? || claims[id].status.Approved?
  {
    if claims[id].expiresAt <= now {
      NothingAfterDeadline(options, claims, Poll, id, now, now);
    }
  }

  /** Only the progress of the ceremony has changed, forwards, and a used grant stays used. */
  predicate Progressed(c: Claim, n: Claim) {
    && n == c.(status := n.status, version := n.version, intervalSeconds := n.intervalSeconds, lastPollAt := n.lastPollAt,
               verificationAttempts := n.verificationAttempts, userCodeUsedAt := n.userCodeUsedAt,
               grantUsedAt := n.grantUsedAt)
    && (c.grantUsedAt.Some? ==> n.grantUsedAt == c.grantUsedAt)
    && c.version <= n.version
  }

  lemma AnswerProgresses(options: Options, op: Op, c: Claim, now: int)
    ensures Answer(options, op, c, now).Write? ==> Progressed(c, Answer(options, op, c, now).next)
  {
  }

  /** An operation touches its own claim only, and keeps what the indexes and the deadline depend on. */
  lemma PerformKeepsIndexes(options: Options, claims: Claims, op: Op, id: string, checkedAt: int, now: int)
    requires WellKeyed(claims)
    ensures
      var claims' := Perform(options, claims, op, id, checkedAt, now).0;
      && claims'.Keys == claims.Keys && WellKeyed(claims')
      && (id in claims ==> Progressed(claims[id], claims'[id]))
      && (forall other :: other in claims && other != id ==> claims'[other] == claims[other])
  {
    hide Answer, Unrelated, Progressed;
    if id in claims {
      CurrentProgresses(claims[id], checkedAt);
      var c := Current(claims[id], checkedAt);
      AnswerProgresses(options, op, c, now);
      var claims' := Perform(options, claims, op, id, checkedAt, now).0;
      assert claims' == claims[id := claims'[id]];
      if Answer(options, op, c, now).Write? {
        ProgressAdds(claims[id], c, claims'[id]);
      }
      StillKeyed(claims, id, claims'[id]);
    }
  }

  lemma CurrentProgresses(c: Claim, checkedAt: int)
    ensures Progressed(c, Current(c, checkedAt))
  {
  }

  lemma ProgressAdds(a: Claim, b: Claim, c: Claim)
    requires Progressed(a, b) && Progressed(b, c)
    ensures Progressed(a, c)
  {
  }

  lemma StillKeyed(claims: Claims, id: string, n: Claim)
    requires WellKeyed(claims) && id in claims && Progressed(claims[id], n)
    ensures WellKeyed(claims[id := n])
  {
    var claims' := claims[id := n];
    forall a, b | a in claims' && b in claims' && a != b ensures Unrelated(claims'[a], claims'[b]) {
      assert Unrelated(claims[a], claims[b]);
    }
  }

  // --- rate-limited entry points ---

  datatype Ceremony = Ceremony(claims: Claims, buckets: L.Buckets)

  function StartKey(key: string): string { "claim-start:" + key }

  function VerifyKey(key: string): string { "claim-verify:" + key }

  function Start(options: CeremonyOptions, st: Ceremony, c: Claim, rateLimitKey: string, now: int): (Ceremony, Reply) {
    var (buckets, allowed) := L.Take(L.Anchored, st.buckets, StartKey(rateLimitKey), options.maxStartsPerWindow,
                                     options.startWindowSeconds, now);
    if !allowed then (Ceremony(st.claims, buckets), Err(TemporarilyUnavailable))
    else (Ceremony(st.claims[c.id := c], buckets), Ok(c))
  }

  ghost function VerifyUserCode(options: CeremonyOptions, st: Ceremony, hash: string, rateLimitKey: string,
                                enteredAt: int, checkedAt: int, now: int): (Ceremony, Reply)
  {
    var (buckets, allowed) := L.Take(L.Anchored, st.buckets, VerifyKey(rateLimitKey), options.claim.maxVerificationAttempts,
                                     options.verificationWindowSeconds, enteredAt);
    if !allowed then (Ceremony(st.claims, buckets), Err(AccessDenied))
    else
      match UserCodeOwner(st.claims, hash)
      case None => (Ceremony(st.claims, buckets), Err(InvalidGrant))
      case Some(id) =>
        var (claims', reply) := Perform(options.claim, st.claims, Verify, id, checkedAt, now);
        (Ceremony(claims', buckets), reply)
  }

  /**
    A wrong code, a right code that comes too late and a code already used all get the same answer, and
    a refusal by the limiter happens before the code is even looked up.
   */
  lemma VerifyAnswers(options: CeremonyOptions, st: Ceremony, hash: string, key: string, enteredAt: int, checkedAt: int, now: int)
    ensures
      var (st', reply) := VerifyUserCode(options, st, hash, key, enteredAt, checkedAt, now);
      && (reply.Ok? ==>
            && UserCodeOwner(st.claims, hash).Some?
            && var c := st.claims[UserCodeOwner(st.claims, hash).value];
               c.status.Pending? && c.userCodeUsedAt.None? && checkedAt < c.expiresAt && reply.value.status.UserVerified?)
      && (reply == Err(AccessDenied) && UserCodeOwner(st.claims, hash).None? ==> st'.claims == st.claims)
      && (options.claim.maxVerificationAttempts < 1 ==> reply == Err(AccessDenied) && st' == st)
      && var (buckets, allowed) := L.Take(L.Anchored, st.buckets, "claim-verify:" + key, options.claim.maxVerificationAttempts,
                                          options.verificationWindowSeconds, enteredAt);
         st'.buckets == buckets && (!allowed ==> reply == Err(AccessDenied) && st'.claims == st.claims)
  {
  }
}
