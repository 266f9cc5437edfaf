/**
  What the requests that decide on a grant and those that close it leave behind, record by record
  (packages/broker/src/broker.ts:129-221, 308-453).
 */
module BrokerOutcomes {
  import opened Wrappers
  import opened BrokerTypes
  import opened BrokerRules
  import opened StoreModel
  import opened BrokerModel
  import opened BrokerRuns
  import opened Doubling

  // --- exchange ---

  /** Everything a proposal has to name is there, and action and resource are well formed. */
  predicate Complete(p: Proposal) {
    && p.agentId != "" && p.subjectId != "" && p.subjectTokenId != "" && p.resource != "" && p.action != ""
    && p.dpopThumbprint != "" && p.requestedScope != [] && (forall i :: 0 <= i < |p.requestedScope| ==> p.requestedScope[i] != "")
    && p.wellFormed
  }

  /** Every scope is one the agent was registered for and the subject has. */
  predicate Authorized(scopes: seq<string>, a: Authority) {
    forall i :: 0 <= i < |scopes| ==> scopes[i] in a.registrationScopes && scopes[i] in a.subjectScopes
  }

  function Seconds(p: Proposal, maxTtlSeconds: int): int {
    if p.expiresInSeconds.Some? then p.expiresInSeconds.value else maxTtlSeconds
  }

  /** Which proposals become a grant, which grant, and what is wrong with the others. */
  lemma ProposalAnswers(p: Proposal, authority: Option<Authority>, decision: Decision, maxTtlSeconds: int,
                        id: string, reference: string, now: int)
    ensures Propose(p, authority, decision, maxTtlSeconds, id, reference, now) ==
            if !Complete(p) then Err(InvalidRequest)
            else if authority.None? then Err(InvalidCredential)
            else if p.resource !in authority.value.resources then Err(WrongAudience)
            else if !Authorized(p.requestedScope, authority.value) then Err(ScopeNotAuthorized)
            else if !(0 < Seconds(p, maxTtlSeconds) <= maxTtlSeconds) then Err(InvalidRequest)
            else Ok(Grant(id, if decision.Allow? then Approved else if decision.Block? then Denied else Proposed,
                          p.agentId, p.subjectId, p.subjectTokenId, p.action, p.resource, p.resourceOrigin,
                          p.requestedScope, p.requestedScope, p.dpopThumbprint, decision,
                          if decision.Allow? then Some("policy") else None,
                          if decision.RequireApproval? then Some(reference) else None,
                          if decision.Allow? then Some(now) else None,
                          now + Seconds(p, maxTtlSeconds) * 1000, None, None, None, None))
  {
    if authority.Some? {
      AllowedScopeWithin(p.requestedScope, authority.value);
    }
  }

  /** The grant an agent was given under this key before. */
  function Earlier(st: Store, p: Proposal): Option<string> {
    var key := p.agentId + ":" + (if p.idempotencyKey.Some? then p.idempotencyKey.value else "");
    if p.idempotencyKey.Some? && p.idempotencyKey.value != "" && key in st.idempotency && st.idempotency[key] in st.grants
    then Some(st.idempotency[key]) else None
  }

  predicate TokenTaken(st: Store, token: string, id: string) {
    token in st.subjectTokenGrant && st.subjectTokenGrant[token] != "" && st.subjectTokenGrant[token] != id
  }

  /** The audit events of a new grant. */
  function OpeningEvents(decision: Decision, now: int): seq<AuditEvent> {
    [AuditEvent(GrantProposed, now)]
    + if decision.Allow? then [AuditEvent(GrantApproved, now)]
      else if decision.Block? then [AuditEvent(GrantDenied, now)] else []
  }

  /** The store with a new grant, its token if it was allowed, its key if it has one, and its audit events. */
  function WithGrant(st: Store, p: Proposal, g: Grant, decision: Decision, now: int): Store {
    st.(grants := st.grants[g.id := g], order := st.order + [g.id],
        subjectTokenGrant := if decision.Allow? then st.subjectTokenGrant[p.subjectTokenId := g.id] else st.subjectTokenGrant,
        idempotency := if p.idempotencyKey.Some? && p.idempotencyKey.value != ""
                       then st.idempotency[p.agentId + ":" + p.idempotencyKey.value := g.id] else st.idempotency,
        audits := st.audits[g.id := OpeningEvents(decision, now)])
  }

  /**
    An exchange answers the grant given under its key before, changing nothing; it refuses a subject token that
    another grant has; and otherwise it stores a new grant, with its token if it was allowed, its key and its
    audit events.  A credential is answered exactly for a new allowed grant, if the signer works.
   */
  lemma ExchangeAnswers(st: Store, env: Env, p: Proposal, authority: Option<Authority>, decision: Decision,
                        grantId: string, reference: string, signs: bool)
    requires Inv(st) && grantId !in st.grants
    ensures
      var (st', r) := Exchange(st, env, p, authority, decision, grantId, reference, signs);
      var proposed := Propose(p, authority, decision, env.config.maxTtlSeconds, grantId, reference, env.now);
      if proposed.Err? then st' == st && r == Err(proposed.error)
      else if Earlier(st, p).Some? then
        var g := st.grants[Earlier(st, p).value];
        st' == st && r == Ok(Reply(g, g.approvalReference, None))
      else if decision.Allow? && TokenTaken(st, p.subjectTokenId, grantId) then st' == st && r == Err(TokenAlreadyExchanged)
      else
        && st' == WithGrant(st, p, proposed.value, decision, env.now)
        && r == (if decision.Block? then Ok(Reply(proposed.value, None, None))
                 else if decision.RequireApproval? then Ok(Reply(proposed.value, proposed.value.approvalReference, None))
                 else if signs then Ok(Reply(proposed.value, None, Some(Signed(Mint(proposed.value)))))
                 else Err(SigningFailed))
  {
    hide Propose, Inv, Mint, OpeningEvents, DecisionAudited, CreateExchangeGrant, Earlier, TokenTaken, IdempotencyKey;
    NewGrantUnknown(st, grantId);
    ProposedFor(p, authority, decision, env.config.maxTtlSeconds, grantId, reference, env.now);
    var proposed := Propose(p, authority, decision, env.config.maxTtlSeconds, grantId, reference, env.now);
    if proposed.Ok? {
      CreationAnswers(st, p, proposed.value, decision.Allow?);
      var created := CreateExchangeGrant(st, proposed.value, IdempotencyKey(p), decision.Allow?).0;
      OpeningIsAudited(created, grantId, decision, env.now);
    }
  }

  /** The three ways a creation can go. */
  lemma CreationAnswers(st: Store, p: Proposal, g: Grant, reserve: bool)
    requires g.id !in st.grants && g.subjectTokenId == p.subjectTokenId
    ensures
      var (st', creation) := CreateExchangeGrant(st, g, IdempotencyKey(p), reserve);
      if Earlier(st, p).Some? then st' == st && creation == Creation(st.grants[Earlier(st, p).value], false, true)
      else if reserve && TokenTaken(st, p.subjectTokenId, g.id) then st' == st && creation == Creation(g, false, false)
      else
        && creation == Creation(g, true, true)
        && st' == st.(grants := st.grants[g.id := g], order := st.order + [g.id],
                      subjectTokenGrant := if reserve then st.subjectTokenGrant[p.subjectTokenId := g.id] else st.subjectTokenGrant,
                      idempotency := if p.idempotencyKey.Some? && p.idempotencyKey.value != ""
                                     then st.idempotency[p.agentId + ":" + p.idempotencyKey.value := g.id] else st.idempotency)
  {
  }

  lemma OpeningIsAudited(st: Store, id: string, decision: Decision, now: int)
    ensures id !in st.audits ==>
              DecisionAudited(st, id, decision, now) == st.(audits := st.audits[id := OpeningEvents(decision, now)])
  {
    var e := AuditEvent(GrantProposed, now);
    assert [] + [e] == [e] && [e] + [] == [e];
  }

  lemma ProposedFor(p: Proposal, authority: Option<Authority>, decision: Decision, maxTtl: int, id: string, reference: string, now: int)
    ensures
      var r := Propose(p, authority, decision, maxTtl, id, reference, now);
      r.Ok? ==> r.value.id == id && r.value.subjectTokenId == p.subjectTokenId
  {
  }

  lemma NewGrantUnknown(st: Store, id: string)
    requires Inv(st) && id !in st.grants
    ensures id !in st.audits && id !in st.evidence && id !in st.deliveries
  {
    assert RecordOk(st, id);
  }

  // --- one grant per key ---

  lemma KeyStays(s: State, c: Call, key: string)
    requires Inv(s.store) && Valid(s, c) && key in s.store.idempotency && s.store.idempotency[key] in s.store.grants
    ensures
      var st' := Step(s, c).0.store;
      key in st'.idempotency && st'.idempotency[key] == s.store.idempotency[key] && st'.idempotency[key] in st'.grants
  {
    hide Inv, Finalize, Exchange, Approve, Consume, ExpireListed, RetryListed, CompleteCheck, VerifyCredential, Propose, Good, Valid;
    StepIsGood(s, c);
    GrantsStay(s.store, Step(s, c).0.store, s.store.idempotency[key]);
    match c.request
    case ExchangeRequest(p, authority, decision, grantId, reference, signs) =>
      ExchangeKeepsKeys(s, c, key);
    case ApproveRequest(id, approver, signs) => ApproveKeepsKeys(s.store, c.env, id, approver, signs);
    case ConsumeRequest(input) => ConsumeKeepsKeys(s, c.env, input);
    case FinalizeRequest(id, source, status) => FinalizeKeepsKeys(s.store, c.env, id, source, status);
    case CompleteRequest(id, _, _) => FinalizeKeepsKeys(s.store, c.env, id, Agent, Revoked);
    case ExpireDueRequest => ExpireKeepsKeys(s.store, c.env, Listing(s.store));
    case RetryRequest => RetryKeepsKeys(s.store, c.env, s.store.order);
    case EvidenceRequest(_) =>
    case Restart =>
  }

  lemma GrantsStay(st: Store, st': Store, id: string)
    requires Good(st, st') && id in st.grants
    ensures id in st'.grants
  {
    assert Evolves(st, st', id);
  }

  lemma ExchangeKeepsKeys(s: State, c: Call, key: string)
    requires Inv(s.store) && Valid(s, c) && c.request.ExchangeRequest? && key in s.store.idempotency
    requires s.store.idempotency[key] in s.store.grants
    ensures key in Step(s, c).0.store.idempotency && Step(s, c).0.store.idempotency[key] == s.store.idempotency[key]
  {
    hide Inv, Exchange, Propose;
    var r := c.request;
    ExchangeAnswers(s.store, c.env, r.p, r.authority, r.decision, r.grantId, r.reference, r.signs);
  }

  lemma ApproveKeepsKeys(st: Store, env: Env, id: string, approver: string, signs: bool)
    ensures Approve(st, env, id, approver, signs).0.idempotency == st.idempotency
  {
  }

  lemma ConsumeKeepsKeys(s: State, env: Env, input: ConsumeInput)
    ensures Consume(s, env, input).0.store.idempotency == s.store.idempotency
  {
  }

  lemma {:induction false} DeliverKeepsKeys(st: Store, env: Env, id: string, ds: seq<Delivery>)
    ensures DeliverAll(st, env, id, ds).idempotency == st.idempotency
  {
    if ds != [] {
      DeliverKeepsKeys(st, env, id, ds[..|ds| - 1]);
    }
  }

  lemma FinalizeKeepsKeys(st: Store, env: Env, id: string, source: Source, status: Status)
    ensures Finalize(st, env, id, source, status).0.idempotency == st.idempotency
  {
    hide DeliverAll, NewDeliveries, AuditFor;
    if id in st.grants {
      var settled := Settled(st, env, id, source, status);
      DeliverKeepsKeys(settled, env, id, Undelivered(DeliveriesFor(settled, id)));
    }
  }

  lemma {:induction false} ExpireKeepsKeys(st: Store, env: Env, grants: seq<Grant>)
    ensures ExpireListed(st, env, grants).0.idempotency == st.idempotency
  {
    hide Finalize;
    if grants != [] {
      var n := |grants| - 1;
      ExpireKeepsKeys(st, env, grants[..n]);
      FinalizeKeepsKeys(ExpireListed(st, env, grants[..n]).0, env, grants[n].id, Ttl, Expired);
    }
  }

  lemma {:induction false} RetryKeepsKeys(st: Store, env: Env, ids: seq<string>)
    ensures RetryListed(st, env, ids).idempotency == st.idempotency
  {
    hide DeliverAll;
    if ids != [] {
      var n := |ids| - 1;
      RetryKeepsKeys(st, env, ids[..n]);
      var rest := RetryListed(st, env, ids[..n]);
      DeliverKeepsKeys(rest, env, ids[n], DueForRetry(DeliveriesFor(rest, ids[n]), env.now));
    }
  }

  /** The request is an exchange by that agent under that key. */
  predicate AsksUnder(r: Request, agentId: string, key: string) {
    r.ExchangeRequest? && r.p.agentId == agentId && r.p.idempotencyKey == Some(key) && key != ""
  }

  lemma AnsweredKey(s: State, c: Call, agentId: string, key: string)
    requires Inv(s.store) && Valid(s, c) && AsksUnder(c.request, agentId, key) && Step(s, c).1.Replied? && Step(s, c).1.reply.Ok?
    ensures
      var st' := Step(s, c).0.store;
      var k := agentId + ":" + key;
      k in st'.idempotency && st'.idempotency[k] == Step(s, c).1.reply.value.grant.id && st'.idempotency[k] in st'.grants
  {
    hide Inv, Exchange, Propose;
    var r := c.request;
    ExchangeAnswers(s.store, c.env, r.p, r.authority, r.decision, r.grantId, r.reference, r.signs);
    ProposedFor(r.p, r.authority, r.decision, c.env.config.maxTtlSeconds, r.grantId, r.reference, c.env.now);
    if Earlier(s.store, r.p).Some? {
      StoredId(s.store, Earlier(s.store, r.p).value);
    }
  }

  lemma StoredId(st: Store, id: string)
    requires Inv(st) && id in st.grants
    ensures st.grants[id].id == id
  {
    assert RecordOk(st, id);
  }

  lemma LastIsAllowed(calls: seq<Call>, n: nat)
    requires Legal(calls) && n < |calls|
    ensures Valid(After(calls[..n]), calls[n]) && After(calls[..n + 1]) == Step(After(calls[..n]), calls[n]).0
  {
    hide Step;
    assert calls[..n + 1][..n] == calls[..n];
  }

  lemma {:induction false} KeyStaysLater(calls: seq<Call>, i: nat, j: nat, key: string)
    requires Legal(calls) && i <= j <= |calls|
    requires
      var st := After(calls[..i]).store;
      key in st.idempotency && st.idempotency[key] in st.grants
    ensures
      var st, st' := After(calls[..i]).store, After(calls[..j]).store;
      key in st'.idempotency && st'.idempotency[key] == st.idempotency[key] && st'.idempotency[key] in st'.grants
    decreases j
  {
    hide Step, Inv, Valid, After, Legal;
    if i < j {
      KeyStaysLater(calls, i, j - 1, key);
      LegalPrefix(calls, j - 1);
      Reachable(calls[..j - 1]);
      LastIsAllowed(calls, j - 1);
      KeyStays(After(calls[..j - 1]), calls[j - 1], key);
    }
  }

  lemma SecondAnswer(s: State, c: Call, agentId: string, key: string)
    requires Inv(s.store) && Valid(s, c) && AsksUnder(c.request, agentId, key) && Step(s, c).1.Replied? && Step(s, c).1.reply.Ok?
    requires agentId + ":" + key in s.store.idempotency && s.store.idempotency[agentId + ":" + key] in s.store.grants
    ensures Step(s, c).0.store == s.store
    ensures Step(s, c).1.reply.value.grant.id == s.store.idempotency[agentId + ":" + key]
    ensures Step(s, c).1.reply.value.credential.None?
  {
    hide Inv, Exchange, Propose;
    var r := c.request;
    ExchangeAnswers(s.store, c.env, r.p, r.authority, r.decision, r.grantId, r.reference, r.signs);
    StoredId(s.store, s.store.idempotency[agentId + ":" + key]);
  }

  /** Two exchanges of an agent under one key answer one grant, the second without a credential and without a trace. */
  lemma OneGrantPerKey(calls: seq<Call>, i: nat, j: nat, agentId: string, key: string)
    requires Legal(calls) && i < j < |calls| && AsksUnder(calls[i].request, agentId, key) && AsksUnder(calls[j].request, agentId, key)
    requires
      var first, second := Step(After(calls[..i]), calls[i]).1, Step(After(calls[..j]), calls[j]).1;
      first.Replied? && first.reply.Ok? && second.Replied? && second.reply.Ok?
    ensures
      var first, second := Step(After(calls[..i]), calls[i]).1.reply.value, Step(After(calls[..j]), calls[j]).1.reply.value;
      second.grant.id == first.grant.id && second.credential.None?
    ensures After(calls[..j + 1]).store == After(calls[..j]).store
  {
    hide Inv, Step, AsksUnder, After, Legal, Valid;
    LegalPrefix(calls, i);
    LegalPrefix(calls, j);
    Reachable(calls[..i]);
    Reachable(calls[..j]);
    LastIsAllowed(calls, i);
    LastIsAllowed(calls, j);
    AnsweredKey(After(calls[..i]), calls[i], agentId, key);
    KeyStaysLater(calls, i + 1, j, agentId + ":" + key);
    SecondAnswer(After(calls[..j]), calls[j], agentId, key);
  }

  // --- approval ---

  /**
    Approving: a proposed grant before its deadline whose subject token no other grant has becomes approved,
    with the approver and the time, and takes the token; a credential is answered if the signer works.  Every
    other approval changes nothing, and why it is refused.
   */
  lemma ApprovalAnswers(st: Store, env: Env, id: string, approver: string, signs: bool)
    requires Inv(st)
    ensures
      var (st', r) := Approve(st, env, id, approver, signs);
      if id !in st.grants then st' == st && r == Err(GrantNotFound)
      else
        var g := st.grants[id];
        if g.status.Expired? || g.expiresAt <= env.now then st' == st && r == Err(GrantExpired)
        else if g.status.Denied? then st' == st && r == Err(PolicyBlocked)
        else if !g.status.Proposed? then st' == st && r == Err(GrantNotApproved)
        else if TokenTaken(st, g.subjectTokenId, id) then st' == st && r == Err(TokenAlreadyExchanged)
        else
          var g' := g.(status := Approved, approver := Some(approver), issuedAt := Some(env.now));
          && st' == st.(grants := st.grants[id := g'], subjectTokenGrant := st.subjectTokenGrant[g.subjectTokenId := id],
                        audits := st.audits[id := AuditFor(st, id) + [AuditEvent(GrantApproved, env.now)]])
          && r == if signs then Ok(Reply(g', None, Some(Signed(Mint(g'))))) else Err(SigningFailed)
  {
    hide Inv, Mint;
  }

  // --- deliveries ---

  /** Milliseconds until a revocation is tried again after so many attempts. */
  function Wait(attempts: nat): int {
    if attempts == 1 then 2_000 else if attempts == 2 then 4_000 else if attempts == 3 then 8_000
    else if attempts == 4 then 16_000 else if attempts == 5 then 32_000 else 60_000
  }

  /** A delivery after one more attempt: delivered with the receipt of the relay, or failed and to be tried again. */
  function Tried(d: Delivery, env: Env): Delivery {
    var n := d.attempts + 1;
    match env.relay(d.id, n)
    case Some(receipt) => d.(status := Delivered, attempts := n, lastAttemptAt := Some(env.now), receipt := Some(receipt))
    case None => d.(status := Failed, attempts := n, lastAttemptAt := Some(env.now), nextAttemptAt := Some(env.now + Wait(n)), receipt := d.receipt)
  }

  lemma AttemptedIsTried(d: Delivery, env: Env)
    ensures Attempted(d, d.attempts + 1, env.now, env.relay(d.id, d.attempts + 1)) == Tried(d, env)
  {
    assert Power2(1) == 2 && Power2(2) == 4 && Power2(3) == 8 && Power2(4) == 16 && Power2(5) == 32;
  }

  /** The audit events of attempts at these deliveries. */
  function AttemptEvents(list: seq<Delivery>, env: Env): seq<AuditEvent> {
    if list == [] then []
    else
      var d := list[|list| - 1];
      AttemptEvents(list[..|list| - 1], env)
      + [AuditEvent(RevocationDelivery(env.relay(d.id, d.attempts + 1).Some?, d.attempts + 1), env.now)]
  }

  /** The listed deliveries of the grant have been tried once more, and the others have not. */
  ghost predicate TriedThose(st: Store, st': Store, env: Env, id: string, list: seq<Delivery>) {
    && id in st.deliveries && id in st'.deliveries && |st'.deliveries[id]| == |st.deliveries[id]|
    && (forall k :: 0 <= k < |st.deliveries[id]| ==>
          st'.deliveries[id][k] == if st.deliveries[id][k] in list then Tried(st.deliveries[id][k], env) else st.deliveries[id][k])
    && AuditFor(st', id) == AuditFor(st, id) + AttemptEvents(list, env)
    && (id in st.evidence <==> id in st'.evidence)
    && (id in st.evidence ==> st'.evidence[id] == st.evidence[id].(revocationDeliveries := st'.deliveries[id]))
  }

  lemma DeliverOneSays(st: Store, env: Env, id: string, k: nat)
    requires Inv(st) && id in st.deliveries && k < |st.deliveries[id]| && !st.deliveries[id][k].status.Delivered?
    ensures
      var d, st' := st.deliveries[id][k], DeliverOne(st, env, id, st.deliveries[id][k]);
      && id in st'.deliveries && st'.deliveries[id] == st.deliveries[id][k := Tried(d, env)]
      && AuditFor(st', id) == AuditFor(st, id) + [AuditEvent(RevocationDelivery(env.relay(d.id, d.attempts + 1).Some?, d.attempts + 1), env.now)]
      && (id in st.evidence <==> id in st'.evidence)
      && (id in st.evidence ==> st'.evidence[id] == st.evidence[id].(revocationDeliveries := st'.deliveries[id]))
  {
    hide Good, Inv, SameAt, Tried;
    DeliverOneIsGood(st, env, id, k);
    AttemptedIsTried(st.deliveries[id][k], env);
    DeliverOneLogs(st, env, id, st.deliveries[id][k]);
  }

  lemma DeliverOneLogs(st: Store, env: Env, id: string, d: Delivery)
    requires id in st.deliveries
    ensures
      var st' := DeliverOne(st, env, id, d);
      && id in st'.deliveries
      && AuditFor(st', id) == AuditFor(st, id) + [AuditEvent(RevocationDelivery(env.relay(d.id, d.attempts + 1).Some?, d.attempts + 1), env.now)]
      && (id in st.evidence <==> id in st'.evidence)
      && (id in st.evidence ==> st'.evidence[id] == st.evidence[id].(revocationDeliveries := st'.deliveries[id]))
  {
    hide PatchFirst;
  }

  lemma NoneTried(st: Store, env: Env, id: string)
    requires Inv(st) && id in st.deliveries
    ensures TriedThose(st, st, env, id, [])
  {
    assert RecordOk(st, id);
  }

  lemma OneMoreTried(st: Store, mid: Store, st': Store, env: Env, id: string, list: seq<Delivery>, d: Delivery, k: nat)
    requires TriedThose(st, mid, env, id, list) && k < |st.deliveries[id]| && st.deliveries[id][k] == d && d !in list
    requires forall j :: 0 <= j < |st.deliveries[id]| && j != k ==> st.deliveries[id][j] != d
    requires id in st'.deliveries && st'.deliveries[id] == mid.deliveries[id][k := Tried(d, env)]
    requires AuditFor(st', id) == AuditFor(mid, id) + [AuditEvent(RevocationDelivery(env.relay(d.id, d.attempts + 1).Some?, d.attempts + 1), env.now)]
    requires (id in mid.evidence <==> id in st'.evidence) && (id in mid.evidence ==> st'.evidence[id] == mid.evidence[id].(revocationDeliveries := st'.deliveries[id]))
    ensures TriedThose(st, st', env, id, list + [d])
  {
    hide Tried;
    assert (list + [d])[..|list|] == list;
    forall j | 0 <= j < |st.deliveries[id]|
      ensures st'.deliveries[id][j] == if st.deliveries[id][j] in list + [d] then Tried(st.deliveries[id][j], env) else st.deliveries[id][j]
    {
      assert st.deliveries[id][j] in list + [d] <==> st.deliveries[id][j] in list || st.deliveries[id][j] == d;
    }
  }

  lemma {:induction false} DeliverAllTries(st: Store, env: Env, id: string, list: seq<Delivery>)
    requires Inv(st) && id in st.deliveries && Attemptable(st, id, list)
    ensures TriedThose(st, DeliverAll(st, env, id, list), env, id, list)
  {
    hide Good, Inv, SameAt, Tried, DeliverOne, TriedThose;
    if list == [] {
      NoneTried(st, env, id);
    } else {
      var n := |list| - 1;
      var d := list[n];
      assert list == list[..n] + [d];
      DeliverAllTries(st, env, id, list[..n]);
      DeliverAllIsGood(st, env, id, list[..n]);
      var mid := DeliverAll(st, env, id, list[..n]);
      var k := ListedAt(st, id, list);
      StillThere(st, mid, env, id, list[..n], k);
      MidIsInv(st, mid);
      DeliverOneSays(mid, env, id, k);
      OneMoreTried(st, mid, DeliverOne(mid, env, id, d), env, id, list[..n], d, k);
    }
  }

  lemma StillThere(st: Store, mid: Store, env: Env, id: string, list: seq<Delivery>, k: nat)
    requires TriedThose(st, mid, env, id, list) && k < |st.deliveries[id]| && st.deliveries[id][k] !in list
    ensures k < |mid.deliveries[id]| && mid.deliveries[id][k] == st.deliveries[id][k]
  {
  }

  /** Where the last of the listed deliveries is stored. */
  lemma ListedAt(st: Store, id: string, list: seq<Delivery>) returns (k: nat)
    requires Inv(st) && id in st.deliveries && Attemptable(st, id, list) && list != []
    ensures k < |st.deliveries[id]| && st.deliveries[id][k] == list[|list| - 1] && !list[|list| - 1].status.Delivered?
    ensures list[|list| - 1] !in list[..|list| - 1]
    ensures forall j :: 0 <= j < |st.deliveries[id]| && j != k ==> st.deliveries[id][j] != list[|list| - 1]
  {
    var d := list[|list| - 1];
    assert d in list && d in DeliveriesFor(st, id);
    k :| 0 <= k < |st.deliveries[id]| && st.deliveries[id][k] == d;
    assert RecordOk(st, id);
    assert DistinctIds(st.deliveries[id]);
  }

  // --- closing ---

  /** The audit event of a closing: expired, completed by the agent, or revoked by anyone else. */
  function ClosingEvent(source: Source, status: Status): EventType {
    if status.Expired? then GrantExpiredEvent else if source.Agent? then GrantCompleted else GrantRevokedEvent
  }

  /** The deliveries of a closing before they are tried: one for every target. */
  ghost predicate FreshDeliveries(ds: seq<Delivery>, env: Env, id: string) {
    && |ds| == |env.config.targets|
    && forall k :: 0 <= k < |ds| ==> ds[k] == Delivery(env.ids.delivery(id, k), env.config.targets[k], Pending, 0, None, None, None)
  }

  lemma SettleSays(st: Store, env: Env, id: string, source: Source, status: Status)
    requires id in st.grants
    ensures
      var st', g := Settle(st, env, id, source, status), st.grants[id];
      && st'.grants == st.grants[id := g.(status := status, completedAt := Some(env.now), completionSource := Some(source),
                                          evidenceId := Some(env.ids.evidence(id)))]
      && AuditFor(st', id) == AuditFor(st, id) + [AuditEvent(ClosingEvent(source, status), env.now)]
      && id in st'.deliveries && FreshDeliveries(st'.deliveries[id], env, id)
      && id in st'.evidence
      && st'.evidence[id] == Evidence(env.ids.evidence(id), id, env.now, AuditFor(st', id), g.approver, source, st'.deliveries[id],
                                      env.now + env.config.retentionMs)
      && st'.subjectTokenGrant == st.subjectTokenGrant && st'.idempotency == st.idempotency
  {
  }

  /** What a closing leaves of a grant nobody has closed: status, log, evidence and one attempt at every target. */
  ghost predicate ClosedNow(st: Store, st': Store, e: Evidence, env: Env, id: string, source: Source, status: Status)
    requires id in st.grants
  {
    var g := st.grants[id];
    && st'.grants == st.grants[id := g.(status := status, completedAt := Some(env.now), completionSource := Some(source),
                                        evidenceId := Some(env.ids.evidence(id)))]
    && id in st'.deliveries && id in st'.evidence && st'.evidence[id] == e
    && e == Evidence(env.ids.evidence(id), id, env.now, AuditFor(st, id) + [AuditEvent(ClosingEvent(source, status), env.now)],
                     g.approver, source, st'.deliveries[id], env.now + env.config.retentionMs)
    && |st'.deliveries[id]| == |env.config.targets|
    && (forall k :: 0 <= k < |st'.deliveries[id]| ==>
          st'.deliveries[id][k] ==
            Tried(Delivery(env.ids.delivery(id, k), env.config.targets[k], Pending, 0, None, None, None), env))
    && e.timeline <= AuditFor(st', id)
  }

  /** A closing of a grant that is closed already: its record stays and every undelivered delivery is tried once more. */
  ghost predicate TriedAgain(st: Store, st': Store, e: Evidence, env: Env, id: string)
    requires id in st.evidence
  {
    && st'.grants == st.grants && id in st.deliveries && id in st'.deliveries && id in st'.evidence && st'.evidence[id] == e
    && e == st.evidence[id].(revocationDeliveries := st'.deliveries[id])
    && |st'.deliveries[id]| == |st.deliveries[id]|
    && forall k :: 0 <= k < |st.deliveries[id]| ==>
         st'.deliveries[id][k] == if st.deliveries[id][k].status.Delivered? then st.deliveries[id][k] else Tried(st.deliveries[id][k], env)
  }

  lemma PendingTried(st: Store, env: Env, id: string)
    requires Inv(st) && id in st.deliveries
    ensures
      var st' := DeliverPending(st, env, id);
      && st'.grants == st.grants && id in st'.deliveries && |st'.deliveries[id]| == |st.deliveries[id]|
      && (forall k :: 0 <= k < |st.deliveries[id]| ==>
            st'.deliveries[id][k] == if st.deliveries[id][k].status.Delivered? then st.deliveries[id][k] else Tried(st.deliveries[id][k], env))
      && AuditFor(st, id) <= AuditFor(st', id)
      && (id in st.evidence <==> id in st'.evidence)
      && (id in st.evidence ==> st'.evidence[id] == st.evidence[id].(revocationDeliveries := st'.deliveries[id]))
  {
    hide Good, Inv, SameAt, Tried, DeliverAll;
    DistinctOf(st, id);
    UndeliveredAttemptable(DeliveriesFor(st, id));
    DeliverAllTries(st, env, id, Undelivered(DeliveriesFor(st, id)));
    DeliverPendingIsGood(st, env, id);
  }

  lemma DistinctOf(st: Store, id: string)
    requires Inv(st)
    ensures DistinctIds(DeliveriesFor(st, id))
  {
    assert RecordOk(st, id);
  }

  /**
    Completing, revoking and expiring: unknown and denied grants are refused without a trace; the first closing
    of a grant settles it, and any later one answers the record of the first and tries what is not delivered.
   */
  lemma ClosingAnswers(st: Store, env: Env, id: string, source: Source, status: Status)
    requires Inv(st) && FreshIds(env.ids) && Final(status)
    ensures
      var (st', r) := Finalize(st, env, id, source, status);
      if id !in st.grants then st' == st && r == Err(GrantNotFound)
      else if st.grants[id].status.Denied? then st' == st && r == Err(GrantNotApproved)
      else r.Ok? && (if id in st.evidence then TriedAgain(st, st', r.value, env, id) else ClosedNow(st, st', r.value, env, id, source, status))
  {
    hide Good, Inv, SameAt, Tried, DeliverPending, Settle;
    DeniedIsOpen(st, id);
    if id in st.grants && (id in st.evidence || !st.grants[id].status.Denied?) {
      var settled := Settled(st, env, id, source, status);
      FinalizeMoves(st, env, id, source, status);
      MidIsInv(st, settled);
      if id !in st.evidence {
        SettleSays(st, env, id, source, status);
        PendingTried(settled, env, id);
      } else {
        EvidenceHasDeliveries(st, id);
        PendingTried(st, env, id);
      }
    }
  }

  lemma DeniedIsOpen(st: Store, id: string)
    requires Inv(st)
    ensures id in st.grants && st.grants[id].status.Denied? ==> id !in st.evidence
  {
    assert RecordOk(st, id);
  }

  lemma EvidenceHasDeliveries(st: Store, id: string)
    requires Inv(st) && id in st.evidence
    ensures id in st.deliveries && id in st.grants
  {
    assert RecordOk(st, id);
  }

  // --- retries ---

  /** The delivery is not done and its time has come. */
  predicate DueAgain(d: Delivery, now: int) {
    !d.status.Delivered? && (d.nextAttemptAt.None? || d.nextAttemptAt.value <= now)
  }

  ghost predicate RetriedAt(st: Store, st': Store, env: Env, id: string) {
    && (id in st.deliveries <==> id in st'.deliveries)
    && (id in st.deliveries ==>
          && |st'.deliveries[id]| == |st.deliveries[id]|
          && forall k :: 0 <= k < |st.deliveries[id]| ==>
               st'.deliveries[id][k] == if DueAgain(st.deliveries[id][k], env.now) then Tried(st.deliveries[id][k], env) else st.deliveries[id][k])
  }

  lemma RetryOne(st: Store, env: Env, id: string)
    requires Inv(st)
    ensures
      var st' := DeliverAll(st, env, id, DueForRetry(DeliveriesFor(st, id), env.now));
      RetriedAt(st, st', env, id) && Good(st, st') && forall i :: i != id ==> SameAt(st, st', i)
  {
    hide Good, Inv, SameAt, Tried, DeliverAll;
    DistinctOf(st, id);
    DueAttemptable(DeliveriesFor(st, id), env.now);
    var due := DueForRetry(DeliveriesFor(st, id), env.now);
    DeliverAllIsGood(st, env, id, due);
    if id in st.deliveries {
      DeliverAllTries(st, env, id, due);
    }
  }

  ghost predicate RetriedTo(st: Store, st': Store, env: Env, ids: seq<string>) {
    && Good(st, st') && (forall id :: id in ids ==> RetriedAt(st, st', env, id))
    && (forall id :: id !in ids ==> SameAt(st, st', id))
  }

  lemma {:induction false} RetryListedTries(st: Store, env: Env, ids: seq<string>)
    requires Inv(st) && forall i, j :: 0 <= i < j < |ids| ==> ids[i] != ids[j]
    ensures RetriedTo(st, RetryListed(st, env, ids), env, ids)
  {
    hide Good, SameAt, RetriedAt, Inv;
    NothingRetried(st, env);
    if ids != [] {
      var n := |ids| - 1;
      RetryListedTries(st, env, ids[..n]);
      var mid := RetryListed(st, env, ids[..n]);
      MidIsInv(st, mid);
      RetryOne(mid, env, ids[n]);
      assert ids == ids[..n] + [ids[n]] && ids[n] !in ids[..n];
      RetryListedIsGood(st, env, ids);
      OneMoreRetried(st, mid, RetryListed(st, env, ids), env, ids[..n], ids[n]);
    }
  }

  lemma NothingRetried(st: Store, env: Env)
    requires Inv(st)
    ensures RetriedTo(st, st, env, [])
  {
    NoChangeIsGood(st);
  }

  lemma OneMoreRetried(st: Store, mid: Store, st': Store, env: Env, ids: seq<string>, id: string)
    requires RetriedTo(st, mid, env, ids) && id !in ids && RetriedAt(mid, st', env, id)
    requires Good(mid, st') && (forall i :: i != id ==> SameAt(mid, st', i)) && Good(st, st')
    ensures RetriedTo(st, st', env, ids + [id])
  {
    hide Good;
    forall i | i in ids + [id] ensures RetriedAt(st, st', env, i) {
      assert i in ids || i == id;
      if i in ids {
        assert RetriedAt(st, mid, env, i) && SameAt(mid, st', i);
      } else {
        assert SameAt(st, mid, i);
      }
    }
    forall i | i !in ids + [id] ensures SameAt(st, st', i) {
      assert i !in ids && i != id by { assert id in ids + [id]; }
      SameAtAdds(st, mid, st', i);
    }
  }

  /** Retrying tries exactly the deliveries that are not done and due, of every grant, once. */
  lemma RetryAnswers(st: Store, env: Env, id: string)
    requires Inv(st)
    ensures RetriedAt(st, RetryListed(st, env, st.order), env, id)
    ensures RetryListed(st, env, st.order).grants == st.grants
  {
    hide Good, Inv, RetryListed;
    RetryListedIsGood(st, env, st.order);
    OrderIsWhole(st);
    RetryListedTries(st, env, st.order);
    if id !in st.order {
      UnlistedHasNone(st, id);
    }
  }

  lemma OrderIsWhole(st: Store)
    requires Inv(st)
    ensures forall i, j :: 0 <= i < j < |st.order| ==> st.order[i] != st.order[j]
  {
  }

  lemma UnlistedHasNone(st: Store, id: string)
    requires Inv(st) && id !in st.order
    ensures id !in st.deliveries
  {
    assert RecordOk(st, id);
  }
}
