/**
  Runs of the broker, one request after the other: what every run keeps about statuses, audit logs,
  evidence and deliveries, and that restarts between requests cannot be noticed.
 */
module BrokerRuns {
  import opened Wrappers
  import opened BrokerTypes
  import opened BrokerRules
  import opened StoreModel
  import opened BrokerModel
  import Dpop

  /** `FinalizeRequest` stands for `complete`, `revoke` and `expire`. */
  datatype Request =
    | ExchangeRequest(p: Proposal, authority: Option<Authority>, decision: Decision, grantId: string,
                      reference: string, signs: bool)
    | ApproveRequest(id: string, approver: string, signs: bool)
    | ConsumeRequest(input: ConsumeInput)
    | FinalizeRequest(id: string, source: Source, status: Status)
    | CompleteRequest(id: string, credential: Credential, proof: RequestProof)
    | ExpireDueRequest
    | RetryRequest
    | EvidenceRequest(id: string)
    | Restart

  datatype Response =
    | Replied(reply: Result<Reply, Error>)
    | Used(grant: Result<Grant, Error>)
    | Closed(evidence: Result<Evidence, Error>)
    | Swept(expired: Result<seq<Evidence>, Error>)
    | Found(record: Option<Evidence>)
    | Nothing

  datatype Call = Call(env: Env, request: Request)

  const Initial := State(EmptyStore, map[])

  function Listing(st: Store): seq<Grant> {
    if forall i :: 0 <= i < |st.order| ==> st.order[i] in st.grants then ListGrants(st) else []
  }

  /** A restart loses dead replay entries and nothing else; `RecreatedState` is the proof. */
  function Step(s: State, c: Call): (State, Response) {
    var env := c.env;
    match c.request
    case ExchangeRequest(p, authority, decision, grantId, reference, signs) =>
      var (st, r) := Exchange(s.store, env, p, authority, decision, grantId, reference, signs);
      (State(st, s.seen), Replied(r))
    case ApproveRequest(id, approver, signs) =>
      var (st, r) := Approve(s.store, env, id, approver, signs);
      (State(st, s.seen), Replied(r))
    case ConsumeRequest(input) =>
      var (s', r) := Consume(s, env, input);
      (s', Used(r))
    case FinalizeRequest(id, source, status) =>
      var (st, r) := Finalize(s.store, env, id, source, status);
      (State(st, s.seen), Closed(r))
    case CompleteRequest(id, credential, proof) =>
      var (s', r) := CompleteAuthenticated(s, env, id, credential, proof);
      (s', Closed(r))
    case ExpireDueRequest =>
      var (st, r) := ExpireListed(s.store, env, Listing(s.store));
      (State(st, s.seen), Swept(r))
    case RetryRequest => (State(RetryListed(s.store, env, s.store.order), s.seen), Nothing)
    case EvidenceRequest(id) =>
      (s, Found(if id in s.store.evidence then Some(s.store.evidence[id]) else None))
    case Restart => (State(s.store, Dpop.Prune(s.seen, env.now)), Nothing)
  }

  function After(calls: seq<Call>): State {
    if calls == [] then Initial else Step(After(calls[..|calls| - 1]), calls[|calls| - 1]).0
  }

  /** Drawn ids are new; `expire` closes with the source `ttl`, `complete` and `revoke` with any. */
  ghost predicate Valid(s: State, c: Call) {
    && FreshIds(c.env.ids)
    && (c.request.ExchangeRequest? ==> c.request.grantId !in s.store.grants && c.request.grantId != "")
    && (c.request.FinalizeRequest? ==>
          Final(c.request.status) && (c.request.status.Expired? ==> c.request.source.Ttl?))
  }

  ghost predicate Legal(calls: seq<Call>) {
    forall i {:trigger calls[i]} :: 0 <= i < |calls| ==> Valid(After(calls[..i]), calls[i])
  }

  // --- the invariant ---

  /** The status an audit log ends in, deliveries aside. */
  function StatusOf(events: seq<AuditEvent>): Option<Status> {
    if events == [] then None
    else
      match events[|events| - 1].event
      case GrantProposed => Some(Proposed)
      case GrantApproved => Some(Approved)
      case GrantDenied => Some(Denied)
      case GrantConsumed => Some(Consumed)
      case GrantCompleted => Some(Revoked)
      case GrantRevokedEvent => Some(Revoked)
      case GrantExpiredEvent => Some(Expired)
      case RevocationDelivery(_, _) => StatusOf(events[..|events| - 1])
  }

  ghost predicate EvidenceOk(st: Store, id: string)
    requires id in st.grants && id in st.evidence
  {
    && id in st.deliveries && DistinctIds(st.deliveries[id])
    && st.evidence[id].revocationDeliveries == st.deliveries[id]
    && st.evidence[id].grantId == id
    && st.grants[id].evidenceId == Some(st.evidence[id].id)
    && st.grants[id].completionSource == Some(st.evidence[id].completionSource)
    && st.evidence[id].timeline <= AuditFor(st, id)
  }

  ghost predicate OwnsToken(st: Store, id: string)
    requires id in st.grants
  {
    var token := st.grants[id].subjectTokenId;
    token in st.subjectTokenGrant && st.subjectTokenGrant[token] == id
  }

  ghost predicate RecordOk(st: Store, id: string) {
    if id !in st.grants then id !in st.audits && id !in st.evidence && id !in st.deliveries
    else
      var g := st.grants[id];
      && g.id == id && id != ""
      && StatusOf(AuditFor(st, id)) == Some(g.status)
      && (id in st.evidence <==> Final(g.status))
      && (id in st.evidence <==> g.evidenceId.Some?)
      && (id in st.deliveries ==> id in st.evidence)
      && (id in st.evidence ==> EvidenceOk(st, id))
      && (g.status.Approved? || g.status.Consumed? ==> OwnsToken(st, id))
  }

  ghost predicate OrderOk(st: Store) {
    && (forall i :: 0 <= i < |st.order| ==> st.order[i] in st.grants)
    && (forall i, j :: 0 <= i < j < |st.order| ==> st.order[i] != st.order[j])
    && (forall id :: id in st.grants ==> id in st.order)
  }

  ghost predicate Inv(st: Store) {
    && OrderOk(st)
    && (forall id :: RecordOk(st, id))
    && (forall token :: token in st.subjectTokenGrant ==> st.subjectTokenGrant[token] != "")
  }

  lemma InvIsKeyed(st: Store)
    requires Inv(st)
    ensures Keyed(st)
  {
    forall id | id in st.grants || id in st.evidence ensures id in st.grants && st.grants[id].id == id {
      assert RecordOk(st, id);
    }
    forall id | id in st.evidence ensures st.evidence[id].grantId == id { assert RecordOk(st, id); }
  }

  // --- what a request may change ---

  /** The evidence record apart from its copy of the deliveries. */
  ghost predicate SameEvidence(e: Evidence, e': Evidence) {
    e' == e.(revocationDeliveries := e'.revocationDeliveries)
  }

  /** The same deliveries in the same order; one that is delivered never changes again. */
  ghost predicate DeliveriesEvolve(ds: seq<Delivery>, ds': seq<Delivery>) {
    && |ds| == |ds'|
    && forall k :: 0 <= k < |ds| ==> DeliveryEvolves(ds[k], ds'[k])
  }

  ghost predicate DeliveryEvolves(d: Delivery, d': Delivery) {
    && d'.id == d.id && d'.target == d.target && d.attempts <= d'.attempts
    && (d.status.Delivered? ==> d' == d)
  }

  ghost predicate Evolves(st: Store, st': Store, id: string) {
    && AuditFor(st, id) <= AuditFor(st', id)
    && (id in st.grants ==> id in st'.grants)
    && (id in st.evidence ==> id in st'.evidence && SameEvidence(st.evidence[id], st'.evidence[id]))
    && (id in st.deliveries ==> id in st'.deliveries && DeliveriesEvolve(st.deliveries[id], st'.deliveries[id]))
  }

  ghost predicate FollowsTable(st: Store, st': Store, id: string) {
    id in st'.grants ==>
      if id in st.grants
      then st'.grants[id].status == st.grants[id].status || LegalEdge(Some(st.grants[id].status), st'.grants[id].status)
      else LegalEdge(None, st'.grants[id].status)
  }

  ghost predicate OwnersKept(st: Store, st': Store) {
    forall token :: token in st.subjectTokenGrant ==>
      token in st'.subjectTokenGrant && st'.subjectTokenGrant[token] == st.subjectTokenGrant[token]
  }

  ghost predicate SameAt(st: Store, st': Store, id: string) {
    && (id in st.grants <==> id in st'.grants) && (id in st.grants ==> st.grants[id] == st'.grants[id])
    && (id in st.audits <==> id in st'.audits) && (id in st.audits ==> st.audits[id] == st'.audits[id])
    && (id in st.evidence <==> id in st'.evidence) && (id in st.evidence ==> st.evidence[id] == st'.evidence[id])
    && (id in st.deliveries <==> id in st'.deliveries)
    && (id in st.deliveries ==> st.deliveries[id] == st'.deliveries[id])
  }

  ghost predicate Good(st: Store, st': Store) {
    && Inv(st') && OwnersKept(st, st')
    && (forall id :: Evolves(st, st', id))
    && (forall id :: FollowsTable(st, st', id))
  }

  /** A request that touches the records of one grant only. */
  lemma TouchesOne(st: Store, st': Store, id: string)
    requires Inv(st) && OrderOk(st') && OwnersKept(st, st')
    requires forall token :: token in st'.subjectTokenGrant ==> st'.subjectTokenGrant[token] != ""
    requires forall i :: i != id ==> SameAt(st, st', i)
    requires RecordOk(st', id) && Evolves(st, st', id) && FollowsTable(st, st', id)
    ensures Good(st, st')
  {
    forall i ensures RecordOk(st', i) && Evolves(st, st', i) && FollowsTable(st, st', i) {
      assert RecordOk(st, i);
      if i != id {
        assert SameAt(st, st', i);
      }
    }
  }

  lemma NoChangeIsGood(st: Store)
    requires Inv(st)
    ensures Good(st, st)
  {
  }

  // --- one request at a time ---

  lemma ExchangeIsGood(st: Store, env: Env, p: Proposal, authority: Option<Authority>, decision: Decision,
                       grantId: string, reference: string, signs: bool)
    requires Inv(st) && grantId !in st.grants && grantId != ""
    ensures Good(st, Exchange(st, env, p, authority, decision, grantId, reference, signs).0)
  {
    var proposed := Propose(p, authority, decision, env.config.maxTtlSeconds, grantId, reference, env.now);
    NoChangeIsGood(st);
    if proposed.Ok? {
      var g := proposed.value;
      ProposedGrant(p, authority, decision, env.config.maxTtlSeconds, grantId, reference, env.now);
      var (created, creation) := CreateExchangeGrant(st, g, IdempotencyKey(p), decision.Allow?);
      if creation.created {
        assert RecordOk(st, grantId);
        DecisionStatus(created, grantId, decision, env.now);
        CreatedRecord(st, DecisionAudited(created, grantId, decision, env.now), g);
      }
    }
  }

  lemma ProposedGrant(p: Proposal, authority: Option<Authority>, decision: Decision, maxTtl: int,
                      id: string, reference: string, now: int)
    ensures
      var r := Propose(p, authority, decision, maxTtl, id, reference, now);
      r.Ok? ==> r.value.id == id && r.value.evidenceId.None? && LegalEdge(None, r.value.status) &&
                r.value.status == match decision case Block => Denied case Allow => Approved case RequireApproval => Proposed
  {
  }

  lemma DecisionStatus(st: Store, id: string, decision: Decision, now: int)
    requires id !in st.audits
    ensures
      var st' := DecisionAudited(st, id, decision, now);
      && st' == st.(audits := st.audits[id := AuditFor(st', id)])
      && StatusOf(AuditFor(st', id))
         == Some(match decision case Block => Denied case Allow => Approved case RequireApproval => Proposed)
  {
  }

  /** A new grant with the audit events of its decision. */
  lemma CreatedRecord(st: Store, st': Store, g: Grant)
    requires Inv(st) && g.id !in st.grants && g.id != "" && g.evidenceId.None? && LegalEdge(None, g.status)
    requires st'.grants == st.grants[g.id := g] && st'.order == st.order + [g.id]
    requires st'.evidence == st.evidence && st'.deliveries == st.deliveries
    requires st'.audits == st.audits[g.id := AuditFor(st', g.id)]
    requires StatusOf(AuditFor(st', g.id)) == Some(g.status)
    requires OwnersKept(st, st') && (forall token :: token in st'.subjectTokenGrant ==> st'.subjectTokenGrant[token] != "")
    requires g.status.Approved? ==> OwnsToken(st', g.id)
    ensures Good(st, st')
  {
    assert RecordOk(st, g.id);
    assert OrderOk(st');
    TouchesOne(st, st', g.id);
  }

  /** A new status with its audit event, nothing else: approval and consumption. */
  lemma StatusChange(st: Store, st': Store, id: string, g': Grant, event: EventType, now: int)
    requires Inv(st) && id in st.grants && id !in st.evidence
    requires g'.id == id && g'.evidenceId.None? && g'.subjectTokenId == st.grants[id].subjectTokenId
    requires LegalEdge(Some(st.grants[id].status), g'.status) && !Final(g'.status)
    requires StatusOf([AuditEvent(event, now)]) == Some(g'.status) && !event.RevocationDelivery?
    requires id in st'.grants
    requires OwnersKept(st, st') && (g'.status.Approved? || g'.status.Consumed? ==> OwnsToken(st', id))
    requires forall token :: token in st'.subjectTokenGrant ==> st'.subjectTokenGrant[token] != ""
    requires st' == Audit(PutGrant(st, id, g'), id, event, now).(subjectTokenGrant := st'.subjectTokenGrant)
    ensures Good(st, st')
  {
    assert RecordOk(st, id);
    assert AuditFor(st', id) == AuditFor(st, id) + [AuditEvent(event, now)];
    TouchesOne(st, st', id);
  }

  lemma ApproveIsGood(st: Store, env: Env, id: string, approver: string, signs: bool)
    requires Inv(st)
    ensures Good(st, Approve(st, env, id, approver, signs).0)
  {
    NoChangeIsGood(st);
    if id in st.grants && ApproveCheck(st.grants[id], env.now).None? {
      assert RecordOk(st, id);
      var g := st.grants[id];
      var (reserved, ok) := ReserveSubjectToken(st, g.subjectTokenId, id);
      if ok {
        var st' := Approve(st, env, id, approver, signs).0;
        StatusChange(st, st', id, ApprovedBy(g, approver, env.now), GrantApproved, env.now);
      }
    }
  }

  lemma ConsumeIsGood(s: State, env: Env, input: ConsumeInput)
    requires Inv(s.store)
    ensures Good(s.store, Consume(s, env, input).0.store)
  {
    NoChangeIsGood(s.store);
    var (s', r) := Consume(s, env, input);
    if r.Ok? {
      var id := input.credential.claims.grantId;
      assert RecordOk(s.store, id);
      StatusChange(s.store, s'.store, id, r.value, GrantConsumed, env.now);
    }
  }

  lemma SettleIsGood(st: Store, env: Env, id: string, source: Source, status: Status)
    requires Inv(st) && FreshIds(env.ids) && id in st.grants && id !in st.evidence
    requires !st.grants[id].status.Denied? && Final(status)
    ensures Good(st, Settle(st, env, id, source, status))
    ensures forall i :: i != id ==> SameAt(st, Settle(st, env, id, source, status), i)
  {
    hide Settle, RecordOk, Evolves, FollowsTable, SameAt;
    FactsAt(st, id);
    SettleElsewhere(st, env, id, source, status);
    SettleHere(st, env, id, source, status);
    TouchesOne(st, Settle(st, env, id, source, status), id);
  }

  lemma SettleElsewhere(st: Store, env: Env, id: string, source: Source, status: Status)
    requires Inv(st) && id in st.grants
    ensures
      var st' := Settle(st, env, id, source, status);
      && OrderOk(st') && OwnersKept(st, st') && st'.subjectTokenGrant == st.subjectTokenGrant
      && forall i :: i != id ==> SameAt(st, st', i)
  {
    hide RecordOk, AuditFor, NewDeliveries;
  }

  lemma SettleHere(st: Store, env: Env, id: string, source: Source, status: Status)
    requires RecordOk(st, id) && FreshIds(env.ids) && id in st.grants && id !in st.evidence
    requires !st.grants[id].status.Denied? && Final(status)
    ensures
      var st' := Settle(st, env, id, source, status);
      RecordOk(st', id) && Evolves(st, st', id) && FollowsTable(st, st', id)
  {
    var st' := Settle(st, env, id, source, status);
    assert AuditFor(st', id) == AuditFor(st, id) + [AuditEvent(FinalEvent(source, status), env.now)];
    assert DistinctIds(st'.deliveries[id]);
  }

  // --- deliveries ---

  lemma DeliverOneIsGood(st: Store, env: Env, id: string, k: nat)
    requires Inv(st) && id in st.deliveries && k < |st.deliveries[id]| && !st.deliveries[id][k].status.Delivered?
    ensures
      var d := st.deliveries[id][k];
      var st' := DeliverOne(st, env, id, d);
      && Good(st, st') && (forall i :: i != id ==> SameAt(st, st', i)) && st'.grants == st.grants
      && st'.order == st.order && id in st'.deliveries
      && st'.deliveries[id] == st.deliveries[id][k := Attempted(d, d.attempts + 1, env.now, env.relay(d.id, d.attempts + 1))]
  {
    hide DeliverOne, Evolves, FollowsTable, SameAt, Attempted;
    FactsAt(st, id);
    DeliverOneElsewhere(st, env, id, st.deliveries[id][k]);
    DeliverOneHere(st, env, id, k);
    TouchesOne(st, DeliverOne(st, env, id, st.deliveries[id][k]), id);
  }

  lemma DeliverOneElsewhere(st: Store, env: Env, id: string, d: Delivery)
    requires Inv(st) && id in st.deliveries
    ensures
      var st' := DeliverOne(st, env, id, d);
      && OrderOk(st') && OwnersKept(st, st') && st'.subjectTokenGrant == st.subjectTokenGrant
      && st'.grants == st.grants && st'.order == st.order
      && forall i :: i != id ==> SameAt(st, st', i)
  {
    hide RecordOk, AuditFor, Attempted, PatchFirst, SameAt;
    forall i | i != id ensures SameAt(st, DeliverOne(st, env, id, d), i) { DeliverTouchesOne(st, env, id, d, i); }
  }

  lemma DeliverTouchesOne(st: Store, env: Env, id: string, d: Delivery, i: string)
    requires i != id
    ensures SameAt(st, DeliverOne(st, env, id, d), i)
  {
    hide UpdateDelivery, Audit, SameAt;
    var receipt := env.relay(d.id, d.attempts + 1);
    var updated := UpdateDelivery(st, id, d.id, d.attempts + 1, env.now, receipt);
    UpdateTouchesOne(st, id, d.id, d.attempts + 1, env.now, receipt, i);
    AuditTouchesOne(updated, id, RevocationDelivery(receipt.Some?, d.attempts + 1), env.now, i);
    SameAtAdds(st, updated, DeliverOne(st, env, id, d), i);
  }

  lemma UpdateTouchesOne(st: Store, id: string, deliveryId: string, attempts: nat, now: int, receipt: Option<string>, i: string)
    requires i != id
    ensures SameAt(st, UpdateDelivery(st, id, deliveryId, attempts, now, receipt), i)
  {
    hide UpdateDelivery;
    UpdatedMaps(st, id, deliveryId, attempts, now, receipt);
    var st' := UpdateDelivery(st, id, deliveryId, attempts, now, receipt);
    ElsewhereIn(st.evidence, st'.evidence, id, i);
    ElsewhereIn(st.deliveries, st'.deliveries, id, i);
  }

  /** The map may have changed at one key. */
  ghost predicate ChangedAt<V>(a: map<string, V>, b: map<string, V>, id: string) {
    b == a || (id in a && id in b && b == a[id := b[id]])
  }

  lemma UpdatedMaps(st: Store, id: string, deliveryId: string, attempts: nat, now: int, receipt: Option<string>)
    ensures
      var st' := UpdateDelivery(st, id, deliveryId, attempts, now, receipt);
      && st'.grants == st.grants && st'.audits == st.audits
      && ChangedAt(st.evidence, st'.evidence, id) && ChangedAt(st.deliveries, st'.deliveries, id)
  {
    hide PatchFirst, DeliveriesFor;
  }

  lemma ElsewhereIn<V>(a: map<string, V>, b: map<string, V>, id: string, i: string)
    requires ChangedAt(a, b, id) && i != id
    ensures (i in a <==> i in b) && (i in a ==> a[i] == b[i])
  {
  }

  lemma AuditTouchesOne(st: Store, id: string, event: EventType, now: int, i: string)
    requires i != id
    ensures SameAt(st, Audit(st, id, event, now), i)
  {
    hide AuditFor;
  }

  lemma DeliverOneHere(st: Store, env: Env, id: string, k: nat)
    requires RecordOk(st, id) && id in st.grants && id in st.deliveries && k < |st.deliveries[id]|
    requires !st.deliveries[id][k].status.Delivered?
    ensures
      var d := st.deliveries[id][k];
      var st' := DeliverOne(st, env, id, d);
      && RecordOk(st', id) && Evolves(st, st', id) && FollowsTable(st, st', id) && id in st'.deliveries
      && st'.deliveries[id] == st.deliveries[id][k := Attempted(d, d.attempts + 1, env.now, env.relay(d.id, d.attempts + 1))]
  {
    var ds := st.deliveries[id];
    var d := ds[k];
    var receipt := env.relay(d.id, d.attempts + 1);
    PatchFirstAt(ds, k, d.attempts + 1, env.now, receipt);
    var st' := DeliverOne(st, env, id, d);
    assert st'.deliveries[id] == ds[k := Attempted(d, d.attempts + 1, env.now, receipt)];
    var event := AuditEvent(RevocationDelivery(receipt.Some?, d.attempts + 1), env.now);
    assert AuditFor(st', id) == AuditFor(st, id) + [event];
    assert StatusOf(AuditFor(st', id)) == StatusOf(AuditFor(st, id)) by {
      assert AuditFor(st', id)[..|AuditFor(st, id)|] == AuditFor(st, id);
    }
    assert EvidenceOk(st', id);
  }

  /** What a list of deliveries about to be attempted looks like: stored, distinct and not delivered. */
  ghost predicate Attemptable(st: Store, id: string, list: seq<Delivery>) {
    && DistinctIds(list)
    && forall d :: d in list ==> !d.status.Delivered? && d in DeliveriesFor(st, id)
  }

  lemma EvolvesTransitive(a: Store, b: Store, c: Store, id: string)
    requires Evolves(a, b, id) && Evolves(b, c, id)
    ensures Evolves(a, c, id)
  {
    if id in a.deliveries {
      forall k | 0 <= k < |a.deliveries[id]| ensures DeliveryEvolves(a.deliveries[id][k], c.deliveries[id][k]) {
        assert DeliveryEvolves(a.deliveries[id][k], b.deliveries[id][k]);
        assert DeliveryEvolves(b.deliveries[id][k], c.deliveries[id][k]);
      }
    }
  }

  /** Attempts leave grants alone, so the table is followed trivially. */
  lemma GoodThenSameGrants(a: Store, b: Store, c: Store)
    requires Good(a, b) && Good(b, c) && c.grants == b.grants
    ensures Good(a, c)
  {
    forall id ensures Evolves(a, c, id) && FollowsTable(a, c, id) {
      EvolvesTransitive(a, b, c, id);
      assert FollowsTable(a, b, id);
    }
  }

  ghost predicate Attempts(st: Store, st': Store, id: string, list: seq<Delivery>) {
    && Good(st, st') && (forall i :: i != id ==> SameAt(st, st', i))
    && st'.grants == st.grants && st'.order == st.order
    && (id in st.deliveries <==> id in st'.deliveries)
    && (forall d :: d in DeliveriesFor(st, id) && (forall e :: e in list ==> e.id != d.id) ==>
          d in DeliveriesFor(st', id))
  }

  lemma OneMoreAttempt(st: Store, mid: Store, env: Env, id: string, list: seq<Delivery>, d: Delivery)
    requires Inv(st) && Attempts(st, mid, id, list)
    requires d in DeliveriesFor(st, id) && !d.status.Delivered? && (forall e :: e in list ==> e.id != d.id)
    ensures Attempts(st, DeliverOne(mid, env, id, d), id, list + [d])
  {
    var st' := DeliverOne(mid, env, id, d);
    assert d in DeliveriesFor(mid, id);
    var k :| 0 <= k < |mid.deliveries[id]| && mid.deliveries[id][k] == d;
    DeliverOneIsGood(mid, env, id, k);
    GoodThenSameGrants(st, mid, st');
    forall e | e in DeliveriesFor(st, id) && (forall x :: x in list + [d] ==> x.id != e.id)
      ensures e in DeliveriesFor(st', id)
    {
      assert d in list + [d] && (forall x :: x in list ==> x in list + [d]);
      assert e in DeliveriesFor(mid, id);
      var j :| 0 <= j < |mid.deliveries[id]| && mid.deliveries[id][j] == e;
      assert st'.deliveries[id][j] == e;
    }
    forall i | i != id ensures SameAt(st, st', i) {
      assert SameAt(st, mid, i) && SameAt(mid, st', i);
    }
  }

  lemma {:induction false} DeliverAllIsGood(st: Store, env: Env, id: string, list: seq<Delivery>)
    requires Inv(st) && Attemptable(st, id, list)
    ensures Attempts(st, DeliverAll(st, env, id, list), id, list)
  {
    NoChangeIsGood(st);
    if list != [] {
      var n := |list| - 1;
      assert list == list[..n] + [list[n]];
      DeliverAllIsGood(st, env, id, list[..n]);
      OneMoreAttempt(st, DeliverAll(st, env, id, list[..n]), env, id, list[..n], list[n]);
    }
  }

  lemma {:induction false} UndeliveredAttemptable(ds: seq<Delivery>)
    requires DistinctIds(ds)
    ensures DistinctIds(Undelivered(ds))
    ensures forall d :: d in Undelivered(ds) <==> d in ds && !d.status.Delivered?
  {
    if ds != [] {
      var n := |ds| - 1;
      assert ds == ds[..n] + [ds[n]];
      UndeliveredAttemptable(ds[..n]);
      forall d | d in Undelivered(ds[..n]) ensures d.id != ds[n].id { assert d in ds[..n]; }
    }
  }

  lemma {:induction false} DueAttemptable(ds: seq<Delivery>, now: int)
    requires DistinctIds(ds)
    ensures DistinctIds(DueForRetry(ds, now))
    ensures forall d :: d in DueForRetry(ds, now) <==>
              d in ds && !d.status.Delivered? && (d.nextAttemptAt.None? || d.nextAttemptAt.value <= now)
  {
    if ds != [] {
      var n := |ds| - 1;
      assert ds == ds[..n] + [ds[n]];
      DueAttemptable(ds[..n], now);
      forall d | d in DueForRetry(ds[..n], now) ensures d.id != ds[n].id { assert d in ds[..n]; }
    }
  }

  lemma DeliverPendingIsGood(st: Store, env: Env, id: string)
    requires Inv(st)
    ensures
      var st' := DeliverPending(st, env, id);
      Good(st, st') && st'.grants == st.grants && st'.order == st.order && (forall i :: i != id ==> SameAt(st, st', i))
  {
    assert RecordOk(st, id);
    assert DistinctIds(DeliveriesFor(st, id));
    UndeliveredAttemptable(DeliveriesFor(st, id));
    DeliverAllIsGood(st, env, id, Undelivered(DeliveriesFor(st, id)));
  }

  /** Settling, if it is still to be done, and then trying the deliveries. */
  lemma FinalizeMoves(st: Store, env: Env, id: string, source: Source, status: Status)
    requires Inv(st) && FreshIds(env.ids) && Final(status)
    requires id in st.grants && (id in st.evidence || !st.grants[id].status.Denied?)
    ensures
      var settled := Settled(st, env, id, source, status);
      var st' := DeliverPending(settled, env, id);
      && Good(st, settled) && Good(settled, st') && Good(st, st') && st'.grants == settled.grants
      && (forall i :: i != id ==> SameAt(st, st', i)) && st'.order == st.order
  {
    hide Settle, DeliverPending;
    NoChangeIsGood(st);
    var settled := Settled(st, env, id, source, status);
    if id !in st.evidence {
      SettleIsGood(st, env, id, source, status);
      SettleKeepsOrder(st, env, id, source, status);
    }
    DeliverPendingIsGood(settled, env, id);
    var st' := DeliverPending(settled, env, id);
    GoodThenSameGrants(st, settled, st');
    forall i | i != id ensures SameAt(st, st', i) {
      assert SameAt(st, settled, i) && SameAt(settled, st', i);
    }
  }

  lemma SettleKeepsOrder(st: Store, env: Env, id: string, source: Source, status: Status)
    requires id in st.grants
    ensures Settle(st, env, id, source, status).order == st.order
  {
  }

  /** Completing, revoking and expiring: the answer is always the one evidence record of the grant. */
  lemma FinalizeIsGood(st: Store, env: Env, id: string, source: Source, status: Status)
    requires Inv(st) && FreshIds(env.ids) && Final(status)
    ensures
      var (st', r) := Finalize(st, env, id, source, status);
      && Good(st, st') && (forall i :: i != id ==> SameAt(st, st', i)) && st'.order == st.order
      && (r.Ok? ==> id in st'.evidence && id in st'.grants && r.value == st'.evidence[id])
      && (r.Ok? && id in st.evidence ==> SameEvidence(st.evidence[id], r.value) && st'.grants == st.grants)
      && (r.Ok? && id !in st.evidence ==>
            r.value.completionSource == source && st'.grants[id].status == status && r.value.id == env.ids.evidence(id))
      && (r.Err? <==> id !in st.grants || st.grants[id].status.Denied?)
  {
    hide DeliverPending, Good, EvidenceOk, OwnsToken, StatusOf, AuditFor, LegalEdge, Settle, Inv;
    NoChangeIsGood(st);
    FactsAt(st, id);
    if id in st.grants && (id in st.evidence || !st.grants[id].status.Denied?) {
      var settled := Settled(st, env, id, source, status);
      FinalizeMoves(st, env, id, source, status);
      SettleAnswers(st, env, id, source, status);
      EvidenceStays(settled, DeliverPending(settled, env, id), id);
    }
  }

  lemma SettleAnswers(st: Store, env: Env, id: string, source: Source, status: Status)
    requires id in st.grants
    ensures
      var st' := Settle(st, env, id, source, status);
      && id in st'.grants && st'.grants[id].status == status && id in st'.evidence
      && st'.evidence[id].completionSource == source && st'.evidence[id].id == env.ids.evidence(id)
  {
  }

  lemma FactsAt(st: Store, id: string)
    requires Inv(st)
    ensures RecordOk(st, id)
  {
  }

  lemma EvidenceStays(st: Store, st': Store, id: string)
    requires Good(st, st')
    ensures id in st.evidence ==> id in st'.evidence && SameEvidence(st.evidence[id], st'.evidence[id])
    ensures id in st.grants ==> id in st'.grants
  {
    hide Inv, FollowsTable;
    assert Evolves(st, st', id);
  }

  // --- sweeps ---

  /** What a sweep over the first `n` listed grants leaves behind; grants further down are still as listed. */
  ghost predicate SweptTo(st: Store, st': Store, now: int, n: nat)
    requires Inv(st) && n <= |st.order|
  {
    && Good(st, st') && st'.order == st.order
    && (forall id :: id !in st.order[..n] ==> SameAt(st, st', id))
    && (forall i :: 0 <= i < n ==> ExpiredIfDue(st, st', now, st.order[i]))
  }

  ghost predicate ExpiredIfDue(st: Store, st': Store, now: int, id: string) {
    && id in st.grants && id in st'.grants
    && (if ExpiryDue(st.grants[id], now) then st'.grants[id].status.Expired? else st'.grants[id] == st.grants[id])
  }

  lemma {:induction false} ExpireListedIsGood(st: Store, env: Env, n: nat)
    requires Inv(st) && FreshIds(env.ids) && n <= |st.order|
    ensures
      var (st', r) := ExpireListed(st, env, ListGrants(st)[..n]);
      SweptTo(st, st', env.now, n) && r.Ok?
  {
    hide Finalize, Good, RecordOk, SameAt, ExpiredIfDue;
    StartOfSweep(st, env.now);
    if n > 0 {
      var grants := ListGrants(st);
      assert grants[..n][..n - 1] == grants[..n - 1];
      ExpireListedIsGood(st, env, n - 1);
      var (mid, r) := ExpireListed(st, env, grants[..n - 1]);
      ListedHasItsId(st, n - 1);
      if ExpiryDue(grants[n - 1], env.now) {
        ExpireOneMore(st, mid, env, n);
      } else {
        SkipOneMore(st, mid, env.now, n);
      }
    }
  }

  lemma StartOfSweep(st: Store, now: int)
    requires Inv(st)
    ensures SweptTo(st, st, now, 0)
  {
    NoChangeIsGood(st);
  }

  lemma ListedHasItsId(st: Store, i: nat)
    requires Inv(st) && i < |st.order|
    ensures st.order[i] in st.grants && st.grants[st.order[i]].id == st.order[i]
  {
    FactsAt(st, st.order[i]);
  }

  lemma SkipOneMore(st: Store, mid: Store, now: int, n: nat)
    requires Inv(st) && 0 < n <= |st.order| && SweptTo(st, mid, now, n - 1)
    requires !ExpiryDue(st.grants[st.order[n - 1]], now)
    ensures SweptTo(st, mid, now, n)
  {
    hide Good, SameAt, ExpiredIfDue, ExpiryDue;
    var id := st.order[n - 1];
    ListedHasItsId(st, n - 1);
    NotAmongEarlier(st, n);
    assert SameAt(st, mid, id);
    NotDueStays(st, mid, now, id);
    assert st.order[..n] == st.order[..n - 1] + [id];
  }

  lemma NotAmongEarlier(st: Store, n: nat)
    requires Inv(st) && 0 < n <= |st.order|
    ensures st.order[n - 1] !in st.order[..n - 1]
  {
  }

  lemma NotDueStays(st: Store, mid: Store, now: int, id: string)
    requires id in st.grants && SameAt(st, mid, id) && !ExpiryDue(st.grants[id], now)
    ensures ExpiredIfDue(st, mid, now, id)
  {
  }

  lemma ExpireOneMore(st: Store, mid: Store, env: Env, n: nat)
    requires Inv(st) && FreshIds(env.ids) && 0 < n <= |st.order| && SweptTo(st, mid, env.now, n - 1)
    requires ExpiryDue(st.grants[st.order[n - 1]], env.now)
    ensures Finalize(mid, env, st.order[n - 1], Ttl, Expired).1.Ok?
    ensures SweptTo(st, Finalize(mid, env, st.order[n - 1], Ttl, Expired).0, env.now, n)
  {
    hide Finalize, Good, Inv, RecordOk, SameAt, ExpiredIfDue;
    var id := st.order[n - 1];
    var st' := Finalize(mid, env, id, Ttl, Expired).0;
    StillDue(st, mid, env.now, n);
    MidIsInv(st, mid);
    FinalizeIsGood(mid, env, id, Ttl, Expired);
    GoodThenElsewhere(st, mid, st', id);
    assert st.order[..n] == st.order[..n - 1] + [id];
    forall i | i !in st.order[..n] ensures SameAt(st, st', i) {
      SameAtAdds(st, mid, st', i);
    }
    forall i | 0 <= i < n ensures ExpiredIfDue(st, st', env.now, st.order[i]) {
      if i < n - 1 {
        assert SameAt(mid, st', st.order[i]) by { OrderIsDistinct(st, i, n - 1); }
        ExpiredStays(st, mid, st', env.now, st.order[i]);
      } else {
        JustExpired(st, st', env.now, id);
      }
    }
  }

  lemma MidIsInv(st: Store, mid: Store)
    requires Good(st, mid)
    ensures Inv(mid)
  {
  }

  lemma OrderIsDistinct(st: Store, i: nat, j: nat)
    requires Inv(st) && i < j < |st.order|
    ensures st.order[i] != st.order[j]
  {
  }

  /** The next grant has not been touched by the sweep so far. */
  lemma StillDue(st: Store, mid: Store, now: int, n: nat)
    requires Inv(st) && 0 < n <= |st.order| && SweptTo(st, mid, now, n - 1) && ExpiryDue(st.grants[st.order[n - 1]], now)
    ensures
      var id := st.order[n - 1];
      && SameAt(st, mid, id) && id in st.grants && id in mid.grants && id !in mid.evidence
      && !mid.grants[id].status.Denied? && ExpiryDue(st.grants[id], now)
  {
    hide Good, LegalEdge, StatusOf, EvidenceOk, OwnsToken;
    var id := st.order[n - 1];
    assert id !in st.order[..n - 1];
    assert SameAt(st, mid, id);
    FactsAt(st, id);
  }

  lemma SameAtAdds(a: Store, b: Store, c: Store, id: string)
    requires SameAt(a, b, id) && SameAt(b, c, id)
    ensures SameAt(a, c, id)
  {
  }

  lemma ExpiredStays(st: Store, mid: Store, st': Store, now: int, id: string)
    requires ExpiredIfDue(st, mid, now, id) && SameAt(mid, st', id)
    ensures ExpiredIfDue(st, st', now, id)
  {
  }

  lemma JustExpired(st: Store, st': Store, now: int, id: string)
    requires id in st.grants && id in st'.grants && ExpiryDue(st.grants[id], now) && st'.grants[id].status.Expired?
    ensures ExpiredIfDue(st, st', now, id)
  {
  }

  /** A change of one grant that was not changed before. */
  lemma GoodThenElsewhere(st: Store, mid: Store, st': Store, id: string)
    requires Good(st, mid) && Good(mid, st') && SameAt(st, mid, id) && forall i :: i != id ==> SameAt(mid, st', i)
    ensures Good(st, st')
  {
    forall i ensures Evolves(st, st', i) && FollowsTable(st, st', i) {
      EvolvesTransitive(st, mid, st', i);
      assert FollowsTable(st, mid, i) && FollowsTable(mid, st', i);
      assert i != id ==> SameAt(mid, st', i);
    }
  }

  lemma {:induction false} RetryListedIsGood(st: Store, env: Env, ids: seq<string>)
    requires Inv(st)
    ensures Good(st, RetryListed(st, env, ids)) && RetryListed(st, env, ids).grants == st.grants
  {
    NoChangeIsGood(st);
    if ids != [] {
      var n := |ids| - 1;
      RetryListedIsGood(st, env, ids[..n]);
      var mid := RetryListed(st, env, ids[..n]);
      assert RecordOk(mid, ids[n]);
      DueAttemptable(DeliveriesFor(mid, ids[n]), env.now);
      DeliverAllIsGood(mid, env, ids[n], DueForRetry(DeliveriesFor(mid, ids[n]), env.now));
      GoodThenSameGrants(st, mid, RetryListed(st, env, ids));
    }
  }

  // --- every request, every run ---

  lemma SweepIsGood(st: Store, env: Env)
    requires Inv(st) && FreshIds(env.ids)
    ensures
      var (st', r) := ExpireListed(st, env, Listing(st));
      SweptTo(st, st', env.now, |st.order|) && r.Ok?
  {
    var grants := ListGrants(st);
    assert grants[..|grants|] == grants;
    ExpireListedIsGood(st, env, |grants|);
  }

  lemma StepIsGood(s: State, c: Call)
    requires Inv(s.store) && Valid(s, c)
    ensures Good(s.store, Step(s, c).0.store)
  {
    hide Finalize, Exchange, Approve, Consume, CompleteAuthenticated, ExpireListed, RetryListed, Inv, Good, SweptTo;
    match c.request
    case ExchangeRequest(p, authority, decision, grantId, reference, signs) =>
      ExchangeIsGood(s.store, c.env, p, authority, decision, grantId, reference, signs);
    case ApproveRequest(id, approver, signs) => ApproveIsGood(s.store, c.env, id, approver, signs);
    case ConsumeRequest(input) => ConsumeIsGood(s, c.env, input);
    case FinalizeRequest(id, source, status) => FinalizeIsGood(s.store, c.env, id, source, status);
    case CompleteRequest(id, credential, proof) => CompleteIsGood(s, c.env, id, credential, proof);
    case ExpireDueRequest => SweepIsGood(s.store, c.env);
    case RetryRequest => RetryListedIsGood(s.store, c.env, s.store.order);
    case EvidenceRequest(_) => NoChangeIsGood(s.store);
    case Restart => NoChangeIsGood(s.store);
  }

  lemma CompleteIsGood(s: State, env: Env, id: string, credential: Credential, proof: RequestProof)
    requires Inv(s.store) && FreshIds(env.ids)
    ensures Good(s.store, CompleteAuthenticated(s, env, id, credential, proof).0.store)
  {
    hide Good, SameAt, Finalize, Inv;
    NoChangeIsGood(s.store);
    FinalizeIsGood(s.store, env, id, Agent, Revoked);
  }

  lemma StepKeepsJtis(s: State, c: Call)
    requires "" !in s.seen
    ensures "" !in Step(s, c).0.seen
  {
  }

  lemma {:induction false} Reachable(calls: seq<Call>)
    requires Legal(calls)
    ensures Inv(After(calls).store) && "" !in After(calls).seen
  {
    if calls != [] {
      var n := |calls| - 1;
      LegalPrefix(calls, n);
      Reachable(calls[..n]);
      StepIsGood(After(calls[..n]), calls[n]);
      StepKeepsJtis(After(calls[..n]), calls[n]);
    }
  }

  lemma LegalPrefix(calls: seq<Call>, n: nat)
    requires Legal(calls) && n <= |calls|
    ensures Legal(calls[..n])
  {
    forall i | 0 <= i < n ensures Valid(After(calls[..n][..i]), calls[..n][i]) {
      assert calls[..n][..i] == calls[..i] && calls[..n][i] == calls[i];
    }
  }

  lemma OneStep(calls: seq<Call>, n: nat)
    requires Legal(calls) && n < |calls|
    ensures Good(After(calls[..n]).store, After(calls[..n + 1]).store)
  {
    hide Step, Inv, Good;
    LegalPrefix(calls, n);
    Reachable(calls[..n]);
    assert calls[..n + 1][..n] == calls[..n];
    StepIsGood(After(calls[..n]), calls[n]);
  }

  /** From any point of a run to any later one. */
  lemma {:induction false} Evolution(calls: seq<Call>, i: nat, j: nat, id: string)
    requires Legal(calls) && i <= j <= |calls|
    ensures Evolves(After(calls[..i]).store, After(calls[..j]).store, id)
    ensures OwnersKept(After(calls[..i]).store, After(calls[..j]).store)
    decreases j
  {
    hide After, Inv, Legal, FollowsTable;
    if i < j {
      Evolution(calls, i, j - 1, id);
      OneStep(calls, j - 1);
      EvolvesTransitive(After(calls[..i]).store, After(calls[..j - 1]).store, After(calls[..j]).store, id);
    }
  }

  /** Folding the audit log of a grant, deliveries aside, gives its status. */
  lemma AuditLogGivesStatus(calls: seq<Call>, id: string)
    requires Legal(calls) && id in After(calls).store.grants
    ensures StatusOf(AuditFor(After(calls).store, id)) == Some(After(calls).store.grants[id].status)
  {
    Reachable(calls);
    assert RecordOk(After(calls).store, id);
  }

  lemma AuditLogOnlyGrows(calls: seq<Call>, i: nat, j: nat, id: string)
    requires Legal(calls) && i <= j <= |calls|
    ensures AuditFor(After(calls[..i]).store, id) <= AuditFor(After(calls[..j]).store, id)
  {
    Evolution(calls, i, j, id);
  }

  /** Evidence exists exactly for revoked and expired grants, names them, and mirrors the delivery map. */
  lemma EvidenceIffFinal(calls: seq<Call>, id: string)
    requires Legal(calls)
    ensures
      var st := After(calls).store;
      && (id in st.evidence <==> id in st.grants && Final(st.grants[id].status))
      && (id in st.evidence <==> id in st.grants && st.grants[id].evidenceId.Some?)
      && (id in st.evidence ==>
            && st.grants[id].evidenceId == Some(st.evidence[id].id)
            && st.evidence[id].revocationDeliveries == DeliveriesFor(st, id)
            && st.evidence[id].timeline <= AuditFor(st, id))
  {
    Reachable(calls);
    assert RecordOk(After(calls).store, id);
  }

  /** A closing request on a grant: completing, revoking or expiring it. */
  predicate Closes(c: Call, id: string) {
    (c.request.FinalizeRequest? && c.request.id == id) || (c.request.CompleteRequest? && c.request.id == id)
  }

  function ClosedReply(s: State, c: Call, id: string): Result<Evidence, Error>
    requires Closes(c, id)
  {
    Step(s, c).1.evidence
  }

  function AnswerAt(calls: seq<Call>, i: nat, id: string): Result<Evidence, Error>
    requires i < |calls| && Closes(calls[i], id)
  {
    ClosedReply(After(calls[..i]), calls[i], id)
  }

  lemma ClosedAnswer(calls: seq<Call>, i: nat, id: string)
    requires Legal(calls) && i < |calls| && Closes(calls[i], id) && AnswerAt(calls, i, id).Ok?
    ensures
      var st := After(calls[..i + 1]).store;
      id in st.evidence && AnswerAt(calls, i, id).value == st.evidence[id]
  {
    hide Step, Inv, ClosedReply;
    LegalPrefix(calls, i);
    Reachable(calls[..i]);
    assert calls[..i + 1][..i] == calls[..i];
    ReplyIsStored(After(calls[..i]), calls[i], id);
  }

  lemma ReplyIsStored(s: State, c: Call, id: string)
    requires Inv(s.store) && Valid(s, c) && Closes(c, id) && ClosedReply(s, c, id).Ok?
    ensures
      var st := Step(s, c).0.store;
      id in st.evidence && ClosedReply(s, c, id).value == st.evidence[id]
  {
    hide Finalize, Good, SameAt, Inv;
    if c.request.FinalizeRequest? {
      FinalizeIsGood(s.store, c.env, id, c.request.source, c.request.status);
    } else {
      FinalizeIsGood(s.store, c.env, id, Agent, Revoked);
    }
  }

  /** Any mix of closing requests answers with one record: same id, source and timeline, whoever came first. */
  lemma OneEvidencePerGrant(calls: seq<Call>, i: nat, j: nat, id: string)
    requires Legal(calls) && i < j < |calls| && Closes(calls[i], id) && Closes(calls[j], id)
    requires AnswerAt(calls, i, id).Ok? && AnswerAt(calls, j, id).Ok?
    ensures SameEvidence(AnswerAt(calls, i, id).value, AnswerAt(calls, j, id).value)
  {
    hide Legal, After, AnswerAt, SameEvidence, DeliveriesEvolve;
    ClosedAnswer(calls, i, id);
    ClosedAnswer(calls, j, id);
    Evolution(calls, i + 1, j + 1, id);
  }

  /** A delivered revocation never changes again. */
  lemma DeliveredForever(calls: seq<Call>, i: nat, j: nat, id: string, k: nat)
    requires Legal(calls) && i <= j <= |calls|
    requires k < |DeliveriesFor(After(calls[..i]).store, id)|
    requires DeliveriesFor(After(calls[..i]).store, id)[k].status.Delivered?
    ensures k < |DeliveriesFor(After(calls[..j]).store, id)|
    ensures DeliveriesFor(After(calls[..j]).store, id)[k] == DeliveriesFor(After(calls[..i]).store, id)[k]
  {
    Evolution(calls, i, j, id);
    var before, after := After(calls[..i]).store.deliveries[id], After(calls[..j]).store.deliveries[id];
    assert DeliveryEvolves(before[k], after[k]);
  }

  // --- the state machine, with who may do what ---

  function StatusAt(st: Store, id: string): Option<Status> {
    if id in st.grants then Some(st.grants[id].status) else None
  }

  predicate Overdue(st: Store, id: string, now: int) {
    id in st.grants && DeadlineOver(st.grants[id], now)
  }

  /** What makes a request change the status of a grant, and on whose behalf. */
  function TriggerOf(st: Store, c: Call, id: string): Option<Trigger> {
    match c.request
    case ExchangeRequest(_, _, decision, _, _, _) => Some(Proposing(decision))
    case ApproveRequest(_, _, _) => Some(Approving)
    case ConsumeRequest(_) => Some(Using)
    case FinalizeRequest(_, source, status) => Some(Closing(source, status, Overdue(st, id, c.env.now)))
    case CompleteRequest(_, _, _) => Some(Closing(Agent, Revoked, Overdue(st, id, c.env.now)))
    case ExpireDueRequest => Some(Closing(Ttl, Expired, Overdue(st, id, c.env.now)))
    case _ => None
  }

  function Target(trigger: Trigger): Status {
    match trigger
    case Proposing(decision) => (match decision case Block => Denied case Allow => Approved case RequireApproval => Proposed)
    case Approving => Approved
    case Using => Consumed
    case Closing(_, status, _) => status
  }

  ghost predicate Reaches(st: Store, st': Store, trigger: Trigger, id: string) {
    StatusAt(st', id) != StatusAt(st, id) ==>
      StatusAt(st', id) == Some(Target(trigger)) && (trigger.Proposing? <==> StatusAt(st, id).None?)
  }

  lemma ExchangeReaches(st: Store, env: Env, p: Proposal, authority: Option<Authority>, decision: Decision,
                        grantId: string, reference: string, signs: bool, id: string)
    requires grantId !in st.grants
    ensures Reaches(st, Exchange(st, env, p, authority, decision, grantId, reference, signs).0, Proposing(decision), id)
  {
    ProposedGrant(p, authority, decision, env.config.maxTtlSeconds, grantId, reference, env.now);
  }

  lemma ApproveReaches(st: Store, env: Env, grantId: string, approver: string, signs: bool, id: string)
    ensures Reaches(st, Approve(st, env, grantId, approver, signs).0, Approving, id)
  {
  }

  lemma ConsumeReaches(s: State, env: Env, input: ConsumeInput, id: string)
    ensures Reaches(s.store, Consume(s, env, input).0.store, Using, id)
  {
    hide Dpop.Verdict, Dpop.SeenAfter, ConsumeCheck;
  }

  lemma FinalizeReaches(st: Store, env: Env, grantId: string, source: Source, status: Status, id: string)
    requires Inv(st) && FreshIds(env.ids) && Final(status)
    ensures Reaches(st, Finalize(st, env, grantId, source, status).0, Closing(source, status, Overdue(st, id, env.now)), id)
  {
    hide Good, Inv;
    FinalizeIsGood(st, env, grantId, source, status);
    assert id != grantId ==> SameAt(st, Finalize(st, env, grantId, source, status).0, id);
  }

  lemma SweepReaches(st: Store, env: Env, id: string)
    requires Inv(st) && FreshIds(env.ids)
    ensures Reaches(st, ExpireListed(st, env, Listing(st)).0, Closing(Ttl, Expired, Overdue(st, id, env.now)), id)
    ensures StatusAt(ExpireListed(st, env, Listing(st)).0, id) != StatusAt(st, id) ==> Overdue(st, id, env.now)
  {
    hide Good, ExpireListed, Listing;
    SweepIsGood(st, env);
    var st' := ExpireListed(st, env, Listing(st)).0;
    if id in st.order {
      var i :| 0 <= i < |st.order| && st.order[i] == id;
      assert ExpiredIfDue(st, st', env.now, st.order[i]);
    } else {
      assert SameAt(st, st', id);
    }
  }

  lemma StepReaches(s: State, c: Call, id: string)
    requires Inv(s.store) && Valid(s, c) && StatusAt(Step(s, c).0.store, id) != StatusAt(s.store, id)
    ensures TriggerOf(s.store, c, id).Some? && Reaches(s.store, Step(s, c).0.store, TriggerOf(s.store, c, id).value, id)
  {
    hide Finalize, Exchange, Approve, Consume, ExpireListed, RetryListed, Inv, Reaches, Listing, CompleteCheck, VerifyCredential;
    match c.request
    case ExchangeRequest(p, authority, decision, grantId, reference, signs) =>
      ExchangeReaches(s.store, c.env, p, authority, decision, grantId, reference, signs, id);
    case ApproveRequest(grantId, approver, signs) => ApproveReaches(s.store, c.env, grantId, approver, signs, id);
    case ConsumeRequest(input) => ConsumeReaches(s, c.env, input, id);
    case FinalizeRequest(grantId, source, status) => FinalizeReaches(s.store, c.env, grantId, source, status, id);
    case CompleteRequest(grantId, credential, proof) => FinalizeReaches(s.store, c.env, grantId, Agent, Revoked, id);
    case ExpireDueRequest => SweepReaches(s.store, c.env, id);
    case RetryRequest => RetryListedIsGood(s.store, c.env, s.store.order);
    case EvidenceRequest(_) =>
    case Restart =>
  }

  /**
    One request moves each grant along at most one edge, and that is the row of the table for its
    trigger and actor, unless it closes a grant for one who may not.
   */
  lemma RequestFollowsTable(calls: seq<Call>, c: Call, id: string)
    requires Legal(calls) && Valid(After(calls), c)
    ensures FollowsTable(After(calls).store, Step(After(calls), c).0.store, id)
    ensures
      var before, after := StatusAt(After(calls).store, id), StatusAt(Step(After(calls), c).0.store, id);
      after != before ==>
        && after.Some? && TriggerOf(After(calls).store, c, id).Some? && (TriggerOf(After(calls).store, c, id).value.Closing? ==> before.Some?)
        && (FollowsRow(before, TriggerOf(After(calls).store, c, id).value, after.value) <==>
            match TriggerOf(After(calls).store, c, id).value
            case Closing(source, status, due) => MayClose(before.value, source, status, due)
            case _ => true)
  {
    hide Step, After, Legal, Inv, Good;
    Reachable(calls);
    StepIsGood(After(calls), c);
    GoodFollows(After(calls).store, Step(After(calls), c).0.store, id);
    var before, after := StatusAt(After(calls).store, id), StatusAt(Step(After(calls), c).0.store, id);
    if after != before {
      StepReaches(After(calls), c, id);
    }
  }

  /** What `expireDue` changes always follows its row. */
  lemma ExpireDueFollowsTable(calls: seq<Call>, env: Env, id: string)
    requires Legal(calls) && FreshIds(env.ids)
    ensures
      var before := StatusAt(After(calls).store, id);
      var after := StatusAt(Step(After(calls), Call(env, ExpireDueRequest)).0.store, id);
      after != before ==>
        after == Some(Expired) && FollowsRow(before, Closing(Ttl, Expired, Overdue(After(calls).store, id, env.now)), Expired)
  {
    hide Legal, After, Inv, Good, ExpireListed, Listing;
    Reachable(calls);
    SweepReaches(After(calls).store, env, id);
    RequestFollowsTable(calls, Call(env, ExpireDueRequest), id);
  }

  lemma GoodFollows(st: Store, st': Store, id: string)
    requires Good(st, st')
    ensures FollowsTable(st, st', id)
  {
  }

  /** Expiring what is due answers with one record per due grant and leaves no active grant past its time. */
  lemma ExpireDueLeavesNoneDue(calls: seq<Call>, env: Env, id: string)
    requires Legal(calls) && FreshIds(env.ids) && id in After(calls).store.grants
    ensures
      var s := After(calls);
      var (s', answer) := Step(s, Call(env, ExpireDueRequest));
      && answer.expired.Ok? && id in s'.store.grants
      && !ExpiryDue(s'.store.grants[id], env.now)
      && (s'.store.grants[id].status.Expired? <==> s.store.grants[id].status.Expired? || ExpiryDue(s.store.grants[id], env.now))
  {
    hide ExpireListed, Good, Inv, SweptTo, After, Legal, Listing;
    Reachable(calls);
    var st := After(calls).store;
    SweepIsGood(st, env);
    SweptLeavesNoneDue(st, ExpireListed(st, env, Listing(st)).0, env.now, id);
  }

  lemma SweptLeavesNoneDue(st: Store, st': Store, now: int, id: string)
    requires Inv(st) && SweptTo(st, st', now, |st.order|) && id in st.grants
    ensures id in st'.grants && !ExpiryDue(st'.grants[id], now)
    ensures st'.grants[id].status.Expired? <==> st.grants[id].status.Expired? || ExpiryDue(st.grants[id], now)
  {
    hide Good;
    assert OrderOk(st);
    var i :| 0 <= i < |st.order| && st.order[i] == id;
    assert ExpiredIfDue(st, st', now, st.order[i]);
  }

  // --- restarts ---

  ghost predicate Monotone(calls: seq<Call>) {
    forall i, j :: 0 <= i < j < |calls| ==> calls[i].env.now <= calls[j].env.now
  }

  /** Equal stores, and replay maps that agree on everything still alive. */
  ghost predicate Alike(a: State, b: State, now: int) {
    a.store == b.store && Dpop.Prune(a.seen, now) == Dpop.Prune(b.seen, now)
  }

  lemma AlikeLater(a: State, b: State, now: int, later: int)
    requires Alike(a, b, now) && now <= later
    ensures Alike(a, b, later)
  {
    forall jti ensures (jti in Dpop.Prune(a.seen, later)) == (jti in Dpop.Prune(b.seen, later)) {
      assert (jti in Dpop.Prune(a.seen, now)) == (jti in Dpop.Prune(b.seen, now));
    }
    forall jti | jti in Dpop.Prune(a.seen, later)
      ensures Dpop.Prune(a.seen, later)[jti] == Dpop.Prune(b.seen, later)[jti]
    {
      assert Dpop.Prune(a.seen, now)[jti] == Dpop.Prune(b.seen, now)[jti];
    }
  }

  lemma AlikeProof(a: Dpop.Seen, b: Dpop.Seen, proof: Dpop.Proof, thumbprint: string, now: int)
    requires Dpop.Prune(a, now) == Dpop.Prune(b, now)
    ensures Dpop.Verdict(a, proof, thumbprint, now) == Dpop.Verdict(b, proof, thumbprint, now)
    ensures Dpop.Prune(Dpop.SeenAfter(a, proof, thumbprint, now), now)
         == Dpop.Prune(Dpop.SeenAfter(b, proof, thumbprint, now), now)
  {
  }

  /** Alike states give the same answer and stay alike. */
  lemma AlikeStep(a: State, b: State, c: Call)
    requires Alike(a, b, c.env.now)
    ensures Step(a, c).1 == Step(b, c).1 && Alike(Step(a, c).0, Step(b, c).0, c.env.now)
  {
    match c.request
    case ConsumeRequest(input) =>
      var claims := VerifyCredential(input.credential, c.env.now, true);
      if claims.Ok? && claims.value.grantId in a.store.grants {
        AlikeProof(a.seen, b.seen, input.proof.dpop, a.store.grants[claims.value.grantId].dpopThumbprint, c.env.now);
      }
    case CompleteRequest(id, _, proof) =>
      if id in a.store.grants {
        AlikeProof(a.seen, b.seen, proof.dpop, a.store.grants[id].dpopThumbprint, c.env.now);
      }
    case Restart =>
      assert Dpop.Prune(Dpop.Prune(a.seen, c.env.now), c.env.now) == Dpop.Prune(a.seen, c.env.now);
      assert Dpop.Prune(Dpop.Prune(b.seen, c.env.now), c.env.now) == Dpop.Prune(b.seen, c.env.now);
    case _ =>
  }

  /** The answers of a run to everything but restarts. */
  function Answers(calls: seq<Call>): seq<Response> {
    if calls == [] then []
    else
      var n := |calls| - 1;
      if calls[n].request.Restart? then Answers(calls[..n])
      else Answers(calls[..n]) + [Step(After(calls[..n]), calls[n]).1]
  }

  function WithoutRestarts(calls: seq<Call>): seq<Call> {
    if calls == [] then []
    else
      var n := |calls| - 1;
      if calls[n].request.Restart? then WithoutRestarts(calls[..n]) else WithoutRestarts(calls[..n]) + [calls[n]]
  }

  /** Recreating the broker between requests changes no answer of a run and no stored record. */
  lemma {:induction false} RestartsAreInvisible(calls: seq<Call>, now: int)
    requires Monotone(calls) && (calls != [] ==> calls[|calls| - 1].env.now <= now)
    ensures Answers(calls) == Answers(WithoutRestarts(calls))
    ensures Alike(After(calls), After(WithoutRestarts(calls)), now)
  {
    if calls != [] {
      var n := |calls| - 1;
      var c := calls[n];
      assert forall i :: 0 <= i < n ==> calls[..n][i] == calls[i];
      RestartsAreInvisible(calls[..n], c.env.now);
      var a, b := After(calls[..n]), After(WithoutRestarts(calls[..n]));
      if c.request.Restart? {
        assert Dpop.Prune(Dpop.Prune(a.seen, c.env.now), c.env.now) == Dpop.Prune(a.seen, c.env.now);
        AlikeLater(After(calls), b, c.env.now, now);
      } else {
        AlikeStep(a, b, c);
        var kept := WithoutRestarts(calls);
        assert kept[..|kept| - 1] == WithoutRestarts(calls[..n]);
        AlikeLater(After(calls), After(kept), c.env.now, now);
      }
    }
  }

  /**
    What a restart does to a reachable broker: the snapshot and the replay entries saved at one time
    and read back at another give the same store and the replay map without its dead entries.
   */
  lemma RecreatedState(calls: seq<Call>, saved: Snapshot, entries: seq<Dpop.Entry>, savedAt: int, readAt: int)
    requires Legal(calls) && savedAt <= readAt
    requires Keyed(After(calls).store) && SnapshotOf(saved, After(calls).store)
    requires Dpop.Lists(entries, Dpop.Prune(After(calls).seen, savedAt))
    ensures Restored(saved) == After(calls).store
    ensures Dpop.FromEntries(entries, readAt) == Dpop.Prune(After(calls).seen, readAt)
  {
    hide After, Legal, Inv, Keyed, Restored, SnapshotOf, Dpop.FromEntries;
    Reachable(calls);
    SnapshotRoundTrip(saved, After(calls).store);
    Dpop.LaterReload(entries, After(calls).seen, savedAt, readAt);
  }

  /** The precondition of the snapshot holds in every run. */
  lemma AlwaysKeyed(calls: seq<Call>)
    requires Legal(calls)
    ensures Keyed(After(calls).store)
  {
    Reachable(calls);
    InvIsKeyed(After(calls).store);
  }
}
