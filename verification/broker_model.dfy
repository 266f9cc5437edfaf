/**
  What each public method of the broker does to the store and the replay map, one request at a
  time (packages/broker/src/broker.ts).  A request reads the clock once; fresh ids, the outcome of
  signing, the policy decision and the relay's answers are inputs.
 */
module BrokerModel {
  import opened Wrappers
  import opened BrokerTypes
  import opened BrokerRules
  import opened StoreModel
  import Dpop

  /** The relay's answer to attempt `n` of a delivery: a receipt, or nothing when it throws or is absent. */
  type Relay = (string, nat) -> Option<string>

  datatype Config = Config(maxTtlSeconds: int, retentionMs: int, targets: seq<string>)

  /** The ids drawn while finalizing a grant: its evidence id and one id for every target. */
  datatype Ids = Ids(evidence: string -> string, delivery: (string, nat) -> string)

  datatype Env = Env(config: Config, now: int, ids: Ids, relay: Relay)

  datatype State = State(store: Store, seen: Dpop.Seen)

  datatype Reply = Reply(grant: Grant, approvalReference: Option<string>, credential: Option<Credential>)

  ghost predicate DistinctIds(ds: seq<Delivery>) {
    forall i, j :: 0 <= i < j < |ds| ==> ds[i].id != ds[j].id
  }

  /** Drawn delivery ids do not repeat within a grant. */
  ghost predicate FreshIds(ids: Ids) {
    forall id, i, j :: i != j ==> ids.delivery(id, i) != ids.delivery(id, j)
  }

  function Audit(st: Store, id: string, event: EventType, now: int): Store {
    AppendAudit(st, id, AuditEvent(event, now))
  }

  // --- exchange and approve ---

  function IdempotencyKey(p: Proposal): Option<string> {
    if p.idempotencyKey.Some? && p.idempotencyKey.value != ""
    then Some(p.agentId + ":" + p.idempotencyKey.value) else None
  }

  function Exchange(st: Store, env: Env, p: Proposal, authority: Option<Authority>, decision: Decision,
                    grantId: string, reference: string, signs: bool): (Store, Result<Reply, Error>)
  {
    var proposed := Propose(p, authority, decision, env.config.maxTtlSeconds, grantId, reference, env.now);
    if proposed.Err? then (st, Err(proposed.error))
    else
      var g := proposed.value;
      var (created, creation) := CreateExchangeGrant(st, g, IdempotencyKey(p), decision.Allow?);
      if !creation.subjectTokenReserved then (created, Err(TokenAlreadyExchanged))
      else if !creation.created then
        (created, Ok(Reply(creation.grant, creation.grant.approvalReference, None)))
      else
        (DecisionAudited(created, g.id, decision, env.now),
         match decision
         case Block => Ok(Reply(g, None, None))
         case Allow => if signs then Ok(Reply(g, None, Some(Signed(Mint(g))))) else Err(SigningFailed)
         case RequireApproval => Ok(Reply(g, g.approvalReference, None)))
  }

  /** The audit events of a new grant: proposed, then what the policy decided at once. */
  function DecisionAudited(st: Store, id: string, decision: Decision, now: int): Store {
    var proposed := Audit(st, id, GrantProposed, now);
    match decision
    case Block => Audit(proposed, id, GrantDenied, now)
    case Allow => Audit(proposed, id, GrantApproved, now)
    case RequireApproval => proposed
  }

  /** A throw of the signer comes after the status change and does not undo it. */
  function Approve(st: Store, env: Env, id: string, approver: string, signs: bool): (Store, Result<Reply, Error>) {
    if id !in st.grants then (st, Err(GrantNotFound))
    else
      var g := st.grants[id];
      var failed := ApproveCheck(g, env.now);
      if failed.Some? then (st, Err(failed.value))
      else
        var (reserved, ok) := ReserveSubjectToken(st, g.subjectTokenId, id);
        if !ok then (reserved, Err(TokenAlreadyExchanged))
        else
          var g' := ApprovedBy(g, approver, env.now);
          (Audit(PutGrant(reserved, id, g'), id, GrantApproved, env.now),
           if signs then Ok(Reply(g', None, Some(Signed(Mint(g'))))) else Err(SigningFailed))
  }

  // --- consume ---

  function Consume(s: State, env: Env, input: ConsumeInput): (State, Result<Grant, Error>) {
    var claims := VerifyCredential(input.credential, env.now, true);
    if claims.Err? then (s, Err(claims.error))
    else
      var id := claims.value.grantId;
      if id !in s.store.grants then (s, Err(GrantNotFound))
      else
        var g := s.store.grants[id];
        var failed := ConsumeCheck(g, claims.value, input, env.now);
        if failed.Some? then (s, Err(failed.value))
        else
          var verdict := Dpop.Verdict(s.seen, input.proof.dpop, g.dpopThumbprint, env.now);
          var seen := Dpop.SeenAfter(s.seen, input.proof.dpop, g.dpopThumbprint, env.now);
          if verdict.Some? then (State(s.store, seen), Err(verdict.value))
          else
            var g' := ConsumedAt(g, env.now);
            (State(Audit(PutGrant(s.store, id, g'), id, GrantConsumed, env.now), seen), Ok(g'))
  }

  // --- finalization ---

  function NewDeliveries(env: Env, id: string): (ds: seq<Delivery>)
    ensures |ds| == |env.config.targets|
    ensures forall i :: 0 <= i < |ds| ==>
              ds[i] == Delivery(env.ids.delivery(id, i), env.config.targets[i], Pending, 0, None, None, None)
  {
    seq(|env.config.targets|, i requires 0 <= i < |env.config.targets| =>
      Delivery(env.ids.delivery(id, i), env.config.targets[i], Pending, 0, None, None, None))
  }

  function FinalEvent(source: Source, status: Status): EventType {
    if status.Expired? then GrantExpiredEvent else if source.Agent? then GrantCompleted else GrantRevokedEvent
  }

  /** The first finalization: status, audit event, pending deliveries and the evidence record. */
  function Settle(st: Store, env: Env, id: string, source: Source, status: Status): (st': Store)
    requires id in st.grants
    ensures id in st'.evidence
  {
    var g := st.grants[id];
    var ds := NewDeliveries(env, id);
    var recorded := Audit(PutGrant(st, id, FinalizedBy(g, status, source, env.now, env.ids.evidence(id))),
                          id, FinalEvent(source, status), env.now);
    recorded.(
      deliveries := recorded.deliveries[id := ds],
      evidence := recorded.evidence[id :=
        Evidence(env.ids.evidence(id), id, env.now, AuditFor(recorded, id), g.approver, source, ds,
                 env.now + env.config.retentionMs)])
  }

  function Undelivered(ds: seq<Delivery>): seq<Delivery> {
    if ds == [] then []
    else
      var rest := Undelivered(ds[..|ds| - 1]);
      if ds[|ds| - 1].status.Delivered? then rest else rest + [ds[|ds| - 1]]
  }

  function DeliverOne(st: Store, env: Env, id: string, d: Delivery): Store {
    var attempts := d.attempts + 1;
    var receipt := env.relay(d.id, attempts);
    Audit(UpdateDelivery(st, id, d.id, attempts, env.now, receipt), id,
          RevocationDelivery(receipt.Some?, attempts), env.now)
  }

  function DeliverAll(st: Store, env: Env, id: string, ds: seq<Delivery>): (st': Store)
    ensures st'.evidence.Keys == st.evidence.Keys
  {
    if ds == [] then st else DeliverOne(DeliverAll(st, env, id, ds[..|ds| - 1]), env, id, ds[|ds| - 1])
  }

  function Finalize(st: Store, env: Env, id: string, source: Source, status: Status): (Store, Result<Evidence, Error>) {
    if id !in st.grants then (st, Err(GrantNotFound))
    else if id !in st.evidence && st.grants[id].status.Denied? then (st, Err(GrantNotApproved))
    else
      var done := DeliverPending(Settled(st, env, id, source, status), env, id);
      (done, Ok(done.evidence[id]))
  }

  function Settled(st: Store, env: Env, id: string, source: Source, status: Status): (st': Store)
    requires id in st.grants
    ensures id in st'.evidence
  {
    if id in st.evidence then st else Settle(st, env, id, source, status)
  }

  /** Every delivery that is not done is attempted once, in listed order. */
  function DeliverPending(st: Store, env: Env, id: string): (st': Store)
    ensures st'.evidence.Keys == st.evidence.Keys
  {
    DeliverAll(st, env, id, Undelivered(DeliveriesFor(st, id)))
  }

  function CompleteAuthenticated(s: State, env: Env, id: string, credential: Credential, proof: RequestProof)
    : (State, Result<Evidence, Error>)
  {
    var claims := VerifyCredential(credential, env.now, false);
    if claims.Err? then (s, Err(claims.error))
    else if claims.value.grantId != id then (s, Err(InvalidCredential))
    else if id !in s.store.grants then (s, Err(GrantNotFound))
    else
      var g := s.store.grants[id];
      var failed := CompleteCheck(g, claims.value, proof);
      if failed.Some? then (s, Err(failed.value))
      else
        var verdict := Dpop.Verdict(s.seen, proof.dpop, g.dpopThumbprint, env.now);
        var seen := Dpop.SeenAfter(s.seen, proof.dpop, g.dpopThumbprint, env.now);
        if verdict.Some? then (State(s.store, seen), Err(verdict.value))
        else
          var (st, r) := Finalize(s.store, env, id, Agent, Revoked);
          (State(st, seen), r)
  }

  // --- sweeps over all grants ---

  predicate ExpiryDue(g: Grant, now: int) {
    (g.status.Proposed? || g.status.Approved? || g.status.Consumed?) && g.expiresAt <= now
  }

  /** Expires the due ones among `grants`, which were listed before the sweep began. */
  function ExpireListed(st: Store, env: Env, grants: seq<Grant>): (Store, Result<seq<Evidence>, Error>) {
    if grants == [] then (st, Ok([]))
    else
      var (rest, r) := ExpireListed(st, env, grants[..|grants| - 1]);
      var g := grants[|grants| - 1];
      if r.Err? || !ExpiryDue(g, env.now) then (rest, r)
      else
        var (next, e) := Finalize(rest, env, g.id, Ttl, Expired);
        (next, if e.Ok? then Ok(r.value + [e.value]) else Err(e.error))
  }

  function DueForRetry(ds: seq<Delivery>, now: int): seq<Delivery> {
    if ds == [] then []
    else
      var rest := DueForRetry(ds[..|ds| - 1], now);
      var d := ds[|ds| - 1];
      if !d.status.Delivered? && (d.nextAttemptAt.None? || d.nextAttemptAt.value <= now) then rest + [d] else rest
  }

  function RetryListed(st: Store, env: Env, ids: seq<string>): Store {
    if ids == [] then st
    else
      var rest := RetryListed(st, env, ids[..|ids| - 1]);
      var id := ids[|ids| - 1];
      DeliverAll(rest, env, id, DueForRetry(DeliveriesFor(rest, id), env.now))
  }
}
