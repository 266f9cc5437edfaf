/** Records of the grant broker (packages/broker/src/types.ts) and its error codes (errors.ts). */
module BrokerTypes {
  import opened Wrappers

  datatype Status = Proposed | Approved | Consumed | Revoked | Expired | Denied

  datatype Decision = Allow | RequireApproval | Block

  datatype Source = Agent | Resource | Ttl | Operator

  datatype Error =
    | InvalidRequest
    | ScopeNotAuthorized
    | PolicyBlocked
    | TokenAlreadyExchanged
    | InvalidCredential
    | WrongAudience
    | ActionNotAuthorized
    | WrongDpopKey
    | DpopProofInvalid
    | GrantNotApproved
    | GrantNotFound
    | GrantAlreadyConsumed
    | GrantExpired
    | GrantRevoked
    | SigningFailed

  /** Times are milliseconds.  `audienceOrigin` is the origin the URL parser finds in `audience`. */
  datatype Grant = Grant(
    id: string,
    status: Status,
    agentId: string,
    subjectId: string,
    subjectTokenId: string,
    action: string,
    audience: string,
    audienceOrigin: string,
    requestedScope: seq<string>,
    grantedScope: seq<string>,
    dpopThumbprint: string,
    policyDecision: Decision,
    approver: Option<string>,
    approvalReference: Option<string>,
    issuedAt: Option<int>,
    expiresAt: int,
    consumedAt: Option<int>,
    completedAt: Option<int>,
    completionSource: Option<Source>,
    evidenceId: Option<string>)

  /** What a credential says.  `exp` is in seconds. */
  datatype Claims = Claims(
    grantId: string,
    sub: string,
    aud: string,
    action: string,
    scope: seq<string>,
    jkt: string,
    use: int,
    exp: int)

  /** A signature either fails or returns exactly the claims that were signed. */
  datatype Credential = Forged | Signed(claims: Claims)

  datatype EventType =
    | GrantProposed
    | GrantApproved
    | GrantDenied
    | GrantConsumed
    | GrantCompleted
    | GrantExpiredEvent
    | GrantRevokedEvent
    | RevocationDelivery(delivered: bool, attempts: nat)

  datatype AuditEvent = AuditEvent(event: EventType, at: int)

  datatype DeliveryStatus = Pending | Delivered | Failed

  datatype Delivery = Delivery(
    id: string,
    target: string,
    status: DeliveryStatus,
    attempts: nat,
    lastAttemptAt: Option<int>,
    nextAttemptAt: Option<int>,
    receipt: Option<string>)

  datatype Evidence = Evidence(
    id: string,
    grantId: string,
    createdAt: int,
    timeline: seq<AuditEvent>,
    approver: Option<string>,
    completionSource: Source,
    revocationDeliveries: seq<Delivery>,
    retentionUntil: int)
}
