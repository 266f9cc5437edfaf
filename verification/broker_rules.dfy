/**
  The decisions of the broker on a single grant (packages/broker/src/broker.ts), shared by the
  sequential class and by the interleaved steps.
 */
module BrokerRules {
  import opened Wrappers
  import opened BrokerTypes
  import Dpop

  /**
    `wellFormed` is the outcome of the action pattern and of the URL checks on `resource`, and
    `resourceOrigin` the origin the URL parser finds in it.
   */
  datatype Proposal = Proposal(
    agentId: string,
    subjectId: string,
    subjectTokenId: string,
    resource: string,
    resourceOrigin: string,
    action: string,
    wellFormed: bool,
    requestedScope: seq<string>,
    dpopThumbprint: string,
    expiresInSeconds: Option<int>,
    idempotencyKey: Option<string>)

  datatype Authority = Authority(registrationScopes: seq<string>, subjectScopes: seq<string>, resources: seq<string>)

  datatype Target = Target(origin: string, path: string)

  /** The request a proof speaks about: upper-cased method `verb`, and the URL if it parses. */
  datatype RequestProof = RequestProof(verb: string, target: Option<Target>, dpop: Dpop.Proof)

  datatype ConsumeInput = ConsumeInput(credential: Credential, audience: string, proof: RequestProof)

  // --- exchange ---

  predicate ProposalComplete(p: Proposal) {
    && p.agentId != "" && p.subjectId != "" && p.subjectTokenId != "" && p.resource != ""
    && p.action != "" && p.dpopThumbprint != ""
    && p.requestedScope != [] && "" !in p.requestedScope
    && p.wellFormed
  }

  function AllowedScope(requested: seq<string>, authority: Authority): seq<string> {
    if requested == [] then []
    else
      var rest := AllowedScope(requested[..|requested| - 1], authority);
      var scope := requested[|requested| - 1];
      if scope in authority.registrationScopes && scope in authority.subjectScopes then rest + [scope] else rest
  }

  function Propose(p: Proposal, authority: Option<Authority>, decision: Decision, maxTtlSeconds: int,
                   id: string, approvalReference: string, now: int): Result<Grant, Error>
  {
    if !ProposalComplete(p) then Err(InvalidRequest)
    else if authority.None? then Err(InvalidCredential)
    else if p.resource !in authority.value.resources then Err(WrongAudience)
    else
      var allowed := AllowedScope(p.requestedScope, authority.value);
      var ttl := match p.expiresInSeconds case Some(s) => s case None => maxTtlSeconds;
      if |allowed| != |p.requestedScope| then Err(ScopeNotAuthorized)
      else if ttl <= 0 || ttl > maxTtlSeconds then Err(InvalidRequest)
      else Ok(Grant(
        id,
        match decision case Block => Denied case Allow => Approved case RequireApproval => Proposed,
        p.agentId, p.subjectId, p.subjectTokenId, p.action, p.resource, p.resourceOrigin,
        p.requestedScope, allowed, p.dpopThumbprint, decision,
        if decision.Allow? then Some("policy") else None,
        if decision.RequireApproval? then Some(approvalReference) else None,
        if decision.Allow? then Some(now) else None,
        now + ttl * 1000,
        None, None, None, None))
  }

  lemma {:induction false} AllowedScopeWithin(requested: seq<string>, authority: Authority)
    ensures |AllowedScope(requested, authority)| <= |requested|
    ensures |AllowedScope(requested, authority)| == |requested| <==>
            forall s :: s in requested ==> s in authority.registrationScopes && s in authority.subjectScopes
    ensures |AllowedScope(requested, authority)| == |requested| ==> AllowedScope(requested, authority) == requested
  {
    if requested != [] {
      var n := |requested| - 1;
      AllowedScopeWithin(requested[..n], authority);
      assert requested == requested[..n] + [requested[n]];
    }
  }

  /** A grant carries all of the requested scope or is not created: nothing is silently dropped or added. */
  lemma ProposeNarrows(p: Proposal, authority: Option<Authority>, decision: Decision, maxTtlSeconds: int,
                       id: string, approvalReference: string, now: int)
    ensures
      var r := Propose(p, authority, decision, maxTtlSeconds, id, approvalReference, now);
      && (r.Ok? ==>
            && r.value.grantedScope == p.requestedScope
            && authority.Some?
            && (forall s :: s in r.value.grantedScope ==>
                  s in authority.value.registrationScopes && s in authority.value.subjectScopes)
            && now < r.value.expiresAt <= now + maxTtlSeconds * 1000)
      && (r == Err(ScopeNotAuthorized) <==>
            && ProposalComplete(p) && authority.Some? && p.resource in authority.value.resources
            && exists s :: s in p.requestedScope &&
                 !(s in authority.value.registrationScopes && s in authority.value.subjectScopes))
  {
    if authority.Some? {
      AllowedScopeWithin(p.requestedScope, authority.value);
    }
  }

  // --- credentials ---

  function Mint(g: Grant): Claims {
    Claims(g.id, g.subjectId, g.audience, g.action, g.grantedScope, g.dpopThumbprint, 1, g.expiresAt / 1000)
  }

  /** The signature check followed by `validateCapabilityClaims` (crypto.ts:236-251). */
  function VerifyCredential(credential: Credential, now: int, allowExpired: bool): Result<Claims, Error> {
    match credential
    case Forged => Err(InvalidCredential)
    case Signed(c) =>
      if c.exp <= 0 || (!allowExpired && c.exp * 1000 <= now) || c.use != 1 || c.jkt == ""
      then Err(InvalidCredential)
      else Ok(c)
  }

  predicate SameScope(left: seq<string>, right: seq<string>) {
    |left| == |right| && forall s :: s in left ==> s in right
  }

  // --- approve, consume, complete ---

  predicate PastDue(g: Grant, now: int) {
    g.status.Expired? || g.expiresAt <= now
  }

  function ApproveCheck(g: Grant, now: int): Option<Error> {
    if PastDue(g, now) then Some(GrantExpired)
    else if g.status.Denied? then Some(PolicyBlocked)
    else if !g.status.Proposed? then Some(GrantNotApproved)
    else None
  }

  function ConsumeCheck(g: Grant, claims: Claims, input: ConsumeInput, now: int): Option<Error> {
    if PastDue(g, now) then Some(GrantExpired)
    else if input.audience != g.audience then Some(WrongAudience)
    else if claims.aud != g.audience then Some(ActionNotAuthorized)
    else if input.proof.target.None? then Some(DpopProofInvalid)
    else if input.proof.target.value.origin != g.audienceOrigin then Some(WrongAudience)
    else if input.proof.verb + " " + input.proof.target.value.path != g.action || claims.action != g.action
    then Some(ActionNotAuthorized)
    else if g.status.Consumed? then Some(GrantAlreadyConsumed)
    else if g.status.Revoked? then Some(GrantRevoked)
    else if !g.status.Approved? then Some(GrantNotApproved)
    else None
  }

  /** What `completeAuthenticated` checks before it looks at the proof of possession. */
  function CompleteCheck(g: Grant, claims: Claims, proof: RequestProof): Option<Error> {
    if claims.aud != g.audience then Some(WrongAudience)
    else if claims.sub != g.subjectId || claims.action != g.action || claims.jkt != g.dpopThumbprint ||
            !SameScope(claims.scope, g.grantedScope)
    then Some(InvalidCredential)
    else if proof.verb != "POST" then Some(DpopProofInvalid)
    else None
  }

  function ApprovedBy(g: Grant, approver: string, now: int): Grant {
    g.(status := Approved, approver := Some(approver), issuedAt := Some(now))
  }

  function ConsumedAt(g: Grant, now: int): Grant {
    g.(status := Consumed, consumedAt := Some(now))
  }

  function FinalizedBy(g: Grant, status: Status, source: Source, now: int, evidenceId: string): Grant {
    g.(status := status, completedAt := Some(now), completionSource := Some(source), evidenceId := Some(evidenceId))
  }

  /** The credential minted for a grant is accepted for it until it runs out, by consume and complete alike. */
  lemma MintedCredentialFits(g: Grant, input: ConsumeInput, now: int)
    requires g.dpopThumbprint != "" && g.expiresAt >= 1000
    ensures VerifyCredential(Signed(Mint(g)), now, true) == Ok(Mint(g))
    ensures VerifyCredential(Signed(Mint(g)), now, false) == Ok(Mint(g)) <==> now < g.expiresAt / 1000 * 1000
    ensures CompleteCheck(g, Mint(g), input.proof).None? <==> input.proof.verb == "POST"
    ensures ConsumeCheck(g, Mint(g), input, now).None? <==>
            && g.status.Approved? && now < g.expiresAt && input.audience == g.audience
            && input.proof.target.Some? && input.proof.target.value.origin == g.audienceOrigin
            && input.proof.verb + " " + input.proof.target.value.path == g.action
  {
  }

  // --- the state machine of a grant ---

  /** What makes a status change, and who: the middle column of the table.  `due` says that the deadline is over. */
  datatype Trigger =
    | Proposing(decision: Decision)
    | Approving
    | Using
    | Closing(source: Source, status: Status, due: bool)

  predicate Active(status: Status) {
    status.Proposed? || status.Approved? || status.Consumed?
  }

  /**
    The table of section 3 of docs/spec/completion-scoped-grants.md, trigger and actor included.  A
    proposal and the policy decision on it are recorded in one step, which stands for two rows.
    Completion is for approved and consumed grants, only the operator revokes any active one, and only
    the end of its time expires it.
   */
  predicate FollowsRow(before: Option<Status>, trigger: Trigger, after: Status) {
    match trigger
    case Proposing(Allow) => before.None? && after.Approved?
    case Proposing(RequireApproval) => before.None? && after.Proposed?
    case Proposing(Block) => before.None? && after.Denied?
    case Approving => before == Some(Proposed) && after.Approved?
    case Using => before == Some(Approved) && after.Consumed?
    case Closing(Ttl, Expired, due) => due && before.Some? && Active(before.value) && after.Expired?
    case Closing(Operator, Revoked, _) => before.Some? && Active(before.value) && after.Revoked?
    case Closing(_, Revoked, _) => (before == Some(Approved) || before == Some(Consumed)) && after.Revoked?
    case Closing(_, _, _) => false
  }

  /** What a caller can look at before closing a grant to know that the table has a row for it. */
  predicate MayClose(before: Status, source: Source, status: Status, due: bool) {
    if status.Expired? then due else before.Approved? || before.Consumed? || source.Operator?
  }

  predicate DeadlineOver(g: Grant, now: int) {
    g.expiresAt <= now
  }

  /** The edges of the table, whoever takes them, and those of a proposal that is decided at once. */
  predicate LegalEdge(before: Option<Status>, after: Status) {
    match before
    case None => after.Proposed? || after.Approved? || after.Denied?
    case Some(Proposed) => after.Approved? || after.Denied? || after.Expired? || after.Revoked?
    case Some(Approved) => after.Consumed? || after.Revoked? || after.Expired?
    case Some(Consumed) => after.Revoked? || after.Expired?
    case Some(_) => false
  }

  predicate Final(status: Status) {
    status.Revoked? || status.Expired?
  }
}
