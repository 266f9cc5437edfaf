/**
  What each request of the broker answers, said in terms of its inputs, of the grant it is about and of what
  the run has answered before (packages/broker/src/broker.ts:129-306).
 */
module BrokerLaws {
  import opened Wrappers
  import opened BrokerTypes
  import opened BrokerRules
  import opened StoreModel
  import opened BrokerModel
  import opened BrokerRuns
  import Dpop

  // --- what never changes about a grant ---

  /** The grant as it was asked for, without its progress. */
  function Terms(g: Grant): Grant {
    g.(status := Proposed, approver := None, issuedAt := None, consumedAt := None, completedAt := None,
       completionSource := None, evidenceId := None)
  }

  ghost predicate TermsKept(st: Store, st': Store) {
    forall id :: id in st.grants ==> id in st'.grants && Terms(st'.grants[id]) == Terms(st.grants[id])
  }

  ghost predicate Keyholders(st: Store) {
    forall id :: id in st.grants ==> st.grants[id].dpopThumbprint != ""
  }

  lemma GrantAdded(st: Store, st': Store, g: Grant)
    requires g.id !in st.grants && st'.grants == st.grants[g.id := g] && g.dpopThumbprint != "" && Keyholders(st)
    ensures TermsKept(st, st') && Keyholders(st')
  {
  }

  lemma GrantMoved(st: Store, st': Store, id: string)
    requires id in st.grants && id in st'.grants && st'.grants == st.grants[id := st'.grants[id]] && Keyholders(st)
    requires Terms(st'.grants[id]) == Terms(st.grants[id])
    ensures TermsKept(st, st') && Keyholders(st')
  {
  }

  lemma ExchangeGrants(st: Store, env: Env, p: Proposal, authority: Option<Authority>, decision: Decision,
                       grantId: string, reference: string, signs: bool)
    ensures
      var st' := Exchange(st, env, p, authority, decision, grantId, reference, signs).0;
      var r := Propose(p, authority, decision, env.config.maxTtlSeconds, grantId, reference, env.now);
      st'.grants == st.grants || (r.Ok? && st'.grants == st.grants[r.value.id := r.value])
  {
    hide Propose, AuditFor;
  }

  lemma ExchangeKeepsTerms(st: Store, env: Env, p: Proposal, authority: Option<Authority>, decision: Decision,
                           grantId: string, reference: string, signs: bool)
    requires grantId !in st.grants && Keyholders(st)
    ensures
      var st' := Exchange(st, env, p, authority, decision, grantId, reference, signs).0;
      TermsKept(st, st') && Keyholders(st')
  {
    hide Exchange, Propose, TermsKept, Keyholders;
    ProposedKey(p, authority, decision, env.config.maxTtlSeconds, grantId, reference, env.now);
    ExchangeGrants(st, env, p, authority, decision, grantId, reference, signs);
    var st' := Exchange(st, env, p, authority, decision, grantId, reference, signs).0;
    if st'.grants == st.grants {
      SameGrantsTerms(st, st');
    } else {
      GrantAdded(st, st', Propose(p, authority, decision, env.config.maxTtlSeconds, grantId, reference, env.now).value);
    }
  }

  lemma ProposedKey(p: Proposal, authority: Option<Authority>, decision: Decision, maxTtl: int, id: string, reference: string, now: int)
    ensures
      var r := Propose(p, authority, decision, maxTtl, id, reference, now);
      r.Ok? ==> r.value.id == id && r.value.dpopThumbprint != ""
  {
  }

  lemma ApproveKeepsTerms(st: Store, env: Env, id: string, approver: string, signs: bool)
    requires Keyholders(st)
    ensures
      var st' := Approve(st, env, id, approver, signs).0;
      TermsKept(st, st') && Keyholders(st')
  {
    hide TermsKept, Keyholders, ApproveCheck, AuditFor;
    var st' := Approve(st, env, id, approver, signs).0;
    if st'.grants == st.grants {
      SameGrantsTerms(st, st');
    } else {
      GrantMoved(st, st', id);
    }
  }

  lemma ConsumeKeepsTerms(s: State, env: Env, input: ConsumeInput)
    requires Keyholders(s.store)
    ensures TermsKept(s.store, Consume(s, env, input).0.store) && Keyholders(Consume(s, env, input).0.store)
  {
    hide Dpop.Verdict, Dpop.SeenAfter, ConsumeCheck;
  }

  lemma FinalizeKeepsTerms(st: Store, env: Env, id: string, source: Source, status: Status)
    requires Inv(st) && FreshIds(env.ids) && Final(status) && Keyholders(st)
    ensures
      var st' := Finalize(st, env, id, source, status).0;
      TermsKept(st, st') && Keyholders(st')
  {
    hide Inv, Good, DeliverPending, RecordOk;
    if id in st.grants && (id in st.evidence || !st.grants[id].status.Denied?) {
      FinalizeMoves(st, env, id, source, status);
      SettledTerms(st, env, id, source, status);
    }
  }

  lemma SettledTerms(st: Store, env: Env, id: string, source: Source, status: Status)
    requires id in st.grants && Keyholders(st)
    ensures TermsKept(st, Settled(st, env, id, source, status)) && Keyholders(Settled(st, env, id, source, status))
  {
    hide NewDeliveries, AuditFor;
  }

  lemma TermsAdd(a: Store, b: Store, c: Store)
    requires TermsKept(a, b) && TermsKept(b, c)
    ensures TermsKept(a, c)
  {
  }

  /** The listing up to `n` expires one grant more than that up to `n - 1`, or the same ones. */
  lemma ExpireListedStep(st: Store, env: Env, grants: seq<Grant>, n: nat)
    requires 0 < n <= |grants|
    ensures
      var mid := ExpireListed(st, env, grants[..n - 1]).0;
      var st' := ExpireListed(st, env, grants[..n]).0;
      st' == mid || st' == Finalize(mid, env, grants[n - 1].id, Ttl, Expired).0
  {
    hide Finalize;
    assert grants[..n][..n - 1] == grants[..n - 1] && grants[..n][n - 1] == grants[n - 1];
  }

  lemma {:induction false} ExpireKeepsTerms(st: Store, env: Env, n: nat)
    requires Inv(st) && FreshIds(env.ids) && n <= |st.order| && Keyholders(st)
    requires (forall i :: 0 <= i < |st.order| ==> st.order[i] in st.grants) && |ListGrants(st)| == |st.order|
    ensures
      var st' := ExpireListed(st, env, ListGrants(st)[..n]).0;
      TermsKept(st, st') && Keyholders(st')
  {
    hide Finalize, Good, RecordOk, SameAt, ExpiredIfDue, TermsKept, Keyholders, Inv, ListGrants;
    SameTerms(st);
    var grants := ListGrants(st);
    if n == 0 {
      assert grants[..0] == [];
    } else {
      hide ExpireListed, SweptTo;
      ExpireKeepsTerms(st, env, n - 1);
      MidIsKept(st, env, n - 1);
      var mid := ExpireListed(st, env, grants[..n - 1]).0;
      ExpireListedStep(st, env, grants, n);
      FinalizeKeepsTerms(mid, env, grants[n - 1].id, Ttl, Expired);
      TermsAdd(st, mid, Finalize(mid, env, grants[n - 1].id, Ttl, Expired).0);
    }
  }

  lemma MidIsKept(st: Store, env: Env, n: nat)
    requires Inv(st) && FreshIds(env.ids) && n <= |st.order|
    requires (forall i :: 0 <= i < |st.order| ==> st.order[i] in st.grants) && |ListGrants(st)| == |st.order|
    ensures Inv(ExpireListed(st, env, ListGrants(st)[..n]).0)
  {
    hide ExpireListed, Good, Inv, ListGrants;
    ExpireListedIsGood(st, env, n);
    MidIsInv(st, ExpireListed(st, env, ListGrants(st)[..n]).0);
  }

  lemma ListedLength(st: Store)
    requires Inv(st)
    ensures (forall i :: 0 <= i < |st.order| ==> st.order[i] in st.grants) && |ListGrants(st)| == |st.order|
  {
  }

  lemma SameTerms(st: Store)
    ensures TermsKept(st, st)
  {
  }

  lemma SameGrantsTerms(st: Store, st': Store)
    requires st'.grants == st.grants && Keyholders(st)
    ensures TermsKept(st, st') && Keyholders(st')
  {
  }

  lemma StepKeepsTerms(s: State, c: Call)
    requires Inv(s.store) && Valid(s, c) && Keyholders(s.store)
    ensures TermsKept(s.store, Step(s, c).0.store) && Keyholders(Step(s, c).0.store)
  {
    hide Finalize, Exchange, Approve, Consume, ExpireListed, RetryListed, Inv, CompleteCheck, VerifyCredential, TermsKept, Keyholders,
         Dpop.Verdict, Dpop.SeenAfter;
    SameTerms(s.store);
    match c.request
    case ExchangeRequest(p, authority, decision, grantId, reference, signs) =>
      ExchangeKeepsTerms(s.store, c.env, p, authority, decision, grantId, reference, signs);
    case ApproveRequest(id, approver, signs) => ApproveKeepsTerms(s.store, c.env, id, approver, signs);
    case ConsumeRequest(input) => ConsumeKeepsTerms(s, c.env, input);
    case FinalizeRequest(id, source, status) => FinalizeKeepsTerms(s.store, c.env, id, source, status);
    case CompleteRequest(id, _, _) => FinalizeKeepsTerms(s.store, c.env, id, Agent, Revoked);
    case ExpireDueRequest =>
      ListedLength(s.store);
      ExpireKeepsTerms(s.store, c.env, |s.store.order|);
      assert ListGrants(s.store)[..|s.store.order|] == ListGrants(s.store);
    case RetryRequest =>
      RetryListedIsGood(s.store, c.env, s.store.order);
      SameGrantsTerms(s.store, RetryListed(s.store, c.env, s.store.order));
    case EvidenceRequest(_) =>
    case Restart =>
  }

  lemma {:induction false} AlwaysKeyholders(calls: seq<Call>)
    requires Legal(calls)
    ensures Keyholders(After(calls).store)
  {
    if calls != [] {
      var n := |calls| - 1;
      hide Step, Inv, Keyholders, TermsKept;
      LegalPrefix(calls, n);
      AlwaysKeyholders(calls[..n]);
      Reachable(calls[..n]);
      LastIsValid(calls);
      StepKeepsTerms(After(calls[..n]), calls[n]);
    }
  }

  lemma LastIsValid(calls: seq<Call>)
    requires Legal(calls) && calls != []
    ensures Valid(After(calls[..|calls| - 1]), calls[|calls| - 1])
  {
    var n := |calls| - 1;
    assert Valid(After(calls[..n]), calls[n]);
  }

  // --- credentials given out ---

  /** The answer to a request gives out this credential. */
  predicate GivesOut(r: Response, claims: Claims) {
    r.Replied? && r.reply.Ok? && r.reply.value.credential == Some(Signed(claims))
  }

  /** Some request of the run was answered with the credential. */
  ghost predicate GivenOut(calls: seq<Call>, claims: Claims) {
    exists j :: 0 <= j < |calls| && GivesOut(Step(After(calls[..j]), calls[j]).1, claims)
  }

  /** Nobody but the broker signs with its key. */
  ghost predicate Genuine(calls: seq<Call>, credential: Credential) {
    credential.Signed? ==> GivenOut(calls, credential.claims)
  }

  function PresentedIn(r: Request): Option<Credential> {
    match r
    case ConsumeRequest(input) => Some(input.credential)
    case CompleteRequest(_, credential, _) => Some(credential)
    case _ => None
  }

  /** Every credential presented in the run is genuine. */
  ghost predicate Honest(calls: seq<Call>) {
    forall i {:trigger calls[i]} :: 0 <= i < |calls| && PresentedIn(calls[i].request).Some? ==>
      Genuine(calls[..i], PresentedIn(calls[i].request).value)
  }

  /** The claims are those of the grant they name, which has been approved. */
  ghost predicate SaysItsGrant(st: Store, claims: Claims) {
    && claims.grantId in st.grants
    && claims == Mint(st.grants[claims.grantId])
    && !st.grants[claims.grantId].status.Proposed? && !st.grants[claims.grantId].status.Denied?
  }

  lemma GivenNowSays(s: State, c: Call, claims: Claims)
    requires Inv(s.store) && Valid(s, c) && GivesOut(Step(s, c).1, claims)
    ensures SaysItsGrant(Step(s, c).0.store, claims)
  {
    hide Inv, ExpireListed, RetryListed, Finalize, Dpop.Verdict, Dpop.SeenAfter, ConsumeCheck, CompleteCheck;
    match c.request
    case ExchangeRequest(p, authority, decision, grantId, reference, signs) =>
      ProposedKey(p, authority, decision, c.env.config.maxTtlSeconds, grantId, reference, c.env.now);
      ProposedGrant(p, authority, decision, c.env.config.maxTtlSeconds, grantId, reference, c.env.now);
      ExchangeGives(s.store, c.env, p, authority, decision, grantId, reference, signs, claims);
    case ApproveRequest(id, approver, signs) =>
      IdOf(s.store, id);
    case _ =>
  }

  lemma IdOf(st: Store, id: string)
    requires Inv(st)
    ensures id in st.grants ==> st.grants[id].id == id
  {
    assert RecordOk(st, id);
  }

  lemma ExchangeGives(st: Store, env: Env, p: Proposal, authority: Option<Authority>, decision: Decision,
                      grantId: string, reference: string, signs: bool, claims: Claims)
    requires
      var r := Exchange(st, env, p, authority, decision, grantId, reference, signs).1;
      r.Ok? && r.value.credential == Some(Signed(claims))
    requires grantId !in st.grants
    ensures SaysItsGrant(Exchange(st, env, p, authority, decision, grantId, reference, signs).0, claims)
  {
    ProposedGrant(p, authority, decision, env.config.maxTtlSeconds, grantId, reference, env.now);
  }

  lemma SayingStays(st: Store, st': Store, claims: Claims)
    requires SaysItsGrant(st, claims) && TermsKept(st, st') && FollowsTable(st, st', claims.grantId)
    ensures SaysItsGrant(st', claims)
  {
  }

  /** Whatever credential a run has given out, it is that of its grant now, which is past approval. */
  lemma {:induction false} GivenOutSays(calls: seq<Call>, claims: Claims)
    requires Legal(calls) && GivenOut(calls, claims)
    ensures SaysItsGrant(After(calls).store, claims)
  {
    hide Step, Inv, Keyholders, TermsKept, SaysItsGrant, Good, FollowsTable, GivesOut;
    var j :| 0 <= j < |calls| && GivesOut(Step(After(calls[..j]), calls[j]).1, claims);
    var n := |calls| - 1;
    LegalPrefix(calls, n);
    Reachable(calls[..n]);
    AlwaysKeyholders(calls[..n]);
    LastIsValid(calls);
    if j == n {
      GivenNowSays(After(calls[..n]), calls[n], claims);
    } else {
      assert calls[..n][..j] == calls[..j] && calls[..n][j] == calls[j];
      GivenOutSays(calls[..n], claims);
      StepKeepsTerms(After(calls[..n]), calls[n]);
      StepIsGood(After(calls[..n]), calls[n]);
      GoodFollows(After(calls[..n]).store, After(calls).store, claims.grantId);
      SayingStays(After(calls[..n]).store, After(calls).store, claims);
    }
  }

  // --- proofs of possession ---

  /** A proof for the key, well formed, fresh by the clock and signed. */
  predicate ProofFits(proof: Dpop.Proof, thumbprint: string, now: int) {
    && proof.wellFormed && proof.jti != "" && proof.signatureValid && proof.thumbprint == thumbprint
    && -300_000.0 <= now as real - proof.iat * 1000.0 <= 300_000.0
  }

  predicate Live(seen: Dpop.Seen, jti: string, now: int) {
    jti in seen && seen[jti] > now
  }

  lemma VerdictIs(seen: Dpop.Seen, proof: Dpop.Proof, thumbprint: string, now: int)
    ensures Dpop.Verdict(seen, proof, thumbprint, now).None? <==> ProofFits(proof, thumbprint, now) && !Live(seen, proof.jti, now)
    ensures Dpop.Verdict(seen, proof, thumbprint, now).None? ==>
              var seen' := Dpop.SeenAfter(seen, proof, thumbprint, now);
              proof.jti in seen' && seen'[proof.jti] == now + 300_000
  {
  }

  // --- consume ---

  /** The request is the one the grant was made for. */
  predicate AsGranted(g: Grant, input: ConsumeInput) {
    && input.audience == g.audience && input.proof.target.Some?
    && input.proof.target.value.origin == g.audienceOrigin
    && input.proof.verb + " " + input.proof.target.value.path == g.action
  }

  /** What a consume has to bring: the credential of an approved grant in time, the granted request and a new proof for its key. */
  ghost predicate MayConsume(s: State, input: ConsumeInput, now: int) {
    && input.credential.Signed?
    && var id := input.credential.claims.grantId;
       && id in s.store.grants
       && var g := s.store.grants[id];
          && input.credential.claims == Mint(g) && g.expiresAt >= 1000
          && g.status.Approved? && now < g.expiresAt && AsGranted(g, input)
          && ProofFits(input.proof.dpop, g.dpopThumbprint, now) && !Live(s.seen, input.proof.dpop.jti, now)
  }

  lemma ConsumeOkIff(s: State, env: Env, input: ConsumeInput)
    requires Keyholders(s.store) && (input.credential.Signed? ==> SaysItsGrant(s.store, input.credential.claims))
    ensures Consume(s, env, input).1.Ok? <==> MayConsume(s, input, env.now)
  {
    hide Dpop.Verdict, Dpop.SeenAfter, ProofFits, Live;
    if input.credential.Signed? {
      var g := s.store.grants[input.credential.claims.grantId];
      VerdictIs(s.seen, input.proof.dpop, g.dpopThumbprint, env.now);
      MintVerifies(g, env.now);
    }
  }

  lemma MintVerifies(g: Grant, now: int)
    requires g.dpopThumbprint != ""
    ensures VerifyCredential(Signed(Mint(g)), now, true).Ok? <==> g.expiresAt >= 1000
    ensures VerifyCredential(Signed(Mint(g)), now, false).Ok? <==> g.expiresAt >= 1000 && now < g.expiresAt / 1000 * 1000
    ensures VerifyCredential(Signed(Mint(g)), now, true).Ok? ==> VerifyCredential(Signed(Mint(g)), now, true).value == Mint(g)
    ensures VerifyCredential(Signed(Mint(g)), now, false).Ok? ==> VerifyCredential(Signed(Mint(g)), now, false).value == Mint(g)
  {
  }

  lemma ConsumeLeaves(s: State, env: Env, input: ConsumeInput)
    ensures
      var (s', r) := Consume(s, env, input);
      && (r.Err? ==> s'.store == s.store)
      && (r.Ok? ==>
            && input.credential.Signed? && input.credential.claims.grantId in s.store.grants
            && var id := input.credential.claims.grantId;
               && r.value == s.store.grants[id].(status := Consumed, consumedAt := Some(env.now))
               && s'.store.grants == s.store.grants[id := r.value]
               && s'.store.subjectTokenGrant == s.store.subjectTokenGrant && s'.store.evidence == s.store.evidence
               && s'.store.deliveries == s.store.deliveries && s'.store.idempotency == s.store.idempotency
               && input.proof.dpop.jti in s'.seen && s'.seen[input.proof.dpop.jti] == env.now + 300_000)
  {
    hide Dpop.Verdict, Dpop.SeenAfter, ConsumeCheck, ProofFits, Live;
    if input.credential.Signed? && input.credential.claims.grantId in s.store.grants {
      VerdictIs(s.seen, input.proof.dpop, s.store.grants[input.credential.claims.grantId].dpopThumbprint, env.now);
    }
  }

  /**
    In every run a consume succeeds exactly if it brings the credential minted for its grant, the grant is
    approved and in time, the request is the granted one, and the proof is fresh, signed by the grant's key
    and not live.  It then marks the grant consumed and keeps the proof's `jti` for 300 s; refused, it leaves
    the records alone.
   */
  lemma ConsumeAnswers(calls: seq<Call>, env: Env, input: ConsumeInput)
    requires Legal(calls) && Genuine(calls, input.credential)
    ensures Consume(After(calls), env, input).1.Ok? <==> MayConsume(After(calls), input, env.now)
    ensures Consume(After(calls), env, input).1.Err? ==> Consume(After(calls), env, input).0.store == After(calls).store
    ensures Consume(After(calls), env, input).1.Ok? ==>
              var s, (s', r) := After(calls), Consume(After(calls), env, input);
              var id := input.credential.claims.grantId;
              && r.value == s.store.grants[id].(status := Consumed, consumedAt := Some(env.now))
              && s'.store.grants == s.store.grants[id := r.value]
              && input.proof.dpop.jti in s'.seen && s'.seen[input.proof.dpop.jti] == env.now + 300_000
  {
    hide After, Legal, Consume, MayConsume, Keyholders, SaysItsGrant, GivenOut;
    AlwaysKeyholders(calls);
    if input.credential.Signed? {
      GivenOutSays(calls, input.credential.claims);
    }
    ConsumeOkIff(After(calls), env, input);
    ConsumeLeaves(After(calls), env, input);
  }

  // --- completing under a credential ---

  /** What a completion has to bring: the credential of the grant, unexpired, a `POST` and a new proof for its key. */
  ghost predicate MayComplete(s: State, id: string, credential: Credential, proof: RequestProof, now: int) {
    && credential.Signed? && credential.claims.grantId == id && id in s.store.grants
    && var g := s.store.grants[id];
       && credential.claims == Mint(g) && g.expiresAt >= 1000 && now < g.expiresAt / 1000 * 1000
       && proof.verb == "POST"
       && ProofFits(proof.dpop, g.dpopThumbprint, now) && !Live(s.seen, proof.dpop.jti, now)
  }

  lemma MintCompletes(g: Grant, proof: RequestProof)
    ensures CompleteCheck(g, Mint(g), proof).None? <==> proof.verb == "POST"
  {
  }

  lemma CompleteOkIff(s: State, env: Env, id: string, credential: Credential, proof: RequestProof)
    requires Inv(s.store) && FreshIds(env.ids) && Keyholders(s.store)
    requires credential.Signed? ==> SaysItsGrant(s.store, credential.claims)
    ensures CompleteAuthenticated(s, env, id, credential, proof).1.Ok? <==> MayComplete(s, id, credential, proof, env.now)
    ensures CompleteAuthenticated(s, env, id, credential, proof).1.Err? ==>
              CompleteAuthenticated(s, env, id, credential, proof).0.store == s.store
    ensures CompleteAuthenticated(s, env, id, credential, proof).1.Ok? ==>
              var (s', r) := CompleteAuthenticated(s, env, id, credential, proof);
              && (s'.store, r) == Finalize(s.store, env, id, Agent, Revoked)
              && proof.dpop.jti in s'.seen && s'.seen[proof.dpop.jti] == env.now + 300_000
  {
    hide Dpop.Verdict, Dpop.SeenAfter, ProofFits, Live, Inv, Finalize, CompleteCheck, VerifyCredential, Good, SameAt;
    if credential.Signed? {
      var claims := credential.claims;
      var g := s.store.grants[claims.grantId];
      VerdictIs(s.seen, proof.dpop, g.dpopThumbprint, env.now);
      MintVerifies(g, env.now);
      MintCompletes(g, proof);
      MintNames(s.store, claims.grantId);
      FinalizeIsGood(s.store, env, claims.grantId, Agent, Revoked);
    } else {
      ForgedFails(env.now);
    }
  }

  lemma MintNames(st: Store, id: string)
    requires Inv(st) && id in st.grants
    ensures Mint(st.grants[id]).grantId == id
  {
    IdOf(st, id);
  }

  lemma ForgedFails(now: int)
    ensures VerifyCredential(Forged, now, true).Err? && VerifyCredential(Forged, now, false).Err?
  {
  }

  /**
    In every run a completion under a credential succeeds exactly if it brings the unexpired credential minted
    for the grant, a `POST`, and a proof that is fresh, signed by the grant's key and not live; it is then the
    completion by the agent.
   */
  lemma CompletionAnswers(calls: seq<Call>, env: Env, id: string, credential: Credential, proof: RequestProof)
    requires Legal(calls) && FreshIds(env.ids) && Genuine(calls, credential)
    ensures CompleteAuthenticated(After(calls), env, id, credential, proof).1.Ok? <==>
              MayComplete(After(calls), id, credential, proof, env.now)
    ensures CompleteAuthenticated(After(calls), env, id, credential, proof).1.Err? ==>
              CompleteAuthenticated(After(calls), env, id, credential, proof).0.store == After(calls).store
    ensures CompleteAuthenticated(After(calls), env, id, credential, proof).1.Ok? ==>
              var (s', r) := CompleteAuthenticated(After(calls), env, id, credential, proof);
              && (s'.store, r) == Finalize(After(calls).store, env, id, Agent, Revoked)
              && proof.dpop.jti in s'.seen && s'.seen[proof.dpop.jti] == env.now + 300_000
  {
    hide After, Legal, CompleteAuthenticated, MayComplete, Keyholders, SaysItsGrant, GivenOut, Inv, Finalize;
    AlwaysKeyholders(calls);
    Reachable(calls);
    if credential.Signed? {
      GivenOutSays(calls, credential.claims);
    }
    CompleteOkIff(After(calls), env, id, credential, proof);
  }

  // --- which proofs are live ---

  /** The request was answered with success and its proof had that `jti`. */
  predicate Spends(c: Call, r: Response, jti: string) {
    match c.request
    case ConsumeRequest(input) => r.Used? && r.grant.Ok? && input.proof.dpop.jti == jti
    case CompleteRequest(_, _, proof) => r.Closed? && r.evidence.Ok? && proof.dpop.jti == jti
    case _ => false
  }

  /** Some request that succeeded less than 300 s before `now` used the `jti`. */
  ghost predicate SpentLately(calls: seq<Call>, jti: string, now: int) {
    exists i :: SpentAt(calls, i, jti) && now < calls[i].env.now + 300_000
  }

  ghost predicate SpentAt(calls: seq<Call>, i: int, jti: string) {
    0 <= i < |calls| && Spends(calls[i], Step(After(calls[..i]), calls[i]).1, jti)
  }

  /** The map after a request: only a success adds to it, and only what is dead goes. */
  lemma StepSpends(s: State, c: Call, jti: string, now: int)
    requires Inv(s.store) && Valid(s, c) && Keyholders(s.store) && c.env.now <= now
    requires PresentedIn(c.request).Some? && PresentedIn(c.request).value.Signed? ==>
               SaysItsGrant(s.store, PresentedIn(c.request).value.claims)
    ensures Live(Step(s, c).0.seen, jti, now) <==>
              if Spends(c, Step(s, c).1, jti) then now < c.env.now + 300_000 else Live(s.seen, jti, now)
  {
    hide Inv, Keyholders, SaysItsGrant, Finalize, Exchange, Approve, ExpireListed, RetryListed, Valid;
    match c.request
    case ConsumeRequest(input) => ConsumeSpends(s, c.env, input, jti, now);
    case CompleteRequest(id, credential, proof) => CompleteSpends(s, c, jti, now);
    case Restart =>
    case _ =>
  }

  lemma SeenMoves(seen: Dpop.Seen, proof: Dpop.Proof, thumbprint: string, at: int, jti: string, now: int)
    requires at <= now
    ensures
      var seen' := Dpop.SeenAfter(seen, proof, thumbprint, at);
      Live(seen', jti, now) <==>
        if Dpop.Verdict(seen, proof, thumbprint, at).None? && proof.jti == jti then now < at + 300_000 else Live(seen, jti, now)
  {
  }

  lemma ConsumeSpends(s: State, env: Env, input: ConsumeInput, jti: string, now: int)
    requires env.now <= now
    ensures Live(Consume(s, env, input).0.seen, jti, now) <==>
              if Consume(s, env, input).1.Ok? && input.proof.dpop.jti == jti then now < env.now + 300_000 else Live(s.seen, jti, now)
  {
    hide Dpop.Verdict, Dpop.SeenAfter, ConsumeCheck, Live;
    if input.credential.Signed? && input.credential.claims.grantId in s.store.grants {
      SeenMoves(s.seen, input.proof.dpop, s.store.grants[input.credential.claims.grantId].dpopThumbprint, env.now, jti, now);
    }
  }

  lemma CompleteSpends(s: State, c: Call, jti: string, now: int)
    requires Inv(s.store) && Valid(s, c) && c.request.CompleteRequest? && c.env.now <= now
    requires c.request.credential.Signed? ==> SaysItsGrant(s.store, c.request.credential.claims)
    ensures Live(Step(s, c).0.seen, jti, now) <==>
              if Spends(c, Step(s, c).1, jti) then now < c.env.now + 300_000 else Live(s.seen, jti, now)
  {
    hide Inv, Dpop.Verdict, Dpop.SeenAfter, Live, CompleteCheck, Finalize, Good, SameAt;
    var id, proof := c.request.id, c.request.proof;
    if id in s.store.grants {
      SeenMoves(s.seen, proof.dpop, s.store.grants[id].dpopThumbprint, c.env.now, jti, now);
      FinalizeIsGood(s.store, c.env, id, Agent, Revoked);
    }
  }

  lemma SpentGrows(calls: seq<Call>, jti: string, now: int)
    requires calls != []
    ensures
      var n := |calls| - 1;
      SpentLately(calls, jti, now) <==>
        || SpentLately(calls[..n], jti, now)
        || (Spends(calls[n], Step(After(calls[..n]), calls[n]).1, jti) && now < calls[n].env.now + 300_000)
  {
    hide Step, After, Spends;
    var n := |calls| - 1;
    assert forall i :: 0 <= i <= n ==> calls[..n][..i] == calls[..i];
    if i :| SpentAt(calls, i, jti) && now < calls[i].env.now + 300_000 {
      if i < n {
        assert SpentAt(calls[..n], i, jti);
      }
    }
    if i :| SpentAt(calls[..n], i, jti) && now < calls[..n][i].env.now + 300_000 {
      assert SpentAt(calls, i, jti);
    }
    if Spends(calls[n], Step(After(calls[..n]), calls[n]).1, jti) {
      assert SpentAt(calls, n, jti);
    }
  }

  /** With one clock a `jti` is live exactly if a request that used it succeeded less than 300 s ago, restarts or not. */
  lemma {:induction false} LiveIffSpentLately(calls: seq<Call>, jti: string, now: int)
    requires Legal(calls) && Honest(calls) && Monotone(calls) && (calls != [] ==> calls[|calls| - 1].env.now <= now)
    ensures Live(After(calls).seen, jti, now) <==> SpentLately(calls, jti, now)
  {
    hide Step, Inv, Keyholders, SaysItsGrant, Spends, Live, GivenOut, Valid;
    if calls == [] {
      NothingLive(jti, now);
    } else {
      var n := |calls| - 1;
      var c := calls[n];
      assert forall i :: 0 <= i < n ==> calls[..n][i] == calls[i] && calls[..n][..i] == calls[..i];
      LegalPrefix(calls, n);
      HonestPrefix(calls, n);
      LiveIffSpentLately(calls[..n], jti, now);
      Reachable(calls[..n]);
      AlwaysKeyholders(calls[..n]);
      LastIsValid(calls);
      PresentedSays(calls);
      StepSpends(After(calls[..n]), c, jti, now);
      SpentGrows(calls, jti, now);
      SpentNotLive(calls, jti, now);
    }
  }

  lemma NothingLive(jti: string, now: int)
    ensures !Live(map[], jti, now) && !SpentLately([], jti, now)
  {
  }

  lemma HonestPrefix(calls: seq<Call>, n: nat)
    requires Honest(calls) && n <= |calls|
    ensures Honest(calls[..n])
  {
    hide Genuine;
    forall i | 0 <= i < n && PresentedIn(calls[..n][i].request).Some?
      ensures Genuine(calls[..n][..i], PresentedIn(calls[..n][i].request).value)
    {
      assert calls[..n][..i] == calls[..i] && calls[..n][i] == calls[i];
    }
  }

  lemma PresentedSays(calls: seq<Call>)
    requires Legal(calls) && Honest(calls) && calls != []
    ensures
      var n := |calls| - 1;
      var presented := PresentedIn(calls[n].request);
      presented.Some? && presented.value.Signed? ==> SaysItsGrant(After(calls[..n]).store, presented.value.claims)
  {
    hide SaysItsGrant, GivenOut;
    var n := |calls| - 1;
    LegalPrefix(calls, n);
    if PresentedIn(calls[n].request).Some? && PresentedIn(calls[n].request).value.Signed? {
      GivenOutSays(calls[..n], PresentedIn(calls[n].request).value.claims);
    }
  }

  /** A `jti` that a request uses with success was not live, so no earlier use of it outlasts this one. */
  lemma SpentNotLive(calls: seq<Call>, jti: string, now: int)
    requires Legal(calls) && Monotone(calls) && calls != [] && calls[|calls| - 1].env.now <= now
    ensures
      var n := |calls| - 1;
      SpentLately(calls[..n], jti, now) && Spends(calls[n], Step(After(calls[..n]), calls[n]).1, jti) ==> now < calls[n].env.now + 300_000
  {
    hide Step, After, Spends;
    var n := |calls| - 1;
    if i :| SpentAt(calls[..n], i, jti) && now < calls[..n][i].env.now + 300_000 {
      assert calls[i].env.now <= calls[n].env.now;
    }
  }
}
