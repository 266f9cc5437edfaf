/** The promises of the service: delegation narrows, tokens are good until revoked, everyone is told once. */
module ServiceTheorems {
  import opened Wrappers
  import opened ClaimRules
  import opened ClaimStateModel
  import opened Scopes
  import opened ServiceModel
  import opened ServiceRuns
  import C = ClaimCeremonyModel
  import E = EventDeliveryModel
  import L = RateLimitModel

  // --- delegation ---

  /**
    A token has no scope its claim or assertion lacked, that none its identity lacks, and that none the
    service does not support; and it is for its identity's resource, which is a protected one.
   */
  lemma DelegationNarrows(config: Config, acts: seq<Action>, id: string)
    requires ConfigOk(config) && Legal(config, acts) && id in After(config, acts).tokens
    ensures
      var s := After(config, acts);
      var t := s.tokens[id];
      && id in s.mints && t.identityId in s.identities
      && var identity, m := s.identities[t.identityId], s.mints[id];
         && Within(t.scopes, m.grantScopes) && Within(m.grantScopes, identity.scopes)
         && Within(identity.scopes, config.supportedScopes) && Within(t.scopes, config.supportedScopes)
         && identity.resource == Some(t.resource) && t.resource in config.protectedResources
         && (m.grantResource.Some? ==> m.grantResource == Some(t.resource))
  {
    Reachable(config, acts);
    var s := After(config, acts);
    var t := s.tokens[id];
    assert TokenOk(config, s.identities, id, t, s.mints[id]);
    assert IdentityOk(config, s.identities[t.identityId]);
  }

  // --- tokens made from claims ---

  ghost predicate ClaimsProgress(a: Claims, b: Claims) {
    forall id :: id in a ==> id in b && C.Progressed(a[id], b[id])
  }

  /** A token made from a claim used it up, and no other token was made from it. */
  ghost predicate ClaimMintsOk(claims: Claims, mints: map<string, Mint>) {
    && (forall id :: id in mints && mints[id].claimId.Some? ==> MintedFrom(claims, mints[id]))
    && (forall a, b :: a in mints && b in mints && a != b && mints[a].claimId.Some? ==> mints[a].claimId != mints[b].claimId)
  }

  ghost predicate MintedFrom(claims: Claims, m: Mint)
    requires m.claimId.Some?
  {
    && m.claimId.value in claims
    && var c := claims[m.claimId.value];
       c.grantUsedAt.Some? && m.grantScopes == c.scopes && m.grantResource == c.resource
  }

  lemma PerformProgress(options: Options, claims: Claims, op: Op, id: string, checkedAt: int, now: int)
    requires C.WellKeyed(claims)
    ensures ClaimsProgress(claims, C.Perform(options, claims, op, id, checkedAt, now).0)
  {
    hide C.Perform;
    C.PerformKeepsIndexes(options, claims, op, id, checkedAt, now);
  }

  lemma ConsumeUses(options: Options, claims: Claims, id: string, now: int)
    requires C.WellKeyed(claims)
    ensures
      var (claims', reply) := C.Perform(options, claims, Consume, id, now, now);
      reply.Ok? ==>
        && id in claims && claims[id].grantUsedAt.None? && id in claims' && claims'[id].grantUsedAt == Some(now)
        && reply.value.scopes == claims'[id].scopes && reply.value.resource == claims'[id].resource && reply.value.id == id
  {
  }

  lemma AuthorizeUses(config: Config, s: State, grant: Grant, now: int)
    requires C.WellKeyed(s.ceremony.claims)
    ensures
      var (s', reply) := Authorize(config, s, grant, now);
      && ClaimsProgress(s.ceremony.claims, s'.ceremony.claims) && s'.mints == s.mints
      && (reply.Ok? && reply.value.claimId.Some? ==>
            var id := reply.value.claimId.value;
            && id in s.ceremony.claims && s.ceremony.claims[id].grantUsedAt.None? && id in s'.ceremony.claims
            && s'.ceremony.claims[id].grantUsedAt.Some? && reply.value.allowedScopes == s'.ceremony.claims[id].scopes
            && reply.value.resource == s'.ceremony.claims[id].resource)
  {
    hide Verifies, AssertionAccepted, C.Perform, C.WellKeyed, Within, RequestedScopes, Configured, C.Progressed, ClaimsProgress, OptionalResource;
    ProgressSelf(s.ceremony.claims);
    if grant.ClaimGrant? && grant.claimGrant.Some? {
      var jwt := grant.claimGrant.value;
      if Verifies(jwt, config.ownKeys, config.issuer, TokenEndpoint(config), now) {
        VerifiesIsReadable(jwt, config.ownKeys, config.issuer, TokenEndpoint(config), now);
        if jwt.claims.claimId.Some? {
          PerformProgress(config.ceremony.claim, s.ceremony.claims, Consume, jwt.claims.claimId.value, now, now);
          ConsumeUses(config.ceremony.claim, s.ceremony.claims, jwt.claims.claimId.value, now);
        }
      }
    } else if grant.Bearer? && grant.assertion.Some? && Given(grant.clientId) {
      var jwt := grant.assertion.value;
      if AssertionAccepted(config, s, jwt, TokenEndpoint(config), now) {
        AcceptedIsReadable(config, s, jwt, TokenEndpoint(config), now);
      }
    }
  }

  lemma ProgressSelf(claims: Claims)
    ensures ClaimsProgress(claims, claims)
  {
  }

  lemma ProgressKeepsMints(a: Claims, b: Claims, mints: map<string, Mint>)
    requires ClaimsProgress(a, b) && ClaimMintsOk(a, mints)
    ensures ClaimMintsOk(b, mints)
  {
    forall id | id in mints && mints[id].claimId.Some? ensures MintedFrom(b, mints[id]) {
      assert MintedFrom(a, mints[id]);
    }
  }

  lemma MintsStep(config: Config, s: State, a: Action)
    requires ConfigOk(config) && Inv(config, s) && Enabled(config, s, a) && ClaimMintsOk(s.ceremony.claims, s.mints)
    ensures ClaimMintsOk(Apply(config, s, a).ceremony.claims, Apply(config, s, a).mints)
  {
    hide ClaimMintsOk, C.Perform, IdentitiesOk, TokensOk, SignedOk, BookOk, Register, StartClaim, Exchange, Registers,
         C.Progressed, L.Take, ClaimOk, Revoke, IssueAssertion;
    var s' := Apply(config, s, a);
    ProgressSelf(s.ceremony.claims);
    match a {
      case RegisterIdentity(r, authenticated, id, now) => RegisterSame(config, s, a);
      case BeginClaim(request, names, now) =>
        StartFacts(config, s, request, names, now);
        NewClaimProgress(s.ceremony.claims, s'.ceremony.claims, names.id);
        ProgressKeepsMints(s.ceremony.claims, s'.ceremony.claims, s.mints);
      case VerifyClaimCode(hash, _, now) =>
        var owner := C.UserCodeOwner(s.ceremony.claims, hash);
        if owner.Some? { PerformProgress(config.ceremony.claim, s.ceremony.claims, Verify, owner.value, now, now); }
        ProgressKeepsMints(s.ceremony.claims, s'.ceremony.claims, s.mints);
      case DecideClaim(id, approve, now) =>
        PerformProgress(config.ceremony.claim, s.ceremony.claims, Decide(approve), id, now, now);
        ProgressKeepsMints(s.ceremony.claims, s'.ceremony.claims, s.mints);
      case Poll(hash, now) =>
        var owner := C.DeviceCodeOwner(s.ceremony.claims, hash);
        if owner.Some? { PerformProgress(config.ceremony.claim, s.ceremony.claims, ClaimRules.Poll, owner.value, now, now); }
        ProgressKeepsMints(s.ceremony.claims, s'.ceremony.claims, s.mints);
      case ExchangeToken(_, _, _, _, _) => ExchangeMints(config, s, a);
      case SignAssertion(_, _, _, _) => SignSame(config, s, a);
      case RevokeToken(_, _, _, _) => RevokeSame(config, s, a);
      case Subscribe(_) =>
      case DeliverDue(_, _, _, _) =>
    }
  }

  lemma RegisterSame(config: Config, s: State, a: Action)
    requires ConfigOk(config) && a.RegisterIdentity? && Enabled(config, s, a)
    ensures Apply(config, s, a).ceremony.claims == s.ceremony.claims && Apply(config, s, a).mints == s.mints
  {
    hide Register;
    RegisterFacts(config, s, a.r, a.authenticated, a.id, a.now);
  }

  lemma SignSame(config: Config, s: State, a: Action)
    requires a.SignAssertion? && Enabled(config, s, a)
    ensures Apply(config, s, a).ceremony.claims == s.ceremony.claims && Apply(config, s, a).mints == s.mints
  {
  }

  lemma RevokeSame(config: Config, s: State, a: Action)
    requires a.RevokeToken? && Enabled(config, s, a)
    ensures Apply(config, s, a).ceremony.claims == s.ceremony.claims && Apply(config, s, a).mints == s.mints
  {
    hide RevocationAudience, Announce, Genuine;
    AudienceIsReadable(config, a.jwt, a.now);
  }

  lemma NewClaimProgress(a: Claims, b: Claims, id: string)
    requires id !in a && (b == a || (id in b && b == a[id := b[id]]))
    ensures ClaimsProgress(a, b)
  {
  }

  lemma ExchangeMints(config: Config, s: State, a: Action)
    requires ConfigOk(config) && Inv(config, s) && Enabled(config, s, a) && ClaimMintsOk(s.ceremony.claims, s.mints) && a.ExchangeToken?
    ensures ClaimMintsOk(Apply(config, s, a).ceremony.claims, Apply(config, s, a).mints)
  {
    hide Authorize, Narrow, IdentitiesOk, SignedOk, BookOk, ClaimsProgress, C.WellKeyed, TokenOk;
    AuthorizeUses(config, s, a.grant, a.now);
    var (s1, authorized) := Authorize(config, s, a.grant, a.now);
    ProgressKeepsMints(s.ceremony.claims, s1.ceremony.claims, s.mints);
    if authorized.Ok? && Narrow(config, authorized.value, a.scope, a.resource).Ok? {
      var s' := Apply(config, s, a);
      if authorized.value.claimId.Some? {
        forall id | id in s.mints && s.mints[id].claimId.Some? ensures s.mints[id].claimId != authorized.value.claimId {
          assert MintedFrom(s.ceremony.claims, s.mints[id]);
        }
      }
    }
  }

  lemma {:induction false} MintsReachable(config: Config, acts: seq<Action>)
    requires ConfigOk(config) && Legal(config, acts)
    ensures ClaimMintsOk(After(config, acts).ceremony.claims, After(config, acts).mints)
  {
    if acts != [] {
      MintsReachable(config, acts[..|acts| - 1]);
      Reachable(config, acts[..|acts| - 1]);
      MintsStep(config, After(config, acts[..|acts| - 1]), acts[|acts| - 1]);
    }
  }

  /** Two tokens are never made from one claim, and a token's grant is what its claim was approved for. */
  lemma OneTokenFromAClaim(config: Config, acts: seq<Action>, a: string, b: string)
    requires ConfigOk(config) && Legal(config, acts)
    requires a in After(config, acts).mints && b in After(config, acts).mints && After(config, acts).mints[a].claimId.Some?
    ensures
      var s := After(config, acts);
      && MintedFrom(s.ceremony.claims, s.mints[a])
      && (s.mints[b].claimId == s.mints[a].claimId ==> a == b)
  {
    MintsReachable(config, acts);
  }

  /** A claim whose grant was used pays no further token, whatever grant for it is presented. */
  lemma UsedClaimPaysNothing(config: Config, s: State, jwt: Jwt, scope: Option<string>, resource: Option<string>, id: string, now: int)
    requires jwt.Jwt? && jwt.claims.claimId.Some? && C.WellKeyed(s.ceremony.claims)
    requires jwt.claims.claimId.value in s.ceremony.claims && s.ceremony.claims[jwt.claims.claimId.value].grantUsedAt.Some?
    ensures
      var (s', reply) := Exchange(config, s, ClaimGrant(Some(jwt)), scope, resource, id, now);
      reply.Err? && s'.tokens == s.tokens && s'.mints == s.mints
  {
    hide C.Perform, Verifies, Narrow, C.WellKeyed;
    ConsumeUses(config.ceremony.claim, s.ceremony.claims, jwt.claims.claimId.value, now);
  }

  // --- validating ---

  /**
    The access token of a record validates at a resource exactly if that is the record's resource, it
    was not issued more than a minute ahead, it has neither expired nor been revoked, its subject is not
    empty and its scopes are distinct words (and the clock is not before 1970).
   */
  lemma ValidIffLive(config: Config, acts: seq<Action>, id: string, expected: string, now: int)
    requires ConfigOk(config) && Legal(config, acts) && id in After(config, acts).tokens
    ensures
      var s := After(config, acts);
      var t := s.tokens[id];
      && id in s.mints
      && (Validate(config, s, s.mints[id].jwt, expected, now) == Ok(t) <==>
            && Configured(config, expected) == Some(t.resource) && FloorSeconds(t.issuedAt) <= FloorSeconds(now) + 60
            && 0 <= now < t.expiresAt && t.revokedAt.None? && t.subject != "" && Clean(t.scopes))
      && (Validate(config, s, s.mints[id].jwt, expected, now).Ok? ==> Validate(config, s, s.mints[id].jwt, expected, now) == Ok(t))
  {
    hide Inv, After, Legal, Clean, SplitScope, Join, SameScopes, Configured;
    Reachable(config, acts);
    TokenFacts(config, After(config, acts), id);
    var s := After(config, acts);
    OwnTokenChecks(config, s.tokens[id], s.mints[id], now);
    ScopeClaim(s.tokens[id].scopes);
  }

  lemma TokenFacts(config: Config, s: State, id: string)
    requires Inv(config, s) && ConfigOk(config) && id in s.tokens
    ensures
      && id in s.mints && TokenOk(config, s.identities, id, s.tokens[id], s.mints[id]) && s.mints[id].jwt in s.signed
      && s.tokens[id].resource in config.protectedResources
  {
    hide Within, BookOk, ClaimsOk;
    assert TokenOk(config, s.identities, id, s.tokens[id], s.mints[id]);
    assert IdentityOk(config, s.identities[s.tokens[id].identityId]);
  }

  /** The checks of the signed part, for the token of a record. */
  lemma OwnTokenChecks(config: Config, t: IssuedToken, m: Mint, now: int)
    requires ConfigOk(config) && m.jwt == AccessTokenJwt(config, t) && t.id != ""
    requires t.issuedAt % 1000 == 0 && t.expiresAt == t.issuedAt + config.tokenSeconds * 1000
    ensures m.jwt.claims.exp > FloorSeconds(now) <==> now < t.expiresAt
    ensures Verifies(m.jwt, config.ownKeys, config.issuer, t.resource, now) <==>
              t.subject != "" && 0 <= now < t.expiresAt && FloorSeconds(t.issuedAt) <= FloorSeconds(now) + 60
    ensures forall r :: r != t.resource ==> !Verifies(m.jwt, config.ownKeys, config.issuer, r, now)
  {
  }

  lemma ScopeClaim(scopes: seq<string>)
    ensures SameScopes(scopes, SplitScope(OptionalText(Some(Join(scopes))))) <==> Clean(scopes)
  {
    OwnScopesPassIffClean(scopes);
  }

  /** Nothing but the access token of a live record validates: no claim grant, assertion, security event or altered token. */
  lemma OnlyOwnTokensValidate(config: Config, acts: seq<Action>, jwt: Jwt, expected: string, now: int)
    requires ConfigOk(config) && Legal(config, acts) && Genuine(config, After(config, acts).signed, jwt)
    requires Validate(config, After(config, acts), jwt, expected, now).Ok?
    ensures
      var s := After(config, acts);
      var t := Validate(config, s, jwt, expected, now).value;
      && t.id in s.tokens && s.tokens[t.id] == t && t.id in s.mints && s.mints[t.id].jwt == jwt
      && t.revokedAt.None? && now < t.expiresAt && Configured(config, expected) == Some(t.resource)
  {
    hide Inv, After, Legal, SplitScope, SameScopes, Configured;
    Reachable(config, acts);
    var s := After(config, acts);
    TokenFacts(config, s, jwt.claims.jti);
    SignedFacts(config, s, jwt);
  }

  lemma SignedFacts(config: Config, s: State, jwt: Jwt)
    requires Inv(config, s) && jwt in s.signed
    ensures jwt.Jwt? && ("token_" <= jwt.claims.jti ==> jwt.claims.jti in s.mints && s.mints[jwt.claims.jti].jwt == jwt)
  {
    hide IdentitiesOk, ClaimsOk, TokensOk, BookOk;
  }

  // --- revoking ---

  /**
    Presenting the access token of a live record for revocation revokes it exactly if the token still
    verifies, and tells everyone subscribed at that moment.
   */
  lemma RevokeWorksIff(config: Config, acts: seq<Action>, id: string, eventId: string, ids: seq<string>, now: int)
    requires ConfigOk(config) && Legal(config, acts) && id in After(config, acts).tokens && id in After(config, acts).mints
    requires Enabled(config, After(config, acts), RevokeToken(After(config, acts).mints[id].jwt, eventId, ids, now))
    ensures
      var s := After(config, acts);
      var s' := Apply(config, s, RevokeToken(s.mints[id].jwt, eventId, ids, now));
      var t := s.tokens[id];
      var verifies := t.subject != "" && 0 <= now < t.expiresAt && FloorSeconds(t.issuedAt) <= FloorSeconds(now) + 60;
      && id in s'.tokens
      && (s'.tokens[id].revokedAt.Some? <==> t.revokedAt.Some? || verifies)
      && (t.revokedAt.None? && verifies ==>
            && s'.tokens[id].revokedAt == Some(now) && eventId in s'.book.events && s'.book.events[eventId].tokenId == id
            && eventId in s'.book.audience && s'.book.audience[eventId] == s.book.subscribers)
      && (!(t.revokedAt.None? && verifies) ==> s' == s)
  {
    hide Inv, After, Legal, Verifies, AddDeliveries, AddSent;
    Reachable(config, acts);
    var s := After(config, acts);
    TokenFacts(config, s, id);
    NoEventYet(config, s, id);
    var t, jwt := s.tokens[id], s.mints[id].jwt;
    OwnTokenChecks(config, t, s.mints[id], now);
    assert Configured(config, t.resource) == Some(t.resource);
    assert jwt.claims.aud == [t.resource] && jwt.claims.iss == config.issuer;
    assert RevocationAudience(config, jwt, now) ==
           if Verifies(jwt, config.ownKeys, config.issuer, t.resource, now) then Some(t.resource) else None;
  }

  lemma NoEventYet(config: Config, s: State, id: string)
    requires Inv(config, s) && id in s.tokens
    ensures s.tokens[id].revokedAt.None? ==> id !in s.book.eventByToken
  {
    hide IdentitiesOk, ClaimsOk, TokensOk, SignedOk, SentOk, DeliveriesOk, E.Valid, Distinct;
  }

  /** Once revoked, a token is refused for the rest of the run, whatever is presented under its id and whenever. */
  lemma RevokedForever(config: Config, acts: seq<Action>, n: nat, jwt: Jwt, expected: string, now: int)
    requires ConfigOk(config) && Legal(config, acts) && n <= |acts| && Legal(config, acts[..n]) && jwt.Jwt?
    requires jwt.claims.jti in After(config, acts[..n]).tokens && After(config, acts[..n]).tokens[jwt.claims.jti].revokedAt.Some?
    ensures Validate(config, After(config, acts), jwt, expected, now).Err?
  {
    hide After, Legal, Verifies, Configured, SameScopes, SplitScope;
    Later(config, acts, n);
  }

  // --- events and deliveries ---

  /** A token is revoked exactly if there is an event for it, and then there is one. */
  lemma OneEventPerToken(config: Config, acts: seq<Action>, id: string)
    requires ConfigOk(config) && Legal(config, acts) && id in After(config, acts).tokens
    ensures
      var s := After(config, acts);
      && (s.tokens[id].revokedAt.Some? <==> exists e :: e in s.book.events && s.book.events[e].tokenId == id)
      && (forall e, f :: e in s.book.events && f in s.book.events && s.book.events[e].tokenId == s.book.events[f].tokenId ==> e == f)
      && (forall e :: e in s.book.events && s.book.events[e].tokenId == id ==> s.book.events[e].subject == s.tokens[id].subject)
  {
    hide IdentitiesOk, ClaimsOk, TokensOk, SignedOk, SentOk, DeliveriesOk, E.Valid, Distinct, After, Legal;
    Reachable(config, acts);
    var s := After(config, acts);
    if s.tokens[id].revokedAt.Some? {
      assert s.book.eventByToken[id] in s.book.events;
    }
  }

  /** Every event has one delivery for each subscriber it is for, and there are no others. */
  lemma OneDeliveryEach(config: Config, acts: seq<Action>, e: string, sub: string)
    requires ConfigOk(config) && Legal(config, acts)
    ensures
      var book := After(config, acts).book;
      var ds := book.deliveries.deliveries;
      && ((e in book.events && e in book.audience && sub in book.audience[e]) <==>
            exists id :: id in ds && ds[id].eventId == e && ds[id].subscriberId == sub)
      && (forall a, b :: a in ds && b in ds && ds[a].eventId == ds[b].eventId == e && ds[a].subscriberId == ds[b].subscriberId == sub
            ==> a == b)
  {
    hide IdentitiesOk, ClaimsOk, TokensOk, SignedOk, Distinct, After, Legal;
    Reachable(config, acts);
    var book := After(config, acts).book;
    DeliveryFacts(book, e, sub);
  }

  lemma DeliveryFacts(book: Book, e: string, sub: string)
    requires SentOk(book) && DeliveriesOk(book) && E.Valid(book.deliveries) && book.audience.Keys == book.events.Keys
    ensures
      var ds := book.deliveries.deliveries;
      && ((e in book.events && e in book.audience && sub in book.audience[e]) <==>
            exists id :: id in ds && ds[id].eventId == e && ds[id].subscriberId == sub)
      && (forall a, b :: a in ds && b in ds && ds[a].eventId == ds[b].eventId == e && ds[a].subscriberId == ds[b].subscriberId == sub
            ==> a == b)
  {
    var ds := book.deliveries.deliveries;
    assert (e, sub) in book.sent <==> e in book.audience && sub in book.audience[e];
    if (e, sub) in book.sent {
      assert SentAs(book, e, sub, book.sent[(e, sub)]);
    }
    forall id | id in ds && ds[id].eventId == e && ds[id].subscriberId == sub
      ensures (e, sub) in book.sent && book.sent[(e, sub)] == id
    {
      assert Recorded(book.sent, ds[id]);
      assert E.RecordOk(ds[id], id);
    }
  }

  // --- assertions are good for one use ---

  /** The request gets as far as having its assertion verified and remembered. */
  ghost predicate Accepts(config: Config, s: State, a: Action, jwt: Jwt) {
    match a
    case RegisterIdentity(r, _, _, now) =>
      && (|SplitScope(r.scope)| > 0 ==> Within(SplitScope(r.scope), config.supportedScopes))
      && OptionalResource(config, r.resource).Ok? && r.kind == Some(IdentityAssertion) && r.assertion == Some(jwt)
      && Given(r.clientId) && AssertionAccepted(config, s, jwt, IdentityEndpoint(config), now)
    case ExchangeToken(grant, _, _, _, now) =>
      && grant.Bearer? && grant.assertion == Some(jwt) && Given(grant.clientId)
      && AssertionAccepted(config, s, jwt, TokenEndpoint(config), now)
    case _ => false
  }

  lemma AcceptRemembers(config: Config, s: State, a: Action, jwt: Jwt)
    requires Enabled(config, s, a) && Accepts(config, s, a, jwt)
    ensures jwt.Jwt?
    ensures
      var replays := Apply(config, s, a).replays;
      ReplayKey(jwt.claims) in replays && replays[ReplayKey(jwt.claims)] == jwt.claims.exp * 1000
    ensures Unreplayed(s.replays, ReplayKey(jwt.claims), a.now) && jwt.claims.exp * 1000 > a.now
  {
    hide Vouched, Narrow, RequestedScopes, Within, SplitScope, OptionalResource, ReplayKey;
    match a
    case RegisterIdentity(r, _, _, now) => 
    case ExchangeToken(grant, _, _, _, now) => 
  }

  /**
    If two requests of a run are accepted with assertions of one issuer and `jti`, the second assertion
    expires later than the first.  So no assertion is ever accepted twice, by either endpoint, however
    the clock moves.
   */
  lemma AssertionsAreUsedOnce(config: Config, acts: seq<Action>, i: nat, j: nat, first: Jwt, second: Jwt)
    requires ConfigOk(config) && Legal(config, acts) && i < j < |acts|
    requires Legal(config, acts[..i]) && Legal(config, acts[..j])
    requires Accepts(config, After(config, acts[..i]), acts[i], first) && Accepts(config, After(config, acts[..j]), acts[j], second)
    requires first.Jwt? && second.Jwt? && ReplayKey(first.claims) == ReplayKey(second.claims)
    ensures second.claims.exp > first.claims.exp && first != second
  {
    hide Inv, Accepts, ReplayKey;
    var upTo := acts[..i + 1];
    assert upTo[..i] == acts[..i];
    Later(config, acts, i + 1);
    Later(config, acts, j);
    assert acts[..j][..i + 1] == upTo;
    Later(config, acts[..j], i + 1);
    EnabledAt(config, acts, i);
    EnabledAt(config, acts, j);
    AcceptRemembers(config, After(config, acts[..i]), acts[i], first);
    AcceptRemembers(config, After(config, acts[..j]), acts[j], second);
  }

  lemma EnabledAt(config: Config, acts: seq<Action>, i: nat)
    requires ConfigOk(config) && Legal(config, acts) && i < |acts|
    ensures Legal(config, acts[..i]) && Legal(config, acts[..i + 1]) && Enabled(config, After(config, acts[..i]), acts[i])
    ensures After(config, acts[..i + 1]) == Apply(config, After(config, acts[..i]), acts[i])
  {
    hide Inv, Enabled, Apply;
    Later(config, acts, i + 1);
    assert acts[..i + 1][..i] == acts[..i];
  }

  // --- every token is good from issue to expiry ---

  /** What the operator has to see to: supported scopes and authenticator answers that can be written as strings. */
  ghost predicate CleanRun(config: Config, acts: seq<Action>) {
    Clean(config.supportedScopes) && forall i :: 0 <= i < |acts| ==> CleanAction(acts[i])
  }

  ghost predicate CleanAction(a: Action) {
    a.RegisterIdentity? && a.authenticated.Some? ==>
      && (a.authenticated.value.scopes.Some? ==> Clean(a.authenticated.value.scopes.value))
      && a.authenticated.value.subject != ""
  }

  ghost predicate CleanState(s: State) {
    && (forall id :: id in s.identities ==> Clean(s.identities[id].scopes) && s.identities[id].subject != Some(""))
    && (forall id :: id in s.ceremony.claims ==> Clean(s.ceremony.claims[id].scopes))
    && (forall id :: id in s.tokens ==> Clean(s.tokens[id].scopes) && s.tokens[id].subject != "")
  }

  lemma VouchedClean(config: Config, explicitScopes: seq<string>, requested: Option<string>, vouchedScopes: seq<string>,
                     vouchedResource: Option<string>)
    requires Clean(vouchedScopes) && Clean(explicitScopes)
    ensures
      var r := Vouched(config, explicitScopes, requested, vouchedScopes, vouchedResource);
      r.Ok? ==> Clean(r.value.0)
  {
    hide Clean, Within, Configured;
  }

  lemma RegisterClean(config: Config, s: State, r: Registration, authenticated: Option<Authenticated>, id: string, now: int)
    requires Clean(config.supportedScopes) && CleanAction(RegisterIdentity(r, authenticated, id, now))
    ensures
      var (s', reply) := Register(config, s, r, authenticated, id, now);
      reply.Ok? ==> Clean(reply.value.scopes) && reply.value.subject != Some("")
  {
    hide Clean, Within, Configured, L.Take, Vouched, SplitScope, OptionalResource;
    var explicitScopes := SplitScope(r.scope);
    SplitIsClean(r.scope);
    var target := OptionalResource(config, r.resource);
    if target.Ok? {
      if authenticated.Some? {
        var a := authenticated.value;
        VouchedClean(config, explicitScopes, target.value, if a.scopes.Some? then a.scopes.value else config.supportedScopes, a.resource);
      }
      if r.assertion.Some? && r.assertion.value.Jwt? {
        var c := r.assertion.value.claims;
        RequestedAreClean(OptionalText(c.scope), config.supportedScopes);
        VouchedClean(config, explicitScopes, target.value, RequestedScopes(OptionalText(c.scope), config.supportedScopes), c.resource);
      }
    }
  }

  lemma StartClean(config: Config, s: State, r: ClaimRequest, names: Names, now: int)
    requires r.identityId in s.identities ==> Clean(s.identities[r.identityId].scopes)
    ensures StartClaim(config, s, r, names, now).1.Ok? ==> Clean(StartClaim(config, s, r, names, now).1.value.scopes)
  {
    hide Clean, Within, Configured, L.Take, RequestedScopes;
    if r.identityId in s.identities {
      RequestedAreClean(r.scope, s.identities[r.identityId].scopes);
    }
  }

  lemma AuthorizeClean(config: Config, s: State, grant: Grant, now: int)
    requires ConfigOk(config) && Inv(config, s) && CleanState(s)
    ensures
      var (s', reply) := Authorize(config, s, grant, now);
      reply.Ok? ==> Clean(reply.value.allowedScopes) && Or(reply.value.identity.subject, reply.value.identity.id) != ""
  {
    hide Clean, Within, Configured, Verifies, AssertionAccepted, RequestedScopes, C.Perform, C.WellKeyed, ClaimOk,
         TokensOk, SignedOk, BookOk, OptionalResource, C.Progressed, IdentityOk;
    if grant.ClaimGrant? && grant.claimGrant.Some? {
      var jwt := grant.claimGrant.value;
      if Verifies(jwt, config.ownKeys, config.issuer, TokenEndpoint(config), now) {
        VerifiesIsReadable(jwt, config.ownKeys, config.issuer, TokenEndpoint(config), now);
        if jwt.claims.claimId.Some? {
          ConsumeClean(config.ceremony.claim, s.ceremony.claims, jwt.claims.claimId.value, now);
        }
      }
    } else if grant.Bearer? && grant.assertion.Some? && Given(grant.clientId) {
      var jwt := grant.assertion.value;
      if AssertionAccepted(config, s, jwt, TokenEndpoint(config), now) {
        AcceptedIsReadable(config, s, jwt, TokenEndpoint(config), now);
        if Given(jwt.claims.identityId) && jwt.claims.identityId.value in s.identities {
          RequestedAreClean(OptionalText(jwt.claims.scope), s.identities[jwt.claims.identityId.value].scopes);
        }
      }
    }
  }

  lemma ConsumeClean(options: Options, claims: Claims, id: string, now: int)
    requires C.WellKeyed(claims) && forall i :: i in claims ==> Clean(claims[i].scopes)
    ensures C.Perform(options, claims, Consume, id, now, now).1.Ok? ==> Clean(C.Perform(options, claims, Consume, id, now, now).1.value.scopes)
  {
    hide Clean, C.Perform, C.Progressed;
    C.PerformKeepsIndexes(options, claims, Consume, id, now, now);
    ConsumeUses(options, claims, id, now);
    ScopesStay(options, claims, id, now);
  }

  lemma ScopesStay(options: Options, claims: Claims, id: string, now: int)
    requires C.WellKeyed(claims)
    ensures
      var reply := C.Perform(options, claims, Consume, id, now, now).1;
      reply.Ok? ==> id in claims && reply.value.scopes == claims[id].scopes
  {
  }

  lemma CleanStep(config: Config, s: State, a: Action)
    requires ConfigOk(config) && Inv(config, s) && Enabled(config, s, a) && CleanState(s)
    requires Clean(config.supportedScopes) && CleanAction(a)
    ensures CleanState(Apply(config, s, a))
  {
    hide Clean, CleanState, Inv, Enabled, Apply;
    match a
    case RegisterIdentity(_, _, _, _) => CleanRegister(config, s, a);
    case BeginClaim(_, _, _) => CleanBegin(config, s, a);
    case VerifyClaimCode(_, _, _) => CleanCeremony(config, s, a);
    case DecideClaim(_, _, _) => CleanCeremony(config, s, a);
    case Poll(_, _) => CleanCeremony(config, s, a);
    case SignAssertion(_, _, _, _) => CleanOther(config, s, a);
    case ExchangeToken(_, _, _, _, _) => CleanExchange(config, s, a);
    case RevokeToken(_, _, _, _) => CleanRevoke(config, s, a);
    case Subscribe(_) => CleanOther(config, s, a);
    case DeliverDue(_, _, _, _) => CleanOther(config, s, a);
  }

  lemma CleanRegister(config: Config, s: State, a: Action)
    requires ConfigOk(config) && Enabled(config, s, a) && a.RegisterIdentity? && CleanState(s)
    requires Clean(config.supportedScopes) && CleanAction(a)
    ensures CleanState(Apply(config, s, a))
  {
    hide Clean, Register, IdentityOk, ReplaysGrow;
    RegisterFacts(config, s, a.r, a.authenticated, a.id, a.now);
    RegisterClean(config, s, a.r, a.authenticated, a.id, a.now);
  }

  lemma CleanBegin(config: Config, s: State, a: Action)
    requires ConfigOk(config) && Inv(config, s) && Enabled(config, s, a) && a.BeginClaim? && CleanState(s)
    ensures CleanState(Apply(config, s, a))
  {
    hide Clean, StartClaim, ClaimOk, TokensOk, SignedOk, BookOk, ClaimsOk;
    StartFacts(config, s, a.request, a.names, a.now);
    StartClean(config, s, a.request, a.names, a.now);
  }

  ghost predicate CleanClaims(claims: Claims) {
    forall id :: id in claims ==> Clean(claims[id].scopes)
  }

  lemma CleanPerform(options: Options, claims: Claims, op: Op, id: string, checkedAt: int, now: int)
    requires C.WellKeyed(claims) && CleanClaims(claims)
    ensures CleanClaims(C.Perform(options, claims, op, id, checkedAt, now).0)
  {
    hide Clean, C.Perform, C.WellKeyed;
    C.PerformKeepsIndexes(options, claims, op, id, checkedAt, now);
  }

  /** An operation of the ceremony changes no scopes. */
  lemma CleanCeremony(config: Config, s: State, a: Action)
    requires Inv(config, s) && CleanState(s) && (a.VerifyClaimCode? || a.DecideClaim? || a.Poll?)
    ensures CleanState(Apply(config, s, a))
  {
    hide Clean, C.Perform, Inv, L.Take, CleanClaims, CleanState, ClaimGrantJwt, C.VerifyUserCode, PollClaim;
    if a.DecideClaim? {
      InvParts(config, s);
      CleanClaimsIf(s);
      CleanPerform(config.ceremony.claim, s.ceremony.claims, Decide(a.approve), a.id, a.now, a.now);
      CleanStateIf(s, Apply(config, s, a));
    } else if a.VerifyClaimCode? {
      CleanVerify(config, s, a.hash, a.rateLimitKey, a.now);
      CleanStateIf(s, Apply(config, s, a));
    } else {
      CleanPoll(config, s, a.hash, a.now);
    }
  }

  lemma CleanVerify(config: Config, s: State, hash: string, key: string, now: int)
    requires Inv(config, s) && CleanState(s)
    ensures CleanClaims(C.VerifyUserCode(config.ceremony, s.ceremony, hash, key, now, now, now).0.claims)
  {
    hide Clean, C.Perform, Inv, L.Take, CleanClaims, CleanState;
    InvParts(config, s);
    CleanClaimsIf(s);
    var owner := C.UserCodeOwner(s.ceremony.claims, hash);
    if owner.Some? { CleanPerform(config.ceremony.claim, s.ceremony.claims, Verify, owner.value, now, now); }
  }

  lemma CleanPoll(config: Config, s: State, hash: string, now: int)
    requires Inv(config, s) && CleanState(s)
    ensures CleanState(PollClaim(config, s, hash, now).0)
  {
    hide Clean, C.Perform, Inv, CleanClaims, CleanState, ClaimGrantJwt;
    InvParts(config, s);
    CleanClaimsIf(s);
    var owner := C.DeviceCodeOwner(s.ceremony.claims, hash);
    if owner.Some? { CleanPerform(config.ceremony.claim, s.ceremony.claims, ClaimRules.Poll, owner.value, now, now); }
    CleanStateIf(s, PollClaim(config, s, hash, now).0);
  }

  lemma CleanClaimsIf(s: State)
    requires CleanState(s)
    ensures CleanClaims(s.ceremony.claims)
  {
    hide Clean;
  }

  lemma CleanStateIf(s: State, s': State)
    requires CleanState(s) && CleanClaims(s'.ceremony.claims) && s'.identities == s.identities && s'.tokens == s.tokens
    ensures CleanState(s')
  {
    hide Clean;
  }

  lemma CleanOther(config: Config, s: State, a: Action)
    requires CleanState(s) && Enabled(config, s, a) && (a.SignAssertion? || a.Subscribe? || a.DeliverDue?)
    ensures CleanState(Apply(config, s, a))
  {
    hide Clean;
  }

  lemma CleanRevoke(config: Config, s: State, a: Action)
    requires CleanState(s) && Enabled(config, s, a) && a.RevokeToken?
    ensures CleanState(Apply(config, s, a))
  {
    hide Clean, RevocationAudience, Announce, Genuine;
    AudienceIsReadable(config, a.jwt, a.now);
  }

  lemma CleanExchange(config: Config, s: State, a: Action)
    requires ConfigOk(config) && Inv(config, s) && Enabled(config, s, a) && a.ExchangeToken? && CleanState(s)
    ensures CleanState(Apply(config, s, a))
  {
    hide Clean, Authorize, Narrow, Inv, ClaimsProgress, ClaimsOk, IdentitiesOk, ReplaysGrow, RequestedScopes, C.WellKeyed,
         AccessTokenJwt, CleanClaims, CleanState;
    AuthorizeClean(config, s, a.grant, a.now);
    AuthorizedStaysClean(config, s, a.grant, a.now);
    var (s1, authorized) := Authorize(config, s, a.grant, a.now);
    if authorized.Ok? {
      RequestedAreClean(a.scope, authorized.value.allowedScopes);
      NarrowScopes(config, authorized.value, a.scope, a.resource);
      var narrowed := Narrow(config, authorized.value, a.scope, a.resource);
      if narrowed.Ok? {
        var t := NewToken(config, authorized.value.identity, narrowed.value.0, narrowed.value.1, a.id, a.now);
        CleanTokenAdded(s1, Apply(config, s, a), a.id, t);
      }
    }
  }

  lemma AuthorizedStaysClean(config: Config, s: State, grant: Grant, now: int)
    requires ConfigOk(config) && Inv(config, s) && CleanState(s)
    ensures CleanState(Authorize(config, s, grant, now).0)
  {
    hide Clean, Authorize, Inv, ClaimsProgress, ClaimsOk, IdentitiesOk, ReplaysGrow, C.WellKeyed;
    InvParts(config, s);
    AuthorizeUses(config, s, grant, now);
    AuthorizeFacts(config, s, grant, now);
    AuthorizeKeepsKeys(config, s, grant, now);
    ProgressClean(s.ceremony.claims, Authorize(config, s, grant, now).0.ceremony.claims);
  }

  lemma CleanTokenAdded(s: State, s': State, id: string, t: IssuedToken)
    requires CleanState(s) && Clean(t.scopes) && t.subject != ""
    requires s'.identities == s.identities && s'.ceremony == s.ceremony && s'.tokens == s.tokens[id := t]
    ensures CleanState(s')
  {
    hide Clean;
  }

  lemma InvParts(config: Config, s: State)
    requires Inv(config, s)
    ensures IdentitiesOk(config, s.identities) && ClaimsOk(s.identities, s.ceremony.claims) && C.WellKeyed(s.ceremony.claims)
  {
  }

  lemma NarrowScopes(config: Config, a: Authorization, scope: Option<string>, resource: Option<string>)
    ensures Narrow(config, a, scope, resource).Ok? ==> Narrow(config, a, scope, resource).value.0 == RequestedScopes(scope, a.allowedScopes)
  {
  }

  lemma AuthorizeKeepsKeys(config: Config, s: State, grant: Grant, now: int)
    requires C.WellKeyed(s.ceremony.claims)
    ensures Authorize(config, s, grant, now).0.ceremony.claims.Keys == s.ceremony.claims.Keys
  {
    hide Verifies, AssertionAccepted, C.Perform, C.WellKeyed, Within, RequestedScopes, Configured, C.Progressed, OptionalResource;
    if grant.ClaimGrant? && grant.claimGrant.Some? {
      var jwt := grant.claimGrant.value;
      if Verifies(jwt, config.ownKeys, config.issuer, TokenEndpoint(config), now) {
        VerifiesIsReadable(jwt, config.ownKeys, config.issuer, TokenEndpoint(config), now);
        if jwt.claims.claimId.Some? {
          C.PerformKeepsIndexes(config.ceremony.claim, s.ceremony.claims, Consume, jwt.claims.claimId.value, now, now);
        }
      }
    } else if grant.Bearer? && grant.assertion.Some? && Given(grant.clientId) {
      var jwt := grant.assertion.value;
      if AssertionAccepted(config, s, jwt, TokenEndpoint(config), now) {
        AcceptedIsReadable(config, s, jwt, TokenEndpoint(config), now);
      }
    }
  }

  lemma ProgressClean(a: Claims, b: Claims)
    requires ClaimsProgress(a, b) && forall id :: id in a ==> Clean(a[id].scopes)
    ensures forall id :: id in a ==> id in b && Clean(b[id].scopes)
  {
    hide Clean;
  }

  lemma {:induction false} CleanReachable(config: Config, acts: seq<Action>)
    requires ConfigOk(config) && Legal(config, acts) && CleanRun(config, acts)
    ensures CleanState(After(config, acts))
  {
    if acts != [] {
      CleanReachable(config, acts[..|acts| - 1]);
      Reachable(config, acts[..|acts| - 1]);
      CleanStep(config, After(config, acts[..|acts| - 1]), acts[|acts| - 1]);
    }
  }

  /**
    With supported scopes and authenticator answers that are distinct words (and no empty subject),
    every token ever minted validates at its resource at every time from issue to expiry, unless it has
    been revoked; and then it never does.
   */
  lemma LiveTokensValidate(config: Config, acts: seq<Action>, id: string, now: int)
    requires ConfigOk(config) && Legal(config, acts) && CleanRun(config, acts)
    requires id in After(config, acts).tokens && 0 <= now
    requires After(config, acts).tokens[id].issuedAt <= now < After(config, acts).tokens[id].expiresAt
    ensures
      var s := After(config, acts);
      var t := s.tokens[id];
      && id in s.mints
      && (t.revokedAt.None? <==> Validate(config, s, s.mints[id].jwt, t.resource, now).Ok?)
  {
    hide Inv, After, Legal, Validate, Clean;
    Reachable(config, acts);
    CleanReachable(config, acts);
    var s := After(config, acts);
    var t := s.tokens[id];
    ValidIffLive(config, acts, id, t.resource, now);
    TokenFacts(config, s, id);
    assert Configured(config, t.resource) == Some(t.resource);
  }
}
