/**
  What each request of the service answers, said in terms of its inputs and of the records it finds
  (packages/service/src/service.ts:344-601, 793-895).
 */
module ServiceLaws {
  import opened Wrappers
  import opened ClaimRules
  import opened ClaimStateModel
  import opened Scopes
  import opened ServiceModel
  import opened ServiceRuns
  import opened ServiceTheorems
  import opened ServiceExchange
  import C = ClaimCeremonyModel
  import E = EventDeliveryModel
  import L = RateLimitModel

  // --- assertions of the trusted issuer ---

  /** The assertion is signed by the issuer for this audience, is in time, and has not been used while still live. */
  ghost predicate AssertionGood(config: Config, s: State, jwt: Jwt, audience: string, now: int) {
    && jwt.Jwt? && jwt.key in config.trustedKeys
    && var c := jwt.claims;
       && c.iss == config.trustedIssuer && c.iss != "" && c.sub != "" && c.jti != "" && audience in c.aud
       && now / 1000 < c.exp && c.iat <= now / 1000 + 60 && (if c.nbf.Some? then c.nbf.value else 0) <= now / 1000
       && !(c.iss + ":" + c.jti in s.replays && s.replays[c.iss + ":" + c.jti] > now)
  }

  lemma GoodIsAccepted(config: Config, s: State, jwt: Jwt, audience: string, now: int)
    ensures AssertionAccepted(config, s, jwt, audience, now) <==> AssertionGood(config, s, jwt, audience, now)
  {
  }

  /** A key is live exactly while an assertion accepted under it has not run out. */
  ghost predicate LiveByHistory(config: Config, acts: seq<Action>, key: string, now: int)
    requires Legal(config, acts)
  {
    exists i, jwt :: AcceptedAs(config, acts, i, jwt, key) && jwt.claims.exp * 1000 > now
  }

  ghost predicate AcceptedAs(config: Config, acts: seq<Action>, i: int, jwt: Jwt, key: string)
    requires Legal(config, acts)
  {
    && 0 <= i < |acts| && Legal(config, acts[..i]) && jwt.Jwt? && ReplayKey(jwt.claims) == key
    && Accepts(config, After(config, acts[..i]), acts[i], jwt)
  }

  // --- exchanging an assertion ---

  /** The caller presents a good assertion for an active identity that is its subject's and his. */
  ghost predicate BearerNames(config: Config, s: State, jwt: Jwt, clientId: Option<string>, now: int) {
    && Given(clientId) && AssertionGood(config, s, jwt, config.issuer + "/oauth2/token", now)
    && Given(jwt.claims.identityId) && Active(s, jwt.claims.identityId.value, now)
    && var identity := s.identities[jwt.claims.identityId.value];
       && identity.kind.IdentityAssertion? && identity.subject == Some(jwt.claims.sub)
       && identity.clientId == clientId && jwt.claims.clientId == clientId
  }

  /** The scopes the assertion delegates: those it lists, or all of the identity. */
  function AssertedScopes(jwt: Jwt, identity: Identity): seq<string>
    requires jwt.Jwt?
  {
    if !Given(jwt.claims.scope) || SplitScope(jwt.claims.scope) == [] then identity.scopes else SplitScope(jwt.claims.scope)
  }

  function Narrowed(scope: Option<string>, allowed: seq<string>): seq<string> {
    if SplitScope(scope) == [] then allowed else SplitScope(scope)
  }

  /** A resource that is given is the identity's. */
  predicate AtIdentity(config: Config, identity: Identity, resource: Option<string>) {
    Given(resource) ==> Configured(config, resource.value).Some? && Configured(config, resource.value) == identity.resource
  }

  /** What is asserted lies within the identity, and what is requested within that. */
  ghost predicate BearerNarrows(config: Config, identity: Identity, jwt: Jwt, scope: Option<string>, resource: Option<string>)
    requires jwt.Jwt?
  {
    && Within(AssertedScopes(jwt, identity), identity.scopes) && AtIdentity(config, identity, jwt.claims.resource)
    && Within(Narrowed(scope, AssertedScopes(jwt, identity)), AssertedScopes(jwt, identity))
    && AtIdentity(config, identity, resource)
  }

  lemma IdentityResource(config: Config, s: State, id: string)
    requires ConfigOk(config) && Inv(config, s) && id in s.identities
    ensures
      var resource := s.identities[id].resource;
      && resource.Some? && resource.value != "" && resource.value in config.protectedResources
      && Configured(config, resource.value) == resource && s.identities[id].id == id
  {
    hide Within, BookOk, SignedOk, TokensOk, ClaimsOk;
    assert IdentityOk(config, s.identities[id]);
  }

  lemma ConfiguredIsFixed(config: Config, resource: string)
    requires ConfigOk(config) && Configured(config, resource).Some?
    ensures Configured(config, resource).value != ""
    ensures Configured(config, Configured(config, resource).value) == Configured(config, resource)
  {
  }

  /** The identity an accepted assertion names is active, its subject's and the client's. */
  predicate NamesOwn(s: State, c: JwtClaims, clientId: string, now: int) {
    && Given(c.identityId) && c.clientId == Some(clientId) && Active(s, c.identityId.value, now)
    && var identity := s.identities[c.identityId.value];
       identity.kind.IdentityAssertion? && identity.subject == Some(c.sub) && identity.clientId == Some(clientId)
  }

  lemma AcceptedAuthorizes(config: Config, s: State, jwt: Jwt, clientId: string, now: int)
    requires ConfigOk(config) && Inv(config, s) && jwt.Jwt? && AssertionAccepted(config, s, jwt, TokenEndpoint(config), now)
    ensures
      var s' := s.(replays := s.replays[jwt.claims.iss + ":" + jwt.claims.jti := jwt.claims.exp * 1000]);
      AuthorizeAssertion(config, s, jwt, clientId, now) ==
        if !NamesOwn(s, jwt.claims, clientId, now) then (s', Err(InvalidGrant))
        else
          var identity := s.identities[jwt.claims.identityId.value];
          if !Within(AssertedScopes(jwt, identity), identity.scopes) then (s', Err(InvalidScope))
          else if !AtIdentity(config, identity, jwt.claims.resource) then (s', Err(InvalidTarget))
          else (s', Ok(Authorization(identity, AssertedScopes(jwt, identity),
                                     if Given(jwt.claims.resource) then identity.resource else None, None)))
  {
    hide AssertionAccepted, Configured, Within, SplitScope, Inv, ConfigOk;
    var c := jwt.claims;
    assert SplitScope(None) == [] by { NoScope(); }
    if NamesOwn(s, c, clientId, now) {
      IdentityResource(config, s, c.identityId.value);
      if Given(c.resource) && Configured(config, c.resource.value).Some? {
        ConfiguredIsFixed(config, c.resource.value);
      }
    }
  }

  lemma NoScope()
    ensures SplitScope(None) == []
  {
  }

  ghost predicate BearerGood(config: Config, s: State, jwt: Jwt, clientId: Option<string>, now: int) {
    Given(clientId) && AssertionGood(config, s, jwt, config.issuer + "/oauth2/token", now)
  }

  /** What is authorized by an assertion, and what of it is remembered. */
  lemma BearerAuthorizes(config: Config, s: State, jwt: Jwt, clientId: Option<string>, now: int)
    requires ConfigOk(config) && Inv(config, s)
    ensures BearerGood(config, s, jwt, clientId, now) ==> jwt.Jwt?
    ensures Authorize(config, s, Bearer(Some(jwt), clientId), now).0 ==
            if BearerGood(config, s, jwt, clientId, now)
            then s.(replays := s.replays[jwt.claims.iss + ":" + jwt.claims.jti := jwt.claims.exp * 1000]) else s
    ensures Authorize(config, s, Bearer(Some(jwt), clientId), now).1.Ok? <==>
              && BearerNames(config, s, jwt, clientId, now)
              && var identity := s.identities[jwt.claims.identityId.value];
                 Within(AssertedScopes(jwt, identity), identity.scopes) && AtIdentity(config, identity, jwt.claims.resource)
    ensures Authorize(config, s, Bearer(Some(jwt), clientId), now).1.Ok? ==>
              var identity := s.identities[jwt.claims.identityId.value];
              Authorize(config, s, Bearer(Some(jwt), clientId), now).1.value ==
                Authorization(identity, AssertedScopes(jwt, identity),
                              if Given(jwt.claims.resource) then identity.resource else None, None)
  {
    hide AssertionGood, AssertionAccepted, AuthorizeAssertion, AtIdentity, Within, AssertedScopes, Inv, ConfigOk;
    GoodIsAccepted(config, s, jwt, TokenEndpoint(config), now);
    if Given(clientId) {
      if AssertionAccepted(config, s, jwt, TokenEndpoint(config), now) {
        AcceptedIsReadable(config, s, jwt, TokenEndpoint(config), now);
        AcceptedAuthorizes(config, s, jwt, clientId.value, now);
      } else {
        RefusedAuthorizes(config, s, jwt, clientId.value, now);
      }
    }
  }

  lemma RefusedAuthorizes(config: Config, s: State, jwt: Jwt, clientId: string, now: int)
    requires !AssertionAccepted(config, s, jwt, TokenEndpoint(config), now)
    ensures AuthorizeAssertion(config, s, jwt, clientId, now) == (s, Err(InvalidGrant))
  {
    hide AssertionAccepted;
  }

  lemma NarrowOf(config: Config, a: Authorization, scope: Option<string>, resource: Option<string>)
    requires ConfigOk(config) && a.identity.resource.Some? && a.identity.resource.value in config.protectedResources
    requires a.resource.Some? ==> a.resource == a.identity.resource
    ensures Narrow(config, a, scope, resource) ==
            if !Within(Narrowed(scope, a.allowedScopes), a.allowedScopes) then Err(InvalidScope)
            else if !AtIdentity(config, a.identity, resource) then Err(InvalidTarget)
            else Ok((Narrowed(scope, a.allowedScopes), a.identity.resource.value))
  {
    hide Within, SplitScope;
  }

  /** The record a paid exchange leaves and the token it answers. */
  ghost predicate TokenSays(config: Config, s': State, reply: Result<Jwt, OAuthError>, id: string, identity: Identity,
                            scopes: seq<string>, now: int)
    requires identity.resource.Some?
  {
    var subject := if identity.subject.Some? then identity.subject.value else identity.id;
    && id in s'.tokens && id in s'.mints
    && s'.tokens[id] == IssuedToken(id, identity.id, subject, scopes, identity.resource.value, now / 1000 * 1000,
                                    (now / 1000 + config.tokenSeconds) * 1000, None)
    && reply == Ok(Jwt(config.signingKey,
                       JwtClaims(config.issuer, subject, [identity.resource.value], now / 1000, now / 1000 + config.tokenSeconds,
                                 None, id, Some(Join(scopes)), Some(identity.id), None, None, None, None)))
    && s'.mints[id].jwt == reply.value && reply.value in s'.signed
  }

  /** How an exchange goes on from its authorization. */
  lemma ExchangeGoesOn(config: Config, s: State, grant: Grant, scope: Option<string>, resource: Option<string>, id: string, now: int)
    requires ConfigOk(config)
    requires
      var (s1, authorized) := Authorize(config, s, grant, now);
      authorized.Ok? ==>
        var a := authorized.value;
        && a.identity.resource.Some? && a.identity.resource.value in config.protectedResources
        && (a.resource.Some? ==> a.resource == a.identity.resource)
    ensures
      var (s1, authorized) := Authorize(config, s, grant, now);
      var (s', reply) := Exchange(config, s, grant, scope, resource, id, now);
      if authorized.Err? then s' == s1 && reply.Err?
      else
        var a := authorized.value;
        if Within(Narrowed(scope, a.allowedScopes), a.allowedScopes) && AtIdentity(config, a.identity, resource)
        then TokenSays(config, s', reply, id, a.identity, Narrowed(scope, a.allowedScopes), now)
        else s' == s1 && reply.Err?
  {
    hide Authorize, Narrow, Within, SplitScope, Configured, ConfigOk;
    var authorized := Authorize(config, s, grant, now).1;
    if authorized.Ok? {
      NarrowOf(config, authorized.value, scope, resource);
    }
  }

  /**
    Exchanging an assertion: a token is answered exactly if the assertion is good, names an active identity
    of its own subject and of the client that presents it, and neither what it delegates nor what is requested
    exceeds that identity; the token is then that identity's.  A good assertion is used up in any case, and a
    refused exchange leaves no token.
   */
  lemma BearerExchangeAnswers(config: Config, acts: seq<Action>, jwt: Jwt, clientId: Option<string>, scope: Option<string>,
                              resource: Option<string>, id: string, now: int)
    requires ConfigOk(config) && Legal(config, acts)
    ensures Exchange(config, After(config, acts), Bearer(Some(jwt), clientId), scope, resource, id, now).1.Ok? <==>
              && BearerNames(config, After(config, acts), jwt, clientId, now)
              && BearerNarrows(config, After(config, acts).identities[jwt.claims.identityId.value], jwt, scope, resource)
    ensures Exchange(config, After(config, acts), Bearer(Some(jwt), clientId), scope, resource, id, now).1.Ok? ==>
              var (s', reply) := Exchange(config, After(config, acts), Bearer(Some(jwt), clientId), scope, resource, id, now);
              var identity := After(config, acts).identities[jwt.claims.identityId.value];
              && identity.resource.Some? && identity.subject == Some(jwt.claims.sub) && identity.id == jwt.claims.identityId.value
              && TokenSays(config, s', reply, id, identity, Narrowed(scope, AssertedScopes(jwt, identity)), now)
    ensures BearerGood(config, After(config, acts), jwt, clientId, now) ==> jwt.Jwt?
    ensures Exchange(config, After(config, acts), Bearer(Some(jwt), clientId), scope, resource, id, now).1.Err? ==>
              Exchange(config, After(config, acts), Bearer(Some(jwt), clientId), scope, resource, id, now).0 ==
                if BearerGood(config, After(config, acts), jwt, clientId, now)
                then After(config, acts).(replays := After(config, acts).replays[jwt.claims.iss + ":" + jwt.claims.jti := jwt.claims.exp * 1000])
                else After(config, acts)
  {
    hide Authorize, Within, SplitScope, Configured, ConfigOk, Inv, After, Legal, BearerNames, BearerGood, Active, TokenSays, Exchange;
    Reachable(config, acts);
    var s := After(config, acts);
    BearerAuthorizes(config, s, jwt, clientId, now);
    BearerIdentity(config, s, jwt, clientId, now);
    ExchangeGoesOn(config, s, Bearer(Some(jwt), clientId), scope, resource, id, now);
    if Authorize(config, s, Bearer(Some(jwt), clientId), now).1.Err? {
      ErrStays(config, s, Bearer(Some(jwt), clientId), scope, resource, id, now);
    } else {
      var a := Authorize(config, s, Bearer(Some(jwt), clientId), now).1.value;
      var (s', reply) := Exchange(config, s, Bearer(Some(jwt), clientId), scope, resource, id, now);
      if reply.Err? {
        NothingSaid(config, s', reply, id, a.identity, Narrowed(scope, a.allowedScopes), now);
      }
    }
  }

  lemma NothingSaid(config: Config, s': State, reply: Result<Jwt, OAuthError>, id: string, identity: Identity, scopes: seq<string>, now: int)
    requires identity.resource.Some? && reply.Err?
    ensures !TokenSays(config, s', reply, id, identity, scopes, now)
  {
  }

  lemma ErrStays(config: Config, s: State, grant: Grant, scope: Option<string>, resource: Option<string>, id: string, now: int)
    requires Authorize(config, s, grant, now).1.Err?
    ensures Exchange(config, s, grant, scope, resource, id, now).1.Err?
  {
    hide Authorize;
  }

  lemma BearerIdentity(config: Config, s: State, jwt: Jwt, clientId: Option<string>, now: int)
    requires ConfigOk(config) && Inv(config, s)
    ensures BearerNames(config, s, jwt, clientId, now) ==>
              && jwt.Jwt? && Given(jwt.claims.identityId) && jwt.claims.identityId.value in s.identities
              && var identity := s.identities[jwt.claims.identityId.value];
                 && identity.resource.Some? && identity.resource.value in config.protectedResources
                 && identity.id == jwt.claims.identityId.value && identity.subject == Some(jwt.claims.sub)
  {
    hide Inv, ConfigOk;
    if BearerNames(config, s, jwt, clientId, now) {
      IdentityResource(config, s, jwt.claims.identityId.value);
    }
  }

  // --- what a claim grant pays for ---

  /** The token of a claim is its subject's, for the scopes requested of those of the claim. */
  lemma ClaimTokenSays(config: Config, acts: seq<Action>, jwt: Jwt, scope: Option<string>, resource: Option<string>, id: string, now: int)
    requires ConfigOk(config) && Legal(config, acts)
    ensures
      var s := After(config, acts);
      var (s', reply) := Exchange(config, s, ClaimGrant(Some(jwt)), scope, resource, id, now);
      reply.Ok? ==>
        && jwt.Jwt? && jwt.claims.claimId.Some? && jwt.claims.claimId.value in s.ceremony.claims
        && var c := s.ceremony.claims[jwt.claims.claimId.value];
           && c.identityId == jwt.claims.sub && c.identityId in s.identities && s.identities[c.identityId].resource.Some?
           && TokenSays(config, s', reply, id, s.identities[c.identityId], Narrowed(scope, c.scopes), now)
  {
    hide Within, SplitScope, Configured, ConfigOk, Inv, After, Legal, TokenSays, C.Perform, Active, Authorize, Consumable, Payable, Exchange;
    Reachable(config, acts);
    var s := After(config, acts);
    ExchangeUsesClaimIff(config, acts, jwt, scope, resource, id, now);
    if Consumable(config, s.ceremony.claims, jwt, now) {
      ClaimAuthorizes(config, s, jwt, now);
      ExchangeGoesOn(config, s, ClaimGrant(Some(jwt)), scope, resource, id, now);
    }
  }

  lemma ClaimAuthorizes(config: Config, s: State, jwt: Jwt, now: int)
    requires ConfigOk(config) && Inv(config, s) && Consumable(config, s.ceremony.claims, jwt, now)
    ensures jwt.Jwt? && jwt.claims.claimId.Some? && jwt.claims.claimId.value in s.ceremony.claims
    ensures
      var authorized := Authorize(config, s, ClaimGrant(Some(jwt)), now).1;
      var c := s.ceremony.claims[jwt.claims.claimId.value];
      authorized.Ok? ==>
        && c.identityId == jwt.claims.sub && c.identityId in s.identities && authorized.value.identity == s.identities[c.identityId]
        && authorized.value.allowedScopes == c.scopes && authorized.value.resource == s.identities[c.identityId].resource
        && s.identities[c.identityId].resource.Some? && s.identities[c.identityId].resource.value in config.protectedResources
  {
    hide C.Perform, Verifies, ConfigOk, Inv;
    FitGrantConsumes(config, s, jwt, now);
    var cid := jwt.claims.claimId.value;
    ConsumeIs(config.ceremony.claim, s.ceremony.claims, cid, now);
    StoredClaimFits(config, s, cid);
  }

  // --- assertions that are still remembered ---

  /** The assertion a request has verified and remembered, if it gets that far. */
  ghost function Presented(a: Action): Option<Jwt> {
    match a
    case RegisterIdentity(r, _, _, _) => r.assertion
    case ExchangeToken(grant, _, _, _, _) => if grant.Bearer? then grant.assertion else None
    case _ => None
  }

  lemma RegisterRemembers(config: Config, s: State, a: Action)
    requires a.RegisterIdentity? && Enabled(config, s, a)
    ensures
      var jwt := Presented(a);
      && (jwt.Some? && Accepts(config, s, a, jwt.value) ==> jwt.value.Jwt?)
      && Apply(config, s, a).replays ==
           if jwt.Some? && Accepts(config, s, a, jwt.value)
           then s.replays[ReplayKey(jwt.value.claims) := jwt.value.claims.exp * 1000] else s.replays
  {
    hide Vouched, RequestedScopes, Within, SplitScope, Configured, ReplayKey, L.Take;
  }

  lemma ExchangeRemembers(config: Config, s: State, a: Action)
    requires a.ExchangeToken? && Enabled(config, s, a)
    ensures
      var jwt := Presented(a);
      && (jwt.Some? && Accepts(config, s, a, jwt.value) ==> jwt.value.Jwt?)
      && Apply(config, s, a).replays ==
           if jwt.Some? && Accepts(config, s, a, jwt.value)
           then s.replays[ReplayKey(jwt.value.claims) := jwt.value.claims.exp * 1000] else s.replays
  {
    hide Narrow, RequestedScopes, Within, SplitScope, Configured, ReplayKey, C.Perform, OptionalResource, Active;
  }

  lemma StepRemembers(config: Config, s: State, a: Action)
    requires Enabled(config, s, a)
    ensures
      var jwt := Presented(a);
      && (jwt.Some? && Accepts(config, s, a, jwt.value) ==> jwt.value.Jwt?)
      && Apply(config, s, a).replays ==
           if jwt.Some? && Accepts(config, s, a, jwt.value)
           then s.replays[ReplayKey(jwt.value.claims) := jwt.value.claims.exp * 1000] else s.replays
  {
    hide Register, Exchange, StartClaim, C.VerifyUserCode, C.Perform, PollClaim, IssueAssertion, Revoke, E.Round, SentTokens, Accepts, ReplayKey;
    match a
    case RegisterIdentity(_, _, _, _) => RegisterRemembers(config, s, a);
    case ExchangeToken(_, _, _, _, _) => ExchangeRemembers(config, s, a);
    case BeginClaim(request, names, now) => StartKeepsReplays(config, s, request, names, now);
    case Poll(hash, now) => PollKeepsReplays(config, s, hash, now);
    case SignAssertion(_, _, _, _) => SignKeepsReplays(config, s, a);
    case RevokeToken(jwt, eventId, ids, now) => RevokeKeepsReplays(config, s, jwt, eventId, ids, now);
    case _ =>
  }

  lemma StartKeepsReplays(config: Config, s: State, r: ClaimRequest, names: Names, now: int)
    ensures StartClaim(config, s, r, names, now).0.replays == s.replays
  {
    hide C.Start, Within, RequestedScopes, Configured;
  }

  lemma PollKeepsReplays(config: Config, s: State, hash: string, now: int)
    ensures PollClaim(config, s, hash, now).0.replays == s.replays
  {
    hide C.Perform;
  }

  lemma SignKeepsReplays(config: Config, s: State, a: Action)
    requires a.SignAssertion? && Enabled(config, s, a)
    ensures Apply(config, s, a).replays == s.replays
  {
  }

  lemma RevokeKeepsReplays(config: Config, s: State, jwt: Jwt, eventId: string, ids: seq<string>, now: int)
    requires |ids| == |s.book.subscribers|
    ensures Revoke(config, s, jwt, eventId, ids, now).replays == s.replays
  {
    hide RevocationAudience, Announce;
    AudienceIsReadable(config, jwt, now);
  }

  /** An assertion is refused as replayed exactly while one accepted earlier in the run under its issuer and id runs. */
  lemma {:induction false} LiveIffAccepted(config: Config, acts: seq<Action>, key: string, now: int)
    requires ConfigOk(config) && Legal(config, acts)
    ensures (key in After(config, acts).replays && After(config, acts).replays[key] > now) <==> LiveByHistory(config, acts, key, now)
  {
    hide Inv, Enabled, Apply, ConfigOk, Accepts, ReplayKey;
    if acts != [] {
      var n := |acts| - 1;
      var s, a := After(config, acts[..n]), acts[n];
      LiveIffAccepted(config, acts[..n], key, now);
      Reachable(config, acts[..n]);
      StepRemembers(config, s, a);
      StepKeepsInv(config, s, a);
      HistoryGrows(config, acts, key, now);
      if Presented(a).Some? && Accepts(config, s, a, Presented(a).value) && ReplayKey(Presented(a).value.claims) == key {
        AcceptRemembers(config, s, a, Presented(a).value);
        LaterExpiry(config, s, a, key);
      }
    }
  }

  lemma LaterExpiry(config: Config, s: State, a: Action, key: string)
    requires Enabled(config, s, a) && Moves(s, Apply(config, s, a))
    ensures key in s.replays ==> key in Apply(config, s, a).replays && s.replays[key] <= Apply(config, s, a).replays[key]
  {
    hide IdentitiesGrow, TokensGrow, MintsGrow;
  }

  /** The history of one more request: what was live, and the assertion it accepts. */
  lemma HistoryGrows(config: Config, acts: seq<Action>, key: string, now: int)
    requires Legal(config, acts) && acts != []
    ensures
      var n := |acts| - 1;
      var jwt := Presented(acts[n]);
      LiveByHistory(config, acts, key, now) <==>
        || LiveByHistory(config, acts[..n], key, now)
        || (&& jwt.Some? && jwt.value.Jwt? && ReplayKey(jwt.value.claims) == key && jwt.value.claims.exp * 1000 > now
            && Accepts(config, After(config, acts[..n]), acts[n], jwt.value))
  {
    hide Accepts, ReplayKey, After;
    var n := |acts| - 1;
    assert forall i :: 0 <= i <= n ==> acts[..n][..i] == acts[..i];
    if i, jwt :| AcceptedAs(config, acts, i, jwt, key) && jwt.claims.exp * 1000 > now {
      if i < n {
        assert AcceptedAs(config, acts[..n], i, jwt, key);
      } else {
        AcceptsPresented(config, After(config, acts[..n]), acts[n], jwt);
      }
    }
    if i, jwt :| AcceptedAs(config, acts[..n], i, jwt, key) && jwt.claims.exp * 1000 > now {
      assert AcceptedAs(config, acts, i, jwt, key);
    }
    var jwt := Presented(acts[n]);
    if jwt.Some? && jwt.value.Jwt? && ReplayKey(jwt.value.claims) == key && Accepts(config, After(config, acts[..n]), acts[n], jwt.value) {
      assert AcceptedAs(config, acts, n, jwt.value, key);
    }
  }

  lemma AcceptsPresented(config: Config, s: State, a: Action, jwt: Jwt)
    requires Accepts(config, s, a, jwt)
    ensures Presented(a) == Some(jwt)
  {
  }

  // --- registering with a credential ---

  /** A resource that is given has to be protected, and the same as one vouched for; if none is given there is a default. */
  function AgreedResource(config: Config, requested: Option<string>, vouched: Option<string>): Result<string, OAuthError> {
    var asked := if Given(requested) then Configured(config, requested.value) else None;
    var sworn := if Given(vouched) then Configured(config, vouched.value) else None;
    if (Given(requested) && asked.None?) || (Given(vouched) && sworn.None?) then Err(InvalidTarget)
    else if asked.Some? && sworn.Some? && asked != sworn then Err(InvalidTarget)
    else Ok(if sworn.Some? then sworn.value else if asked.Some? then asked.value else config.defaultResource)
  }

  /** The scopes of a registration: those asked for, all of them vouched for and supported. */
  predicate ScopesAgree(config: Config, asked: seq<string>, vouched: seq<string>) {
    Within(asked, config.supportedScopes) && Within(vouched, config.supportedScopes) && (asked == [] || Within(asked, vouched))
  }

  lemma VouchedIs(config: Config, asked: seq<string>, requested: Option<string>, scopes: seq<string>, resource: Option<string>)
    requires OptionalResource(config, requested).Ok? && Within(asked, config.supportedScopes)
    ensures
      var r := Vouched(config, asked, OptionalResource(config, requested).value, scopes, resource);
      && (r.Ok? <==> ScopesAgree(config, asked, scopes) && AgreedResource(config, requested, resource).Ok?)
      && (r.Ok? ==> r.value == (if asked == [] then scopes else asked, AgreedResource(config, requested, resource).value))
  {
    hide Configured, Within;
    if asked == [] {
      WithinSelf(scopes);
    }
  }

  lemma NothingAsked(scopes: seq<string>)
    ensures Within([], scopes)
  {
  }

  /** Where a registration stops before its kind is looked at. */
  lemma RegisterStarts(config: Config, s: State, r: Registration, authenticated: Option<Authenticated>, id: string, now: int)
    requires r.kind.Some?
    ensures
      var asked := SplitScope(r.scope);
      Register(config, s, r, authenticated, id, now) ==
        if !Within(asked, config.supportedScopes) then (s, Err(InvalidScope))
        else if OptionalResource(config, r.resource).Err? then (s, Err(InvalidTarget))
        else
          var requested := OptionalResource(config, r.resource).value;
          match r.kind.value
          case Anonymous => RegisterAnonymous(config, s, r, asked, Or(requested, config.defaultResource), id, now)
          case ServiceAuth => RegisterService(config, s, r, authenticated, asked, requested, id, now)
          case IdentityAssertion => RegisterAssertion(config, s, r, asked, requested, id, now)
  {
    hide RegisterAnonymous, RegisterService, RegisterAssertion, SplitScope, Configured, Within;
    NothingAsked(config.supportedScopes);
  }

  /**
    Registering with a service token: exactly if an authenticator vouches for it and scopes and resource
    agree.  The identity is the authenticated subject's, and nothing else changes.
   */
  lemma ServiceRegistrationAnswers(config: Config, s: State, r: Registration, authenticated: Option<Authenticated>, id: string, now: int)
    requires r.kind == Some(ServiceAuth)
    ensures
      var (s', reply) := Register(config, s, r, authenticated, id, now);
      var asked := SplitScope(r.scope);
      var vouched := if authenticated.Some? && authenticated.value.scopes.Some? then authenticated.value.scopes.value else config.supportedScopes;
      && (reply.Ok? <==>
            && Given(r.serviceToken) && config.hasAuthenticator && authenticated.Some?
            && ScopesAgree(config, asked, vouched) && AgreedResource(config, r.resource, authenticated.value.resource).Ok?)
      && (reply.Ok? ==>
            reply.value == Identity(id, ServiceAuth, if asked == [] then vouched else asked,
                                    Some(AgreedResource(config, r.resource, authenticated.value.resource).value),
                                    if authenticated.value.clientId.Some? then authenticated.value.clientId else r.clientId,
                                    Some(authenticated.value.subject), now, None, None))
      && s' == (if reply.Ok? then s.(identities := s.identities[id := reply.value]) else s)
  {
    hide Register, SplitScope, Configured, Within, Vouched, OptionalResource;
    RegisterStarts(config, s, r, authenticated, id, now);
    ResourceErrs(config, r.resource);
    var asked := SplitScope(r.scope);
    if authenticated.Some? && OptionalResource(config, r.resource).Ok? && Within(asked, config.supportedScopes) {
      var a := authenticated.value;
      VouchedIs(config, asked, r.resource, if a.scopes.Some? then a.scopes.value else config.supportedScopes, a.resource);
    }
  }

  lemma ResourceErrs(config: Config, resource: Option<string>)
    ensures OptionalResource(config, resource).Err? ==> forall vouched :: AgreedResource(config, resource, vouched).Err?
  {
    hide Configured;
  }

  /** The scopes an assertion vouches for in a registration: those it lists, or all supported ones. */
  function SwornScopes(config: Config, jwt: Jwt): seq<string>
    requires jwt.Jwt?
  {
    if !Given(jwt.claims.scope) || SplitScope(jwt.claims.scope) == [] then config.supportedScopes else SplitScope(jwt.claims.scope)
  }

  /** The request gets as far as a good assertion for the identity endpoint. */
  ghost predicate SwornBy(config: Config, s: State, r: Registration, now: int) {
    && Within(SplitScope(r.scope), config.supportedScopes) && (Given(r.resource) ==> Configured(config, r.resource.value).Some?)
    && r.assertion.Some? && Given(r.clientId) && AssertionGood(config, s, r.assertion.value, config.issuer + "/agent/identity", now)
  }

  lemma SwornIsReadable(config: Config, s: State, r: Registration, now: int)
    requires SwornBy(config, s, r, now)
    ensures r.assertion.value.Jwt? && AssertionAccepted(config, s, r.assertion.value, IdentityEndpoint(config), now)
  {
    hide Within, SplitScope, Configured;
    GoodIsAccepted(config, s, r.assertion.value, IdentityEndpoint(config), now);
  }

  /**
    Registering with an assertion: exactly if a good one vouches for the client that presents it and scopes
    and resource agree.  The identity is the assertion's subject's, and a good assertion is used up in any case.
   */
  lemma AssertionRegistrationAnswers(config: Config, s: State, r: Registration, authenticated: Option<Authenticated>, id: string, now: int)
    requires r.kind == Some(IdentityAssertion)
    ensures SwornBy(config, s, r, now) ==> r.assertion.value.Jwt?
    ensures Register(config, s, r, authenticated, id, now).1.Ok? <==>
              && SwornBy(config, s, r, now) && r.assertion.value.claims.clientId == r.clientId
              && ScopesAgree(config, SplitScope(r.scope), SwornScopes(config, r.assertion.value))
              && AgreedResource(config, r.resource, r.assertion.value.claims.resource).Ok?
    ensures Register(config, s, r, authenticated, id, now).1.Ok? ==>
              Register(config, s, r, authenticated, id, now).1.value ==
                Identity(id, IdentityAssertion,
                         if SplitScope(r.scope) == [] then SwornScopes(config, r.assertion.value) else SplitScope(r.scope),
                         Some(AgreedResource(config, r.resource, r.assertion.value.claims.resource).value), r.clientId,
                         Some(r.assertion.value.claims.sub), now, None, None)
    ensures
      var (s', reply) := Register(config, s, r, authenticated, id, now);
      s' == s.(identities := if reply.Ok? then s.identities[id := reply.value] else s.identities,
               replays := if SwornBy(config, s, r, now)
                          then s.replays[r.assertion.value.claims.iss + ":" + r.assertion.value.claims.jti := r.assertion.value.claims.exp * 1000]
                          else s.replays)
  {
    hide Register, SplitScope, Configured, Within, Vouched, OptionalResource, AssertionGood, AssertionAccepted;
    RegisterStarts(config, s, r, authenticated, id, now);
    ResourceErrs(config, r.resource);
    ResourceGiven(config, r.resource);
    NoScope();
    if SwornBy(config, s, r, now) {
      SwornIsReadable(config, s, r, now);
      VouchedIs(config, SplitScope(r.scope), r.resource, SwornScopes(config, r.assertion.value), r.assertion.value.claims.resource);
    } else if r.assertion.Some? {
      GoodIsAccepted(config, s, r.assertion.value, IdentityEndpoint(config), now);
    }
  }

  lemma ResourceGiven(config: Config, resource: Option<string>)
    ensures OptionalResource(config, resource).Ok? <==> (Given(resource) ==> Configured(config, resource.value).Some?)
  {
    hide Configured;
  }

  // --- polls, decisions and grants ---

  /** The deadline of a claim is over and it has not been used before. */
  predicate Overdue(c: Claim, now: int) {
    c.expiresAt <= now && !(c.status.Approved? && c.grantUsedAt.Some?)
  }

  /** What a poll makes of a claim. */
  function PolledAt(c: Claim, now: int): Claim {
    if c.status.Expired? then c
    else if Overdue(c, now) then c.(status := Expired, version := c.version + 1)
    else if c.status.Denied? then c
    else if c.lastPollAt.Some? && now - c.lastPollAt.value < c.intervalSeconds * 1000
    then c.(intervalSeconds := c.intervalSeconds + 5, version := c.version + 1)
    else c.(lastPollAt := Some(now), version := c.version + 1)
  }

  function PollReply(c: Claim, now: int): C.Reply {
    if c.status.Expired? || Overdue(c, now) then Err(ExpiredToken)
    else if c.status.Denied? then Err(AccessDenied)
    else if c.lastPollAt.Some? && now - c.lastPollAt.value < c.intervalSeconds * 1000 then Err(SlowDown)
    else Ok(PolledAt(c, now))
  }

  lemma PollPerforms(options: Options, claims: Claims, id: string, now: int)
    requires id in claims
    ensures C.Perform(options, claims, ClaimRules.Poll, id, now, now) == (claims[id := PolledAt(claims[id], now)], PollReply(claims[id], now))
  {
    assert claims[id := claims[id]] == claims;
  }

  lemma OneDeviceOwner(claims: Claims, hash: string, id: string)
    requires C.WellKeyed(claims) && id in claims && claims[id].deviceCodeHash == hash
    ensures C.DeviceCodeOwner(claims, hash) == Some(id)
  {
    var owner := C.DeviceCodeOwner(claims, hash).value;
    assert owner == id || Unrelated(claims[owner], claims[id]);
  }

  /**
    Polling: the claim of the device code answers, and a grant is signed exactly for an accepted poll of an
    approved claim.
   */
  lemma PollAnswers(config: Config, acts: seq<Action>, hash: string, now: int)
    requires ConfigOk(config) && Legal(config, acts)
    ensures
      var s := After(config, acts);
      var (s', reply) := PollClaim(config, s, hash, now);
      var claims := s.ceremony.claims;
      && ((forall id :: id in claims ==> claims[id].deviceCodeHash != hash) ==> reply == Err(InvalidGrant) && s' == s)
      && (forall id :: id in claims && claims[id].deviceCodeHash == hash ==>
            && reply == PollReply(claims[id], now)
            && s'.ceremony.claims == claims[id := PolledAt(claims[id], now)]
            && s'.signed == s.signed + if reply.Ok? && claims[id].status.Approved?
                                       then {ClaimGrantJwt(config, PolledAt(claims[id], now), now)} else {})
  {
    hide Inv, After, Legal, ConfigOk, C.Perform, PolledAt, PollReply, ClaimGrantJwt;
    Reachable(config, acts);
    var s := After(config, acts);
    InvClaims(config, s);
    var claims := s.ceremony.claims;
    forall id | id in claims && claims[id].deviceCodeHash == hash ensures C.DeviceCodeOwner(claims, hash) == Some(id) {
      OneDeviceOwner(claims, hash, id);
    }
    var owner := C.DeviceCodeOwner(claims, hash);
    if owner.Some? {
      PollPerforms(config.ceremony.claim, claims, owner.value, now);
      PollKeepsStatus(claims[owner.value], now);
    }
  }

  lemma PollKeepsStatus(c: Claim, now: int)
    ensures PollReply(c, now).Ok? ==> PollReply(c, now).value == PolledAt(c, now) && PolledAt(c, now).status == c.status
  {
  }

  /** The grant signed for a claim is good at the token endpoint until the claim's deadline, and names claim and identity. */
  lemma GrantFitsUntilDeadline(config: Config, c: Claim, signedAt: int, now: int)
    requires ConfigOk(config)
    ensures
      var jwt := ClaimGrantJwt(config, c, signedAt);
      && (ClaimGrantFits(config, jwt, now) <==>
            c.identityId != "" && now / 1000 < c.expiresAt / 1000 && signedAt / 1000 <= now / 1000 + 60 && 0 <= now)
      && jwt.Jwt? && jwt.claims.sub == c.identityId && jwt.claims.claimId == Some(c.id) && jwt.claims.exp == c.expiresAt / 1000
  {
  }

  /** A decision is for a verified claim before its deadline, and is the one that was made. */
  lemma DecisionAnswers(options: Options, claims: Claims, id: string, approve: bool, now: int)
    ensures
      var (claims', reply) := C.Perform(options, claims, Decide(approve), id, now, now);
      if id in claims && claims[id].status.UserVerified? && now < claims[id].expiresAt then
        && reply == Ok(claims[id].(status := if approve then Approved else Denied, version := claims[id].version + 1))
        && claims' == claims[id := reply.value]
      else
        && reply == Err(InvalidGrant)
        && claims' == if id in claims && !claims[id].status.Expired? && Overdue(claims[id], now)
                      then claims[id := claims[id].(status := Expired, version := claims[id].version + 1)] else claims
  {
  }

  /** An assertion of its own the service signs for an active identity that was registered with one, saying what that has. */
  lemma SignedAssertionSays(config: Config, s: State, identityId: string, audience: string, id: string, now: int)
    ensures
      var (s', reply) := IssueAssertion(config, s, identityId, audience, id, now);
      && (reply.Ok? <==>
            && identityId in s.identities && s.identities[identityId].revokedAt.None?
            && (s.identities[identityId].expiresAt.Some? ==> now < s.identities[identityId].expiresAt.value)
            && s.identities[identityId].kind.IdentityAssertion?
            && Given(s.identities[identityId].subject) && Given(s.identities[identityId].clientId))
      && (reply.Ok? ==>
            var identity := s.identities[identityId];
            && reply.value == Jwt(config.signingKey,
                 JwtClaims(config.issuer, identity.subject.value, [audience], now / 1000, now / 1000 + config.tokenSeconds, None, id,
                           Some(Join(identity.scopes)), Some(identity.id), identity.clientId, None, None, None))
            && s' == s.(signed := s.signed + {reply.value}))
      && (reply.Err? ==> s' == s && reply.error == InvalidGrant)
  {
    hide Join;
  }

  // --- revocation events ---

  /** A delivery that has not been tried and is due at `at`. */
  predicate NewDelivery(st: E.Store, eventId: string, subscriberId: string, id: string, at: int) {
    id in st.deliveries && st.deliveries[id] == E.EventDelivery(id, eventId, subscriberId, E.Pending, 0, at, None, None)
  }

  lemma {:induction false} AddedIs(st: E.Store, eventId: string, subscribers: seq<string>, ids: seq<string>, at: int, n: nat)
    requires |subscribers| == |ids| && n <= |ids| && Distinct(ids)
    ensures
      var st' := AddDeliveries(st, eventId, subscribers[..n], ids[..n], at);
      && st'.order == st.order + ids[..n]
      && (forall i :: 0 <= i < n ==> NewDelivery(st', eventId, subscribers[i], ids[i], at))
  {
    hide AddDeliveries;
    if n == 0 {
      AddNone(st, eventId, at);
      assert subscribers[..0] == [] && ids[..0] == [];
    } else {
      AddedIs(st, eventId, subscribers, ids, at, n - 1);
      AddOneMore(st, eventId, subscribers, ids, at, n);
      assert ids[..n] == ids[..n - 1] + [ids[n - 1]];
    }
  }

  /** A revocation records the event of its token and moment, and a first delivery due at once for every subscriber. */
  lemma RevocationSays(config: Config, acts: seq<Action>, id: string, eventId: string, ids: seq<string>, now: int)
    requires ConfigOk(config) && Legal(config, acts) && id in After(config, acts).tokens && id in After(config, acts).mints
    requires Enabled(config, After(config, acts), RevokeToken(After(config, acts).mints[id].jwt, eventId, ids, now))
    requires After(config, acts).tokens[id].revokedAt.None?
    ensures
      var s := After(config, acts);
      var s' := Apply(config, s, RevokeToken(s.mints[id].jwt, eventId, ids, now));
      id in s'.tokens && s'.tokens[id].revokedAt.Some? ==>
        && s'.tokens == s.tokens[id := s.tokens[id].(revokedAt := Some(now))]
        && eventId in s'.book.events && s'.book.events[eventId] == RevocationEvent(eventId, id, s.tokens[id].subject, now)
        && s'.book.deliveries.order == s.book.deliveries.order + ids
        && forall i :: 0 <= i < |ids| ==> NewDelivery(s'.book.deliveries, eventId, s.book.subscribers[i], ids[i], now)
  {
    hide Inv, After, Legal, RevocationAudience, AddDeliveries, AddSent, Genuine;
    Reachable(config, acts);
    var s := After(config, acts);
    TokenFacts(config, s, id);
    NoEventYet(config, s, id);
    AudienceIsReadable(config, s.mints[id].jwt, now);
    AddedIs(s.book.deliveries, eventId, s.book.subscribers, ids, now, |ids|);
    assert s.book.subscribers[..|ids|] == s.book.subscribers && ids[..|ids|] == ids;
    if RevocationAudience(config, s.mints[id].jwt, now).Some? {
      GenuineMatches(config, s, s.mints[id].jwt, now);
    }
  }

  /** What a subscriber is sent tells him the subject of a revoked token, under the id of his delivery, for five minutes. */
  lemma SecurityEventsSay(config: Config, acts: seq<Action>, env: E.Env, url: string -> string, now: int, limit: nat, jwt: Jwt)
    requires ConfigOk(config) && Legal(config, acts) && jwt in SentTokens(config, After(config, acts).book, env, url, now, limit)
    ensures jwt.Jwt? && jwt.claims.jti in After(config, acts).book.deliveries.deliveries
    ensures
      var s := After(config, acts);
      var d := s.book.deliveries.deliveries[jwt.claims.jti];
      && d.status.Pending? && d.nextAttemptAt <= now && d.eventId in s.book.events
      && var e := s.book.events[d.eventId];
         && e.tokenId in s.tokens && s.tokens[e.tokenId].revokedAt.Some? && jwt.claims.sub == s.tokens[e.tokenId].subject
         && jwt.key == config.signingKey && jwt.claims.iss == config.issuer && jwt.claims.aud == [url(d.subscriberId)]
         && jwt.claims.iat == now / 1000 && jwt.claims.exp == now / 1000 + 300
  {
    hide IdentitiesOk, ClaimsOk, TokensOk, SignedOk, SentOk, DeliveriesOk, E.ListDue, Distinct, After, Legal, E.Valid;
    Reachable(config, acts);
    var book := After(config, acts).book;
    E.ListDueIs(book.deliveries, now, limit);
    var d :| d in E.ListDue(book.deliveries, now, limit) && env.known(d) && d.eventId in book.events
          && jwt == SecurityEventJwt(config, book.events[d.eventId], url(d.subscriberId), d.id, now);
  }

  // --- creating the service ---

  /** Which options make a service, and which resources it protects. */
  lemma CreationAnswers(options: Config, others: seq<string>)
    ensures
      var issuer := WithoutTrailingSlash(options.issuer);
      var good := (r: string) => options.normalize(r).Some? && options.normalize(r).value != "";
      && (Create(options, others).Some? <==>
            && ("https://" <= issuer || "http://localhost" <= issuer) && options.supportedScopes != []
            && good(options.defaultResource) && forall i :: 0 <= i < |others| ==> good(others[i]))
      && (Create(options, others).Some? ==>
            var c := Create(options, others).value;
            && c == options.(issuer := issuer, defaultResource := options.normalize(options.defaultResource).value,
                             protectedResources := c.protectedResources)
            && forall r :: r in c.protectedResources <==>
                 r == c.defaultResource || exists i :: 0 <= i < |others| && options.normalize(others[i]) == Some(r))
  {
    NormalForms(options.normalize, others);
  }

  lemma {:induction false} NormalForms(normalize: string -> Option<string>, resources: seq<string>)
    ensures
      var all := NormalizeAll(normalize, resources);
      && (all.Some? <==> forall i :: 0 <= i < |resources| ==> normalize(resources[i]).Some? && normalize(resources[i]).value != "")
      && (all.Some? ==> forall r :: r in all.value <==> exists i :: 0 <= i < |resources| && normalize(resources[i]) == Some(r))
  {
    if resources != [] {
      var n := |resources| - 1;
      NormalForms(normalize, resources[..n]);
      assert forall i :: 0 <= i < n ==> resources[..n][i] == resources[i];
    }
  }

  /** The issuer loses the slashes at its end and nothing else. */
  lemma {:induction false} SlashesGo(s: string) returns (slashes: nat)
    ensures slashes <= |s| && WithoutTrailingSlash(s) == s[..|s| - slashes]
    ensures forall i :: |s| - slashes <= i < |s| ==> s[i] == '/'
    ensures slashes < |s| ==> s[|s| - slashes - 1] != '/'
  {
    slashes := 0;
    if s != "" && s[|s| - 1] == '/' {
      slashes := SlashesGo(s[..|s| - 1]);
      slashes := slashes + 1;
    }
  }
}
