/** `AgentAuthService` as the class it is, over the in-memory store. */
module Service {
  import opened Wrappers
  import opened ClaimRules
  import opened Scopes
  import opened ServiceModel
  import opened ClaimCeremonyClass
  import C = ClaimCeremonyModel
  import E = EventDeliveryModel
  import ClaimState
  import CS = ClaimStateModel
  import L = RateLimitModel

  class AgentAuthService {
    const config: Config
    const claims: ClaimCeremony
    var identities: map<string, Identity>
    var tokens: map<string, IssuedToken>
    var replays: map<string, int>
    var subscribers: seq<string>
    var eventsById: map<string, RevocationEvent>
    var eventIdByToken: map<string, string>
    var deliveryOrder: seq<string>
    var deliveries: map<string, E.EventDelivery>
    ghost var audience: map<string, seq<string>>
    ghost var sent: map<(string, string), string>
    ghost var signed: set<Jwt>
    ghost var mints: map<string, Mint>

    ghost function State(): State
      reads this, claims.claims, claims.limiter
    {
      ServiceModel.State(identities, claims.State(), tokens, replays, Events(), signed, mints)
    }

    ghost function Events(): Book
      reads this
    {
      Book(subscribers, eventsById, eventIdByToken, E.Store(deliveryOrder, deliveries), audience, sent)
    }

    ghost predicate Valid()
      reads this, claims.claims
    {
      claims.Valid() && claims.options == config.ceremony
    }

    constructor (config: Config, claims: ClaimCeremony)
      requires claims.options == config.ceremony && claims.State() == C.Ceremony(map[], map[])
      ensures this.config == config && this.claims == claims && Valid() && State() == Initial
    {
      this.config, this.claims := config, claims;
      identities, tokens, replays := map[], map[], map[];
      subscribers, eventsById, eventIdByToken, deliveryOrder, deliveries := [], map[], map[], [], map[];
      audience, sent, signed, mints := map[], map[], {}, map[];
    }

    /** `verifyJwt` up to the signature, every failure being the same. */
    static method VerifyJwt(jwt: Jwt, keys: set<string>, issuer: string, audience: string, now: int) returns (ok: bool)
      ensures ok == Verifies(jwt, keys, issuer, audience, now)
      ensures ok ==> jwt.Jwt?
    {
      if jwt.Malformed? {
        return false;
      }
      var c := jwt.claims;
      if c.iss == "" || c.sub == "" || c.aud == [] || c.jti == "" {
        return false;
      }
      if c.iss != issuer || audience !in c.aud {
        return false;
      }
      var seconds := FloorSeconds(now);
      var notBefore := if c.nbf.Some? then c.nbf.value else 0;
      if c.exp <= seconds || c.iat > seconds + 60 || notBefore > seconds {
        return false;
      }
      return jwt.key in keys;
    }

    method MarkIfUnused(id: string, expiresAt: int, now: int) returns (unused: bool)
      modifies this`replays
      ensures unused == Unreplayed(old(replays), id, now)
      ensures replays == if unused then old(replays)[id := expiresAt] else old(replays)
    {
      if id in replays && replays[id] > now {
        return false;
      }
      replays := replays[id := expiresAt];
      return true;
    }

    /** `verifyJwt` with the replay repository. */
    method VerifyAssertion(jwt: Jwt, audience: string, now: int) returns (ok: bool)
      modifies this`replays
      ensures ok == AssertionAccepted(config, old(State()), jwt, audience, now)
      ensures ok ==> jwt.Jwt?
      ensures replays == if ok then Remember(old(State()), jwt).replays else old(replays)
    {
      ok := VerifyJwt(jwt, config.trustedKeys, config.trustedIssuer, audience, now);
      if ok {
        ok := MarkIfUnused(ReplayKey(jwt.claims), jwt.claims.exp * 1000, now);
      }
    }

    method RegisterIdentity(r: Registration, authenticated: Option<Authenticated>, id: string, now: int)
      returns (reply: Result<Identity, OAuthError>)
      requires Valid()
      modifies this, claims.limiter
      ensures Valid()
      ensures (State(), reply) == Register(config, old(State()), r, authenticated, id, now)
    {
      hide Verifies, Within, L.Take, Unreplayed;
      var explicitScopes := SplitScope(r.scope);
      if |explicitScopes| > 0 && !Within(explicitScopes, config.supportedScopes) {
        return Err(InvalidScope);
      }
      var requestedResource := if Given(r.resource) then Configured(config, r.resource.value) else None;
      if Given(r.resource) && requestedResource.None? {
        return Err(InvalidTarget);
      }
      var resource := Or(requestedResource, config.defaultResource);
      var identity: Identity;
      match r.kind {
        case Some(Anonymous) =>
          var allowed := claims.limiter.Take(RegisterKey(r.rateLimitKey), config.maxRegistrations,
                                             config.registrationWindowSeconds, now);
          if !allowed {
            return Err(TemporarilyUnavailable);
          }
          var scopes := if |explicitScopes| > 0 then explicitScopes else config.supportedScopes;
          identity := Identity(id, Anonymous, scopes, Some(resource), r.clientId, None, now,
                               Some(now + config.anonymousSeconds * 1000), None);
        case Some(ServiceAuth) =>
          if !Given(r.serviceToken) || !config.hasAuthenticator || authenticated.None? {
            return Err(InvalidClient);
          }
          var a := authenticated.value;
          var authenticatedScopes := if a.scopes.Some? then a.scopes.value else config.supportedScopes;
          var vouched := Check(explicitScopes, requestedResource, authenticatedScopes, a.resource);
          if vouched.Err? {
            return Err(vouched.error);
          }
          identity := Identity(id, ServiceAuth, vouched.value.0, Some(vouched.value.1),
                               if a.clientId.Some? then a.clientId else r.clientId, Some(a.subject), now, None, None);
        case Some(IdentityAssertion) =>
          if r.assertion.None? || !Given(r.clientId) {
            return Err(InvalidRequest);
          }
          var verified := VerifyAssertion(r.assertion.value, IdentityEndpoint(config), now);
          if !verified {
            return Err(InvalidGrant);
          }
          var c := r.assertion.value.claims;
          if !Given(c.clientId) || c.clientId != r.clientId {
            return Err(InvalidGrant);
          }
          var assertionScopes := RequestedScopes(OptionalText(c.scope), config.supportedScopes);
          var vouched := Check(explicitScopes, requestedResource, assertionScopes, c.resource);
          if vouched.Err? {
            return Err(vouched.error);
          }
          identity := Identity(id, IdentityAssertion, vouched.value.0, Some(vouched.value.1), c.clientId, Some(c.sub),
                               now, None, None);
        case None =>
          return Err(InvalidRequest);
      }
      identities := identities[id := identity];
      return Ok(identity);
    }

    /** The scope and resource checks shared by the two vouched-for kinds of identity. */
    method Check(explicitScopes: seq<string>, requestedResource: Option<string>, vouchedScopes: seq<string>,
                 vouchedResource: Option<string>) returns (r: Result<(seq<string>, string), OAuthError>)
      ensures r == Vouched(config, explicitScopes, requestedResource, vouchedScopes, vouchedResource)
    {
      var registered := if |explicitScopes| > 0 then explicitScopes else vouchedScopes;
      if !Within(vouchedScopes, config.supportedScopes) || !Within(registered, vouchedScopes) {
        return Err(InvalidScope);
      }
      var resource := if Given(vouchedResource) then Configured(config, vouchedResource.value) else None;
      if (Given(vouchedResource) && resource.None?) ||
         (resource.Some? && requestedResource.Some? && requestedResource != resource)
      {
        return Err(InvalidTarget);
      }
      return Ok((registered, Or(resource, Or(requestedResource, config.defaultResource))));
    }

    method StartClaim(r: ClaimRequest, names: Names, now: int) returns (reply: C.Reply)
      requires Valid() && names.id !in claims.claims.claims
      requires forall id :: id in claims.claims.claims ==>
                 && claims.claims.claims[id].userCodeHash != names.userCodeHash
                 && claims.claims.claims[id].deviceCodeHash != names.deviceCodeHash
      requires forall id :: id in identities ==> identities[id].id == id
      modifies claims.claims, claims.limiter
      ensures Valid()
      ensures (State(), reply) == ServiceModel.StartClaim(config, old(State()), r, names, now)
    {
      hide Within, L.Take, Configured;
      if r.identityId !in identities || identities[r.identityId].revokedAt.Some? ||
         (identities[r.identityId].expiresAt.Some? && identities[r.identityId].expiresAt.value <= now)
      {
        return Err(InvalidGrant);
      }
      var identity := identities[r.identityId];
      var scopes := RequestedScopes(r.scope, identity.scopes);
      if !Within(scopes, identity.scopes) {
        return Err(InvalidScope);
      }
      var resource := if Given(r.resource) then Configured(config, r.resource.value)
                      else Some(Or(identity.resource, config.defaultResource));
      if !Given(resource) {
        return Err(InvalidTarget);
      }
      if !ResourceMatches(config, identity, resource.value) {
        return Err(InvalidTarget);
      }
      reply := claims.Start(identity.id, scopes, resource, r.rateLimitKey, now, names.id, names.userCodeHash, names.deviceCodeHash);
    }

    method PollClaim(deviceHash: string, now: int) returns (reply: C.Reply, claimGrant: Option<Jwt>)
      requires Valid()
      modifies this, claims.claims
      ensures Valid()
      ensures (State(), reply) == ServiceModel.PollClaim(config, old(State()), deviceHash, now)
      ensures claimGrant == if reply.Ok? && reply.value.status.Approved? then Some(ClaimGrantJwt(config, reply.value, now)) else None
    {
      hide C.Perform;
      reply := claims.Poll(deviceHash, now, now);
      if reply.Err? || !reply.value.status.Approved? {
        return reply, None;
      }
      var jwt := ClaimGrantJwt(config, reply.value, now);
      signed := signed + {jwt};
      return reply, Some(jwt);
    }

    method IdentityForExchange(grant: Grant, now: int) returns (a: Result<Authorization, OAuthError>)
      requires Valid()
      modifies this`replays, claims.claims
      ensures Valid()
      ensures (State(), a) == Authorize(config, old(State()), grant, now)
    {
      match grant {
        case ClaimGrant(claimGrant) =>
          if claimGrant.None? {
            return Err(InvalidRequest);
          }
          a := IdentityForClaim(claimGrant.value, now);
        case Bearer(assertion, clientId) =>
          if assertion.None? || !Given(clientId) {
            return Err(InvalidRequest);
          }
          a := IdentityForAssertion(assertion.value, clientId.value, now);
        case OtherGrant =>
          return Err(UnsupportedGrantType);
      }
    }

    method IdentityForClaim(claimGrant: Jwt, now: int) returns (a: Result<Authorization, OAuthError>)
      requires Valid()
      modifies claims.claims
      ensures Valid()
      ensures (State(), a) == AuthorizeClaim(config, old(State()), claimGrant, now)
    {
      hide Verifies, C.Perform, C.WellKeyed;
      var verified := VerifyJwt(claimGrant, config.ownKeys, config.issuer, TokenEndpoint(config), now);
      if !verified {
        return Err(InvalidGrant);
      }
      var v := claimGrant.claims;
      if v.purpose != Some("claim_grant") || v.claimId.None? || Some(v.sub) != v.identityId {
        return Err(InvalidGrant);
      }
      var claim := claims.ConsumeApprovedClaim(v.claimId.value, now, now);
      if claim.Err? {
        return Err(claim.error);
      }
      if claim.value.identityId != v.sub {
        return Err(InvalidGrant);
      }
      var id := claim.value.identityId;
      if id !in identities || identities[id].revokedAt.Some? ||
         (identities[id].expiresAt.Some? && identities[id].expiresAt.value <= now)
      {
        return Err(InvalidGrant);
      }
      return Ok(Authorization(identities[id], claim.value.scopes, claim.value.resource, Some(claim.value.id)));
    }

    method IdentityForAssertion(assertion: Jwt, clientId: string, now: int) returns (a: Result<Authorization, OAuthError>)
      requires Valid() && clientId != ""
      modifies this`replays
      ensures Valid()
      ensures (State(), a) == AuthorizeAssertion(config, old(State()), assertion, clientId, now)
    {
      hide Verifies, Within, Unreplayed;
      var verified := VerifyAssertion(assertion, TokenEndpoint(config), now);
      if !verified {
        return Err(InvalidGrant);
      }
      var v := assertion.claims;
      if !Given(v.identityId) || !Given(v.clientId) || v.clientId != Some(clientId) {
        return Err(InvalidGrant);
      }
      var id := v.identityId.value;
      if id !in identities || identities[id].revokedAt.Some? ||
         (identities[id].expiresAt.Some? && identities[id].expiresAt.value <= now)
      {
        return Err(InvalidGrant);
      }
      var identity := identities[id];
      if !identity.kind.IdentityAssertion? || identity.subject != Some(v.sub) || identity.clientId != v.clientId {
        return Err(InvalidGrant);
      }
      var assertionScopes := RequestedScopes(OptionalText(v.scope), identity.scopes);
      if !Within(assertionScopes, identity.scopes) {
        return Err(InvalidScope);
      }
      var resource := if Given(v.resource) then Configured(config, v.resource.value) else None;
      if (Given(v.resource) && resource.None?) || (resource.Some? && !ResourceMatches(config, identity, resource.value)) {
        return Err(InvalidTarget);
      }
      return Ok(Authorization(identity, assertionScopes, resource, None));
    }

    method ExchangeToken(grant: Grant, scope: Option<string>, resource: Option<string>, id: string, now: int)
      returns (reply: Result<Jwt, OAuthError>)
      requires Valid()
      modifies this, claims.claims
      ensures Valid()
      ensures (State(), reply) == Exchange(config, old(State()), grant, scope, resource, id, now)
    {
      hide Authorize, Within, C.WellKeyed, Configured, RequestedScopes, Join, NewToken, AccessTokenJwt;
      var authorization := IdentityForExchange(grant, now);
      if authorization.Err? {
        return Err(authorization.error);
      }
      var a := authorization.value;
      var scopes := RequestedScopes(scope, a.allowedScopes);
      if !Within(scopes, a.allowedScopes) {
        return Err(InvalidScope);
      }
      var target := if Given(resource) then Configured(config, resource.value)
                    else if a.resource.Some? then a.resource
                    else Some(Or(a.identity.resource, config.defaultResource));
      if !Given(target) {
        return Err(InvalidTarget);
      }
      if !ResourceMatches(config, a.identity, target.value) || (a.resource.Some? && a.resource != target) {
        return Err(InvalidTarget);
      }
      var accessToken := CreateToken(a, scopes, target.value, id, now);
      return Ok(accessToken);
    }

    /** Stores the record first and signs the token for it. */
    method CreateToken(a: Authorization, scopes: seq<string>, resource: string, id: string, now: int) returns (accessToken: Jwt)
      modifies this`tokens, this`signed, this`mints
      ensures
        var token := NewToken(config, a.identity, scopes, resource, id, now);
        && tokens == old(tokens)[id := token] && accessToken == AccessTokenJwt(config, token)
        && signed == old(signed) + {accessToken}
        && mints == old(mints)[id := Mint(accessToken, a.allowedScopes, a.resource, a.claimId)]
    {
      var seconds := FloorSeconds(now);
      var token := IssuedToken(id, a.identity.id, Or(a.identity.subject, a.identity.id), scopes, resource, seconds * 1000,
                               (seconds + config.tokenSeconds) * 1000, None);
      tokens := tokens[id := token];
      accessToken := Jwt(config.signingKey,
        JwtClaims(config.issuer, token.subject, [token.resource], seconds, seconds + config.tokenSeconds, None, token.id,
                  Some(Join(token.scopes)), Some(token.identityId), None, None, None, None));
      signed := signed + {accessToken};
      mints := mints[id := Mint(accessToken, a.allowedScopes, a.resource, a.claimId)];
    }

    method ValidateAccessToken(jwt: Jwt, expectedResource: string, now: int) returns (r: Result<IssuedToken, OAuthError>)
      ensures r == Validate(config, State(), jwt, expectedResource, now)
    {
      hide Verifies;
      var resource := Configured(config, expectedResource);
      if resource.None? {
        return Err(InvalidTarget);
      }
      var verified := VerifyJwt(jwt, config.ownKeys, config.issuer, resource.value, now);
      if !verified {
        return Err(InvalidToken);
      }
      var v := jwt.claims;
      var tokenScopes := SplitScope(OptionalText(v.scope));
      if v.jti !in tokens {
        return Err(InvalidToken);
      }
      var stored := tokens[v.jti];
      if stored.revokedAt.Some? || stored.expiresAt <= now || stored.resource != resource.value ||
         stored.subject != v.sub || Some(stored.identityId) != OptionalText(v.identityId) ||
         !SameScopes(stored.scopes, tokenScopes)
      {
        return Err(InvalidToken);
      }
      return Ok(stored);
    }

    method Revoke(jwt: Jwt, eventId: string, ids: seq<string>, now: int)
      requires Valid() && |ids| == |subscribers|
      requires forall id :: id in tokens ==> tokens[id].id == id
      modifies this
      ensures Valid()
      ensures State() == ServiceModel.Revoke(config, old(State()), jwt, eventId, ids, now)
    {
      hide Verifies, Configured, Announce;
      if jwt.Malformed? || |jwt.claims.aud| != 1 {
        return;
      }
      var resource := Configured(config, jwt.claims.aud[0]);
      if jwt.claims.iss != config.issuer || resource.None? {
        return;
      }
      var verified := VerifyJwt(jwt, config.ownKeys, config.issuer, resource.value, now);
      if !verified {
        return;
      }
      var jti := jwt.claims.jti;
      if jti !in tokens || tokens[jti].revokedAt.Some? {
        return;
      }
      tokens := tokens[jti := tokens[jti].(revokedAt := Some(now))];
      var stored := tokens[jti];
      if stored.subject != jwt.claims.sub || stored.resource != resource.value {
        return;
      }
      CreateEvent(stored, eventId, ids, now);
    }

    /** `createEvent` refuses a second event for a token; otherwise every subscriber gets a delivery. */
    method CreateEvent(stored: IssuedToken, eventId: string, ids: seq<string>, occurredAt: int)
      requires |ids| == |subscribers|
      modifies this`eventsById, this`eventIdByToken, this`deliveryOrder, this`deliveries, this`sent, this`audience
      ensures Events() == Announce(old(Events()), stored, eventId, ids, occurredAt)
    {
      hide AddDeliveries, AddSent;
      if stored.id in eventIdByToken {
        return;
      }
      eventsById := eventsById[eventId := RevocationEvent(eventId, stored.id, stored.subject, occurredAt)];
      eventIdByToken := eventIdByToken[stored.id := eventId];
      Notify(eventId, ids, occurredAt);
      audience := audience[eventId := subscribers];
    }

    /** One pending delivery for every subscriber. */
    method Notify(eventId: string, ids: seq<string>, occurredAt: int)
      requires |ids| == |subscribers|
      modifies this`deliveryOrder, this`deliveries, this`sent
      ensures E.Store(deliveryOrder, deliveries)
           == AddDeliveries(E.Store(old(deliveryOrder), old(deliveries)), eventId, subscribers, ids, occurredAt)
      ensures sent == AddSent(old(sent), eventId, subscribers, ids)
    {
      ghost var before, already := E.Store(deliveryOrder, deliveries), sent;
      for i := 0 to |subscribers|
        invariant E.Store(deliveryOrder, deliveries) == AddDeliveries(before, eventId, subscribers[..i], ids[..i], occurredAt)
        invariant sent == AddSent(already, eventId, subscribers[..i], ids[..i])
      {
        assert subscribers[..i + 1][..i] == subscribers[..i] && ids[..i + 1][..i] == ids[..i];
        deliveryOrder := deliveryOrder + [ids[i]];
        deliveries := deliveries[ids[i] := E.EventDelivery(ids[i], eventId, subscribers[i], E.Pending, 0, occurredAt, None, None)];
        sent := sent[(eventId, subscribers[i]) := ids[i]];
      }
      assert subscribers[..|subscribers|] == subscribers && ids[..|ids|] == ids;
    }
  }
}
