/** What holds of the service after any run of requests. */
module ServiceRuns {
  import opened Wrappers
  import opened ClaimRules
  import opened ClaimStateModel
  import opened Scopes
  import opened ServiceModel
  import C = ClaimCeremonyModel
  import E = EventDeliveryModel
  import L = RateLimitModel

  datatype Action =
    | RegisterIdentity(r: Registration, authenticated: Option<Authenticated>, id: string, now: int)
    | BeginClaim(request: ClaimRequest, names: Names, now: int)
    | VerifyClaimCode(hash: string, rateLimitKey: string, now: int)
    | DecideClaim(id: string, approve: bool, now: int)
    | Poll(hash: string, now: int)
    | SignAssertion(identityId: string, audience: string, id: string, now: int)
    | ExchangeToken(grant: Grant, scope: Option<string>, resource: Option<string>, id: string, now: int)
    | RevokeToken(jwt: Jwt, eventId: string, ids: seq<string>, now: int)
    | Subscribe(id: string)
    | DeliverDue(env: E.Env, url: string -> string, now: int, limit: nat)

  /** A token under one of the service's keys is one the service signed. */
  ghost predicate Genuine(config: Config, signed: set<Jwt>, jwt: Jwt) {
    jwt.Jwt? && jwt.key in config.ownKeys ==> jwt in signed
  }

  /** Generated ids are new and carry their prefix; signatures cannot be forged.  Clocks may do anything. */
  ghost predicate Enabled(config: Config, s: State, a: Action) {
    match a
    case RegisterIdentity(_, _, id, _) => id !in s.identities && id != ""
    case BeginClaim(_, names, _) =>
      names.id !in s.ceremony.claims && forall id :: id in s.ceremony.claims ==>
        s.ceremony.claims[id].userCodeHash != names.userCodeHash && s.ceremony.claims[id].deviceCodeHash != names.deviceCodeHash
    case SignAssertion(_, _, id, _) => "assertion_" <= id
    case ExchangeToken(_, _, _, id, _) => "token_" <= id && id !in s.tokens
    case RevokeToken(jwt, eventId, ids, _) =>
      && Genuine(config, s.signed, jwt) && eventId !in s.book.events && |ids| == |s.book.subscribers| && Distinct(ids)
      && forall i :: 0 <= i < |ids| ==> ids[i] !in s.book.deliveries.deliveries && "delivery_" <= ids[i]
    case Subscribe(id) => id !in s.book.subscribers
    case _ => true
  }

  ghost function Apply(config: Config, s: State, a: Action): State
    requires Enabled(config, s, a)
  {
    match a
    case RegisterIdentity(r, authenticated, id, now) => Register(config, s, r, authenticated, id, now).0
    case BeginClaim(request, names, now) => StartClaim(config, s, request, names, now).0
    case VerifyClaimCode(hash, key, now) => s.(ceremony := C.VerifyUserCode(config.ceremony, s.ceremony, hash, key, now, now, now).0)
    case DecideClaim(id, approve, now) =>
      s.(ceremony := s.ceremony.(claims := C.Perform(config.ceremony.claim, s.ceremony.claims, Decide(approve), id, now, now).0))
    case Poll(hash, now) => PollClaim(config, s, hash, now).0
    case SignAssertion(identityId, audience, id, now) => IssueAssertion(config, s, identityId, audience, id, now).0
    case ExchangeToken(grant, scope, resource, id, now) => Exchange(config, s, grant, scope, resource, id, now).0
    case RevokeToken(jwt, eventId, ids, now) => Revoke(config, s, jwt, eventId, ids, now)
    case Subscribe(id) => s.(book := s.book.(subscribers := s.book.subscribers + [id]))
    case DeliverDue(env, url, now, limit) =>
      s.(book := s.book.(deliveries := E.Round(s.book.deliveries, env, now, limit)),
         signed := s.signed + SentTokens(config, s.book, env, url, now, limit))
  }

  ghost predicate Legal(config: Config, acts: seq<Action>)
    decreases |acts|, 0
  {
    acts == [] ||
    (Legal(config, acts[..|acts| - 1]) && Enabled(config, After(config, acts[..|acts| - 1]), acts[|acts| - 1]))
  }

  ghost function After(config: Config, acts: seq<Action>): State
    requires Legal(config, acts)
    decreases |acts|, 1
  {
    if acts == [] then Initial else Apply(config, After(config, acts[..|acts| - 1]), acts[|acts| - 1])
  }

  // --- the invariant ---

  ghost predicate IdentityOk(config: Config, identity: Identity) {
    Within(identity.scopes, config.supportedScopes) && identity.resource.Some? && identity.resource.value in config.protectedResources
  }

  ghost predicate IdentitiesOk(config: Config, identities: map<string, Identity>) {
    forall id :: id in identities ==> id != "" && identities[id].id == id && IdentityOk(config, identities[id])
  }

  /** A claim asks for no more than its identity has, at its identity's resource. */
  ghost predicate ClaimOk(identities: map<string, Identity>, c: Claim) {
    && c.identityId in identities && Within(c.scopes, identities[c.identityId].scopes)
    && c.resource == identities[c.identityId].resource
  }

  ghost predicate ClaimsOk(identities: map<string, Identity>, claims: Claims) {
    C.WellKeyed(claims) && forall id :: id in claims ==> ClaimOk(identities, claims[id])
  }

  ghost predicate TokenOk(config: Config, identities: map<string, Identity>, id: string, t: IssuedToken, m: Mint) {
    && t.id == id && "token_" <= id && t.identityId in identities && t.identityId != ""
    && Within(t.scopes, m.grantScopes) && Within(m.grantScopes, identities[t.identityId].scopes)
    && identities[t.identityId].resource == Some(t.resource) && (m.grantResource.Some? ==> m.grantResource == Some(t.resource))
    && t.issuedAt % 1000 == 0 && t.expiresAt == t.issuedAt + config.tokenSeconds * 1000
    && m.jwt == AccessTokenJwt(config, t)
  }

  ghost predicate TokensOk(config: Config, identities: map<string, Identity>, tokens: map<string, IssuedToken>, mints: map<string, Mint>) {
    tokens.Keys == mints.Keys && forall id :: id in tokens ==> TokenOk(config, identities, id, tokens[id], mints[id])
  }

  /** What was signed under the id of a token record is the access token of that record. */
  ghost predicate SignedOk(signed: set<Jwt>, mints: map<string, Mint>) {
    && (forall jwt :: jwt in signed ==> jwt.Jwt? && ("token_" <= jwt.claims.jti ==> jwt.claims.jti in mints && mints[jwt.claims.jti].jwt == jwt))
    && (forall id :: id in mints ==> mints[id].jwt in signed)
  }

  /** A token is revoked exactly if it has an event; it has one, and that has one delivery for everyone it is for. */
  ghost predicate BookOk(tokens: map<string, IssuedToken>, book: Book) {
    && EventsOk(tokens, book) && E.Valid(book.deliveries) && SentOk(book) && DeliveriesOk(book)
    && Distinct(book.subscribers)
  }

  ghost predicate EventsOk(tokens: map<string, IssuedToken>, book: Book) {
    && (forall e :: e in book.events ==>
          var t := book.events[e].tokenId;
          book.events[e].id == e && t in book.eventByToken && book.eventByToken[t] == e)
    && (forall t :: t in book.eventByToken ==>
          var e := book.eventByToken[t];
          && e in book.events && book.events[e].tokenId == t && t in tokens && tokens[t].revokedAt.Some?
          && book.events[e].subject == tokens[t].subject)
    && (forall t :: t in tokens && tokens[t].revokedAt.Some? ==> t in book.eventByToken)
    && book.audience.Keys == book.events.Keys
  }

  ghost predicate SentOk(book: Book) {
    forall e, sub {:trigger (e, sub) in book.sent} ::
      ((e, sub) in book.sent <==> e in book.audience && sub in book.audience[e]) &&
      ((e, sub) in book.sent ==> SentAs(book, e, sub, book.sent[(e, sub)]))
  }

  ghost predicate SentAs(book: Book, e: string, sub: string, id: string) {
    id in book.deliveries.deliveries && book.deliveries.deliveries[id].eventId == e && book.deliveries.deliveries[id].subscriberId == sub
  }

  /** Every delivery is the one recorded for its event and subscriber. */
  ghost predicate DeliveriesOk(book: Book) {
    forall id :: id in book.deliveries.deliveries ==> Recorded(book.sent, book.deliveries.deliveries[id])
  }

  ghost predicate Recorded(sent: map<(string, string), string>, d: E.EventDelivery) {
    (d.eventId, d.subscriberId) in sent && sent[(d.eventId, d.subscriberId)] == d.id && "delivery_" <= d.id
  }

  ghost predicate Inv(config: Config, s: State) {
    && IdentitiesOk(config, s.identities) && ClaimsOk(s.identities, s.ceremony.claims)
    && TokensOk(config, s.identities, s.tokens, s.mints) && SignedOk(s.signed, s.mints) && BookOk(s.tokens, s.book)
  }

  // --- how the state moves ---

  ghost predicate IdentitiesGrow(a: map<string, Identity>, b: map<string, Identity>) {
    forall id :: id in a ==> id in b && b[id] == a[id]
  }

  /** An entry is only ever replaced by a later expiry. */
  ghost predicate ReplaysGrow(a: map<string, int>, b: map<string, int>) {
    forall k :: k in a ==> k in b && a[k] <= b[k]
  }

  /** Records stay; only a revocation is added to one. */
  ghost predicate TokensGrow(a: map<string, IssuedToken>, b: map<string, IssuedToken>) {
    forall id :: id in a ==> id in b && b[id] == a[id].(revokedAt := b[id].revokedAt) &&
                             (a[id].revokedAt.Some? ==> b[id] == a[id])
  }

  ghost predicate MintsGrow(a: map<string, Mint>, b: map<string, Mint>) {
    forall id :: id in a ==> id in b && b[id] == a[id]
  }

  ghost predicate Moves(s: State, s': State) {
    && IdentitiesGrow(s.identities, s'.identities) && ReplaysGrow(s.replays, s'.replays) && TokensGrow(s.tokens, s'.tokens)
    && MintsGrow(s.mints, s'.mints) && s.signed <= s'.signed
  }

  // --- registration ---

  lemma ResourceFacts(config: Config, resource: Option<string>)
    requires ConfigOk(config)
    ensures OptionalResource(config, resource).Ok? && OptionalResource(config, resource).value.Some? ==>
              OptionalResource(config, resource).value.value in config.protectedResources
  {
  }

  lemma RememberGrows(config: Config, s: State, jwt: Jwt, audience: string, now: int)
    requires AssertionAccepted(config, s, jwt, audience, now)
    ensures ReplaysGrow(s.replays, Remember(s, jwt).replays)
  {
    assert jwt.claims.exp * 1000 > now;
  }

  lemma VouchedFacts(config: Config, explicitScopes: seq<string>, requested: Option<string>, vouchedScopes: seq<string>,
                     vouchedResource: Option<string>)
    requires ConfigOk(config) && (requested.Some? ==> requested.value in config.protectedResources)
    ensures
      var r := Vouched(config, explicitScopes, requested, vouchedScopes, vouchedResource);
      r.Ok? ==> Within(r.value.0, config.supportedScopes) && r.value.1 in config.protectedResources
  {
    hide Configured;
    ResourceFacts(config, vouchedResource);
    var registered := if |explicitScopes| > 0 then explicitScopes else vouchedScopes;
  }

  /** What a registration may change, and what it adds. */
  ghost predicate Registers(config: Config, s: State, s': State, reply: Result<Identity, OAuthError>, id: string) {
    && s' == s.(identities := s'.identities, replays := s'.replays, ceremony := s.ceremony.(buckets := s'.ceremony.buckets))
    && ReplaysGrow(s.replays, s'.replays)
    && (reply.Err? ==> s'.identities == s.identities)
    && (reply.Ok? ==> s'.identities == s.identities[id := reply.value] && reply.value.id == id && IdentityOk(config, reply.value))
  }

  lemma RegisterServiceFacts(config: Config, s: State, r: Registration, authenticated: Option<Authenticated>,
                             explicitScopes: seq<string>, requested: Option<string>, id: string, now: int)
    requires ConfigOk(config) && (requested.Some? ==> requested.value in config.protectedResources)
    ensures
      var (s', reply) := RegisterService(config, s, r, authenticated, explicitScopes, requested, id, now);
      Registers(config, s, s', reply, id)
  {
    hide Configured, Within, Vouched;
    if authenticated.Some? {
      var a := authenticated.value;
      VouchedFacts(config, explicitScopes, requested, if a.scopes.Some? then a.scopes.value else config.supportedScopes, a.resource);
    }
  }

  lemma RegisterAssertionFacts(config: Config, s: State, r: Registration, explicitScopes: seq<string>,
                               requested: Option<string>, id: string, now: int)
    requires ConfigOk(config) && (requested.Some? ==> requested.value in config.protectedResources)
    ensures
      var (s', reply) := RegisterAssertion(config, s, r, explicitScopes, requested, id, now);
      Registers(config, s, s', reply, id)
  {
    hide Configured, Within, Vouched, AssertionAccepted, RequestedScopes;
    if r.assertion.Some? && AssertionAccepted(config, s, r.assertion.value, IdentityEndpoint(config), now) {
      RememberGrows(config, s, r.assertion.value, IdentityEndpoint(config), now);
      AcceptedIsReadable(config, s, r.assertion.value, IdentityEndpoint(config), now);
      var c := r.assertion.value.claims;
      VouchedFacts(config, explicitScopes, requested, RequestedScopes(OptionalText(c.scope), config.supportedScopes), c.resource);
    }
  }

  lemma RegisterAnonymousFacts(config: Config, s: State, r: Registration, explicitScopes: seq<string>, resource: string,
                               id: string, now: int)
    requires resource in config.protectedResources && (|explicitScopes| > 0 ==> Within(explicitScopes, config.supportedScopes))
    ensures
      var (s', reply) := RegisterAnonymous(config, s, r, explicitScopes, resource, id, now);
      Registers(config, s, s', reply, id)
  {
    hide Within, L.Take;
    WithinSelf(config.supportedScopes);
  }

  /** Registering adds an identity within the supported scopes at a protected resource, or none. */
  lemma RegisterFacts(config: Config, s: State, r: Registration, authenticated: Option<Authenticated>, id: string, now: int)
    requires ConfigOk(config)
    ensures
      var (s', reply) := Register(config, s, r, authenticated, id, now);
      Registers(config, s, s', reply, id)
  {
    hide Configured, Within, RegisterAnonymous, RegisterService, RegisterAssertion, OptionalResource, SplitScope;
    var explicitScopes := SplitScope(r.scope);
    ResourceFacts(config, r.resource);
    var target := OptionalResource(config, r.resource);
    if target.Ok? && (|explicitScopes| > 0 ==> Within(explicitScopes, config.supportedScopes)) {
      RegisterAnonymousFacts(config, s, r, explicitScopes, Or(target.value, config.defaultResource), id, now);
      RegisterServiceFacts(config, s, r, authenticated, explicitScopes, target.value, id, now);
      RegisterAssertionFacts(config, s, r, explicitScopes, target.value, id, now);
    }
  }

  lemma AcceptedIsReadable(config: Config, s: State, jwt: Jwt, audience: string, now: int)
    requires AssertionAccepted(config, s, jwt, audience, now)
    ensures jwt.Jwt?
  {
  }

  // --- claims ---

  lemma StartFacts(config: Config, s: State, r: ClaimRequest, names: Names, now: int)
    requires ConfigOk(config) && IdentitiesOk(config, s.identities)
    ensures
      var (s', reply) := StartClaim(config, s, r, names, now);
      && s' == s.(ceremony := s'.ceremony)
      && (reply.Err? ==> s'.ceremony.claims == s.ceremony.claims)
      && (reply.Ok? ==>
            && s'.ceremony.claims == s.ceremony.claims[names.id := reply.value] && reply.value.id == names.id
            && reply.value.userCodeHash == names.userCodeHash && reply.value.deviceCodeHash == names.deviceCodeHash
            && ClaimOk(s.identities, reply.value))
  {
    hide L.Take, Within, RequestedScopes;
  }

  lemma PerformKeepsClaims(options: Options, identities: map<string, Identity>, claims: Claims, op: Op, id: string, checkedAt: int, now: int)
    requires ClaimsOk(identities, claims)
    ensures ClaimsOk(identities, C.Perform(options, claims, op, id, checkedAt, now).0)
  {
    hide C.Perform, C.WellKeyed, Within;
    C.PerformKeepsIndexes(options, claims, op, id, checkedAt, now);
  }

  // --- exchanges ---

  lemma ConsumeAnswersStored(options: Options, claims: Claims, id: string, now: int)
    requires C.WellKeyed(claims)
    ensures
      var (claims', reply) := C.Perform(options, claims, Consume, id, now, now);
      reply.Ok? ==> id in claims' && claims'[id] == reply.value && reply.value.id == id
  {
  }

  lemma AuthorizeFacts(config: Config, s: State, grant: Grant, now: int)
    requires ConfigOk(config) && IdentitiesOk(config, s.identities) && ClaimsOk(s.identities, s.ceremony.claims)
    ensures
      var (s', reply) := Authorize(config, s, grant, now);
      && s' == s.(replays := s'.replays, ceremony := s.ceremony.(claims := s'.ceremony.claims))
      && ReplaysGrow(s.replays, s'.replays) && ClaimsOk(s.identities, s'.ceremony.claims)
      && (reply.Ok? ==>
            var a := reply.value;
            && a.identity.id in s.identities && a.identity == s.identities[a.identity.id]
            && Within(a.allowedScopes, a.identity.scopes) && (a.resource.Some? ==> a.resource == a.identity.resource))
  {
    hide ClaimsOk, ReplaysGrow;
    match grant
    case ClaimGrant(jwt) => if jwt.Some? { AuthorizeClaimFacts(config, s, jwt.value, now); } else { NoReplay(s.replays); }
    case Bearer(jwt, clientId) =>
      if jwt.Some? && Given(clientId) {
        AuthorizeAssertionFacts(config, s, jwt.value, clientId.value, now);
      } else { NoReplay(s.replays); }
    case OtherGrant => NoReplay(s.replays);
  }

  lemma NoReplay(replays: map<string, int>)
    ensures ReplaysGrow(replays, replays)
  {
  }

  lemma AuthorizeClaimFacts(config: Config, s: State, jwt: Jwt, now: int)
    requires ConfigOk(config) && IdentitiesOk(config, s.identities) && ClaimsOk(s.identities, s.ceremony.claims)
    ensures
      var (s', reply) := AuthorizeClaim(config, s, jwt, now);
      && s' == s.(ceremony := s.ceremony.(claims := s'.ceremony.claims)) && ReplaysGrow(s.replays, s'.replays)
      && ClaimsOk(s.identities, s'.ceremony.claims)
      && (reply.Ok? ==>
            var a := reply.value;
            && a.identity.id in s.identities && a.identity == s.identities[a.identity.id]
            && Within(a.allowedScopes, a.identity.scopes) && a.resource == a.identity.resource)
  {
    hide Verifies, C.Perform, Within, C.WellKeyed;
    if Verifies(jwt, config.ownKeys, config.issuer, TokenEndpoint(config), now) {
      VerifiesIsReadable(jwt, config.ownKeys, config.issuer, TokenEndpoint(config), now);
      if jwt.claims.claimId.Some? {
        var id := jwt.claims.claimId.value;
        PerformKeepsClaims(config.ceremony.claim, s.identities, s.ceremony.claims, Consume, id, now, now);
        ConsumeAnswersStored(config.ceremony.claim, s.ceremony.claims, id, now);
      }
    }
  }

  lemma VerifiesIsReadable(jwt: Jwt, keys: set<string>, issuer: string, audience: string, now: int)
    requires Verifies(jwt, keys, issuer, audience, now)
    ensures jwt.Jwt?
  {
  }

  lemma AuthorizeAssertionFacts(config: Config, s: State, jwt: Jwt, clientId: string, now: int)
    requires ConfigOk(config) && IdentitiesOk(config, s.identities)
    ensures
      var (s', reply) := AuthorizeAssertion(config, s, jwt, clientId, now);
      && s' == s.(replays := s'.replays) && ReplaysGrow(s.replays, s'.replays)
      && (reply.Ok? ==>
            var a := reply.value;
            && a.identity.id in s.identities && a.identity == s.identities[a.identity.id]
            && Within(a.allowedScopes, a.identity.scopes) && (a.resource.Some? ==> a.resource == a.identity.resource))
  {
    hide AssertionAccepted, Within, RequestedScopes;
    if AssertionAccepted(config, s, jwt, TokenEndpoint(config), now) {
      RememberGrows(config, s, jwt, TokenEndpoint(config), now);
      AcceptedIsReadable(config, s, jwt, TokenEndpoint(config), now);
    }
  }

  lemma NarrowFacts(config: Config, a: Authorization, scope: Option<string>, resource: Option<string>)
    requires ConfigOk(config) && IdentityOk(config, a.identity)
    requires a.resource.Some? ==> a.resource == a.identity.resource
    ensures
      var r := Narrow(config, a, scope, resource);
      r.Ok? ==>
        && Within(r.value.0, a.allowedScopes) && a.identity.resource == Some(r.value.1)
        && (a.resource.Some? ==> a.resource == Some(r.value.1))
  {
    hide Within, RequestedScopes;
  }

  /** An exchange that answers a token adds the record it stands for, narrowed twice; one that fails adds nothing. */
  lemma ExchangeFacts(config: Config, s: State, grant: Grant, scope: Option<string>, resource: Option<string>, id: string, now: int)
    requires ConfigOk(config) && IdentitiesOk(config, s.identities) && ClaimsOk(s.identities, s.ceremony.claims) && "token_" <= id
    ensures
      var (s', reply) := Exchange(config, s, grant, scope, resource, id, now);
      && s' == s.(replays := s'.replays, ceremony := s.ceremony.(claims := s'.ceremony.claims), tokens := s'.tokens,
                  signed := s'.signed, mints := s'.mints)
      && ReplaysGrow(s.replays, s'.replays) && ClaimsOk(s.identities, s'.ceremony.claims)
      && (reply.Err? ==> s'.tokens == s.tokens && s'.signed == s.signed && s'.mints == s.mints)
      && (reply.Ok? ==>
            && id in s'.tokens && id in s'.mints && s'.tokens == s.tokens[id := s'.tokens[id]]
            && s'.mints == s.mints[id := s'.mints[id]] && s'.signed == s.signed + {reply.value}
            && reply.value == s'.mints[id].jwt && s'.tokens[id].revokedAt.None? && reply.value.Jwt? && reply.value.claims.jti == id
            && TokenOk(config, s.identities, id, s'.tokens[id], s'.mints[id]))
  {
    hide Authorize, ClaimsOk, ReplaysGrow, Narrow, Within;
    AuthorizeFacts(config, s, grant, now);
    var (s1, authorized) := Authorize(config, s, grant, now);
    if authorized.Ok? {
      NarrowFacts(config, authorized.value, scope, resource);
      var narrowed := Narrow(config, authorized.value, scope, resource);
      if narrowed.Ok? {
        TokenIsOk(config, s.identities, authorized.value, narrowed.value.0, narrowed.value.1, id, now);
      }
    }
  }

  lemma TokenIsOk(config: Config, identities: map<string, Identity>, a: Authorization, scopes: seq<string>, resource: string, id: string, now: int)
    requires IdentitiesOk(config, identities) && a.identity.id in identities && a.identity == identities[a.identity.id]
    requires Within(a.allowedScopes, a.identity.scopes) && Within(scopes, a.allowedScopes)
    requires a.identity.resource == Some(resource) && (a.resource.Some? ==> a.resource == Some(resource)) && "token_" <= id
    ensures
      var t := NewToken(config, a.identity, scopes, resource, id, now);
      TokenOk(config, identities, id, t, Mint(AccessTokenJwt(config, t), a.allowedScopes, a.resource, a.claimId))
  {
    hide Within;
  }

  // --- revocation ---

  lemma AddNone(st: E.Store, eventId: string, at: int)
    ensures AddDeliveries(st, eventId, [], [], at) == st
  {
  }

  lemma AddOneMore(st: E.Store, eventId: string, subscribers: seq<string>, ids: seq<string>, at: int, n: nat)
    requires 0 < n <= |ids| == |subscribers|
    ensures
      var rest := AddDeliveries(st, eventId, subscribers[..n - 1], ids[..n - 1], at);
      AddDeliveries(st, eventId, subscribers[..n], ids[..n], at)
      == E.Store(rest.order + [ids[n - 1]],
                 rest.deliveries[ids[n - 1] := E.EventDelivery(ids[n - 1], eventId, subscribers[n - 1], E.Pending, 0, at, None, None)])
  {
    assert subscribers[..n][..n - 1] == subscribers[..n - 1] && ids[..n][..n - 1] == ids[..n - 1];
  }

  lemma {:induction false} AddedDeliveries(st: E.Store, eventId: string, subscribers: seq<string>, ids: seq<string>, at: int, n: nat)
    requires |subscribers| == |ids| && n <= |ids| && Distinct(ids) && E.Valid(st)
    requires forall i :: 0 <= i < |ids| ==> ids[i] !in st.deliveries
    ensures
      var st' := AddDeliveries(st, eventId, subscribers[..n], ids[..n], at);
      && E.Valid(st')
      && (forall id :: id in st.deliveries ==> id in st'.deliveries && st'.deliveries[id] == st.deliveries[id])
      && (forall i :: 0 <= i < n ==> ids[i] in st'.deliveries && st'.deliveries[ids[i]].eventId == eventId &&
                                     st'.deliveries[ids[i]].subscriberId == subscribers[i] && st'.deliveries[ids[i]].id == ids[i])
      && (forall id :: id in st'.deliveries ==> id in st.deliveries || id in ids[..n])
  {
    hide E.Valid, AddDeliveries;
    AddNone(st, eventId, at);
    assert subscribers[..0] == [] && ids[..0] == [];
    if n > 0 {
      AddedDeliveries(st, eventId, subscribers, ids, at, n - 1);
      AddOneMore(st, eventId, subscribers, ids, at, n);
      var rest := AddDeliveries(st, eventId, subscribers[..n - 1], ids[..n - 1], at);
      assert ids[n - 1] !in rest.deliveries;
      assert ids[..n] == ids[..n - 1] + [ids[n - 1]];
      AppendValid(rest, E.EventDelivery(ids[n - 1], eventId, subscribers[n - 1], E.Pending, 0, at, None, None));
    }
  }

  lemma AppendValid(st: E.Store, d: E.EventDelivery)
    requires E.Valid(st) && d.id !in st.deliveries && d.status.Pending? && d.attempts == 0
    ensures E.Valid(E.Store(st.order + [d.id], st.deliveries[d.id := d]))
  {
    var st' := E.Store(st.order + [d.id], st.deliveries[d.id := d]);
    forall id | id in st'.deliveries ensures id in st'.order && E.RecordOk(st'.deliveries[id], id) {
      assert id in st.deliveries ==> id in st.order;
    }
  }

  lemma SendOneMore(sent: map<(string, string), string>, eventId: string, subscribers: seq<string>, ids: seq<string>, n: nat)
    requires 0 < n <= |ids| == |subscribers|
    ensures AddSent(sent, eventId, subscribers[..n], ids[..n])
         == AddSent(sent, eventId, subscribers[..n - 1], ids[..n - 1])[(eventId, subscribers[n - 1]) := ids[n - 1]]
  {
    assert subscribers[..n][..n - 1] == subscribers[..n - 1] && ids[..n][..n - 1] == ids[..n - 1];
  }

  ghost predicate SentKept(sent: map<(string, string), string>, sent': map<(string, string), string>) {
    forall k :: k in sent ==> k in sent' && sent'[k] == sent[k]
  }

  /** Nothing is added but for this event and these subscribers. */
  ghost predicate SentFor(sent: map<(string, string), string>, sent': map<(string, string), string>, eventId: string,
                          subscribers: seq<string>)
  {
    forall k :: k in sent' <==> k in sent || (k.0 == eventId && k.1 in subscribers)
  }

  ghost predicate SentEach(sent': map<(string, string), string>, eventId: string, subscribers: seq<string>, ids: seq<string>)
    requires |subscribers| == |ids|
  {
    forall i :: 0 <= i < |ids| ==> (eventId, subscribers[i]) in sent' && sent'[(eventId, subscribers[i])] == ids[i]
  }

  lemma InsertKeepsSent(sent: map<(string, string), string>, rest: map<(string, string), string>, k: (string, string), id: string)
    requires SentKept(sent, rest) && k !in sent
    ensures SentKept(sent, rest[k := id])
  {
  }

  lemma InsertSentFor(sent: map<(string, string), string>, rest: map<(string, string), string>, eventId: string,
                      subscribers: seq<string>, sub: string, id: string)
    requires SentFor(sent, rest, eventId, subscribers)
    ensures SentFor(sent, rest[(eventId, sub) := id], eventId, subscribers + [sub])
  {
    var sent' := rest[(eventId, sub) := id];
    forall k: (string, string)
      ensures k in sent' <==> k in sent || (k.0 == eventId && k.1 in subscribers + [sub])
    {
      assert k == (k.0, k.1);
      assert k.1 in subscribers + [sub] <==> k.1 in subscribers || k.1 == sub;
    }
  }

  lemma InsertSentEach(rest: map<(string, string), string>, eventId: string, subscribers: seq<string>, ids: seq<string>,
                       sub: string, id: string)
    requires |subscribers| == |ids| && SentEach(rest, eventId, subscribers, ids) && sub !in subscribers
    ensures SentEach(rest[(eventId, sub) := id], eventId, subscribers + [sub], ids + [id])
  {
    var sent' := rest[(eventId, sub) := id];
    forall i | 0 <= i < |ids| + 1
      ensures (eventId, (subscribers + [sub])[i]) in sent' && sent'[(eventId, (subscribers + [sub])[i])] == (ids + [id])[i]
    {
      if i < |ids| {
        assert subscribers[i] in subscribers;
      }
    }
  }

  lemma {:induction false} AddedSent(sent: map<(string, string), string>, eventId: string, subscribers: seq<string>, ids: seq<string>, n: nat)
    requires |subscribers| == |ids| && n <= |ids| && Distinct(subscribers)
    requires forall k :: k in sent ==> k.0 != eventId
    ensures
      var sent' := AddSent(sent, eventId, subscribers[..n], ids[..n]);
      && SentKept(sent, sent') && SentFor(sent, sent', eventId, subscribers[..n])
      && SentEach(sent', eventId, subscribers[..n], ids[..n])
  {
    if n > 0 {
      hide AddSent, SentKept, SentFor, SentEach;
      AddedSent(sent, eventId, subscribers, ids, n - 1);
      SendOneMore(sent, eventId, subscribers, ids, n);
      var rest := AddSent(sent, eventId, subscribers[..n - 1], ids[..n - 1]);
      var sub, id := subscribers[n - 1], ids[n - 1];
      assert subscribers[..n] == subscribers[..n - 1] + [sub] && ids[..n] == ids[..n - 1] + [id];
      assert sub !in subscribers[..n - 1];
      InsertKeepsSent(sent, rest, (eventId, sub), id);
      InsertSentFor(sent, rest, eventId, subscribers[..n - 1], sub, id);
      InsertSentEach(rest, eventId, subscribers[..n - 1], ids[..n - 1], sub, id);
    }
  }

  lemma AnnounceKeepsBook(tokens: map<string, IssuedToken>, book: Book, token: IssuedToken, eventId: string, ids: seq<string>, now: int)
    requires BookOk(tokens, book) && token.id in tokens && tokens[token.id].revokedAt.None? && token.revokedAt.Some?
    requires tokens[token.id].subject == token.subject
    requires eventId !in book.events && |ids| == |book.subscribers| && Distinct(ids)
    requires forall i :: 0 <= i < |ids| ==> ids[i] !in book.deliveries.deliveries && "delivery_" <= ids[i]
    ensures BookOk(tokens[token.id := token], Announce(book, token, eventId, ids, now))
  {
    hide E.Valid, SentAs, AddDeliveries, AddSent, Distinct;
    assert token.id !in book.eventByToken;
    var book' := Announce(book, token, eventId, ids, now);
    SubscribersAndIds(book, ids, eventId, now);
    assert EventsOk(tokens[token.id := token], book');
    AnnounceKeepsSent(book, token, eventId, ids, now);
    AnnounceKeepsDeliveries(book, token, eventId, ids, now);
  }

  lemma SubscribersAndIds(book: Book, ids: seq<string>, eventId: string, now: int)
    requires E.Valid(book.deliveries) && |ids| == |book.subscribers| && Distinct(ids)
    requires forall i :: 0 <= i < |ids| ==> ids[i] !in book.deliveries.deliveries
    ensures E.Valid(AddDeliveries(book.deliveries, eventId, book.subscribers, ids, now))
  {
    AddedDeliveries(book.deliveries, eventId, book.subscribers, ids, now, |ids|);
    assert book.subscribers[..|ids|] == book.subscribers && ids[..|ids|] == ids;
  }

  lemma AnnounceKeepsSent(book: Book, token: IssuedToken, eventId: string, ids: seq<string>, now: int)
    requires E.Valid(book.deliveries) && SentOk(book) && Distinct(book.subscribers) && book.audience.Keys == book.events.Keys
    requires token.id !in book.eventByToken && eventId !in book.events
    requires |ids| == |book.subscribers| && Distinct(ids) && forall i :: 0 <= i < |ids| ==> ids[i] !in book.deliveries.deliveries
    ensures SentOk(Announce(book, token, eventId, ids, now))
  {
    hide E.Valid, AddDeliveries, AddSent, Distinct;
    var book' := Announce(book, token, eventId, ids, now);
    var subs := book.subscribers;
    assert subs[..|ids|] == subs && ids[..|ids|] == ids;
    forall k | k in book.sent ensures k.0 != eventId { assert k == (k.0, k.1); }
    AddedSent(book.sent, eventId, subs, ids, |ids|);
    AddedDeliveries(book.deliveries, eventId, subs, ids, now, |ids|);
    hide SentFor, SentKept, SentEach, SentAs;
    forall e, sub
      ensures (e, sub) in book'.sent <==> e in book'.audience && sub in book'.audience[e]
      ensures (e, sub) in book'.sent ==> SentAs(book', e, sub, book'.sent[(e, sub)])
    {
      SentForIs(book.sent, book'.sent, eventId, subs, e, sub);
      assert (e, sub) in book.sent <==> e in book.audience && sub in book.audience[e];
      if e == eventId && sub in subs {
        SentToNew(book', eventId, subs, ids, sub);
      } else if (e, sub) in book.sent {
        SentToOld(book, book', e, sub);
      }
    }
  }

  lemma SentForIs(sent: map<(string, string), string>, sent': map<(string, string), string>, eventId: string,
                  subscribers: seq<string>, e: string, sub: string)
    requires SentFor(sent, sent', eventId, subscribers)
    ensures (e, sub) in sent' <==> (e, sub) in sent || (e == eventId && sub in subscribers)
  {
  }

  lemma SentToNew(book: Book, eventId: string, subscribers: seq<string>, ids: seq<string>, sub: string)
    requires |subscribers| == |ids| && SentEach(book.sent, eventId, subscribers, ids) && sub in subscribers
    requires forall i :: 0 <= i < |ids| ==> SentAs(book, eventId, subscribers[i], ids[i])
    ensures (eventId, sub) in book.sent && SentAs(book, eventId, sub, book.sent[(eventId, sub)])
  {
    var i :| 0 <= i < |subscribers| && subscribers[i] == sub;
    assert book.sent[(eventId, sub)] == ids[i];
  }

  lemma SentToOld(book: Book, book': Book, e: string, sub: string)
    requires SentOk(book) && SentKept(book.sent, book'.sent) && (e, sub) in book.sent
    requires forall id :: id in book.deliveries.deliveries ==>
               id in book'.deliveries.deliveries && book'.deliveries.deliveries[id] == book.deliveries.deliveries[id]
    ensures (e, sub) in book'.sent && SentAs(book', e, sub, book'.sent[(e, sub)])
  {
    assert SentAs(book, e, sub, book.sent[(e, sub)]);
  }

  lemma AnnounceKeepsDeliveries(book: Book, token: IssuedToken, eventId: string, ids: seq<string>, now: int)
    requires E.Valid(book.deliveries) && DeliveriesOk(book) && SentOk(book) && Distinct(book.subscribers)
    requires token.id !in book.eventByToken && eventId !in book.events && book.audience.Keys == book.events.Keys
    requires |ids| == |book.subscribers| && Distinct(ids) && forall i :: 0 <= i < |ids| ==> ids[i] !in book.deliveries.deliveries
    requires forall i :: 0 <= i < |ids| ==> "delivery_" <= ids[i]
    ensures DeliveriesOk(Announce(book, token, eventId, ids, now))
  {
    hide E.Valid, AddDeliveries, AddSent, Distinct, SentAs;
    var book' := Announce(book, token, eventId, ids, now);
    var subs := book.subscribers;
    assert subs[..|ids|] == subs && ids[..|ids|] == ids;
    forall k | k in book.sent ensures k.0 != eventId { assert k == (k.0, k.1); }
    AddedSent(book.sent, eventId, subs, ids, |ids|);
    AddedDeliveries(book.deliveries, eventId, subs, ids, now, |ids|);
    forall id | id in book'.deliveries.deliveries ensures Recorded(book'.sent, book'.deliveries.deliveries[id]) {
      if id in book.deliveries.deliveries {
        assert Recorded(book.sent, book.deliveries.deliveries[id]);
      } else {
        var i :| 0 <= i < |ids| && ids[i] == id;
        assert book'.sent[(eventId, subs[i])] == ids[i];
      }
    }
  }

  /** Rounds of sending change neither the event nor the subscriber of a delivery. */
  lemma RoundKeepsBook(tokens: map<string, IssuedToken>, book: Book, env: E.Env, now: int, limit: nat)
    requires BookOk(tokens, book)
    ensures BookOk(tokens, book.(deliveries := E.Round(book.deliveries, env, now, limit)))
  {
    hide E.Valid, E.Round, SentAs, Recorded;
    E.RoundIsGood(book.deliveries, env, now, limit);
    RoundAddresses(book.deliveries, env, now, limit);
    var book' := book.(deliveries := E.Round(book.deliveries, env, now, limit));
    RoundKeepsSent(book, book');
    RoundKeepsDeliveries(book, book');
  }

  ghost predicate SameAddresses(a: map<string, E.EventDelivery>, b: map<string, E.EventDelivery>) {
    a.Keys == b.Keys && forall id :: id in a ==>
      b[id].eventId == a[id].eventId && b[id].subscriberId == a[id].subscriberId && b[id].id == a[id].id
  }

  lemma RoundKeepsSent(book: Book, book': Book)
    requires SentOk(book) && book' == book.(deliveries := book'.deliveries)
    requires SameAddresses(book.deliveries.deliveries, book'.deliveries.deliveries)
    ensures SentOk(book')
  {
    forall e, sub
      ensures (e, sub) in book'.sent <==> e in book'.audience && sub in book'.audience[e]
      ensures (e, sub) in book'.sent ==> SentAs(book', e, sub, book'.sent[(e, sub)])
    {
      assert (e, sub) in book.sent <==> e in book.audience && sub in book.audience[e];
      assert (e, sub) in book.sent ==> SentAs(book, e, sub, book.sent[(e, sub)]);
    }
  }

  lemma RoundKeepsDeliveries(book: Book, book': Book)
    requires DeliveriesOk(book) && book' == book.(deliveries := book'.deliveries)
    requires SameAddresses(book.deliveries.deliveries, book'.deliveries.deliveries)
    ensures DeliveriesOk(book')
  {
    forall id | id in book'.deliveries.deliveries ensures Recorded(book'.sent, book'.deliveries.deliveries[id]) {
      assert Recorded(book.sent, book.deliveries.deliveries[id]);
    }
  }

  lemma {:induction false} RoundAddresses(st: E.Store, env: E.Env, now: int, limit: nat)
    requires E.Valid(st)
    ensures SameAddresses(st.deliveries, E.Round(st, env, now, limit).deliveries)
  {
    E.ListDueIs(st, now, limit);
    var due := E.ListDue(st, now, limit);
    ListedAddresses(st, due, |due|, env, now);
    assert due[..|due|] == due;
  }

  lemma AttemptedAddress(d: E.EventDelivery, env: E.Env, now: int)
    ensures
      var a := E.Attempted(d, env, now);
      a.id == d.id && a.eventId == d.eventId && a.subscriberId == d.subscriberId
  {
  }

  lemma {:induction false} ListedAddresses(st: E.Store, due: seq<E.EventDelivery>, n: nat, env: E.Env, now: int)
    requires E.Valid(st) && n <= |due| && E.Listed(due, st, now)
    ensures SameAddresses(st.deliveries, E.DeliverListed(st.deliveries, due[..n], env, now))
  {
    hide E.Attempted;
    if n > 0 {
      AttemptedAddress(due[n - 1], env, now);
      ListedAddresses(st, due, n - 1, env, now);
      assert due[..n][..n - 1] == due[..n - 1];
      assert due[n - 1] in due;
    }
  }

  // --- the steps ---

  lemma GrowKeeps(config: Config, a: map<string, Identity>, b: map<string, Identity>, claims: Claims,
                  tokens: map<string, IssuedToken>, mints: map<string, Mint>)
    requires IdentitiesGrow(a, b) && ClaimsOk(a, claims) && TokensOk(config, a, tokens, mints)
    ensures ClaimsOk(b, claims) && TokensOk(config, b, tokens, mints)
  {
    hide Within, C.WellKeyed;
    forall id | id in tokens ensures TokenOk(config, b, id, tokens[id], mints[id]) {
      assert TokenOk(config, a, id, tokens[id], mints[id]);
    }
  }

  lemma RegisterStep(config: Config, s: State, a: Action)
    requires ConfigOk(config) && Inv(config, s) && Enabled(config, s, a) && a.RegisterIdentity?
    ensures Inv(config, Apply(config, s, a)) && Moves(s, Apply(config, s, a))
  {
    hide Register, ClaimsOk, TokensOk, SignedOk, BookOk, IdentityOk, ReplaysGrow;
    RegisterFacts(config, s, a.r, a.authenticated, a.id, a.now);
    GrowKeeps(config, s.identities, Apply(config, s, a).identities, s.ceremony.claims, s.tokens, s.mints);
  }

  lemma BeginClaimStep(config: Config, s: State, a: Action)
    requires ConfigOk(config) && Inv(config, s) && Enabled(config, s, a) && a.BeginClaim?
    ensures Inv(config, Apply(config, s, a)) && Moves(s, Apply(config, s, a))
  {
    hide StartClaim, IdentitiesOk, TokensOk, SignedOk, BookOk;
    StartFacts(config, s, a.request, a.names, a.now);
    var reply := StartClaim(config, s, a.request, a.names, a.now).1;
  }

  /** Any operation of the ceremony, whichever claim it finds. */
  lemma CeremonyStep(config: Config, s: State, s': State, claims: Claims)
    requires Inv(config, s) && ClaimsOk(s.identities, claims)
    requires s' == s.(ceremony := s'.ceremony) && s'.ceremony.claims == claims
    ensures Inv(config, s') && Moves(s, s')
  {
    hide IdentitiesOk, ClaimsOk, TokensOk, SignedOk, BookOk;
  }

  lemma VerifyStep(config: Config, s: State, a: Action)
    requires Inv(config, s) && a.VerifyClaimCode?
    ensures Inv(config, Apply(config, s, a)) && Moves(s, Apply(config, s, a))
  {
    hide C.Perform, ClaimsOk, L.Take, Inv, Moves;
    InvClaims(config, s);
    match C.UserCodeOwner(s.ceremony.claims, a.hash) {
      case Some(id) => PerformKeepsClaims(config.ceremony.claim, s.identities, s.ceremony.claims, Verify, id, a.now, a.now);
      case None =>
    }
    CeremonyStep(config, s, Apply(config, s, a), Apply(config, s, a).ceremony.claims);
  }

  lemma InvClaims(config: Config, s: State)
    requires Inv(config, s)
    ensures ClaimsOk(s.identities, s.ceremony.claims)
  {
  }

  lemma DecideStep(config: Config, s: State, a: Action)
    requires Inv(config, s) && a.DecideClaim?
    ensures Inv(config, Apply(config, s, a)) && Moves(s, Apply(config, s, a))
  {
    hide C.Perform, ClaimsOk, Inv, Moves;
    InvClaims(config, s);
    PerformKeepsClaims(config.ceremony.claim, s.identities, s.ceremony.claims, Decide(a.approve), a.id, a.now, a.now);
    CeremonyStep(config, s, Apply(config, s, a), Apply(config, s, a).ceremony.claims);
  }

  /** A claim grant is signed under an id no token has. */
  lemma SignOther(signed: set<Jwt>, mints: map<string, Mint>, jwt: Jwt)
    requires SignedOk(signed, mints) && jwt.Jwt? && !("token_" <= jwt.claims.jti)
    ensures SignedOk(signed + {jwt}, mints)
  {
  }

  lemma PollStep(config: Config, s: State, a: Action)
    requires Inv(config, s) && a.Poll?
    ensures Inv(config, Apply(config, s, a)) && Moves(s, Apply(config, s, a))
  {
    hide C.Perform, ClaimsOk, Inv, Moves;
    InvClaims(config, s);
    var s' := Apply(config, s, a);
    match C.DeviceCodeOwner(s.ceremony.claims, a.hash) {
      case Some(id) =>
        PerformKeepsClaims(config.ceremony.claim, s.identities, s.ceremony.claims, ClaimRules.Poll, id, a.now, a.now);
        var (claims, reply) := C.Perform(config.ceremony.claim, s.ceremony.claims, ClaimRules.Poll, id, a.now, a.now);
        var s1 := s.(ceremony := s.ceremony.(claims := claims));
        CeremonyStep(config, s, s1, claims);
        if reply.Ok? && reply.value.status.Approved? {
          var jwt := ClaimGrantJwt(config, reply.value, a.now);
          assert jwt.claims.jti[0] == 'c';
          SignStep(config, s1, jwt);
          MovesAdd(s, s1, s');
        }
      case None => CeremonyStep(config, s, s, s.ceremony.claims);
    }
  }

  lemma SignStep(config: Config, s: State, jwt: Jwt)
    requires Inv(config, s) && jwt.Jwt? && !("token_" <= jwt.claims.jti)
    ensures Inv(config, s.(signed := s.signed + {jwt})) && Moves(s, s.(signed := s.signed + {jwt}))
  {
    hide IdentitiesOk, ClaimsOk, TokensOk, SignedOk, BookOk;
    SignOther(s.signed, s.mints, jwt);
  }

  lemma MovesAdd(a: State, b: State, c: State)
    requires Moves(a, b) && Moves(b, c)
    ensures Moves(a, c)
  {
    hide IdentitiesGrow, ReplaysGrow, TokensGrow, MintsGrow;
    IdentitiesGrowAdd(a.identities, b.identities, c.identities);
    ReplaysGrowAdd(a.replays, b.replays, c.replays);
    TokensGrowAdd(a.tokens, b.tokens, c.tokens);
    MintsGrowAdd(a.mints, b.mints, c.mints);
  }

  lemma IdentitiesGrowAdd(a: map<string, Identity>, b: map<string, Identity>, c: map<string, Identity>)
    requires IdentitiesGrow(a, b) && IdentitiesGrow(b, c)
    ensures IdentitiesGrow(a, c)
  {
  }

  lemma ReplaysGrowAdd(a: map<string, int>, b: map<string, int>, c: map<string, int>)
    requires ReplaysGrow(a, b) && ReplaysGrow(b, c)
    ensures ReplaysGrow(a, c)
  {
  }

  lemma TokensGrowAdd(a: map<string, IssuedToken>, b: map<string, IssuedToken>, c: map<string, IssuedToken>)
    requires TokensGrow(a, b) && TokensGrow(b, c)
    ensures TokensGrow(a, c)
  {
  }

  lemma MintsGrowAdd(a: map<string, Mint>, b: map<string, Mint>, c: map<string, Mint>)
    requires MintsGrow(a, b) && MintsGrow(b, c)
    ensures MintsGrow(a, c)
  {
  }

  lemma SignAssertionStep(config: Config, s: State, a: Action)
    requires Inv(config, s) && Enabled(config, s, a) && a.SignAssertion?
    ensures Inv(config, Apply(config, s, a)) && Moves(s, Apply(config, s, a))
  {
    hide Inv, Moves, Active;
    CeremonyStepNone(config, s);
    var (s', reply) := IssueAssertion(config, s, a.identityId, a.audience, a.id, a.now);
    if reply.Ok? {
      assert reply.value.claims.jti[0] == 'a';
      SignStep(config, s, reply.value);
    }
  }

  lemma CeremonyStepNone(config: Config, s: State)
    requires Inv(config, s)
    ensures Moves(s, s)
  {
  }

  lemma ExchangeStep(config: Config, s: State, a: Action)
    requires ConfigOk(config) && Inv(config, s) && Enabled(config, s, a) && a.ExchangeToken?
    ensures Inv(config, Apply(config, s, a)) && Moves(s, Apply(config, s, a))
  {
    hide Exchange, ClaimsOk, IdentitiesOk, ReplaysGrow, TokenOk, BookOk, SignedOk;
    ExchangeFacts(config, s, a.grant, a.scope, a.resource, a.id, a.now);
    var (s', reply) := Exchange(config, s, a.grant, a.scope, a.resource, a.id, a.now);
    if reply.Ok? {
      MintSigned(s.signed, s.mints, a.id, s'.mints[a.id]);
      MintKeepsBook(s.tokens, s.book, a.id, s'.tokens[a.id]);
    }
  }

  lemma MintSigned(signed: set<Jwt>, mints: map<string, Mint>, id: string, m: Mint)
    requires SignedOk(signed, mints) && id !in mints && "token_" <= id && m.jwt.Jwt? && m.jwt.claims.jti == id
    ensures SignedOk(signed + {m.jwt}, mints[id := m])
  {
  }

  lemma MintKeepsBook(tokens: map<string, IssuedToken>, book: Book, id: string, t: IssuedToken)
    requires BookOk(tokens, book) && id !in tokens && t.revokedAt.None?
    ensures BookOk(tokens[id := t], book)
  {
    hide E.Valid, SentOk, DeliveriesOk, Distinct;
  }

  /** The genuine token under the id of a record is for the record's subject and resource. */
  lemma GenuineMatches(config: Config, s: State, jwt: Jwt, now: int)
    requires ConfigOk(config) && Inv(config, s) && Genuine(config, s.signed, jwt)
    requires RevocationAudience(config, jwt, now).Some? && jwt.claims.jti in s.tokens
    ensures
      var t := s.tokens[jwt.claims.jti];
      jwt == s.mints[t.id].jwt && jwt.claims.sub == t.subject && RevocationAudience(config, jwt, now) == Some(t.resource)
  {
    hide Within, BookOk, ClaimsOk, IdentitiesOk;
    var jti := jwt.claims.jti;
    assert TokenOk(config, s.identities, jti, s.tokens[jti], s.mints[jti]);
  }

  lemma AudienceIsReadable(config: Config, jwt: Jwt, now: int)
    ensures RevocationAudience(config, jwt, now).Some? ==> jwt.Jwt?
  {
  }

  lemma RevokeStep(config: Config, s: State, a: Action)
    requires ConfigOk(config) && Inv(config, s) && Enabled(config, s, a) && a.RevokeToken?
    ensures Inv(config, Apply(config, s, a)) && Moves(s, Apply(config, s, a))
  {
    hide RevocationAudience, IdentitiesOk, ClaimsOk, SignedOk, BookOk, TokenOk, Announce, Genuine;
    AudienceIsReadable(config, a.jwt, a.now);
    if RevocationAudience(config, a.jwt, a.now).Some? && a.jwt.claims.jti in s.tokens &&
       s.tokens[a.jwt.claims.jti].revokedAt.None?
    {
      var jti := a.jwt.claims.jti;
      GenuineMatches(config, s, a.jwt, a.now);
      var token := s.tokens[jti].(revokedAt := Some(a.now));
      RevokedIsOk(config, s.identities, jti, s.tokens[jti], s.mints[jti], a.now);
      AnnounceKeepsBook(s.tokens, s.book, token, a.eventId, a.ids, a.now);
    }
  }

  lemma RevokedIsOk(config: Config, identities: map<string, Identity>, id: string, t: IssuedToken, m: Mint, now: int)
    requires TokenOk(config, identities, id, t, m)
    ensures TokenOk(config, identities, id, t.(revokedAt := Some(now)), m)
    ensures t.id == id
  {
    hide Within;
  }

  lemma BookStep(config: Config, s: State, a: Action)
    requires Inv(config, s) && Enabled(config, s, a) && a.Subscribe?
    ensures Inv(config, Apply(config, s, a)) && Moves(s, Apply(config, s, a))
  {
    hide IdentitiesOk, ClaimsOk, TokensOk, SignedOk, E.Valid;
    var book' := s.book.(subscribers := s.book.subscribers + [a.id]);
    assert SentOk(book');
  }

  lemma DeliverStep(config: Config, s: State, a: Action)
    requires Inv(config, s) && Enabled(config, s, a) && a.DeliverDue?
    ensures Inv(config, Apply(config, s, a)) && Moves(s, Apply(config, s, a))
  {
    hide IdentitiesOk, ClaimsOk, TokensOk, SignedOk, BookOk, E.Round, SentTokens;
    RoundKeepsBook(s.tokens, s.book, a.env, a.now, a.limit);
    SentAreEvents(config, s.tokens, s.book, a.env, a.url, a.now, a.limit);
    SignOthers(s.signed, s.mints, SentTokens(config, s.book, a.env, a.url, a.now, a.limit));
  }

  /** A security event token carries the id of its delivery, which no token record has. */
  lemma SentAreEvents(config: Config, tokens: map<string, IssuedToken>, book: Book, env: E.Env, url: string -> string,
                      now: int, limit: nat)
    requires BookOk(tokens, book)
    ensures forall jwt :: jwt in SentTokens(config, book, env, url, now, limit) ==> jwt.Jwt? && !("token_" <= jwt.claims.jti)
  {
    hide EventsOk, SentOk, E.ListDue;
    E.ListDueIs(book.deliveries, now, limit);
    forall d | d in E.ListDue(book.deliveries, now, limit) ensures !("token_" <= d.id) {
      assert Recorded(book.sent, book.deliveries.deliveries[d.id]);
      assert d.id[0] == 'd';
    }
  }

  lemma SignOthers(signed: set<Jwt>, mints: map<string, Mint>, others: set<Jwt>)
    requires SignedOk(signed, mints) && forall jwt :: jwt in others ==> jwt.Jwt? && !("token_" <= jwt.claims.jti)
    ensures SignedOk(signed + others, mints)
  {
  }

  lemma StepKeepsInv(config: Config, s: State, a: Action)
    requires ConfigOk(config) && Inv(config, s) && Enabled(config, s, a)
    ensures Inv(config, Apply(config, s, a)) && Moves(s, Apply(config, s, a))
  {
    hide Inv, Moves, Apply, Enabled;
    match a
    case RegisterIdentity(_, _, _, _) => RegisterStep(config, s, a);
    case BeginClaim(_, _, _) => BeginClaimStep(config, s, a);
    case VerifyClaimCode(_, _, _) => VerifyStep(config, s, a);
    case DecideClaim(_, _, _) => DecideStep(config, s, a);
    case Poll(_, _) => PollStep(config, s, a);
    case SignAssertion(_, _, _, _) => SignAssertionStep(config, s, a);
    case ExchangeToken(_, _, _, _, _) => ExchangeStep(config, s, a);
    case RevokeToken(_, _, _, _) => RevokeStep(config, s, a);
    case Subscribe(_) => BookStep(config, s, a);
    case DeliverDue(_, _, _, _) => DeliverStep(config, s, a);
  }

  lemma {:induction false} Reachable(config: Config, acts: seq<Action>)
    requires ConfigOk(config) && Legal(config, acts)
    ensures Inv(config, After(config, acts))
  {
    if acts != [] {
      Reachable(config, acts[..|acts| - 1]);
      StepKeepsInv(config, After(config, acts[..|acts| - 1]), acts[|acts| - 1]);
    }
  }

  /** What has happened by some point of a run stays as it is for the rest of it. */
  lemma {:induction false} Later(config: Config, acts: seq<Action>, n: nat)
    requires ConfigOk(config) && Legal(config, acts) && n <= |acts|
    ensures Legal(config, acts[..n]) && Moves(After(config, acts[..n]), After(config, acts))
  {
    if n == |acts| {
      assert acts[..n] == acts;
      Reachable(config, acts);
      CeremonyStepNone(config, After(config, acts));
    } else {
      var m := |acts| - 1;
      assert acts[..m][..n] == acts[..n];
      Later(config, acts[..m], n);
      Reachable(config, acts[..m]);
      StepKeepsInv(config, After(config, acts[..m]), acts[m]);
      MovesAdd(After(config, acts[..n]), After(config, acts[..m]), After(config, acts));
    }
  }
}
