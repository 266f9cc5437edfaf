/**
  Identities, tokens, revocation and events of the agent authorization service
  (packages/service/src/service.ts) as functions of its state, one clock reading per request.
 */
module ServiceModel {
  import opened Wrappers
  import opened ClaimRules
  import opened ClaimStateModel
  import opened Scopes
  import C = ClaimCeremonyModel
  import E = EventDeliveryModel
  import L = RateLimitModel

  // --- records ---

  datatype IdentityType = Anonymous | ServiceAuth | IdentityAssertion

  datatype Identity = Identity(
    id: string,
    kind: IdentityType,
    scopes: seq<string>,
    resource: Option<string>,
    clientId: Option<string>,
    subject: Option<string>,
    createdAt: int,
    expiresAt: Option<int>,
    revokedAt: Option<int>)

  datatype IssuedToken = IssuedToken(
    id: string,
    identityId: string,
    subject: string,
    scopes: seq<string>,
    resource: string,
    issuedAt: int,
    expiresAt: int,
    revokedAt: Option<int>)

  datatype RevocationEvent = RevocationEvent(id: string, tokenId: string, subject: string, occurredAt: int)

  /** The claims read anywhere; one audience is the list of that audience; `None` is a claim absent or not a string. */
  datatype JwtClaims = JwtClaims(
    iss: string,
    sub: string,
    aud: seq<string>,
    iat: int,
    exp: int,
    nbf: Option<int>,
    jti: string,
    scope: Option<string>,
    identityId: Option<string>,
    clientId: Option<string>,
    resource: Option<string>,
    purpose: Option<string>,
    claimId: Option<string>)

  /** A presented token: unreadable, or claims under the key that signed them. */
  datatype Jwt = Malformed | Jwt(key: string, claims: JwtClaims)

  /** `normalize` is the URL normalisation, which answers nothing for an unacceptable URL. */
  datatype Config = Config(
    issuer: string,
    supportedScopes: seq<string>,
    defaultResource: string,
    protectedResources: set<string>,
    normalize: string -> Option<string>,
    anonymousSeconds: int,
    maxRegistrations: int,
    registrationWindowSeconds: int,
    tokenSeconds: int,
    ceremony: C.CeremonyOptions,
    signingKey: string,
    ownKeys: set<string>,
    trustedIssuer: string,
    trustedKeys: set<string>,
    hasAuthenticator: bool)

  /** What a token was made from: the scopes and the resource of its claim or assertion. */
  datatype Mint = Mint(jwt: Jwt, grantScopes: seq<string>, grantResource: Option<string>, claimId: Option<string>)

  /** `audience` and `sent` are history: who had to be told of an event, and by which delivery. */
  datatype Book = Book(
    subscribers: seq<string>,
    events: map<string, RevocationEvent>,
    eventByToken: map<string, string>,
    deliveries: E.Store,
    audience: map<string, seq<string>>,
    sent: map<(string, string), string>)

  /** `signed` and `mints` are history: everything signed so far, and the access token of every record. */
  datatype State = State(
    identities: map<string, Identity>,
    ceremony: C.Ceremony,
    tokens: map<string, IssuedToken>,
    replays: map<string, int>,
    book: Book,
    signed: set<Jwt>,
    mints: map<string, Mint>)

  const Initial := State(map[], C.Ceremony(map[], map[]), map[], map[],
                         Book([], map[], map[], E.Store([], map[]), map[], map[]), {}, map[])

  // --- configuration ---

  function NormalizeAll(normalize: string -> Option<string>, resources: seq<string>): Option<set<string>> {
    if resources == [] then Some({})
    else
      var rest := NormalizeAll(normalize, resources[..|resources| - 1]);
      var last := normalize(resources[|resources| - 1]);
      if rest.None? || last.None? || last.value == "" then None else Some(rest.value + {last.value})
  }

  function WithoutTrailingSlash(s: string): string {
    if s != "" && s[|s| - 1] == '/' then WithoutTrailingSlash(s[..|s| - 1]) else s
  }

  /** `create`: refuses a plain-text issuer, an empty scope list and any resource that does not normalise. */
  function Create(options: Config, others: seq<string>): Option<Config> {
    var issuer := WithoutTrailingSlash(options.issuer);
    var d := options.normalize(options.defaultResource);
    var rest := NormalizeAll(options.normalize, others);
    if !("https://" <= issuer) && !("http://localhost" <= issuer) then None
    else if options.supportedScopes == [] || d.None? || d.value == "" || rest.None? then None
    else Some(options.(issuer := issuer, defaultResource := d.value, protectedResources := {d.value} + rest.value))
  }

  ghost predicate Idempotent(normalize: string -> Option<string>) {
    forall r :: normalize(r).Some? ==> normalize(normalize(r).value) == normalize(r)
  }

  ghost predicate ConfigOk(config: Config) {
    && config.defaultResource in config.protectedResources && config.signingKey in config.ownKeys && config.issuer != ""
    && forall r :: r in config.protectedResources ==> r != "" && config.normalize(r) == Some(r)
  }

  lemma {:induction false} NormalizeAllIs(normalize: string -> Option<string>, resources: seq<string>)
    requires Idempotent(normalize)
    ensures
      var all := NormalizeAll(normalize, resources);
      all.Some? ==> forall r :: r in all.value ==> r != "" && normalize(r) == Some(r)
  {
    if resources != [] {
      NormalizeAllIs(normalize, resources[..|resources| - 1]);
    }
  }

  /** Every protected resource of a created service is in normal form, so looking it up finds it again. */
  lemma CreatedIsOk(options: Config, others: seq<string>)
    requires Idempotent(options.normalize) && options.signingKey in options.ownKeys
    ensures Create(options, others).Some? ==> ConfigOk(Create(options, others).value)
  {
    NormalizeAllIs(options.normalize, others);
  }

  function Configured(config: Config, resource: string): Option<string> {
    var n := config.normalize(resource);
    if n.Some? && n.value != "" && n.value in config.protectedResources then n else None
  }

  // --- small helpers of the source ---

  /** `typeof value === "string" && value`. */
  function OptionalText(o: Option<string>): Option<string> {
    if o.Some? && o.value != "" then o else None
  }

  predicate Given(o: Option<string>) {
    o.Some? && o.value != ""
  }

  function Or(o: Option<string>, fallback: string): string {
    if o.Some? then o.value else fallback
  }

  function FloorSeconds(ms: int): int {
    ms / 1000
  }

  function TokenEndpoint(config: Config): string { config.issuer + "/oauth2/token" }

  function IdentityEndpoint(config: Config): string { config.issuer + "/agent/identity" }

  /** `configuredResource` of an optional value: nothing if absent, an error if given and not protected. */
  function OptionalResource(config: Config, resource: Option<string>): Result<Option<string>, OAuthError> {
    if !Given(resource) then Ok(None)
    else
      match Configured(config, resource.value)
      case None => Err(InvalidTarget)
      case Some(r) => Ok(Some(r))
  }

  // --- verifying a token ---

  predicate WellTyped(c: JwtClaims) {
    c.iss != "" && c.sub != "" && c.aud != [] && c.jti != ""
  }

  /** An absent `nbf` reads as the beginning of 1970, so nothing verifies on a clock before it. */
  predicate InTime(c: JwtClaims, now: int) {
    var seconds := FloorSeconds(now);
    c.exp > seconds && c.iat <= seconds + 60 && (if c.nbf.Some? then c.nbf.value else 0) <= seconds
  }

  /** `verifyJwt` without its replay check; every failure is `invalid_grant`. */
  predicate Verifies(jwt: Jwt, keys: set<string>, issuer: string, audience: string, now: int) {
    jwt.Jwt? && WellTyped(jwt.claims) && jwt.claims.iss == issuer && audience in jwt.claims.aud &&
    InTime(jwt.claims, now) && jwt.key in keys
  }

  function ReplayKey(c: JwtClaims): string {
    c.iss + ":" + c.jti
  }

  predicate Unreplayed(replays: map<string, int>, key: string, now: int) {
    key in replays ==> replays[key] <= now
  }

  /** `verifyJwt` of an assertion from the trusted issuer, remembered until it expires. */
  predicate AssertionAccepted(config: Config, s: State, jwt: Jwt, audience: string, now: int) {
    Verifies(jwt, config.trustedKeys, config.trustedIssuer, audience, now) &&
    Unreplayed(s.replays, ReplayKey(jwt.claims), now)
  }

  function Remember(s: State, jwt: Jwt): State
    requires jwt.Jwt?
  {
    s.(replays := s.replays[ReplayKey(jwt.claims) := jwt.claims.exp * 1000])
  }

  // --- registering an identity ---

  /** `kind` is absent for a type the service does not know. */
  datatype Registration = Registration(
    kind: Option<IdentityType>,
    scope: Option<string>,
    resource: Option<string>,
    clientId: Option<string>,
    serviceToken: Option<string>,
    assertion: Option<Jwt>,
    rateLimitKey: string)

  /** The answer of the service authenticator to the presented service token. */
  datatype Authenticated = Authenticated(
    subject: string,
    clientId: Option<string>,
    scopes: Option<seq<string>>,
    resource: Option<string>)

  /** Scopes and resource of an identity vouched for by an authenticator or an assertion. */
  function Vouched(config: Config, explicitScopes: seq<string>, requested: Option<string>, vouchedScopes: seq<string>,
                   vouchedResource: Option<string>): Result<(seq<string>, string), OAuthError>
  {
    var registered := if |explicitScopes| > 0 then explicitScopes else vouchedScopes;
    if !Within(vouchedScopes, config.supportedScopes) || !Within(registered, vouchedScopes) then Err(InvalidScope)
    else
      match OptionalResource(config, vouchedResource)
      case Err(e) => Err(e)
      case Ok(vouched) =>
        if vouched.Some? && requested.Some? && requested != vouched then Err(InvalidTarget)
        else Ok((registered, Or(vouched, Or(requested, config.defaultResource))))
  }

  function RegisterKey(key: string): string { "anonymous-registration:" + key }

  function RegisterAnonymous(config: Config, s: State, r: Registration, explicitScopes: seq<string>, resource: string,
                             id: string, now: int): (State, Result<Identity, OAuthError>)
  {
    var (buckets, allowed) := L.Take(L.Anchored, s.ceremony.buckets, RegisterKey(r.rateLimitKey), config.maxRegistrations,
                                     config.registrationWindowSeconds, now);
    var s' := s.(ceremony := s.ceremony.(buckets := buckets));
    if !allowed then (s', Err(TemporarilyUnavailable))
    else
      var identity := Identity(id, Anonymous, if |explicitScopes| > 0 then explicitScopes else config.supportedScopes,
                               Some(resource), r.clientId, None, now, Some(now + config.anonymousSeconds * 1000), None);
      (s'.(identities := s.identities[id := identity]), Ok(identity))
  }

  function RegisterService(config: Config, s: State, r: Registration, authenticated: Option<Authenticated>,
                           explicitScopes: seq<string>, requested: Option<string>, id: string, now: int)
    : (State, Result<Identity, OAuthError>)
  {
    if !Given(r.serviceToken) || !config.hasAuthenticator || authenticated.None? then (s, Err(InvalidClient))
    else
      var a := authenticated.value;
      var scopes := if a.scopes.Some? then a.scopes.value else config.supportedScopes;
      match Vouched(config, explicitScopes, requested, scopes, a.resource)
      case Err(e) => (s, Err(e))
      case Ok((registered, resource)) =>
        var identity := Identity(id, ServiceAuth, registered, Some(resource),
                                 if a.clientId.Some? then a.clientId else r.clientId, Some(a.subject), now, None, None);
        (s.(identities := s.identities[id := identity]), Ok(identity))
  }

  function RegisterAssertion(config: Config, s: State, r: Registration, explicitScopes: seq<string>,
                             requested: Option<string>, id: string, now: int): (State, Result<Identity, OAuthError>)
  {
    if r.assertion.None? || !Given(r.clientId) then (s, Err(InvalidRequest))
    else if !AssertionAccepted(config, s, r.assertion.value, IdentityEndpoint(config), now) then (s, Err(InvalidGrant))
    else
      var c := r.assertion.value.claims;
      var s' := Remember(s, r.assertion.value);
      if OptionalText(c.clientId) != r.clientId then (s', Err(InvalidGrant))
      else
        var scopes := RequestedScopes(OptionalText(c.scope), config.supportedScopes);
        match Vouched(config, explicitScopes, requested, scopes, c.resource)
        case Err(e) => (s', Err(e))
        case Ok((registered, resource)) =>
          var identity := Identity(id, IdentityAssertion, registered, Some(resource), r.clientId, Some(c.sub), now, None, None);
          (s'.(identities := s'.identities[id := identity]), Ok(identity))
  }

  function Register(config: Config, s: State, r: Registration, authenticated: Option<Authenticated>, id: string, now: int)
    : (State, Result<Identity, OAuthError>)
  {
    var explicitScopes := SplitScope(r.scope);
    if |explicitScopes| > 0 && !Within(explicitScopes, config.supportedScopes) then (s, Err(InvalidScope))
    else
      match OptionalResource(config, r.resource)
      case Err(e) => (s, Err(e))
      case Ok(requested) =>
        match r.kind
        case None => (s, Err(InvalidRequest))
        case Some(Anonymous) =>
          RegisterAnonymous(config, s, r, explicitScopes, Or(requested, config.defaultResource), id, now)
        case Some(ServiceAuth) => RegisterService(config, s, r, authenticated, explicitScopes, requested, id, now)
        case Some(IdentityAssertion) => RegisterAssertion(config, s, r, explicitScopes, requested, id, now)
  }

  // --- claims ---

  predicate Active(s: State, id: string, now: int) {
    id in s.identities && s.identities[id].revokedAt.None? &&
    (s.identities[id].expiresAt.Some? ==> s.identities[id].expiresAt.value > now)
  }

  predicate ResourceMatches(config: Config, identity: Identity, resource: string) {
    var configured := Configured(config, resource);
    configured.Some? && (identity.resource.None? || identity.resource == configured)
  }

  datatype ClaimRequest = ClaimRequest(identityId: string, scope: Option<string>, resource: Option<string>, rateLimitKey: string)

  /** The generated parts of a new claim. */
  datatype Names = Names(id: string, userCodeHash: string, deviceCodeHash: string)

  function StartClaim(config: Config, s: State, r: ClaimRequest, names: Names, now: int): (State, C.Reply) {
    if !Active(s, r.identityId, now) then (s, Err(InvalidGrant))
    else
      var identity := s.identities[r.identityId];
      var scopes := RequestedScopes(r.scope, identity.scopes);
      var resource := if Given(r.resource) then Configured(config, r.resource.value)
                      else Some(Or(identity.resource, config.defaultResource));
      if !Within(scopes, identity.scopes) then (s, Err(InvalidScope))
      else if !Given(resource) || !ResourceMatches(config, identity, resource.value) then (s, Err(InvalidTarget))
      else
        var claim := NewClaim(config.ceremony.claim, names.id, identity.id, names.userCodeHash, names.deviceCodeHash,
                              scopes, resource, now);
        var (ceremony, reply) := C.Start(config.ceremony, s.ceremony, claim, r.rateLimitKey, now);
        (s.(ceremony := ceremony), reply)
  }

  function ClaimGrantJwt(config: Config, c: Claim, now: int): Jwt {
    Jwt(config.signingKey,
        JwtClaims(config.issuer, c.identityId, [TokenEndpoint(config)], FloorSeconds(now), FloorSeconds(c.expiresAt), None,
                  "claim-grant:" + c.id, None, Some(c.identityId), None, None, Some("claim_grant"), Some(c.id)))
  }

  /** An accepted poll of an approved claim also answers a signed claim grant. */
  ghost function PollClaim(config: Config, s: State, deviceHash: string, now: int): (State, C.Reply) {
    match C.DeviceCodeOwner(s.ceremony.claims, deviceHash)
    case None => (s, Err(InvalidGrant))
    case Some(id) =>
      var (claims, reply) := C.Perform(config.ceremony.claim, s.ceremony.claims, Poll, id, now, now);
      var s' := s.(ceremony := s.ceremony.(claims := claims));
      if reply.Err? || !reply.value.status.Approved? then (s', reply)
      else (s'.(signed := s.signed + {ClaimGrantJwt(config, reply.value, now)}), reply)
  }

  function AssertionJwt(config: Config, identity: Identity, audience: string, id: string, now: int): Jwt
    requires identity.subject.Some?
  {
    Jwt(config.signingKey,
        JwtClaims(config.issuer, identity.subject.value, [audience], FloorSeconds(now), FloorSeconds(now) + config.tokenSeconds,
                  None, id, Some(Join(identity.scopes)), Some(identity.id), identity.clientId, None, None, None))
  }

  function IssueAssertion(config: Config, s: State, identityId: string, audience: string, id: string, now: int)
    : (State, Result<Jwt, OAuthError>)
  {
    if !Active(s, identityId, now) || !s.identities[identityId].kind.IdentityAssertion?
       || !Given(s.identities[identityId].subject) || !Given(s.identities[identityId].clientId)
    then (s, Err(InvalidGrant))
    else
      var jwt := AssertionJwt(config, s.identities[identityId], audience, id, now);
      (s.(signed := s.signed + {jwt}), Ok(jwt))
  }

  // --- exchanging a grant for a token ---

  datatype Grant =
    | ClaimGrant(claimGrant: Option<Jwt>)
    | Bearer(assertion: Option<Jwt>, clientId: Option<string>)
    | OtherGrant

  datatype Authorization = Authorization(
    identity: Identity,
    allowedScopes: seq<string>,
    resource: Option<string>,
    claimId: Option<string>)

  function AuthorizeClaim(config: Config, s: State, jwt: Jwt, now: int): (State, Result<Authorization, OAuthError>) {
    if !Verifies(jwt, config.ownKeys, config.issuer, TokenEndpoint(config), now) then (s, Err(InvalidGrant))
    else
      var v := jwt.claims;
      if v.purpose != Some("claim_grant") || v.claimId.None? || v.identityId != Some(v.sub) then (s, Err(InvalidGrant))
      else
        var (claims, reply) := C.Perform(config.ceremony.claim, s.ceremony.claims, Consume, v.claimId.value, now, now);
        var s' := s.(ceremony := s.ceremony.(claims := claims));
        match reply
        case Err(e) => (s', Err(e))
        case Ok(c) =>
          if c.identityId != v.sub || !Active(s', c.identityId, now) then (s', Err(InvalidGrant))
          else (s', Ok(Authorization(s'.identities[c.identityId], c.scopes, c.resource, Some(c.id))))
  }

  function AuthorizeAssertion(config: Config, s: State, jwt: Jwt, clientId: string, now: int)
    : (State, Result<Authorization, OAuthError>)
  {
    if !AssertionAccepted(config, s, jwt, TokenEndpoint(config), now) then (s, Err(InvalidGrant))
    else
      var v := jwt.claims;
      var s' := Remember(s, jwt);
      if !Given(v.identityId) || v.clientId != Some(clientId) || !Active(s', v.identityId.value, now) then (s', Err(InvalidGrant))
      else
        var identity := s'.identities[v.identityId.value];
        var scopes := RequestedScopes(OptionalText(v.scope), identity.scopes);
        if !identity.kind.IdentityAssertion? || identity.subject != Some(v.sub) || identity.clientId != Some(clientId) then
          (s', Err(InvalidGrant))
        else if !Within(scopes, identity.scopes) then (s', Err(InvalidScope))
        else
          match OptionalResource(config, v.resource)
          case Err(e) => (s', Err(e))
          case Ok(resource) =>
            if resource.Some? && !ResourceMatches(config, identity, resource.value) then (s', Err(InvalidTarget))
            else (s', Ok(Authorization(identity, scopes, resource, None)))
  }

  function Authorize(config: Config, s: State, grant: Grant, now: int): (State, Result<Authorization, OAuthError>) {
    match grant
    case ClaimGrant(jwt) => if jwt.None? then (s, Err(InvalidRequest)) else AuthorizeClaim(config, s, jwt.value, now)
    case Bearer(jwt, clientId) =>
      if jwt.None? || !Given(clientId) then (s, Err(InvalidRequest))
      else AuthorizeAssertion(config, s, jwt.value, clientId.value, now)
    case OtherGrant => (s, Err(UnsupportedGrantType))
  }

  function NewToken(config: Config, identity: Identity, scopes: seq<string>, resource: string, id: string, now: int): IssuedToken {
    IssuedToken(id, identity.id, Or(identity.subject, identity.id), scopes, resource, FloorSeconds(now) * 1000,
                (FloorSeconds(now) + config.tokenSeconds) * 1000, None)
  }

  function AccessTokenJwt(config: Config, t: IssuedToken): Jwt {
    Jwt(config.signingKey,
        JwtClaims(config.issuer, t.subject, [t.resource], FloorSeconds(t.issuedAt), FloorSeconds(t.issuedAt) + config.tokenSeconds,
                  None, t.id, Some(Join(t.scopes)), Some(t.identityId), None, None, None, None))
  }

  /** What an authorization and a request for fewer scopes or a resource come to. */
  function Narrow(config: Config, a: Authorization, scope: Option<string>, resource: Option<string>)
    : Result<(seq<string>, string), OAuthError>
  {
    var scopes := RequestedScopes(scope, a.allowedScopes);
    var target := if Given(resource) then Configured(config, resource.value)
                  else if a.resource.Some? then a.resource
                  else Some(Or(a.identity.resource, config.defaultResource));
    if !Within(scopes, a.allowedScopes) then Err(InvalidScope)
    else if !Given(target) then Err(InvalidTarget)
    else if !ResourceMatches(config, a.identity, target.value) || (a.resource.Some? && a.resource != target) then Err(InvalidTarget)
    else Ok((scopes, target.value))
  }

  function Exchange(config: Config, s: State, grant: Grant, scope: Option<string>, resource: Option<string>, id: string, now: int)
    : (State, Result<Jwt, OAuthError>)
  {
    match Authorize(config, s, grant, now)
    case (s', Err(e)) => (s', Err(e))
    case (s', Ok(a)) =>
      match Narrow(config, a, scope, resource)
      case Err(e) => (s', Err(e))
      case Ok((scopes, target)) =>
        var token := NewToken(config, a.identity, scopes, target, id, now);
        var jwt := AccessTokenJwt(config, token);
        (s'.(tokens := s'.tokens[id := token], signed := s'.signed + {jwt},
             mints := s'.mints[id := Mint(jwt, a.allowedScopes, a.resource, a.claimId)]), Ok(jwt))
  }

  // --- validating and revoking ---

  function Validate(config: Config, s: State, jwt: Jwt, expectedResource: string, now: int): Result<IssuedToken, OAuthError> {
    match Configured(config, expectedResource)
    case None => Err(InvalidTarget)
    case Some(resource) =>
      if !Verifies(jwt, config.ownKeys, config.issuer, resource, now) then Err(InvalidToken)
      else
        var v := jwt.claims;
        if v.jti !in s.tokens then Err(InvalidToken)
        else
          var stored := s.tokens[v.jti];
          if stored.revokedAt.Some? || stored.expiresAt <= now || stored.resource != resource || stored.subject != v.sub
             || OptionalText(v.identityId) != Some(stored.identityId)
             || !SameScopes(stored.scopes, SplitScope(OptionalText(v.scope)))
          then Err(InvalidToken)
          else Ok(stored)
  }

  function AddDeliveries(st: E.Store, eventId: string, subscribers: seq<string>, ids: seq<string>, at: int): E.Store
    requires |subscribers| == |ids|
  {
    if subscribers == [] then st
    else
      var n := |subscribers| - 1;
      var rest := AddDeliveries(st, eventId, subscribers[..n], ids[..n], at);
      E.Store(rest.order + [ids[n]],
              rest.deliveries[ids[n] := E.EventDelivery(ids[n], eventId, subscribers[n], E.Pending, 0, at, None, None)])
  }

  function AddSent(sent: map<(string, string), string>, eventId: string, subscribers: seq<string>, ids: seq<string>)
    : map<(string, string), string>
    requires |subscribers| == |ids|
  {
    if subscribers == [] then sent
    else
      var n := |subscribers| - 1;
      AddSent(sent, eventId, subscribers[..n], ids[..n])[(eventId, subscribers[n]) := ids[n]]
  }

  /** `createEvent` and one delivery for every subscriber, unless the token already has an event. */
  function Announce(book: Book, token: IssuedToken, eventId: string, ids: seq<string>, now: int): Book
    requires |ids| == |book.subscribers|
  {
    if token.id in book.eventByToken then book
    else
      book.(events := book.events[eventId := RevocationEvent(eventId, token.id, token.subject, now)],
            eventByToken := book.eventByToken[token.id := eventId],
            deliveries := AddDeliveries(book.deliveries, eventId, book.subscribers, ids, now),
            audience := book.audience[eventId := book.subscribers],
            sent := AddSent(book.sent, eventId, book.subscribers, ids))
  }

  /** `signSecurityEvent`: what a subscriber is sent, under the id of its delivery. */
  function SecurityEventJwt(config: Config, event: RevocationEvent, url: string, deliveryId: string, now: int): Jwt {
    Jwt(config.signingKey,
        JwtClaims(config.issuer, event.subject, [url], FloorSeconds(now), FloorSeconds(now) + 300, None, deliveryId,
                  None, None, None, None, None, None))
  }

  /** Everything a round of deliveries signs; `url` is the address of each subscriber. */
  function SentTokens(config: Config, book: Book, env: E.Env, url: string -> string, now: int, limit: nat): set<Jwt> {
    set d | d in E.ListDue(book.deliveries, now, limit) && env.known(d) && d.eventId in book.events ::
      SecurityEventJwt(config, book.events[d.eventId], url(d.subscriberId), d.id, now)
  }

  /** `verifyOwnTokenForRevocation`: the protected resource a genuine token is for. */
  function RevocationAudience(config: Config, jwt: Jwt, now: int): Option<string> {
    if jwt.Malformed? || |jwt.claims.aud| != 1 then None
    else
      match Configured(config, jwt.claims.aud[0])
      case None => None
      case Some(resource) =>
        if jwt.claims.iss == config.issuer && Verifies(jwt, config.ownKeys, config.issuer, resource, now) then Some(resource)
        else None
  }

  function Revoke(config: Config, s: State, jwt: Jwt, eventId: string, ids: seq<string>, now: int): State
    requires |ids| == |s.book.subscribers|
  {
    match RevocationAudience(config, jwt, now)
    case None => s
    case Some(resource) =>
      var jti := jwt.claims.jti;
      if jti !in s.tokens || s.tokens[jti].revokedAt.Some? then s
      else
        var token := s.tokens[jti].(revokedAt := Some(now));
        var s' := s.(tokens := s.tokens[jti := token]);
        if token.subject != jwt.claims.sub || token.resource != resource then s'
        else s'.(book := Announce(s.book, token, eventId, ids, now))
  }
}
