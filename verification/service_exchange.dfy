/**
  When an exchange uses its claim up, when it is paid for it, and when the tokens it mints are good
  (packages/service/src/service.ts:551-601, 793-821).
 */
module ServiceExchange {
  import opened Wrappers
  import opened ClaimRules
  import opened ClaimStateModel
  import opened Scopes
  import opened ServiceModel
  import opened ServiceRuns
  import opened ServiceTheorems
  import C = ClaimCeremonyModel
  import E = EventDeliveryModel
  import L = RateLimitModel

  // --- using a claim up and being paid for it ---

  /** The grant verifies at the token endpoint, and says what a claim grant says. */
  predicate ClaimGrantFits(config: Config, jwt: Jwt, now: int) {
    && Verifies(jwt, config.ownKeys, config.issuer, TokenEndpoint(config), now)
    && jwt.claims.purpose == Some("claim_grant") && jwt.claims.claimId.Some? && jwt.claims.identityId == Some(jwt.claims.sub)
  }

  /** Its claim is approved, unused and before its deadline. */
  predicate Consumable(config: Config, claims: Claims, jwt: Jwt, now: int) {
    && ClaimGrantFits(config, jwt, now) && jwt.claims.claimId.value in claims
    && var c := claims[jwt.claims.claimId.value];
       c.status.Approved? && c.grantUsedAt.None? && now < c.expiresAt
  }

  /** The claim is the subject's, who is active, and the request stays within its scopes and at its resource. */
  predicate Payable(config: Config, s: State, c: Claim, sub: string, scope: Option<string>, resource: Option<string>, now: int) {
    && c.identityId == sub && Active(s, c.identityId, now)
    && Within(RequestedScopes(scope, c.scopes), c.scopes)
    && (Given(resource) ==> Configured(config, resource.value) == c.resource)
  }

  ghost predicate Used(claims: Claims, id: string) {
    id in claims && claims[id].grantUsedAt.Some?
  }

  lemma ConsumeIs(options: Options, claims: Claims, id: string, now: int)
    ensures
      var (claims', reply) := C.Perform(options, claims, Consume, id, now, now);
      && (reply.Ok? <==> id in claims && claims[id].status.Approved? && claims[id].grantUsedAt.None? && now < claims[id].expiresAt)
      && (reply.Ok? ==> reply.value == WithVersion(claims[id], claims[id].(grantUsedAt := Some(now))) &&
                        claims' == claims[id := reply.value])
      && (reply.Err? ==> forall i :: Used(claims', i) <==> Used(claims, i))
  {
  }

  lemma UnfitGrantStops(config: Config, s: State, jwt: Jwt, now: int)
    requires !ClaimGrantFits(config, jwt, now)
    ensures AuthorizeClaim(config, s, jwt, now) == (s, Err(InvalidGrant))
  {
    hide InTime, TokenEndpoint;
  }

  lemma FitGrantConsumes(config: Config, s: State, jwt: Jwt, now: int)
    requires ClaimGrantFits(config, jwt, now)
    ensures jwt.Jwt?
    ensures
      var (claims, reply) := C.Perform(config.ceremony.claim, s.ceremony.claims, Consume, jwt.claims.claimId.value, now, now);
      var s' := s.(ceremony := s.ceremony.(claims := claims));
      AuthorizeClaim(config, s, jwt, now) ==
        match reply
        case Err(e) => (s', Err(e))
        case Ok(c) =>
          if c.identityId != jwt.claims.sub || !Active(s', c.identityId, now) then (s', Err(InvalidGrant))
          else (s', Ok(Authorization(s'.identities[c.identityId], c.scopes, c.resource, Some(c.id))))
  {
    hide C.Perform, Active;
  }

  /** What the checks after the consumption come to for a claim of its identity. */
  lemma NarrowIs(config: Config, a: Authorization, scope: Option<string>, resource: Option<string>)
    requires ConfigOk(config) && a.resource == a.identity.resource && a.resource.Some? && a.resource.value in config.protectedResources
    ensures Narrow(config, a, scope, resource).Ok? <==>
              && Within(RequestedScopes(scope, a.allowedScopes), a.allowedScopes)
              && (Given(resource) ==> Configured(config, resource.value) == a.resource)
  {
    hide Within, RequestedScopes;
  }

  lemma StoredClaimFits(config: Config, s: State, id: string)
    requires Inv(config, s) && id in s.ceremony.claims
    ensures
      var c := s.ceremony.claims[id];
      && c.id == id && c.identityId in s.identities && c.resource == s.identities[c.identityId].resource
      && c.resource.Some? && c.resource.value in config.protectedResources
  {
    hide Within, BookOk, SignedOk, TokensOk;
    assert ClaimOk(s.identities, s.ceremony.claims[id]);
    assert IdentityOk(config, s.identities[s.ceremony.claims[id].identityId]);
  }

  ghost predicate UsesUp(claims: Claims, claims': Claims, id: string, now: int) {
    id in claims && id in claims' && claims' == claims[id := claims'[id]] && claims'[id].grantUsedAt == Some(now)
  }

  /** The claim an exchange consumes, and the answer. */
  lemma ExchangeOfConsumable(config: Config, s: State, jwt: Jwt, scope: Option<string>, resource: Option<string>, id: string, now: int)
    requires ConfigOk(config) && Inv(config, s) && Consumable(config, s.ceremony.claims, jwt, now)
    ensures jwt.Jwt?
    ensures UsesUp(s.ceremony.claims, Exchange(config, s, ClaimGrant(Some(jwt)), scope, resource, id, now).0.ceremony.claims,
                   jwt.claims.claimId.value, now)
    ensures Exchange(config, s, ClaimGrant(Some(jwt)), scope, resource, id, now).1.Ok? <==>
              Payable(config, s, s.ceremony.claims[jwt.claims.claimId.value], jwt.claims.sub, scope, resource, now)
  {
    hide C.Perform, Narrow, Inv, ConfigOk, Verifies, AccessTokenJwt, NewToken, Within, RequestedScopes, Configured, AuthorizeClaim;
    FitGrantConsumes(config, s, jwt, now);
    var cid := jwt.claims.claimId.value;
    StoredClaimFits(config, s, cid);
    ConsumeIs(config.ceremony.claim, s.ceremony.claims, cid, now);
    var (s1, authorized) := AuthorizeClaim(config, s, jwt, now);
    if authorized.Ok? {
      NarrowIs(config, authorized.value, scope, resource);
    }
  }

  lemma UsedOneMore(claims: Claims, claims': Claims, id: string)
    requires id in claims && claims[id].grantUsedAt.None? && id in claims' && claims'[id].grantUsedAt.Some?
    requires claims' == claims[id := claims'[id]]
    ensures forall i :: Used(claims', i) && !Used(claims, i) <==> i == id
  {
  }

  lemma ExchangeOfOther(config: Config, s: State, jwt: Jwt, scope: Option<string>, resource: Option<string>, id: string, now: int)
    requires !Consumable(config, s.ceremony.claims, jwt, now)
    ensures
      var (s', reply) := Exchange(config, s, ClaimGrant(Some(jwt)), scope, resource, id, now);
      reply.Err? && forall i :: Used(s'.ceremony.claims, i) <==> Used(s.ceremony.claims, i)
  {
    hide C.Perform, Narrow, Verifies, Active, AuthorizeClaim, Used;
    if ClaimGrantFits(config, jwt, now) {
      FitGrantConsumes(config, s, jwt, now);
      ConsumeIs(config.ceremony.claim, s.ceremony.claims, jwt.claims.claimId.value, now);
      var (claims, reply) := C.Perform(config.ceremony.claim, s.ceremony.claims, Consume, jwt.claims.claimId.value, now, now);
      assert reply.Err?;
      assert AuthorizeClaim(config, s, jwt, now) == (s.(ceremony := s.ceremony.(claims := claims)), Err(reply.error));
    } else {
      UnfitGrantStops(config, s, jwt, now);
    }
  }

  /**
    An exchange uses up the claim its grant names exactly if the grant fits and the claim is approved,
    unused and in time; it is paid for exactly if besides the claim is the active subject's and the request
    stays within it.  So it is refused and yet uses the claim up exactly in between.  No other claim is used.
   */
  lemma ExchangeUsesClaimIff(config: Config, acts: seq<Action>, jwt: Jwt, scope: Option<string>, resource: Option<string>,
                             id: string, now: int)
    requires ConfigOk(config) && Legal(config, acts)
    ensures
      var s := After(config, acts);
      var (s', reply) := Exchange(config, s, ClaimGrant(Some(jwt)), scope, resource, id, now);
      var consumable := Consumable(config, s.ceremony.claims, jwt, now);
      var payable := consumable &&
        Payable(config, s, s.ceremony.claims[jwt.claims.claimId.value], jwt.claims.sub, scope, resource, now);
      && (forall i :: Used(s'.ceremony.claims, i) && !Used(s.ceremony.claims, i) <==> consumable && jwt.claims.claimId == Some(i))
      && (reply.Ok? <==> payable)
      && (reply.Err? && (exists i :: Used(s'.ceremony.claims, i) && !Used(s.ceremony.claims, i)) <==> consumable && !payable)
  {
    hide Exchange, Inv, After, Legal, Payable, ConfigOk;
    Reachable(config, acts);
    var s := After(config, acts);
    if Consumable(config, s.ceremony.claims, jwt, now) {
      ExchangeOfConsumable(config, s, jwt, scope, resource, id, now);
      FitGrantConsumes(config, s, jwt, now);
      var cid := jwt.claims.claimId.value;
      var s' := Exchange(config, s, ClaimGrant(Some(jwt)), scope, resource, id, now).0;
      UsedOneMore(s.ceremony.claims, s'.ceremony.claims, cid);
      assert Used(s'.ceremony.claims, cid) && !Used(s.ceremony.claims, cid);
    } else {
      ExchangeOfOther(config, s, jwt, scope, resource, id, now);
    }
  }

  // --- a run of the ceremony up to its claim grant ---

  /** Limits of at least one and lifetimes of at least a second. */
  ghost predicate Usable(config: Config) {
    && config.maxRegistrations >= 1 && config.ceremony.maxStartsPerWindow >= 1 && config.ceremony.claim.maxVerificationAttempts >= 1
    && config.anonymousSeconds >= 1 && config.ceremony.claim.expiresInSeconds >= 1 && config.tokenSeconds >= 1
  }

  const Registering := RegisterIdentity(Registration(Some(Anonymous), None, None, None, None, None, "key"), None, "identity", 0)

  const Beginning := BeginClaim(ClaimRequest("identity", None, None, "key"), Names("claim", "user", "device"), 0)

  /** An anonymous agent registers, asks for everything it may have, and a person approves. */
  function Opening(): seq<Action> {
    [Registering, Beginning, VerifyClaimCode("user", "key", 0), DecideClaim("claim", true, 0), ServiceRuns.Poll("device", 0)]
  }

  function OpeningIdentity(config: Config): Identity {
    Identity("identity", Anonymous, config.supportedScopes, Some(config.defaultResource), None, None, 0,
             Some(config.anonymousSeconds * 1000), None)
  }

  function OpeningClaim(config: Config): Claim {
    NewClaim(config.ceremony.claim, "claim", "identity", "user", "device", config.supportedScopes, Some(config.defaultResource), 0)
  }

  /** The state with these claims and signatures and one identity. */
  ghost predicate Opened(config: Config, s: State, c: Claim, signed: set<Jwt>) {
    && s.identities == map["identity" := OpeningIdentity(config)] && s.ceremony.claims == map["claim" := c]
    && s.tokens == map[] && s.signed == signed
  }

  lemma FirstRegisters(config: Config)
    requires ConfigOk(config) && Usable(config)
    ensures Enabled(config, Initial, Registering)
    ensures
      var s := Apply(config, Initial, Registering);
      && s.identities == map["identity" := OpeningIdentity(config)] && s.ceremony.claims == map[]
      && s.tokens == map[] && s.signed == {} && (forall key :: key in s.ceremony.buckets ==> key == RegisterKey("key"))
  {
  }

  lemma FirstBegins(config: Config, s: State)
    requires ConfigOk(config) && Usable(config)
    requires s.identities == map["identity" := OpeningIdentity(config)] && s.ceremony.claims == map[]
    requires s.tokens == map[] && s.signed == {} && (forall key :: key in s.ceremony.buckets ==> key == RegisterKey("key"))
    ensures Enabled(config, s, Beginning)
    ensures Opened(config, Apply(config, s, Beginning), OpeningClaim(config), {})
    ensures forall key :: key in Apply(config, s, Beginning).ceremony.buckets ==> key == RegisterKey("key") || key == C.StartKey("key")
  {
    WithinSelf(config.supportedScopes);
    assert C.StartKey("key")[0] == 'c' && RegisterKey("key")[0] == 'a';
    assert Configured(config, config.defaultResource) == Some(config.defaultResource);
  }

  lemma FirstVerifies(config: Config, s: State)
    requires Usable(config) && Opened(config, s, OpeningClaim(config), {})
    requires forall key :: key in s.ceremony.buckets ==> key == RegisterKey("key") || key == C.StartKey("key")
    ensures Enabled(config, s, VerifyClaimCode("user", "key", 0))
    ensures
      var c := OpeningClaim(config);
      Opened(config, Apply(config, s, VerifyClaimCode("user", "key", 0)),
             WithVersion(c, c.(status := UserVerified, userCodeUsedAt := Some(0), verificationAttempts := 1)), {})
  {
    assert C.VerifyKey("key")[6] == 'v' && C.StartKey("key")[6] == 's' && C.VerifyKey("key")[0] == 'c' && RegisterKey("key")[0] == 'a';
    assert s.ceremony.claims["claim"].userCodeHash == "user" && C.UserCodeOwner(s.ceremony.claims, "user") == Some("claim");
  }

  lemma FirstDecides(config: Config, s: State, c: Claim)
    requires Opened(config, s, c, {}) && c.status.UserVerified? && 0 < c.expiresAt
    ensures Enabled(config, s, DecideClaim("claim", true, 0))
    ensures Opened(config, Apply(config, s, DecideClaim("claim", true, 0)), WithVersion(c, c.(status := Approved)), {})
  {
  }

  lemma FirstPolls(config: Config, s: State, c: Claim)
    requires Opened(config, s, c, {}) && c.status.Approved? && 0 < c.expiresAt && c.lastPollAt.None? && c.deviceCodeHash == "device"
    ensures Enabled(config, s, ServiceRuns.Poll("device", 0))
    ensures
      var polled := WithVersion(c, c.(lastPollAt := Some(0)));
      Opened(config, Apply(config, s, ServiceRuns.Poll("device", 0)), polled, {ClaimGrantJwt(config, polled, 0)})
  {
    assert s.ceremony.claims["claim"].deviceCodeHash == "device" && C.DeviceCodeOwner(s.ceremony.claims, "device") == Some("claim");
  }

  /** The claim the ceremony leaves behind. */
  function ApprovedClaim(config: Config): Claim {
    OpeningClaim(config).(status := Approved, userCodeUsedAt := Some(0), verificationAttempts := 1, lastPollAt := Some(0), version := 4)
  }

  lemma OpeningIsLegal(config: Config)
    requires ConfigOk(config) && Usable(config)
    ensures Legal(config, Opening())
    ensures Opened(config, After(config, Opening()), ApprovedClaim(config), {ClaimGrantJwt(config, ApprovedClaim(config), 0)})
  {
    hide Apply, Enabled, Opened, ConfigOk;
    var acts := Opening();
    assert acts[..0] == [] && acts[..1] == [acts[0]];
    assert acts[..1][..0] == [] && acts[..2][..1] == acts[..1] && acts[..3][..2] == acts[..2] && acts[..4][..3] == acts[..3];
    assert acts[..5] == acts && acts[..5][..4] == acts[..4];
    assert Legal(config, []) && After(config, []) == Initial;
    FirstRegisters(config);
    assert Legal(config, acts[..1]) && After(config, acts[..1]) == Apply(config, Initial, acts[0]);
    FirstBegins(config, After(config, acts[..1]));
    assert Legal(config, acts[..2]) && After(config, acts[..2]) == Apply(config, After(config, acts[..1]), acts[1]);
    FirstVerifies(config, After(config, acts[..2]));
    assert Legal(config, acts[..3]) && After(config, acts[..3]) == Apply(config, After(config, acts[..2]), acts[2]);
    var c := OpeningClaim(config);
    var verified := WithVersion(c, c.(status := UserVerified, userCodeUsedAt := Some(0), verificationAttempts := 1));
    FirstDecides(config, After(config, acts[..3]), verified);
    assert Legal(config, acts[..4]) && After(config, acts[..4]) == Apply(config, After(config, acts[..3]), acts[3]);
    FirstPolls(config, After(config, acts[..4]), WithVersion(verified, verified.(status := Approved)));
    assert Legal(config, acts) && After(config, acts) == Apply(config, After(config, acts[..4]), acts[4]);
  }

  lemma OpeningIsConsumable(config: Config)
    requires ConfigOk(config) && Usable(config) && Legal(config, Opening())
    requires Opened(config, After(config, Opening()), ApprovedClaim(config), {ClaimGrantJwt(config, ApprovedClaim(config), 0)})
    ensures Consumable(config, After(config, Opening()).ceremony.claims, ClaimGrantJwt(config, ApprovedClaim(config), 0), 0)
    ensures Active(After(config, Opening()), "identity", 0)
  {
    hide After, Legal;
    var jwt := ClaimGrantJwt(config, ApprovedClaim(config), 0);
    assert jwt.claims.jti[0] == 'c';
  }

  /**
    In any usable service a claim can be lost to a request for too much: the exchange is refused, the claim
    is used, and no later exchange gets a token for it, whatever it asks for.
   */
  lemma AskingTooMuchUsesTheClaim(config: Config, excess: string, id: string) returns (acts: seq<Action>, jwt: Jwt)
    requires ConfigOk(config) && Usable(config) && Word(excess) && excess !in config.supportedScopes
    requires "token_" <= id
    ensures Legal(config, acts) && Enabled(config, After(config, acts), ExchangeToken(ClaimGrant(Some(jwt)), Some(excess), None, id, 0))
    ensures
      var (s', reply) := Exchange(config, After(config, acts), ClaimGrant(Some(jwt)), Some(excess), None, id, 0);
      && reply.Err? && Used(s'.ceremony.claims, "claim") && !Used(After(config, acts).ceremony.claims, "claim")
      && forall scope, resource, next, now :: Exchange(config, s', ClaimGrant(Some(jwt)), scope, resource, next, now).1.Err?
  {
    hide Exchange, Consumable, Payable, After, Legal, ConfigOk;
    acts := Opening();
    OpeningIsLegal(config);
    OpeningIsConsumable(config);
    jwt := ClaimGrantJwt(config, ApprovedClaim(config), 0);
    var s := After(config, acts);
    ExchangeUsesClaimIff(config, acts, jwt, Some(excess), None, id, 0);
    ExcessIsRefused(config, s, excess);
    var s' := Exchange(config, s, ClaimGrant(Some(jwt)), Some(excess), None, id, 0).0;
    assert Used(s'.ceremony.claims, "claim");
    forall scope, resource, next, now
      ensures Exchange(config, s', ClaimGrant(Some(jwt)), scope, resource, next, now).1.Err?
    {
      UsedIsNotConsumable(config, s'.ceremony.claims, jwt, now);
      ExchangeOfOther(config, s', jwt, scope, resource, next, now);
    }
  }

  lemma UsedIsNotConsumable(config: Config, claims: Claims, jwt: Jwt, now: int)
    requires jwt.Jwt? && jwt.claims.claimId.Some? && Used(claims, jwt.claims.claimId.value)
    ensures !Consumable(config, claims, jwt, now)
  {
  }

  lemma ExcessIsRefused(config: Config, s: State, excess: string)
    requires Word(excess) && excess !in config.supportedScopes
    ensures !Payable(config, s, ApprovedClaim(config), "identity", Some(excess), None, 0)
  {
    hide Active;
    var alone := [excess];
    SplitOfJoin(alone);
    UniqueIs(alone);
    assert Join(alone) == excess && SplitScope(Some(excess)) == alone;
    assert RequestedScopes(Some(excess), config.supportedScopes)[0] == excess;
  }

  // --- when every token is good ---

  /** The token `id`, if it is neither expired nor revoked, validates at its resource. */
  ghost predicate TokenGood(config: Config, s: State, id: string, now: int) {
    && id in s.tokens && id in s.mints && s.tokens[id].revokedAt.None? && 0 <= now
    && s.tokens[id].issuedAt <= now < s.tokens[id].expiresAt
    ==> Validate(config, s, s.mints[id].jwt, s.tokens[id].resource, now).Ok?
  }

  ghost predicate TokensGood(config: Config, acts: seq<Action>)
    requires Legal(config, acts)
  {
    forall id, now :: TokenGood(config, After(config, acts), id, now)
  }

  /** The opening run and the exchange that asks for all of the claim. */
  function Minting(config: Config): seq<Action> {
    Opening() + [ExchangeToken(ClaimGrant(Some(ClaimGrantJwt(config, ApprovedClaim(config), 0))), None, None, "token_1", 0)]
  }

  lemma MintingIsLegal(config: Config)
    requires ConfigOk(config) && Usable(config)
    ensures Legal(config, Minting(config)) && "token_1" in After(config, Minting(config)).tokens
    ensures
      var t := After(config, Minting(config)).tokens["token_1"];
      t.scopes == config.supportedScopes && t.revokedAt.None? && t.issuedAt == 0 && t.expiresAt == config.tokenSeconds * 1000
  {
    hide Apply, ConfigOk, Consumable, ClaimGrantJwt;
    OpeningIsLegal(config);
    OpeningIsConsumable(config);
    var acts := Minting(config);
    var jwt := ClaimGrantJwt(config, ApprovedClaim(config), 0);
    assert acts[..|acts| - 1] == Opening();
    assert acts[|acts| - 1] == ExchangeToken(ClaimGrant(Some(jwt)), None, None, "token_1", 0);
    Reachable(config, Opening());
    ExchangeOpening(config, After(config, Opening()), jwt);
  }

  lemma ExchangeOpening(config: Config, s: State, jwt: Jwt)
    requires ConfigOk(config) && Inv(config, s) && Opened(config, s, ApprovedClaim(config), {jwt})
    requires jwt == ClaimGrantJwt(config, ApprovedClaim(config), 0)
    requires Consumable(config, s.ceremony.claims, jwt, 0) && Active(s, "identity", 0)
    ensures
      var a := ExchangeToken(ClaimGrant(Some(jwt)), None, None, "token_1", 0);
      && Enabled(config, s, a) && "token_1" in Apply(config, s, a).tokens
      && var t := Apply(config, s, a).tokens["token_1"];
         t.scopes == config.supportedScopes && t.revokedAt.None? && t.issuedAt == 0 && t.expiresAt == config.tokenSeconds * 1000
  {
    hide C.Perform, Inv, Narrow, Verifies, AuthorizeClaim, ConfigOk;
    WithinSelf(config.supportedScopes);
    ExchangeOfConsumable(config, s, jwt, None, None, "token_1", 0);
    ConsumeIs(config.ceremony.claim, s.ceremony.claims, "claim", 0);
    FitGrantConsumes(config, s, jwt, 0);
    var a := AuthorizeClaim(config, s, jwt, 0).1;
    NarrowScopes(config, a.value, None, None);
  }

  /** Every run with well-behaved authenticators has good tokens exactly if the supported scopes are distinct words. */
  lemma TokensAlwaysGoodIff(config: Config)
    requires ConfigOk(config) && Usable(config)
    ensures Clean(config.supportedScopes) <==>
              forall acts :: Legal(config, acts) && (forall i :: 0 <= i < |acts| ==> CleanAction(acts[i])) ==> TokensGood(config, acts)
  {
    hide Legal, After, Clean, Validate;
    if Clean(config.supportedScopes) {
      forall acts | Legal(config, acts) && (forall i :: 0 <= i < |acts| ==> CleanAction(acts[i])) ensures TokensGood(config, acts) {
        forall id, now ensures TokenGood(config, After(config, acts), id, now) {
          var s := After(config, acts);
          if id in s.tokens && 0 <= now && s.tokens[id].issuedAt <= now < s.tokens[id].expiresAt {
            LiveTokensValidate(config, acts, id, now);
          }
        }
      }
    } else {
      DeadToken(config);
      var acts := Minting(config);
      assert forall i :: 0 <= i < |acts| ==> CleanAction(acts[i]);
      assert !TokenGood(config, After(config, acts), "token_1", 0);
    }
  }

  /** Otherwise some run mints a token that is refused at its own resource throughout its lifetime. */
  lemma DeadToken(config: Config)
    requires ConfigOk(config) && Usable(config) && !Clean(config.supportedScopes)
    ensures MintsDeadToken(config)
  {
    hide Legal, After, Clean, Validate;
    MintingIsLegal(config);
    var s := After(config, Minting(config));
    ValidIffLive(config, Minting(config), "token_1", s.tokens["token_1"].resource, 0);
    forall now ensures Validate(config, s, s.mints["token_1"].jwt, s.tokens["token_1"].resource, now).Err? {
      ValidIffLive(config, Minting(config), "token_1", s.tokens["token_1"].resource, now);
    }
  }

  // --- services with scopes that cannot be written down ---

  function Options(scopes: seq<string>): Config {
    Config("https://auth.example", scopes, "https://api.example/", {}, (r: string) => Some(r), 3600, 10, 60, 600,
           C.CeremonyOptions(ClaimRules.Options(600, 5, 5), 60, 10, 60), "key", {"key"}, "https://idp.example", {}, false)
  }

  /** The token of the minting run is live and yet refused at its own resource at every moment. */
  ghost predicate MintsDeadToken(config: Config) {
    && Legal(config, Minting(config))
    && var s := After(config, Minting(config));
       && "token_1" in s.tokens && "token_1" in s.mints && s.tokens["token_1"].revokedAt.None?
       && s.tokens["token_1"].scopes == config.supportedScopes
       && s.tokens["token_1"].issuedAt == 0 < s.tokens["token_1"].expiresAt
       && forall now :: Validate(config, s, s.mints["token_1"].jwt, s.tokens["token_1"].resource, now).Err?
  }

  /** `create` accepts every non-empty list of scopes, and unless they are distinct words the service can mint a dead token. */
  lemma CreatedWithAnyScopes(scopes: seq<string>) returns (config: Config)
    requires scopes != []
    ensures Create(Options(scopes), []) == Some(config) && ConfigOk(config) && config.supportedScopes == scopes
    ensures MintsDeadToken(config) <==> !Clean(scopes)
  {
    hide Legal, After, Validate, Clean, Minting;
    var options := Options(scopes);
    assert "https://" <= options.issuer;
    CreatedIsOk(options, []);
    config := Create(options, []).value;
    MintingIsLegal(config);
    if Clean(scopes) {
      MintedIsGood(config);
    } else {
      DeadToken(config);
    }
  }

  lemma MintedIsGood(config: Config)
    requires ConfigOk(config) && Usable(config) && Clean(config.supportedScopes)
    ensures !MintsDeadToken(config)
  {
    hide Legal, After, Validate, Clean;
    MintingIsLegal(config);
    assert forall i :: 0 <= i < |Minting(config)| ==> CleanAction(Minting(config)[i]);
    LiveTokensValidate(config, Minting(config), "token_1", 0);
  }

  lemma RepeatedScopeFails() returns (config: Config)
    ensures Create(Options(["read", "read"]), []) == Some(config) && ConfigOk(config) && MintsDeadToken(config)
  {
    assert ["read", "read"][0] == ["read", "read"][1];
    config := CreatedWithAnyScopes(["read", "read"]);
  }
}
