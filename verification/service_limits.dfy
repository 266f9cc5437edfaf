/**
  Whose calls a limiter counts, and what a call gets that it lets through
  (packages/service/src/claim.ts:50-111, packages/service/src/service.ts:344-395, 480-496).
 */
module ServiceLimits {
  import opened Wrappers
  import opened ClaimRules
  import opened ClaimStateModel
  import opened Scopes
  import opened ServiceModel
  import opened ServiceRuns
  import C = ClaimCeremonyModel
  import E = EventDeliveryModel
  import L = RateLimitModel

  // --- the meter of one caller ---

  /** The calls let through since a window was opened by the first of them. */
  datatype Meter = Meter(openedAt: int, passed: int)

  /** A call opens a window, or finds room in the one that is open. */
  predicate HasRoom(m: Option<Meter>, limit: int, seconds: int, at: int) {
    limit >= 1 && (m.None? || at >= m.value.openedAt + seconds * 1000 || m.value.passed < limit)
  }

  /** What is left of a caller's calls at these times: the window of the last one let through. */
  function MeterAfter(times: seq<int>, limit: int, seconds: int): Option<Meter> {
    if times == [] then None
    else
      var before, at := MeterAfter(times[..|times| - 1], limit, seconds), times[|times| - 1];
      if !HasRoom(before, limit, seconds, at) then before
      else if before.None? || at >= before.value.openedAt + seconds * 1000 then Some(Meter(at, 1))
      else Some(before.value.(passed := before.value.passed + 1))
  }

  /** The last of the calls at these times is let through. */
  predicate LetThrough(times: seq<int>, limit: int, seconds: int)
    requires times != []
  {
    HasRoom(MeterAfter(times[..|times| - 1], limit, seconds), limit, seconds, times[|times| - 1])
  }

  /** How many of the calls were let through at or after that time. */
  function PassedSince(times: seq<int>, limit: int, seconds: int, from: int): nat {
    if times == [] then 0
    else
      PassedSince(times[..|times| - 1], limit, seconds, from)
      + if LetThrough(times, limit, seconds) && times[|times| - 1] >= from then 1 else 0
  }

  ghost predicate Ascending(times: seq<int>) {
    forall i, j :: 0 <= i < j < |times| ==> times[i] <= times[j]
  }

  lemma {:induction false} LaterIsFewer(times: seq<int>, limit: int, seconds: int, from: int, later: int)
    requires from <= later
    ensures PassedSince(times, limit, seconds, later) <= PassedSince(times, limit, seconds, from)
  {
    if times != [] {
      LaterIsFewer(times[..|times| - 1], limit, seconds, from, later);
    }
  }

  /** The meter counts what passed in the last window, which is over before anything passes after it. */
  lemma {:induction false} MeterCounts(times: seq<int>, limit: int, seconds: int, from: int)
    requires Ascending(times) && seconds >= 1
    ensures
      match MeterAfter(times, limit, seconds)
      case None => PassedSince(times, limit, seconds, from) == 0
      case Some(m) =>
        && 1 <= m.passed <= limit && m.passed == PassedSince(times, limit, seconds, m.openedAt)
        && PassedSince(times, limit, seconds, m.openedAt + seconds * 1000) == 0
        && (times != [] ==> m.openedAt <= times[|times| - 1])
  {
    if times != [] {
      var n := |times| - 1;
      var before, at := MeterAfter(times[..n], limit, seconds), times[n];
      MeterCounts(times[..n], limit, seconds, from);
      MeterCounts(times[..n], limit, seconds, at);
      if HasRoom(before, limit, seconds, at) {
        if before.None? {
          MeterCounts(times[..n], limit, seconds, at + seconds * 1000);
        } else if at >= before.value.openedAt + seconds * 1000 {
          LaterIsFewer(times[..n], limit, seconds, before.value.openedAt + seconds * 1000, at);
          LaterIsFewer(times[..n], limit, seconds, at, at + seconds * 1000);
        }
      }
    }
  }

  /**
    Of a caller whose clock does not go back a call passes exactly if the limit is at least one and no window
    is open or fewer than the limit have passed since it was opened; so at most `limit` pass in a window.
   */
  lemma AtMostLimitPerWindow(times: seq<int>, limit: int, seconds: int)
    requires Ascending(times) && seconds >= 1 && times != []
    ensures
      var n := |times| - 1;
      var before := MeterAfter(times[..n], limit, seconds);
      && (LetThrough(times, limit, seconds) <==>
            && limit >= 1
            && (before.None? || times[n] >= before.value.openedAt + seconds * 1000 ||
                PassedSince(times[..n], limit, seconds, before.value.openedAt) < limit))
      && (before.Some? ==> PassedSince(times[..n], limit, seconds, before.value.openedAt) <= limit)
  {
    MeterCounts(times[..|times| - 1], limit, seconds, 0);
  }

  // --- the meters of a service ---

  datatype Family = Registering | Starting | Verifying

  function Prefix(family: Family): string {
    match family
    case Registering => "anonymous-registration:"
    case Starting => "claim-start:"
    case Verifying => "claim-verify:"
  }

  function LimitOf(config: Config, family: Family): int {
    match family
    case Registering => config.maxRegistrations
    case Starting => config.ceremony.maxStartsPerWindow
    case Verifying => config.ceremony.claim.maxVerificationAttempts
  }

  function SecondsOf(config: Config, family: Family): int {
    match family
    case Registering => config.registrationWindowSeconds
    case Starting => config.ceremony.startWindowSeconds
    case Verifying => config.ceremony.verificationWindowSeconds
  }

  /** The protected resource a request asks for; `None` if it asks for one that is not. */
  predicate ResourceFits(config: Config, resource: Option<string>) {
    Given(resource) ==> Configured(config, resource.value).Some?
  }

  predicate AsksAnonymously(config: Config, r: Registration) {
    r.kind == Some(Anonymous) && Within(SplitScope(r.scope), config.supportedScopes) && ResourceFits(config, r.resource)
  }

  /** The identity is active, and its scopes and its resource have what is asked for. */
  predicate MayStart(config: Config, s: State, r: ClaimRequest, now: int) {
    && Active(s, r.identityId, now)
    && var identity := s.identities[r.identityId];
       && Within(RequestedScopes(r.scope, identity.scopes), identity.scopes)
       && (Given(r.resource) ==> Configured(config, r.resource.value).Some? && Configured(config, r.resource.value) == identity.resource)
  }

  datatype Counted = Counted(family: Family, caller: string, at: int)

  /** The caller a request is counted for, if it gets as far as a limiter. */
  function CountedAs(config: Config, s: State, a: Action): Option<Counted> {
    match a
    case RegisterIdentity(r, _, _, now) => if AsksAnonymously(config, r) then Some(Counted(Registering, r.rateLimitKey, now)) else None
    case BeginClaim(request, _, now) => if MayStart(config, s, request, now) then Some(Counted(Starting, request.rateLimitKey, now)) else None
    case VerifyClaimCode(_, key, now) => Some(Counted(Verifying, key, now))
    case _ => None
  }

  /** The times at which one caller was counted during a run. */
  ghost function TimesOf(config: Config, acts: seq<Action>, family: Family, caller: string): seq<int>
    requires Legal(config, acts)
  {
    if acts == [] then []
    else
      var n := |acts| - 1;
      var counted := CountedAs(config, After(config, acts[..n]), acts[n]);
      TimesOf(config, acts[..n], family, caller)
      + if counted.Some? && counted.value.family == family && counted.value.caller == caller then [counted.value.at] else []
  }

  /** The bucket of a caller is his meter. */
  ghost predicate BucketIs(buckets: L.Buckets, key: string, m: Option<Meter>) {
    if m.None? then key !in buckets else key in buckets && buckets[key] == L.Bucket(m.value.openedAt, m.value.passed)
  }

  lemma PrefixesDiffer(family: Family, caller: string, other: Family, another: string)
    ensures Prefix(family) + caller == Prefix(other) + another <==> family == other && caller == another
  {
    var a, b := Prefix(family) + caller, Prefix(other) + another;
    assert family.Registering? ==> a[0] == 'a';
    assert !family.Registering? ==> a[0] == 'c' && a[6] == if family.Starting? then 's' else 'v';
    assert other.Registering? ==> b[0] == 'a';
    assert !other.Registering? ==> b[0] == 'c' && b[6] == if other.Starting? then 's' else 'v';
    if a == b {
      assert a[|Prefix(family)|..] == caller && b[|Prefix(other)|..] == another;
    }
  }

  /** Taking a call moves the meter of its key and no other. */
  lemma TakeMeters(buckets: L.Buckets, key: string, times: seq<int>, limit: int, seconds: int, at: int)
    requires BucketIs(buckets, key, MeterAfter(times, limit, seconds))
    ensures
      var (buckets', allowed) := L.Take(L.Anchored, buckets, key, limit, seconds, at);
      && BucketIs(buckets', key, MeterAfter(times + [at], limit, seconds))
      && (allowed <==> LetThrough(times + [at], limit, seconds))
      && (forall other :: other != key ==> (other in buckets' <==> other in buckets) && (other in buckets ==> buckets'[other] == buckets[other]))
  {
    assert (times + [at])[..|times|] == times;
  }

  /** A request moves the meter of the caller it is counted for, if any. */
  ghost predicate Counts(config: Config, s: State, s': State, counted: Option<Counted>) {
    match counted
    case None => s'.ceremony.buckets == s.ceremony.buckets
    case Some(c) =>
      s'.ceremony.buckets == L.Take(L.Anchored, s.ceremony.buckets, Prefix(c.family) + c.caller, LimitOf(config, c.family),
                                    SecondsOf(config, c.family), c.at).0
  }

  lemma RegisterCounts(config: Config, s: State, a: Action)
    requires a.RegisterIdentity? && Enabled(config, s, a)
    ensures Counts(config, s, Apply(config, s, a), CountedAs(config, s, a))
  {
    hide L.Take, Configured, Within, Vouched, AssertionAccepted, RequestedScopes, SplitScope;
    NoScopesWithin(config.supportedScopes);
    assert RegisterKey(a.r.rateLimitKey) == Prefix(Registering) + a.r.rateLimitKey;
    VouchedChangesNothing(config, s, a);
  }

  lemma NoScopesWithin(scopes: seq<string>)
    ensures Within([], scopes)
  {
  }

  /** Registrations with a service token or an assertion do not touch the limiter. */
  lemma VouchedChangesNothing(config: Config, s: State, a: Action)
    requires a.RegisterIdentity?
    ensures forall scopes, requested ::
              RegisterService(config, s, a.r, a.authenticated, scopes, requested, a.id, a.now).0.ceremony == s.ceremony
    ensures forall scopes, requested ::
              RegisterAssertion(config, s, a.r, scopes, requested, a.id, a.now).0.ceremony == s.ceremony
  {
    hide Vouched, AssertionAccepted, RequestedScopes;
    forall scopes, requested
      ensures RegisterService(config, s, a.r, a.authenticated, scopes, requested, a.id, a.now).0.ceremony == s.ceremony
    {
    }
    forall scopes, requested
      ensures RegisterAssertion(config, s, a.r, scopes, requested, a.id, a.now).0.ceremony == s.ceremony
    {
    }
  }

  /** A stored identity is for one protected resource, which is its own normal form. */
  lemma IdentityResource(config: Config, s: State, id: string)
    requires ConfigOk(config) && Inv(config, s) && id in s.identities
    ensures
      var resource := s.identities[id].resource;
      resource.Some? && resource.value != "" && Configured(config, resource.value) == resource && s.identities[id].id == id
  {
    hide Within, BookOk, SignedOk, TokensOk, ClaimsOk;
    assert IdentityOk(config, s.identities[id]);
  }

  lemma ConfiguredIsFixed(config: Config, resource: string)
    requires ConfigOk(config) && Configured(config, resource).Some?
    ensures Configured(config, resource).value != ""
    ensures Configured(config, Configured(config, resource).value) == Configured(config, resource)
  {
  }

  function ClaimFor(config: Config, identity: Identity, r: ClaimRequest, names: Names, now: int): Claim {
    Claim(names.id, identity.id, names.userCodeHash, names.deviceCodeHash, Pending,
          if SplitScope(r.scope) == [] then identity.scopes else SplitScope(r.scope), identity.resource, now,
          now + config.ceremony.claim.expiresInSeconds * 1000, config.ceremony.claim.initialIntervalSeconds, None, 0, None, None, 1)
  }

  /** What starting a claim comes to before its limiter is asked. */
  lemma StartClaimIs(config: Config, s: State, r: ClaimRequest, names: Names, now: int)
    requires ConfigOk(config) && Inv(config, s)
    ensures MayStart(config, s, r, now) ==>
              var (ceremony, reply) := C.Start(config.ceremony, s.ceremony, ClaimFor(config, s.identities[r.identityId], r, names, now), r.rateLimitKey, now);
              StartClaim(config, s, r, names, now) == (s.(ceremony := ceremony), reply)
    ensures !MayStart(config, s, r, now) ==>
              StartClaim(config, s, r, names, now) == (s, Err(
                if !Active(s, r.identityId, now) then InvalidGrant
                else if !Within(RequestedScopes(r.scope, s.identities[r.identityId].scopes), s.identities[r.identityId].scopes) then InvalidScope
                else InvalidTarget))
  {
    hide C.Start, Configured, Within, Inv, ConfigOk, SplitScope;
    if Active(s, r.identityId, now) {
      IdentityResource(config, s, r.identityId);
      if Given(r.resource) && Configured(config, r.resource.value).Some? {
        ConfiguredIsFixed(config, r.resource.value);
      }
    }
  }

  lemma BeginCounts(config: Config, s: State, a: Action)
    requires ConfigOk(config) && Inv(config, s) && a.BeginClaim? && Enabled(config, s, a)
    ensures Counts(config, s, Apply(config, s, a), CountedAs(config, s, a))
  {
    hide L.Take, MayStart, Inv, ConfigOk, StartClaim;
    StartClaimIs(config, s, a.request, a.names, a.now);
    assert C.StartKey(a.request.rateLimitKey) == Prefix(Starting) + a.request.rateLimitKey;
  }

  lemma VerifyCounts(config: Config, s: State, a: Action)
    requires a.VerifyClaimCode? && Enabled(config, s, a)
    ensures Counts(config, s, Apply(config, s, a), CountedAs(config, s, a))
  {
    hide L.Take, C.Perform;
    assert C.VerifyKey(a.rateLimitKey) == Prefix(Verifying) + a.rateLimitKey;
  }

  lemma OthersCountNothing(config: Config, s: State, a: Action)
    requires ConfigOk(config) && Inv(config, s) && Enabled(config, s, a)
    requires !a.RegisterIdentity? && !a.BeginClaim? && !a.VerifyClaimCode?
    ensures Apply(config, s, a).ceremony.buckets == s.ceremony.buckets
  {
    hide Inv, ConfigOk, Exchange, Revoke, IssueAssertion, PollClaim, E.Round, SentTokens;
    match a
    case ExchangeToken(_, _, _, _, _) => ExchangeCountsNothing(config, s, a);
    case RevokeToken(jwt, eventId, ids, now) => RevokeKeepsCeremony(config, s, jwt, eventId, ids, now);
    case SignAssertion(_, _, _, _) => SignKeepsClaims(config, s, a);
    case Poll(hash, now) => PollCountsNothing(config, s, hash, now);
    case _ =>
  }

  lemma ExchangeCountsNothing(config: Config, s: State, a: Action)
    requires ConfigOk(config) && Inv(config, s) && Enabled(config, s, a) && a.ExchangeToken?
    ensures Apply(config, s, a).ceremony.buckets == s.ceremony.buckets
  {
    hide Exchange;
    ExchangeFacts(config, s, a.grant, a.scope, a.resource, a.id, a.now);
  }

  lemma PollCountsNothing(config: Config, s: State, hash: string, now: int)
    ensures PollClaim(config, s, hash, now).0.ceremony.buckets == s.ceremony.buckets
  {
    hide C.Perform;
  }

  lemma RevokeKeepsCeremony(config: Config, s: State, jwt: Jwt, eventId: string, ids: seq<string>, now: int)
    requires |ids| == |s.book.subscribers|
    ensures Revoke(config, s, jwt, eventId, ids, now).ceremony == s.ceremony
  {
    hide RevocationAudience, Announce;
    AudienceIsReadable(config, jwt, now);
  }

  lemma StepCounts(config: Config, s: State, a: Action)
    requires ConfigOk(config) && Inv(config, s) && Enabled(config, s, a)
    ensures Counts(config, s, Apply(config, s, a), CountedAs(config, s, a))
  {
    hide Counts, Inv, ConfigOk, Enabled, Apply;
    if a.RegisterIdentity? {
      RegisterCounts(config, s, a);
    } else if a.BeginClaim? {
      BeginCounts(config, s, a);
    } else if a.VerifyClaimCode? {
      VerifyCounts(config, s, a);
    } else {
      OthersCountNothing(config, s, a);
      NothingCounted(config, s, Apply(config, s, a));
    }
  }

  lemma NothingCounted(config: Config, s: State, s': State)
    requires s'.ceremony.buckets == s.ceremony.buckets
    ensures Counts(config, s, s', None)
  {
  }

  /** In every run the bucket of a caller is the meter of his own calls: nobody else's make a difference. */
  lemma {:induction false} BucketsAreMeters(config: Config, acts: seq<Action>, family: Family, caller: string)
    requires ConfigOk(config) && Legal(config, acts)
    ensures BucketIs(After(config, acts).ceremony.buckets, Prefix(family) + caller,
                     MeterAfter(TimesOf(config, acts, family, caller), LimitOf(config, family), SecondsOf(config, family)))
  {
    hide Inv, ConfigOk, Enabled, Apply, CountedAs, L.Take, MeterAfter;
    if acts == [] {
      MeterOfNone(LimitOf(config, family), SecondsOf(config, family));
    } else {
      var n := |acts| - 1;
      BucketsAreMeters(config, acts[..n], family, caller);
      Reachable(config, acts[..n]);
      var s := After(config, acts[..n]);
      StepCounts(config, s, acts[n]);
      var counted := CountedAs(config, s, acts[n]);
      var times := TimesOf(config, acts[..n], family, caller);
      if counted.Some? {
        var c := counted.value;
        PrefixesDiffer(family, caller, c.family, c.caller);
        if c.family == family && c.caller == caller {
          TakeMeters(s.ceremony.buckets, Prefix(family) + caller, times, LimitOf(config, family), SecondsOf(config, family), c.at);
        } else {
          TakeLeavesOthers(s.ceremony.buckets, Prefix(c.family) + c.caller, LimitOf(config, c.family), SecondsOf(config, c.family), c.at);
          assert times + [] == times;
        }
      } else {
        assert times + [] == times;
      }
    }
  }

  lemma MeterOfNone(limit: int, seconds: int)
    ensures MeterAfter([], limit, seconds) == None
  {
  }

  lemma TakeLeavesOthers(buckets: L.Buckets, key: string, limit: int, seconds: int, at: int)
    ensures
      var buckets' := L.Take(L.Anchored, buckets, key, limit, seconds, at).0;
      forall other :: other != key ==> (other in buckets' <==> other in buckets) && (other in buckets ==> buckets'[other] == buckets[other])
  {
  }

  /** A call of a caller is let through exactly if his meter has room. */
  lemma LimiterAnswers(config: Config, acts: seq<Action>, family: Family, caller: string, at: int)
    requires ConfigOk(config) && Legal(config, acts)
    ensures L.Take(L.Anchored, After(config, acts).ceremony.buckets, Prefix(family) + caller, LimitOf(config, family),
                   SecondsOf(config, family), at).1
            <==> LetThrough(TimesOf(config, acts, family, caller) + [at], LimitOf(config, family), SecondsOf(config, family))
  {
    hide L.Take, After, Legal, LetThrough;
    BucketsAreMeters(config, acts, family, caller);
    TakeMeters(After(config, acts).ceremony.buckets, Prefix(family) + caller, TimesOf(config, acts, family, caller),
               LimitOf(config, family), SecondsOf(config, family), at);
  }

  // --- what the three limited requests answer ---

  /** A pending claim has not been tried yet. */
  ghost predicate PendingIsFresh(claims: Claims) {
    forall id :: id in claims && claims[id].status.Pending? ==>
      claims[id].verificationAttempts == 0 && claims[id].userCodeUsedAt.None?
  }

  lemma PerformKeepsFresh(options: Options, claims: Claims, op: Op, id: string, checkedAt: int, now: int)
    requires PendingIsFresh(claims) && C.WellKeyed(claims)
    ensures PendingIsFresh(C.Perform(options, claims, op, id, checkedAt, now).0)
  {
    hide C.WellKeyed, C.Perform, C.Progressed;
    C.PerformKeepsIndexes(options, claims, op, id, checkedAt, now);
    if id in claims {
      PerformedIsFresh(options, claims, op, id, checkedAt, now);
    }
  }

  lemma PerformedIsFresh(options: Options, claims: Claims, op: Op, id: string, checkedAt: int, now: int)
    requires PendingIsFresh(claims) && C.WellKeyed(claims) && id in claims
    ensures
      var claims' := C.Perform(options, claims, op, id, checkedAt, now).0;
      id in claims' && (claims'[id].status.Pending? ==> claims'[id].verificationAttempts == 0 && claims'[id].userCodeUsedAt.None?)
  {
  }

  lemma ExchangeKeepsFresh(config: Config, s: State, a: Action)
    requires ConfigOk(config) && Inv(config, s) && Enabled(config, s, a) && a.ExchangeToken? && PendingIsFresh(s.ceremony.claims)
    ensures PendingIsFresh(Apply(config, s, a).ceremony.claims)
  {
    hide C.Perform, Verifies, AssertionAccepted, Narrow, Inv, PendingIsFresh, RequestedScopes, Within, OptionalResource;
    InvClaims(config, s);
    assert C.WellKeyed(s.ceremony.claims);
    if a.grant.ClaimGrant? && a.grant.claimGrant.Some? && a.grant.claimGrant.value.Jwt? && a.grant.claimGrant.value.claims.claimId.Some? {
      PerformKeepsFresh(config.ceremony.claim, s.ceremony.claims, Consume, a.grant.claimGrant.value.claims.claimId.value, a.now, a.now);
    }
    if a.grant.ClaimGrant? && a.grant.claimGrant.Some? && Verifies(a.grant.claimGrant.value, config.ownKeys, config.issuer, TokenEndpoint(config), a.now) {
      VerifiesIsReadable(a.grant.claimGrant.value, config.ownKeys, config.issuer, TokenEndpoint(config), a.now);
    }
    if a.grant.Bearer? && a.grant.assertion.Some? && AssertionAccepted(config, s, a.grant.assertion.value, TokenEndpoint(config), a.now) {
      AcceptedIsReadable(config, s, a.grant.assertion.value, TokenEndpoint(config), a.now);
    }
  }

  lemma StepKeepsFresh(config: Config, s: State, a: Action)
    requires ConfigOk(config) && Inv(config, s) && Enabled(config, s, a) && PendingIsFresh(s.ceremony.claims)
    ensures PendingIsFresh(Apply(config, s, a).ceremony.claims)
  {
    hide C.Perform, Exchange, Register, StartClaim, Revoke, E.Round, SentTokens, PendingIsFresh, Inv, L.Take, Registers, IssueAssertion;
    InvClaims(config, s);
    assert C.WellKeyed(s.ceremony.claims);
    match a {
      case RegisterIdentity(r, authenticated, id, now) => RegisterKeepsClaims(config, s, r, authenticated, id, now);
      case BeginClaim(_, _, _) => BeginKeepsFresh(config, s, a);
      case VerifyClaimCode(hash, _, now) =>
        var owner := C.UserCodeOwner(s.ceremony.claims, hash);
        if owner.Some? { PerformKeepsFresh(config.ceremony.claim, s.ceremony.claims, Verify, owner.value, now, now); }
      case DecideClaim(id, approve, now) =>
        PerformKeepsFresh(config.ceremony.claim, s.ceremony.claims, Decide(approve), id, now, now);
      case Poll(hash, now) =>
        var owner := C.DeviceCodeOwner(s.ceremony.claims, hash);
        if owner.Some? { PerformKeepsFresh(config.ceremony.claim, s.ceremony.claims, ClaimRules.Poll, owner.value, now, now); }
      case SignAssertion(identityId, audience, id, now) => SignKeepsClaims(config, s, a);
      case ExchangeToken(_, _, _, _, _) => ExchangeKeepsFresh(config, s, a);
      case RevokeToken(jwt, eventId, ids, now) => RevokeKeepsCeremony(config, s, jwt, eventId, ids, now);
      case Subscribe(_) =>
      case DeliverDue(_, _, _, _) =>
    }
  }

  lemma RegisterKeepsClaims(config: Config, s: State, r: Registration, authenticated: Option<Authenticated>, id: string, now: int)
    requires ConfigOk(config)
    ensures Register(config, s, r, authenticated, id, now).0.ceremony.claims == s.ceremony.claims
  {
    hide Register;
    RegisterFacts(config, s, r, authenticated, id, now);
  }

  lemma SignKeepsClaims(config: Config, s: State, a: Action)
    requires a.SignAssertion? && Enabled(config, s, a)
    ensures Apply(config, s, a).ceremony == s.ceremony
  {
  }

  lemma BeginKeepsFresh(config: Config, s: State, a: Action)
    requires ConfigOk(config) && Inv(config, s) && Enabled(config, s, a) && a.BeginClaim? && PendingIsFresh(s.ceremony.claims)
    ensures PendingIsFresh(Apply(config, s, a).ceremony.claims)
  {
    hide L.Take, MayStart, Inv, ConfigOk, StartClaim;
    StartClaimIs(config, s, a.request, a.names, a.now);
  }

  lemma {:induction false} AlwaysFresh(config: Config, acts: seq<Action>)
    requires ConfigOk(config) && Legal(config, acts)
    ensures PendingIsFresh(After(config, acts).ceremony.claims)
  {
    if acts != [] {
      hide Inv, ConfigOk, Enabled, Apply, PendingIsFresh;
      AlwaysFresh(config, acts[..|acts| - 1]);
      Reachable(config, acts[..|acts| - 1]);
      StepKeepsFresh(config, After(config, acts[..|acts| - 1]), acts[|acts| - 1]);
    } else {
      NoClaimsFresh();
    }
  }

  lemma NoClaimsFresh()
    ensures PendingIsFresh(map[])
  {
  }

  /** The record a verification makes of a claim: found pending in time, overdue, or neither. */
  function Entered(c: Claim, now: int): Claim {
    if c.status.Pending? && now < c.expiresAt then
      c.(status := UserVerified, userCodeUsedAt := Some(now), verificationAttempts := 1, version := c.version + 1)
    else if c.expiresAt <= now && !c.status.Expired? && !(c.status.Approved? && c.grantUsedAt.Some?) then
      c.(status := Expired, version := c.version + 1)
    else c
  }

  lemma EnteredIs(options: Options, claims: Claims, id: string, now: int)
    requires id in claims && PendingIsFresh(claims) && options.maxVerificationAttempts >= 1
    ensures C.Perform(options, claims, Verify, id, now, now) ==
            (claims[id := Entered(claims[id], now)],
             if claims[id].status.Pending? && now < claims[id].expiresAt then Ok(Entered(claims[id], now)) else Err(InvalidGrant))
  {
    assert claims[id := claims[id]] == claims;
  }

  /**
    Entering a code: the calls of the one caller are counted, whatever codes they enter.  One that is not let
    through is refused without a look at the code; of the others a code that belongs to no claim, or to one
    that is not pending in time, gets one and the same answer.
   */
  lemma VerificationAnswers(config: Config, acts: seq<Action>, hash: string, caller: string, now: int)
    requires ConfigOk(config) && Legal(config, acts)
    ensures
      var s := After(config, acts);
      var (ceremony, reply) := C.VerifyUserCode(config.ceremony, s.ceremony, hash, caller, now, now, now);
      var claims := s.ceremony.claims;
      if !LetThrough(TimesOf(config, acts, Verifying, caller) + [now], config.ceremony.claim.maxVerificationAttempts,
                     config.ceremony.verificationWindowSeconds)
      then reply == Err(AccessDenied) && ceremony.claims == claims
      else
        && ((forall id :: id in claims ==> claims[id].userCodeHash != hash) ==> reply == Err(InvalidGrant) && ceremony.claims == claims)
        && (forall id :: id in claims && claims[id].userCodeHash == hash ==>
              && ceremony.claims == claims[id := Entered(claims[id], now)]
              && reply == if claims[id].status.Pending? && now < claims[id].expiresAt then Ok(Entered(claims[id], now)) else Err(InvalidGrant))
  {
    hide Inv, ConfigOk, L.Take, C.Perform, After, Legal, TimesOf, PendingIsFresh, Entered, MeterAfter;
    Reachable(config, acts);
    AlwaysFresh(config, acts);
    LimiterAnswers(config, acts, Verifying, caller, now);
    assert C.VerifyKey(caller) == Prefix(Verifying) + caller;
    var claims := After(config, acts).ceremony.claims;
    InvClaims(config, After(config, acts));
    if config.ceremony.claim.maxVerificationAttempts >= 1 {
      forall id | id in claims && claims[id].userCodeHash == hash ensures C.UserCodeOwner(claims, hash) == Some(id) {
        OneOwner(claims, hash, id);
      }
      if C.UserCodeOwner(claims, hash).Some? {
        EnteredIs(config.ceremony.claim, claims, C.UserCodeOwner(claims, hash).value, now);
      }
    }
  }

  lemma OneOwner(claims: Claims, hash: string, id: string)
    requires C.WellKeyed(claims) && id in claims && claims[id].userCodeHash == hash
    ensures C.UserCodeOwner(claims, hash) == Some(id)
  {
    var owner := C.UserCodeOwner(claims, hash).value;
    assert owner == id || Unrelated(claims[owner], claims[id]);
  }

  /** Starting a claim: who may, for which scopes and resource, and how many the caller may start. */
  lemma StartingAnswers(config: Config, acts: seq<Action>, r: ClaimRequest, names: Names, now: int)
    requires ConfigOk(config) && Legal(config, acts)
    ensures
      var s := After(config, acts);
      var (s', reply) := StartClaim(config, s, r, names, now);
      if !Active(s, r.identityId, now) then reply == Err(InvalidGrant) && s' == s
      else
        var identity := s.identities[r.identityId];
        var scopes := if SplitScope(r.scope) == [] then identity.scopes else SplitScope(r.scope);
        if !Within(scopes, identity.scopes) then reply == Err(InvalidScope) && s' == s
        else if Given(r.resource) && (Configured(config, r.resource.value).None? || Configured(config, r.resource.value) != identity.resource)
        then reply == Err(InvalidTarget) && s' == s
        else if !LetThrough(TimesOf(config, acts, Starting, r.rateLimitKey) + [now], config.ceremony.maxStartsPerWindow,
                            config.ceremony.startWindowSeconds)
        then reply == Err(TemporarilyUnavailable) && s'.ceremony.claims == s.ceremony.claims
        else
          && reply == Ok(Claim(names.id, r.identityId, names.userCodeHash, names.deviceCodeHash, Pending, scopes, identity.resource,
                               now, now + config.ceremony.claim.expiresInSeconds * 1000,
                               config.ceremony.claim.initialIntervalSeconds, None, 0, None, None, 1))
          && s'.ceremony.claims == s.ceremony.claims[names.id := reply.value]
  {
    hide Inv, ConfigOk, L.Take, After, Legal, TimesOf, MeterAfter, StartClaim, Configured, Within, SplitScope;
    Reachable(config, acts);
    LimiterAnswers(config, acts, Starting, r.rateLimitKey, now);
    assert C.StartKey(r.rateLimitKey) == Prefix(Starting) + r.rateLimitKey;
    StartClaimIs(config, After(config, acts), r, names, now);
    if Active(After(config, acts), r.identityId, now) {
      IdentityResource(config, After(config, acts), r.identityId);
    }
  }

  /** Registering without a credential: what is asked for, and how many identities the caller may have. */
  lemma AnonymousAnswers(config: Config, acts: seq<Action>, r: Registration, authenticated: Option<Authenticated>, id: string, now: int)
    requires ConfigOk(config) && Legal(config, acts) && r.kind == Some(Anonymous)
    ensures
      var s := After(config, acts);
      var (s', reply) := Register(config, s, r, authenticated, id, now);
      if !Within(SplitScope(r.scope), config.supportedScopes) then reply == Err(InvalidScope) && s' == s
      else if !ResourceFits(config, r.resource) then reply == Err(InvalidTarget) && s' == s
      else if !LetThrough(TimesOf(config, acts, Registering, r.rateLimitKey) + [now], config.maxRegistrations,
                          config.registrationWindowSeconds)
      then reply == Err(TemporarilyUnavailable) && s'.identities == s.identities
      else
        && reply == Ok(Identity(id, Anonymous, if SplitScope(r.scope) == [] then config.supportedScopes else SplitScope(r.scope),
                                if Given(r.resource) then Configured(config, r.resource.value) else Some(config.defaultResource),
                                r.clientId, None, now, Some(now + config.anonymousSeconds * 1000), None))
        && s'.identities == s.identities[id := reply.value]
  {
    hide L.Take, After, Legal, TimesOf, MeterAfter, Configured, Within, SplitScope, Vouched, AssertionAccepted;
    LimiterAnswers(config, acts, Registering, r.rateLimitKey, now);
    assert RegisterKey(r.rateLimitKey) == Prefix(Registering) + r.rateLimitKey;
    NoScopesWithin(config.supportedScopes);
  }
}
