/** `ClaimCeremony` as the class it is, over the in-memory repository and limiter. */
module ClaimCeremonyClass {
  import opened Wrappers
  import opened ClaimRules
  import opened ClaimStateModel
  import opened ClaimState
  import opened ClaimCeremonyModel
  import opened RateLimit

  /** After a write that answers with an error even if it succeeds. */
  function FailedOr(written: Reply, error: OAuthError): Reply {
    if written.Err? then written else Err(error)
  }

  class ClaimCeremony {
    const claims: InMemoryClaims
    const limiter: FixedWindowRateLimiter
    const options: CeremonyOptions

    constructor (claims: InMemoryClaims, limiter: FixedWindowRateLimiter, options: CeremonyOptions)
      ensures this.claims == claims && this.limiter == limiter && this.options == options
    {
      this.claims, this.limiter, this.options := claims, limiter, options;
    }

    function State(): Ceremony
      reads claims, limiter
    {
      Ceremony(claims.claims, limiter.buckets)
    }

    ghost predicate Valid()
      reads claims
    {
      WellKeyed(claims.claims)
    }

    /** `now` is the one reading; the id and the code hashes are generated. */
    method Start(identityId: string, scopes: seq<string>, resource: Option<string>, rateLimitKey: string, now: int,
                 id: string, userCodeHash: string, deviceCodeHash: string) returns (reply: Reply)
      requires Valid() && Unused(claims.claims, NewClaim(options.claim, id, identityId, userCodeHash, deviceCodeHash, scopes, resource, now))
      modifies claims, limiter
      ensures Valid()
      ensures var c := NewClaim(options.claim, id, identityId, userCodeHash, deviceCodeHash, scopes, resource, now);
              (State(), reply) == ClaimCeremonyModel.Start(options, old(State()), c, rateLimitKey, now)
    {
      var allowed := limiter.Take(StartKey(rateLimitKey), options.maxStartsPerWindow, options.startWindowSeconds, now);
      if !allowed {
        return Err(TemporarilyUnavailable);
      }
      var claim := Claim(id, identityId, userCodeHash, deviceCodeHash, Pending, scopes, resource, now,
                         now + options.claim.expiresInSeconds * 1000, options.claim.initialIntervalSeconds,
                         None, 0, None, None, 1);
      claims.CreateClaim(claim);
      return Ok(claim);
    }

    method VerifyUserCode(hash: string, rateLimitKey: string, enteredAt: int, checkedAt: int, now: int) returns (reply: Reply)
      requires Valid()
      modifies claims, limiter
      ensures Valid()
      ensures (State(), reply) ==
              ClaimCeremonyModel.VerifyUserCode(options, old(State()), hash, rateLimitKey, enteredAt, checkedAt, now)
    {
      hide NeedsExpiry, Progressed, Unrelated;
      ghost var before := claims.claims;
      var allowed := limiter.Take(VerifyKey(rateLimitKey), options.claim.maxVerificationAttempts,
                                  options.verificationWindowSeconds, enteredAt);
      if !allowed {
        return Err(AccessDenied);
      }
      var found := claims.FindByUserCodeHash(hash);
      FoundIsOwner(before, hash, found);
      if found.None? {
        return Err(InvalidGrant);
      }
      PerformKeepsIndexes(options.claim, before, Verify, found.value.id, checkedAt, now);
      var current := ExpireIfNeeded(found.value, checkedAt);
      if current.Err? {
        return current;
      }
      var c := current.value;
      if !c.status.Pending? || c.userCodeUsedAt.Some? {
        return Err(InvalidGrant);
      }
      if c.verificationAttempts >= options.claim.maxVerificationAttempts {
        var denied := Transition(c, c.(status := Denied, userCodeUsedAt := Some(now)));
        return FailedOr(denied, AccessDenied);
      }
      reply := Transition(c, c.(status := UserVerified, userCodeUsedAt := Some(now),
                                verificationAttempts := c.verificationAttempts + 1));
    }

    method Decide(id: string, approve: bool, checkedAt: int, now: int) returns (reply: Reply)
      requires Valid()
      modifies claims
      ensures Valid()
      ensures (claims.claims, reply) == Perform(options.claim, old(claims.claims), Op.Decide(approve), id, checkedAt, now)
    {
      hide NeedsExpiry, Progressed, Unrelated;
      PerformKeepsIndexes(options.claim, claims.claims, Op.Decide(approve), id, checkedAt, now);
      var found := claims.FindClaimById(id);
      if found.None? {
        return Err(InvalidGrant);
      }
      var current := ExpireIfNeeded(found.value, checkedAt);
      if current.Err? {
        return current;
      }
      if !current.value.status.UserVerified? {
        return Err(InvalidGrant);
      }
      reply := Transition(current.value, current.value.(status := if approve then Approved else Denied));
    }

    /** An accepted poll of a claim that is not approved yet answers "pending"; here it answers the record. */
    method Poll(hash: string, checkedAt: int, now: int) returns (reply: Reply)
      requires Valid()
      modifies claims
      ensures Valid()
      ensures match DeviceCodeOwner(old(claims.claims), hash)
              case None => claims.claims == old(claims.claims) && reply == Err(InvalidGrant)
              case Some(id) => (claims.claims, reply) == Perform(options.claim, old(claims.claims), Op.Poll, id, checkedAt, now)
    {
      hide NeedsExpiry, Progressed, Unrelated;
      ghost var before := claims.claims;
      var found := claims.FindByDeviceCodeHash(hash);
      FoundIsOwner(before, hash, found);
      if found.None? {
        return Err(InvalidGrant);
      }
      PerformKeepsIndexes(options.claim, before, Op.Poll, found.value.id, checkedAt, now);
      var current := ExpireIfNeeded(found.value, checkedAt);
      if current.Err? {
        return current;
      }
      var c := current.value;
      if c.status.Expired? {
        return Err(ExpiredToken);
      }
      if c.status.Denied? {
        return Err(AccessDenied);
      }
      if c.lastPollAt.Some? && now - c.lastPollAt.value < c.intervalSeconds * 1000 {
        var slowed := Transition(c, c.(intervalSeconds := c.intervalSeconds + 5));
        return FailedOr(slowed, SlowDown);
      }
      reply := Transition(c, c.(lastPollAt := Some(now)));
    }

    method ConsumeApprovedClaim(id: string, checkedAt: int, now: int) returns (reply: Reply)
      requires Valid()
      modifies claims
      ensures Valid()
      ensures (claims.claims, reply) == Perform(options.claim, old(claims.claims), Consume, id, checkedAt, now)
    {
      hide NeedsExpiry, Progressed, Unrelated;
      PerformKeepsIndexes(options.claim, claims.claims, Consume, id, checkedAt, now);
      var found := claims.FindClaimById(id);
      if found.None? {
        return Err(InvalidGrant);
      }
      var current := ExpireIfNeeded(found.value, checkedAt);
      if current.Err? {
        return current;
      }
      var c := current.value;
      if c.status.Expired? {
        return Err(ExpiredToken);
      }
      if !c.status.Approved? || c.grantUsedAt.Some? {
        return Err(InvalidGrant);
      }
      reply := Transition(c, c.(grantUsedAt := Some(now)));
    }

    method ExpireIfNeeded(c: Claim, checkedAt: int) returns (current: Reply)
      requires c.id in claims.claims && claims.claims[c.id] == c
      modifies claims
      ensures current == Ok(Current(c, checkedAt))
      ensures claims.claims == if NeedsExpiry(c, checkedAt) then old(claims.claims)[c.id := Expire(c)] else old(claims.claims)
    {
      if c.expiresAt > checkedAt || c.status.Expired? {
        return Ok(c);
      }
      if c.status.Approved? && c.grantUsedAt.Some? {
        return Ok(c);
      }
      current := Transition(c, c.(status := Expired));
    }

    /** The compare-and-set behind every write, with the answers of a write that lost. */
    method Transition(current: Claim, changed: Claim) returns (reply: Reply)
      requires changed.id == current.id
      modifies claims
      ensures
        var next := WithVersion(current, changed);
        if CasApplies(old(claims.claims), current, next) then
          claims.claims == old(claims.claims)[current.id := next] && reply == Ok(next)
        else
          && claims.claims == old(claims.claims)
          && reply == Err(if current.id in old(claims.claims) then TemporarilyUnavailable else InvalidGrant)
    {
      var next := WithVersion(current, changed);
      var swapped := claims.CompareAndSet(current, next);
      if swapped {
        return Ok(next);
      }
      var refreshed := claims.FindClaimById(current.id);
      return Err(if refreshed.None? then InvalidGrant else TemporarilyUnavailable);
    }
  }

  /** With distinct hashes, whatever a lookup finds is the owner of the code. */
  lemma FoundIsOwner(claims: Claims, hash: string, found: Option<Claim>)
    requires WellKeyed(claims)
    ensures FoundByUserCode(claims, hash, found) ==>
              UserCodeOwner(claims, hash) == if found.Some? then Some(found.value.id) else None
    ensures FoundByDeviceCode(claims, hash, found) ==>
              DeviceCodeOwner(claims, hash) == if found.Some? then Some(found.value.id) else None
  {
    var user, device := UserCodeOwner(claims, hash), DeviceCodeOwner(claims, hash);
    if found.Some? && user.Some? && found.value.id in claims && found.value.id != user.value {
      assert Unrelated(claims[found.value.id], claims[user.value]);
    }
    if found.Some? && device.Some? && found.value.id in claims && found.value.id != device.value {
      assert Unrelated(claims[found.value.id], claims[device.value]);
    }
  }
}
