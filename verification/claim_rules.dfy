/** Claim records and what each operation of the ceremony does to one (packages/service/src/claim.ts). */
module ClaimRules {
  import opened Wrappers

  datatype ClaimStatus = Pending | UserVerified | Approved | Denied | Expired

  datatype OAuthError =
    | InvalidRequest
    | InvalidGrant
    | InvalidClient
    | InvalidScope
    | InvalidTarget
    | InvalidToken
    | UnsupportedGrantType
    | AccessDenied
    | ExpiredToken
    | SlowDown
    | TemporarilyUnavailable

  /** Times are milliseconds, intervals seconds. */
  datatype Claim = Claim(
    id: string,
    identityId: string,
    userCodeHash: string,
    deviceCodeHash: string,
    status: ClaimStatus,
    scopes: seq<string>,
    resource: Option<string>,
    createdAt: int,
    expiresAt: int,
    intervalSeconds: int,
    lastPollAt: Option<int>,
    verificationAttempts: int,
    userCodeUsedAt: Option<int>,
    grantUsedAt: Option<int>,
    version: int)

  datatype Options = Options(expiresInSeconds: int, initialIntervalSeconds: int, maxVerificationAttempts: int)

  datatype Op = Verify | Decide(approve: bool) | Poll | Consume

  /** The answer of an operation before its write: an error, or a record to write and what follows. */
  datatype Decision = Refuse(error: OAuthError) | Write(next: Claim, reply: Option<OAuthError>)

  function NewClaim(options: Options, id: string, identityId: string, userCodeHash: string, deviceCodeHash: string,
                    scopes: seq<string>, resource: Option<string>, now: int): Claim
  {
    Claim(id, identityId, userCodeHash, deviceCodeHash, Pending, scopes, resource, now,
          now + options.expiresInSeconds * 1000, options.initialIntervalSeconds, None, 0, None, None, 1)
  }

  function WithVersion(before: Claim, changed: Claim): Claim {
    changed.(version := before.version + 1)
  }

  /** `expireIfNeeded`: past its deadline, not expired yet, and not an approved claim already used. */
  predicate NeedsExpiry(c: Claim, now: int) {
    !(c.expiresAt > now || c.status.Expired?) && !(c.status.Approved? && c.grantUsedAt.Some?)
  }

  function Expire(c: Claim): Claim {
    WithVersion(c, c.(status := Expired))
  }

  predicate TooEarly(c: Claim, now: int) {
    c.lastPollAt.Some? && now - c.lastPollAt.value < c.intervalSeconds * 1000
  }

  function Answer(options: Options, op: Op, c: Claim, now: int): Decision {
    match op
    case Verify =>
      if !c.status.Pending? || c.userCodeUsedAt.Some? then Refuse(InvalidGrant)
      else if c.verificationAttempts >= options.maxVerificationAttempts then
        Write(WithVersion(c, c.(status := Denied, userCodeUsedAt := Some(now))), Some(AccessDenied))
      else
        Write(WithVersion(c, c.(status := UserVerified, userCodeUsedAt := Some(now),
                                verificationAttempts := c.verificationAttempts + 1)), None)
    case Decide(approve) =>
      if !c.status.UserVerified? then Refuse(InvalidGrant)
      else Write(WithVersion(c, c.(status := if approve then Approved else Denied)), None)
    case Poll =>
      if c.status.Expired? then Refuse(ExpiredToken)
      else if c.status.Denied? then Refuse(AccessDenied)
      else if TooEarly(c, now) then
        Write(WithVersion(c, c.(intervalSeconds := c.intervalSeconds + 5)), Some(SlowDown))
      else Write(WithVersion(c, c.(lastPollAt := Some(now))), None)
    case Consume =>
      if c.status.Expired? then Refuse(ExpiredToken)
      else if !c.status.Approved? || c.grantUsedAt.Some? then Refuse(InvalidGrant)
      else Write(WithVersion(c, c.(grantUsedAt := Some(now))), None)
  }

  /** The edges of the ceremony, each raising the version by one and leaving everything else alone. */
  predicate LegalWrite(c: Claim, n: Claim, now: int) {
    n.version == c.version + 1 &&
    (var same := n.(version := c.version);
     || (c.status.Pending? && c.userCodeUsedAt.None? &&
         same == c.(status := UserVerified, userCodeUsedAt := Some(now), verificationAttempts := c.verificationAttempts + 1))
     || (c.status.UserVerified? && (same == c.(status := Approved) || same == c.(status := Denied)))
     || (!c.status.Expired? && c.grantUsedAt.None? && c.expiresAt <= now && same == c.(status := Expired))
     || (!c.status.Expired? && !c.status.Denied? && TooEarly(c, now) && same == c.(intervalSeconds := c.intervalSeconds + 5))
     || (!c.status.Expired? && !c.status.Denied? && !TooEarly(c, now) && same == c.(lastPollAt := Some(now)))
     || (c.status.Approved? && c.grantUsedAt.None? && same == c.(grantUsedAt := Some(now))))
  }
}
