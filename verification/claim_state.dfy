/** The two claim repositories as the classes they are, and the lockstep that shows they agree. */
module ClaimState {
  import opened Wrappers
  import opened ClaimRules
  import opened ClaimStateModel

  // --- what a repository answers, in terms of the claims it holds ---

  ghost predicate FoundByUserCode(claims: Claims, hash: string, r: Option<Claim>) {
    match r
    case None => forall id :: id in claims ==> claims[id].userCodeHash != hash
    case Some(c) => c.id in claims && claims[c.id] == c && c.userCodeHash == hash
  }

  ghost predicate FoundByDeviceCode(claims: Claims, hash: string, r: Option<Claim>) {
    match r
    case None => forall id :: id in claims ==> claims[id].deviceCodeHash != hash
    case Some(c) => c.id in claims && claims[c.id] == c && c.deviceCodeHash == hash
  }

  /** `compareAndSet` of the in-memory store. */
  predicate CasApplies(claims: Claims, previous: Claim, next: Claim) {
    previous.id in claims && claims[previous.id].version == previous.version && next.version == previous.version + 1
  }

  /** A record that was read from the repository: the stored one if the versions agree. */
  ghost predicate ReadEarlier(claims: Claims, previous: Claim) {
    previous.id in claims && claims[previous.id].version == previous.version ==> claims[previous.id] == previous
  }

  /** The changes the ceremony makes: never the id, the hashes or the deadline. */
  predicate KeepsIndexes(previous: Claim, next: Claim) {
    && next.id == previous.id && next.userCodeHash == previous.userCodeHash
    && next.deviceCodeHash == previous.deviceCodeHash && next.expiresAt == previous.expiresAt
  }

  // --- the in-memory store ---

  class InMemoryClaims {
    var claims: Claims

    constructor ()
      ensures claims == map[]
    {
      claims := map[];
    }

    method CreateClaim(c: Claim)
      modifies this
      ensures claims == old(claims)[c.id := c]
    {
      claims := claims[c.id := c];
    }

    method FindClaimById(id: string) returns (r: Option<Claim>)
      ensures r == if id in claims then Some(claims[id]) else None
    {
      r := if id in claims then Some(claims[id]) else None;
    }

    method FindByUserCodeHash(hash: string) returns (r: Option<Claim>)
      requires forall id :: id in claims ==> claims[id].id == id
      ensures FoundByUserCode(claims, hash, r)
    {
      var pending := claims.Keys;
      while pending != {}
        invariant pending <= claims.Keys
        invariant forall id :: id in claims && id !in pending ==> claims[id].userCodeHash != hash
        decreases pending
      {
        var id :| id in pending;
        if claims[id].userCodeHash == hash {
          return Some(claims[id]);
        }
        pending := pending - {id};
      }
      return None;
    }

    method FindByDeviceCodeHash(hash: string) returns (r: Option<Claim>)
      requires forall id :: id in claims ==> claims[id].id == id
      ensures FoundByDeviceCode(claims, hash, r)
    {
      var pending := claims.Keys;
      while pending != {}
        invariant pending <= claims.Keys
        invariant forall id :: id in claims && id !in pending ==> claims[id].deviceCodeHash != hash
        decreases pending
      {
        var id :| id in pending;
        if claims[id].deviceCodeHash == hash {
          return Some(claims[id]);
        }
        pending := pending - {id};
      }
      return None;
    }

    method CompareAndSet(previous: Claim, next: Claim) returns (swapped: bool)
      modifies this
      ensures swapped == CasApplies(old(claims), previous, next)
      ensures claims == if swapped then old(claims)[next.id := next] else old(claims)
    {
      if previous.id !in claims || claims[previous.id].version != previous.version ||
         next.version != previous.version + 1
      {
        return false;
      }
      claims := claims[next.id := next];
      return true;
    }
  }

  // --- the durable object ---

  class DurableObjectClaimState {
    var storage: Storage
    var alarm: Option<int>
    ghost var ids: seq<string>
    ghost var claims: Claims

    ghost predicate Valid()
      reads this
    {
      Represents(storage, alarm, ids, claims)
    }

    /** The alarm may just have fired, so nothing is known about it. */
    ghost predicate ValidButAlarm()
      reads this
    {
      && WellFormed(ids, claims) && Indexed(storage, claims) && NoStrays(storage, claims)
      && Administered(storage, if ids == [] then None else Some(MinExpiry(ids, claims)), ids, claims)
    }

    constructor ()
      ensures Valid() && claims == map[]
    {
      storage, alarm, ids, claims := map[], None, [], map[];
    }

    /**
      Refuses a claim one of whose three keys is taken; otherwise writes all five entries.  With a usable
      id that is a claim whose id or one of whose hashes is in use; with any other id the write spoils the
      storage.
     */
    method CreateClaim(c: Claim) returns (created: bool)
      requires Valid()
      modifies this
      ensures created <==> !Taken(old(storage), c)
      ensures storage == if created then Created(old(storage), old(ids), c, NextAlarm(old(ids), old(claims), c)) else old(storage)
      ensures alarm == if created then Some(NextAlarm(old(ids), old(claims), c)) else old(alarm)
      ensures GoodId(c.id) ==> Valid() && (created <==> Unused(old(claims), c))
      ensures claims == if created && GoodId(c.id) then old(claims)[c.id := c] else old(claims)
      ensures created && !GoodId(c.id) ==> forall ids, claims :: !Represents(storage, alarm, ids, claims)
      ensures !created ==> Valid()
    {
      hide ClaimKey, UserKey, DeviceKey, ActiveIdsKey, NextExpiryKey, GoodId, MinExpiry, Indexed, NoStrays, WellFormed, Created, Unrelated, Unused, Truthy;
      KeysAreFound(storage, alarm, ids, claims);
      if GoodId(c.id) {
        Conflicts(storage, alarm, ids, claims, c);
      }
      if Truthy(storage, ClaimKey(c.id)) || Truthy(storage, UserKey(c.userCodeHash)) || Truthy(storage, DeviceKey(c.deviceCodeHash)) {
        return false;
      }
      ghost var next := NextAlarm(ids, claims, c);
      assert Administered(storage, alarm, ids, claims);
      var activeIds := if ActiveIdsKey() in storage && storage[ActiveIdsKey()].IdsValue? then storage[ActiveIdsKey()].ids else [];
      var known := NextExpiryKey() in storage && storage[NextExpiryKey()].TimeValue?;
      var nextExpiry := if known then storage[NextExpiryKey()].at else c.expiresAt;
      var earliest := if nextExpiry <= c.expiresAt then nextExpiry else c.expiresAt;
      assert activeIds == ids && earliest == next;
      ghost var before := storage;
      storage := Created(storage, activeIds, c, earliest);
      if !known || c.expiresAt < nextExpiry {
        alarm := Some(c.expiresAt);
      }
      if GoodId(c.id) {
        CreateRepresents(before, old(alarm), ids, claims, c);
        ids, claims := ids + [c.id], claims[c.id := c];
      } else {
        forall ids', claims' ensures !Represents(storage, alarm, ids', claims') {
          UnsafeIdSpoils(before, activeIds, c, earliest, alarm, ids', claims');
        }
      }
      return true;
    }

    /** Whatever is stored under the key of the id; for a usable id that is the claim or nothing. */
    method FindClaimById(id: string) returns (r: Option<Value>)
      requires Valid()
      ensures GoodId(id) ==> r == if id in claims then Some(ClaimValue(claims[id])) else None
    {
      if GoodId(id) {
        LookUpId(storage, alarm, ids, claims, id);
      }
      r := if ClaimKey(id) in storage then Some(storage[ClaimKey(id)]) else None;
    }

    method FindByUserCodeHash(hash: string) returns (r: Option<Claim>)
      requires Valid()
      ensures FoundByUserCode(claims, hash, r)
    {
      LookUpUserHash(storage, alarm, ids, claims, hash);
      if UserKey(hash) !in storage {
        return None;
      }
      var id := storage[UserKey(hash)].id;
      LookUpId(storage, alarm, ids, claims, id);
      var found := FindClaimById(id);
      return Some(found.value.claim);
    }

    method FindByDeviceCodeHash(hash: string) returns (r: Option<Claim>)
      requires Valid()
      ensures FoundByDeviceCode(claims, hash, r)
    {
      LookUpDeviceHash(storage, alarm, ids, claims, hash);
      if DeviceKey(hash) !in storage {
        return None;
      }
      var id := storage[DeviceKey(hash)].id;
      LookUpId(storage, alarm, ids, claims, id);
      var found := FindClaimById(id);
      return Some(found.value.claim);
    }

    /** A swap that moves the deadline keeps the records and indexes exact, and the alarm only if the earliest one stays. */
    method CompareAndSet(previous: Claim, next: Claim) returns (swapped: bool)
      requires Valid()
      modifies this
      ensures swapped <==>
                && CasApplies(old(claims), previous, next)
                && old(claims)[previous.id].userCodeHash == previous.userCodeHash
                && old(claims)[previous.id].deviceCodeHash == previous.deviceCodeHash
                && next.id == previous.id && next.userCodeHash == previous.userCodeHash
                && next.deviceCodeHash == previous.deviceCodeHash
      ensures claims == if swapped then old(claims)[next.id := next] else old(claims)
      ensures storage == if swapped then old(storage)[ClaimKey(next.id) := ClaimValue(next)] else old(storage)
      ensures alarm == old(alarm) && ids == old(ids)
      ensures WellFormed(ids, claims) && Indexed(storage, claims) && NoStrays(storage, claims)
      ensures Valid() <==> ids == [] || MinExpiry(ids, claims) == MinExpiry(ids, old(claims))
      ensures swapped && next.expiresAt == old(claims)[previous.id].expiresAt ==> Valid()
    {
      hide ClaimKey, GoodId, Indexed, NoStrays, Administered, WellFormed, MinExpiry;
      KeysAreFound(storage, alarm, ids, claims);
      RecordsAreClaims(storage, alarm, ids, claims, previous.id);
      if !Truthy(storage, ClaimKey(previous.id)) || !storage[ClaimKey(previous.id)].ClaimValue? {
        return false;
      }
      var stored := storage[ClaimKey(previous.id)].claim;
      if stored.version != previous.version || stored.userCodeHash != previous.userCodeHash ||
         stored.deviceCodeHash != previous.deviceCodeHash || next.id != previous.id ||
         next.userCodeHash != previous.userCodeHash || next.deviceCodeHash != previous.deviceCodeHash ||
         next.version != previous.version + 1
      {
        return false;
      }
      KnownAreListed(ids, claims, next);
      ReplaceRepresentsIff(storage, alarm, ids, claims, next);
      if next.expiresAt == claims[next.id].expiresAt {
        MinExpirySame(ids, claims, claims[next.id := next]);
      }
      storage := storage[ClaimKey(next.id) := ClaimValue(next)];
      claims := claims[next.id := next];
      return true;
    }

    /** Removes exactly the claims past their deadline with their index keys, and re-arms or deletes the alarm. */
    method RemoveExpiredClaims(now: int) returns (removed: nat)
      requires ValidButAlarm()
      modifies this
      ensures Valid()
      ensures claims == LiveClaims(old(claims), now)
      ensures removed == |old(ids)| - |ids|
    {
      if ActiveIdsKey() !in storage || storage[ActiveIdsKey()].ids == [] {
        alarm := None;
        assert ids == [] && claims == map[];
        assert LiveClaims(claims, now) == map[];
        return 0;
      }
      var claimIds := storage[ActiveIdsKey()].ids;
      assert claimIds == ids;
      ghost var before, known := storage, claims;
      var remaining := DeleteExpired(claimIds, now);
      SweptRepresents(before, ids, claims, now);
      removed := |claimIds| - |remaining|;
      ids, claims := LiveIds(ids, claims, now), LiveClaims(claims, now);
      if remaining == [] {
        storage := storage - {ActiveIdsKey(), NextExpiryKey()};
        alarm := None;
        return;
      }
      var earliest := EarliestExpiry(remaining, known);
      storage := storage[ActiveIdsKey() := IdsValue(remaining)][NextExpiryKey() := TimeValue(earliest)];
      alarm := Some(earliest);
    }

    /** Reads every listed claim and deletes the keys of the expired ones. */
    method DeleteExpired(claimIds: seq<string>, now: int) returns (remaining: seq<string>)
      requires claimIds == ids && WellFormed(ids, claims) && Indexed(storage, claims)
      modifies this`storage
      ensures remaining == LiveIds(ids, claims, now) && |remaining| <= |claimIds|
      ensures storage == old(storage) - DoomedKeys(ids, claims, now)
      ensures forall id :: id in remaining ==> id in claims && ClaimKey(id) in storage && storage[ClaimKey(id)] == ClaimValue(claims[id])
    {
      hide ClaimKey, KeysOf, GoodId, Indexed, WellFormed, IndexedAt;
      ListedAreKnown(ids, claims);
      remaining := [];
      ghost var before := storage;
      for i := 0 to |claimIds|
        invariant remaining == LiveIds(ids[..i], claims, now) && |remaining| <= i
        invariant storage == before - DoomedKeys(ids[..i], claims, now)
        invariant forall id :: id in remaining ==> id in claims
      {
        assert ids[..i + 1][..i] == ids[..i];
        NotYetDeleted(before, ids, claims, now, i);
        var c := storage[ClaimKey(claimIds[i])].claim;
        if c.expiresAt <= now {
          storage := storage - KeysOf(c);
        } else {
          remaining := remaining + [c.id];
        }
      }
      assert ids[..|ids|] == ids;
      LiveIdsAre(ids, claims, now);
      forall id | id in remaining ensures ClaimKey(id) in storage && storage[ClaimKey(id)] == ClaimValue(claims[id]) {
        SurvivorKept(before, ids, claims, now, id);
      }
    }

    method EarliestExpiry(remaining: seq<string>, ghost known: Claims) returns (earliest: int)
      requires remaining != []
      requires forall id :: id in remaining ==>
                 id in known && ClaimKey(id) in storage && storage[ClaimKey(id)] == ClaimValue(known[id])
      ensures earliest == MinExpiry(remaining, known)
    {
      earliest := storage[ClaimKey(remaining[0])].claim.expiresAt;
      assert remaining[..1] == [remaining[0]];
      for i := 1 to |remaining|
        invariant earliest == MinExpiry(remaining[..i], known)
      {
        assert remaining[..i + 1][..i] == remaining[..i];
        var expiresAt := storage[ClaimKey(remaining[i])].claim.expiresAt;
        if expiresAt < earliest {
          earliest := expiresAt;
        }
      }
      assert remaining[..|remaining|] == remaining;
    }
  }

  lemma KeysAreFound(storage: Storage, alarm: Option<int>, ids: seq<string>, claims: Claims)
    requires Represents(storage, alarm, ids, claims)
    ensures forall id :: id in ids ==> id in claims
  {
  }

  lemma ListedAreKnown(ids: seq<string>, claims: Claims)
    requires WellFormed(ids, claims)
    ensures forall i :: 0 <= i < |ids| ==> ids[i] in claims && claims[ids[i]].id == ids[i]
    ensures forall id :: id in ids ==> id in claims
    ensures forall i, j :: 0 <= i < j < |ids| ==> ids[i] != ids[j]
  {
    hide GoodId, Unrelated;
  }

  /** A claim record under the key of any id is the claim with that id. */
  lemma RecordsAreClaims(storage: Storage, alarm: Option<int>, ids: seq<string>, claims: Claims, id: string)
    requires Represents(storage, alarm, ids, claims)
    ensures id in claims <==> ClaimKey(id) in storage && storage[ClaimKey(id)].ClaimValue?
    ensures id in claims ==> storage[ClaimKey(id)] == ClaimValue(claims[id])
  {
    hide ClaimKey, UserKey, DeviceKey, ActiveIdsKey, NextExpiryKey, GoodId, MinExpiry, IndexedAt, Indexed, NoStrays;
    if id in claims {
      StoredUnderKey(ids, storage, claims, id);
    } else if ClaimKey(id) in storage && ClaimKey(id) != ActiveIdsKey() && ClaimKey(id) != NextExpiryKey() {
      var owner := KeyOwner(storage, claims, ClaimKey(id));
      HasGoodId(ids, claims, owner);
      ClaimKeyIsNew(owner, id);
      FoundThroughCodes(storage, ids, claims, owner);
    }
  }

  lemma KnownAreListed(ids: seq<string>, claims: Claims, next: Claim)
    requires WellFormed(ids, claims) && next.id in claims
    ensures ids != [] && forall id :: id in ids ==> id in claims && id in claims[next.id := next]
  {
  }

  lemma Conflicts(storage: Storage, alarm: Option<int>, ids: seq<string>, claims: Claims, c: Claim)
    requires Represents(storage, alarm, ids, claims) && GoodId(c.id)
    ensures (ClaimKey(c.id) in storage || UserKey(c.userCodeHash) in storage || DeviceKey(c.deviceCodeHash) in storage)
            <==> !Unused(claims, c)
    ensures Taken(storage, c) <==> !Unused(claims, c)
    ensures Unused(claims, c) ==> c.id !in claims && forall id :: id in claims ==> Unrelated(claims[id], c)
  {
    hide ClaimKey, UserKey, DeviceKey, GoodId, Indexed, NoStrays, Administered;
    LookUpId(storage, alarm, ids, claims, c.id);
    LookUpUserHash(storage, alarm, ids, claims, c.userCodeHash);
    LookUpDeviceHash(storage, alarm, ids, claims, c.deviceCodeHash);
    if UserKey(c.userCodeHash) in storage {
      HasGoodId(ids, claims, storage[UserKey(c.userCodeHash)].id);
    }
    if DeviceKey(c.deviceCodeHash) in storage {
      HasGoodId(ids, claims, storage[DeviceKey(c.deviceCodeHash)].id);
    }
  }

  /** While the listed claims are deleted one by one, the next one is still stored. */
  lemma NotYetDeleted(before: Storage, ids: seq<string>, claims: Claims, now: int, i: nat)
    requires WellFormed(ids, claims) && Indexed(before, claims) && i < |ids|
    ensures
      var kept := before - DoomedKeys(ids[..i], claims, now);
      ClaimKey(ids[i]) in kept && kept[ClaimKey(ids[i])] == ClaimValue(claims[ids[i]])
  {
    hide ClaimKey, UserKey, DeviceKey, GoodId, DoomedKeys;
    var c := claims[ids[i]];
    assert IndexedAt(before, c);
    DoomedKeysAre(ids[..i], claims, now, ClaimKey(c.id));
    forall other | other in ids[..i] ensures ClaimKey(c.id) !in KeysOf(claims[other]) {
      assert other in ids && other != ids[i];
      KeysDisjoint(c, claims[other]);
    }
  }

  lemma SurvivorKept(before: Storage, ids: seq<string>, claims: Claims, now: int, id: string)
    requires WellFormed(ids, claims) && Indexed(before, claims) && id in claims && Live(claims[id], now)
    ensures
      var kept := before - DoomedKeys(ids, claims, now);
      ClaimKey(id) in kept && kept[ClaimKey(id)] == ClaimValue(claims[id])
  {
    hide ClaimKey, UserKey, DeviceKey, GoodId, DoomedKeys;
    var c := claims[id];
    assert IndexedAt(before, c);
    DoomedKeysAre(ids, claims, now, ClaimKey(c.id));
    forall other | other in ids && !Live(claims[other], now) ensures ClaimKey(c.id) !in KeysOf(claims[other]) {
      KeysDisjoint(c, claims[other]);
    }
  }

  // --- lockstep ---

  datatype RepositoryOp =
    | Create(claim: Claim)
    | ById(id: string)
    | ByUserCode(hash: string)
    | ByDeviceCode(hash: string)
    | Swap(previous: Claim, next: Claim)

  /** The calls the ceremony makes: fresh claims with unused hashes, and writes from a record read earlier. */
  ghost predicate CeremonyCall(claims: Claims, op: RepositoryOp) {
    match op
    case Create(c) => GoodId(c.id) && Unused(claims, c)
    case ById(id) => GoodId(id)
    case Swap(previous, next) => GoodId(previous.id) && ReadEarlier(claims, previous) && KeepsIndexes(previous, next)
    case _ => true
  }

  /** Given equal contents both repositories give equal answers and end with equal contents. */
  method Lockstep(d: DurableObjectClaimState, m: InMemoryClaims, op: RepositoryOp)
    returns (swapped: (bool, bool), found: (Option<Claim>, Option<Claim>))
    requires d.Valid() && d.claims == m.claims && CeremonyCall(m.claims, op)
    modifies d, m
    ensures d.Valid() && d.claims == m.claims
    ensures swapped.0 == swapped.1 && found.0 == found.1
  {
    swapped, found := (false, false), (None, None);
    match op {
      case Create(c) =>
        var created := d.CreateClaim(c);
        m.CreateClaim(c);
        swapped := (created, true);
      case ById(id) =>
        var a := d.FindClaimById(id);
        var b := m.FindClaimById(id);
        found := (if a.Some? then Some(a.value.claim) else None, b);
      case ByUserCode(hash) =>
        var a := d.FindByUserCodeHash(hash);
        var b := m.FindByUserCodeHash(hash);
        found := (a, b);
      case ByDeviceCode(hash) =>
        var a := d.FindByDeviceCodeHash(hash);
        var b := m.FindByDeviceCodeHash(hash);
        found := (a, b);
      case Swap(previous, next) =>
        var a := d.CompareAndSet(previous, next);
        var b := m.CompareAndSet(previous, next);
        swapped := (a, b);
    }
  }
}
