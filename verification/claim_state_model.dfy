/**
  The flat key-value storage of a claim-owning durable object (packages/service/src/repository.ts:175-291)
  and what it means for it to represent a set of claims.
 */
module ClaimStateModel {
  import opened Wrappers
  import opened ClaimRules

  datatype Value = ClaimValue(claim: Claim) | IdValue(id: string) | IdsValue(ids: seq<string>) | TimeValue(at: int)

  type Storage = map<string, Value>

  type Claims = map<string, Claim>

  function ClaimKey(id: string): string { "claim:" + id }

  function UserKey(hash: string): string { "claim:user-code:" + hash }

  function DeviceKey(hash: string): string { "claim:device-code:" + hash }

  function ActiveIdsKey(): string { "claim:active-ids" }

  function NextExpiryKey(): string { "claim:next-expiry" }

  /**
    Ids whose key is not one of the other kinds.  The generated ids `claim_<uuid>` are of this kind;
    an id such as `active-ids` is not, and its record would share a key with the list of ids.
   */
  predicate GoodId(id: string) {
    && id != "" && !("user-code:" <= id) && !("device-code:" <= id)
    && id != "active-ids" && id != "next-expiry"
  }

  function KeysOf(c: Claim): set<string> {
    {ClaimKey(c.id), UserKey(c.userCodeHash), DeviceKey(c.deviceCodeHash)}
  }

  // --- keys of different kinds differ ---

  lemma ClaimKeyIsNew(id: string, other: string)
    requires GoodId(id)
    ensures ClaimKey(id) == ClaimKey(other) ==> id == other
    ensures forall hash :: ClaimKey(id) != UserKey(hash) && ClaimKey(id) != DeviceKey(hash)
    ensures ClaimKey(id) != ActiveIdsKey() && ClaimKey(id) != NextExpiryKey()
  {
    assert ClaimKey(id)[6..] == id && ClaimKey(other)[6..] == other;
    forall hash ensures ClaimKey(id) != UserKey(hash) && ClaimKey(id) != DeviceKey(hash) {
      assert UserKey(hash)[6..] == "user-code:" + hash;
      assert DeviceKey(hash)[6..] == "device-code:" + hash;
    }
    assert ActiveIdsKey()[6..] == "active-ids" && NextExpiryKey()[6..] == "next-expiry";
  }

  /** `GoodId` is exact: any other non-empty id has a record key that also serves as an index or list key. */
  lemma GoodIdIsExact(id: string)
    ensures GoodId(id) <==>
              && id != ""
              && (forall hash :: ClaimKey(id) != UserKey(hash) && ClaimKey(id) != DeviceKey(hash))
              && ClaimKey(id) != ActiveIdsKey() && ClaimKey(id) != NextExpiryKey()
  {
    if GoodId(id) {
      ClaimKeyIsNew(id, id);
    } else if "user-code:" <= id {
      assert ClaimKey(id) == UserKey(id[10..]);
    } else if "device-code:" <= id {
      assert ClaimKey(id) == DeviceKey(id[12..]);
    }
  }

  lemma HashKeysDiffer(a: string, b: string)
    ensures UserKey(a) == UserKey(b) ==> a == b
    ensures DeviceKey(a) == DeviceKey(b) ==> a == b
    ensures UserKey(a) != DeviceKey(b)
    ensures UserKey(a) != ActiveIdsKey() && UserKey(a) != NextExpiryKey()
    ensures DeviceKey(a) != ActiveIdsKey() && DeviceKey(a) != NextExpiryKey()
  {
    assert UserKey(a)[16..] == a && UserKey(b)[16..] == b;
    assert DeviceKey(a)[18..] == a && DeviceKey(b)[18..] == b;
    assert UserKey(a)[6] == 'u' && DeviceKey(b)[6] == 'd' && DeviceKey(a)[6] == 'd';
    assert UserKey(a)[6..10] == "user" && DeviceKey(a)[6..8] == "de";
    assert ActiveIdsKey()[6] == 'a' && NextExpiryKey()[6] == 'n';
  }

  /** Claims with different ids and different hashes use disjoint keys. */
  ghost predicate Unrelated(c: Claim, d: Claim) {
    c.id != d.id && c.userCodeHash != d.userCodeHash && c.deviceCodeHash != d.deviceCodeHash
  }

  /** No stored claim shares its id or one of its hashes. */
  ghost predicate Unused(claims: Claims, c: Claim) {
    c.id !in claims && forall id :: id in claims ==>
      claims[id].userCodeHash != c.userCodeHash && claims[id].deviceCodeHash != c.deviceCodeHash
  }

  lemma KeysDisjoint(c: Claim, d: Claim)
    requires GoodId(c.id) && GoodId(d.id) && Unrelated(c, d)
    ensures KeysOf(c) !! KeysOf(d)
    ensures ActiveIdsKey() !in KeysOf(c) && NextExpiryKey() !in KeysOf(c)
  {
    hide ClaimKey, UserKey, DeviceKey, ActiveIdsKey, NextExpiryKey, GoodId, MinExpiry;
    ClaimKeyIsNew(c.id, d.id);
    ClaimKeyIsNew(d.id, c.id);
    HashKeysDiffer(c.userCodeHash, d.userCodeHash);
    HashKeysDiffer(c.userCodeHash, d.deviceCodeHash);
    HashKeysDiffer(d.userCodeHash, c.deviceCodeHash);
    HashKeysDiffer(c.deviceCodeHash, d.deviceCodeHash);
  }

  // --- the claims a storage represents ---

  function MinExpiry(ids: seq<string>, claims: Claims): int
    requires ids != [] && forall id :: id in ids ==> id in claims
  {
    var last := claims[ids[|ids| - 1]].expiresAt;
    if |ids| == 1 then last
    else
      var rest := MinExpiry(ids[..|ids| - 1], claims);
      if last < rest then last else rest
  }

  lemma {:induction false} MinExpiryIsMinimum(ids: seq<string>, claims: Claims) returns (k: nat)
    requires ids != [] && forall id :: id in ids ==> id in claims
    ensures forall id :: id in ids ==> MinExpiry(ids, claims) <= claims[id].expiresAt
    ensures k < |ids| && MinExpiry(ids, claims) == claims[ids[k]].expiresAt
  {
    var n := |ids| - 1;
    k := n;
    if |ids| > 1 {
      assert ids == ids[..n] + [ids[n]];
      var j := MinExpiryIsMinimum(ids[..n], claims);
      k := if claims[ids[n]].expiresAt < MinExpiry(ids[..n], claims) then n else j;
    }
  }

  ghost predicate WellFormed(ids: seq<string>, claims: Claims) {
    && (forall i, j :: 0 <= i < j < |ids| ==> ids[i] != ids[j])
    && (forall id :: id in ids <==> id in claims)
    && (forall id :: id in claims ==> GoodId(id) && claims[id].id == id)
    && (forall a, b :: a in claims && b in claims && a != b ==> Unrelated(claims[a], claims[b]))
  }

  /** Every claim is stored under its key and found through both of its code hashes. */
  ghost predicate Indexed(storage: Storage, claims: Claims) {
    forall id :: id in claims ==> IndexedAt(storage, claims[id])
  }

  ghost predicate IndexedAt(storage: Storage, c: Claim) {
    && ClaimKey(c.id) in storage && storage[ClaimKey(c.id)] == ClaimValue(c)
    && UserKey(c.userCodeHash) in storage && storage[UserKey(c.userCodeHash)] == IdValue(c.id)
    && DeviceKey(c.deviceCodeHash) in storage && storage[DeviceKey(c.deviceCodeHash)] == IdValue(c.id)
  }

  /** Nothing else is stored. */
  ghost predicate NoStrays(storage: Storage, claims: Claims) {
    forall k :: k in storage && k != ActiveIdsKey() && k != NextExpiryKey() ==> Belongs(claims, k)
  }

  ghost predicate Belongs(claims: Claims, k: string) {
    exists id :: id in claims && k in KeysOf(claims[id])
  }

  ghost predicate Administered(storage: Storage, alarm: Option<int>, ids: seq<string>, claims: Claims)
    requires forall id :: id in ids ==> id in claims
  {
    if ids == [] then ActiveIdsKey() !in storage && NextExpiryKey() !in storage && alarm.None?
    else
      && ActiveIdsKey() in storage && storage[ActiveIdsKey()] == IdsValue(ids)
      && NextExpiryKey() in storage && storage[NextExpiryKey()] == TimeValue(MinExpiry(ids, claims))
      && alarm == Some(MinExpiry(ids, claims))
  }

  /**
    The storage holds exactly these claims: records, both indexes, the list of active ids, the
    earliest expiry, and an alarm armed at it.
   */
  ghost predicate Represents(storage: Storage, alarm: Option<int>, ids: seq<string>, claims: Claims) {
    WellFormed(ids, claims) && Indexed(storage, claims) && NoStrays(storage, claims) &&
    Administered(storage, alarm, ids, claims)
  }

  /** A key that is stored and is not an administrative one belongs to one claim only. */
  lemma KeyOwner(storage: Storage, claims: Claims, k: string) returns (id: string)
    requires NoStrays(storage, claims)
    requires k in storage && k != ActiveIdsKey() && k != NextExpiryKey()
    ensures id in claims && k in KeysOf(claims[id])
  {
    id :| id in claims && k in KeysOf(claims[id]);
  }

  /** Looking up a usable id finds exactly the claim with that id. */
  lemma StoredUnderKey(ids: seq<string>, storage: Storage, claims: Claims, id: string)
    requires WellFormed(ids, claims) && Indexed(storage, claims) && id in claims
    ensures ClaimKey(id) in storage && storage[ClaimKey(id)] == ClaimValue(claims[id])
  {
    hide ClaimKey, UserKey, DeviceKey, GoodId;
    assert IndexedAt(storage, claims[id]);
  }

  lemma HasGoodId(ids: seq<string>, claims: Claims, id: string)
    requires WellFormed(ids, claims) && id in claims
    ensures GoodId(id) && claims[id].id == id && id != ""
  {
  }

  lemma LookUpId(storage: Storage, alarm: Option<int>, ids: seq<string>, claims: Claims, id: string)
    requires Represents(storage, alarm, ids, claims) && GoodId(id)
    ensures ClaimKey(id) in storage <==> id in claims
    ensures id in claims ==> storage[ClaimKey(id)] == ClaimValue(claims[id])
  {
    hide ClaimKey, UserKey, DeviceKey, ActiveIdsKey, NextExpiryKey, GoodId, MinExpiry, IndexedAt, Indexed, NoStrays, Administered;
    ClaimKeyIsNew(id, id);
    if id in claims {
      StoredUnderKey(ids, storage, claims, id);
    } else if ClaimKey(id) in storage {
      var owner := KeyOwner(storage, claims, ClaimKey(id));
      HasGoodId(ids, claims, owner);
      ClaimKeyIsNew(id, owner);
    }
  }

  lemma FoundThroughCodes(storage: Storage, ids: seq<string>, claims: Claims, id: string)
    requires WellFormed(ids, claims) && Indexed(storage, claims) && id in claims
    ensures claims[id].id == id && GoodId(id)
    ensures UserKey(claims[id].userCodeHash) in storage && storage[UserKey(claims[id].userCodeHash)] == IdValue(id)
    ensures DeviceKey(claims[id].deviceCodeHash) in storage && storage[DeviceKey(claims[id].deviceCodeHash)] == IdValue(id)
  {
    hide ClaimKey, UserKey, DeviceKey, GoodId;
    assert IndexedAt(storage, claims[id]);
  }

  lemma LookUpUserHash(storage: Storage, alarm: Option<int>, ids: seq<string>, claims: Claims, hash: string)
    requires Represents(storage, alarm, ids, claims)
    ensures UserKey(hash) in storage <==> exists id :: id in claims && claims[id].userCodeHash == hash
    ensures UserKey(hash) in storage ==>
              && storage[UserKey(hash)].IdValue? && storage[UserKey(hash)].id in claims
              && claims[storage[UserKey(hash)].id].userCodeHash == hash
  {
    hide ClaimKey, UserKey, DeviceKey, ActiveIdsKey, NextExpiryKey, GoodId, MinExpiry, IndexedAt, Indexed, NoStrays, Administered;
    HashKeysDiffer(hash, hash);
    if UserKey(hash) in storage {
      var owner := KeyOwner(storage, claims, UserKey(hash));
      ClaimKeyIsNew(owner, owner);
      HashKeysDiffer(hash, claims[owner].userCodeHash);
      HashKeysDiffer(hash, claims[owner].deviceCodeHash);
      FoundThroughCodes(storage, ids, claims, owner);
    }
    if id :| id in claims && claims[id].userCodeHash == hash {
      FoundThroughCodes(storage, ids, claims, id);
    }
  }

  lemma LookUpDeviceHash(storage: Storage, alarm: Option<int>, ids: seq<string>, claims: Claims, hash: string)
    requires Represents(storage, alarm, ids, claims)
    ensures DeviceKey(hash) in storage <==> exists id :: id in claims && claims[id].deviceCodeHash == hash
    ensures DeviceKey(hash) in storage ==>
              && storage[DeviceKey(hash)].IdValue? && storage[DeviceKey(hash)].id in claims
              && claims[storage[DeviceKey(hash)].id].deviceCodeHash == hash
  {
    hide ClaimKey, UserKey, DeviceKey, ActiveIdsKey, NextExpiryKey, GoodId, MinExpiry, IndexedAt, Indexed, NoStrays, Administered;
    HashKeysDiffer(hash, hash);
    if DeviceKey(hash) in storage {
      var owner := KeyOwner(storage, claims, DeviceKey(hash));
      ClaimKeyIsNew(owner, owner);
      HashKeysDiffer(claims[owner].userCodeHash, hash);
      HashKeysDiffer(hash, claims[owner].deviceCodeHash);
      FoundThroughCodes(storage, ids, claims, owner);
    }
    if id :| id in claims && claims[id].deviceCodeHash == hash {
      FoundThroughCodes(storage, ids, claims, id);
    }
  }

  // --- creating a claim ---

  /** A stored value that JavaScript takes for true: neither the empty text nor the number zero. */
  predicate Truthy(storage: Storage, k: string) {
    k in storage && storage[k] != IdValue("") && storage[k] != TimeValue(0)
  }

  /** What `createClaim` refuses. */
  predicate Taken(storage: Storage, c: Claim) {
    Truthy(storage, ClaimKey(c.id)) || Truthy(storage, UserKey(c.userCodeHash)) || Truthy(storage, DeviceKey(c.deviceCodeHash))
  }

  function Created(storage: Storage, ids: seq<string>, c: Claim, next: int): Storage {
    storage[ClaimKey(c.id) := ClaimValue(c)]
           [UserKey(c.userCodeHash) := IdValue(c.id)]
           [DeviceKey(c.deviceCodeHash) := IdValue(c.id)]
           [ActiveIdsKey() := IdsValue(ids + [c.id])]
           [NextExpiryKey() := TimeValue(next)]
  }

  function NextAlarm(ids: seq<string>, claims: Claims, c: Claim): int
    requires forall id :: id in ids ==> id in claims
  {
    if ids != [] && MinExpiry(ids, claims) <= c.expiresAt then MinExpiry(ids, claims) else c.expiresAt
  }

  lemma CreateRepresents(storage: Storage, alarm: Option<int>, ids: seq<string>, claims: Claims, c: Claim)
    requires Represents(storage, alarm, ids, claims) && GoodId(c.id) && c.id !in claims
    requires forall id :: id in claims ==> Unrelated(claims[id], c)
    ensures
      var next := NextAlarm(ids, claims, c);
      Represents(Created(storage, ids, c, next), Some(next), ids + [c.id], claims[c.id := c])
  {
    hide ClaimKey, UserKey, DeviceKey, ActiveIdsKey, NextExpiryKey, GoodId, MinExpiry, Created;
    var next := NextAlarm(ids, claims, c);
    CreateWellFormed(ids, claims, c);
    CreateIndexed(storage, ids, claims, c, next);
    CreateNoStrays(storage, ids, claims, c, next);
    CreateAdministered(storage, ids, claims, c);
  }

  /** Writing a claim whose id is unsafe leaves a storage that represents no set of claims. */
  lemma UnsafeIdSpoils(storage: Storage, ids: seq<string>, c: Claim, next: int, alarm: Option<int>, ids': seq<string>, claims': Claims)
    requires !GoodId(c.id)
    ensures !Represents(Created(storage, ids, c, next), alarm, ids', claims')
  {
    hide ClaimKey, UserKey, DeviceKey, GoodId, Indexed, NoStrays, MinExpiry;
    var storage' := Created(storage, ids, c, next);
    assert ActiveIdsKey() in storage' && storage'[ActiveIdsKey()] == IdsValue(ids + [c.id]);
    assert (ids + [c.id])[|ids|] == c.id;
  }

  lemma CreateWellFormed(ids: seq<string>, claims: Claims, c: Claim)
    requires WellFormed(ids, claims) && GoodId(c.id) && c.id !in claims
    requires forall id :: id in claims ==> Unrelated(claims[id], c)
    ensures WellFormed(ids + [c.id], claims[c.id := c])
  {
    hide GoodId;
  }

  lemma CreateIndexed(storage: Storage, ids: seq<string>, claims: Claims, c: Claim, next: int)
    requires WellFormed(ids, claims) && Indexed(storage, claims) && GoodId(c.id) && c.id !in claims
    requires forall id :: id in claims ==> Unrelated(claims[id], c)
    ensures Indexed(Created(storage, ids, c, next), claims[c.id := c])
  {
    hide ClaimKey, UserKey, DeviceKey, ActiveIdsKey, NextExpiryKey, GoodId, MinExpiry;
    var storage', claims' := Created(storage, ids, c, next), claims[c.id := c];
    ClaimKeyIsNew(c.id, c.id);
    HashKeysDiffer(c.userCodeHash, c.deviceCodeHash);
    HashKeysDiffer(c.deviceCodeHash, c.deviceCodeHash);
    forall id | id in claims' ensures IndexedAt(storage', claims'[id]) {
      if id != c.id {
        assert IndexedAt(storage, claims[id]);
        KeysDisjoint(claims[id], c);
        assert claims'[id] == claims[id];
      }
    }
  }

  lemma CreateNoStrays(storage: Storage, ids: seq<string>, claims: Claims, c: Claim, next: int)
    requires NoStrays(storage, claims) && c.id !in claims
    ensures NoStrays(Created(storage, ids, c, next), claims[c.id := c])
  {
    hide ClaimKey, UserKey, DeviceKey, ActiveIdsKey, NextExpiryKey, GoodId, MinExpiry;
    var storage', claims' := Created(storage, ids, c, next), claims[c.id := c];
    forall k | k in storage' && k != ActiveIdsKey() && k != NextExpiryKey() ensures Belongs(claims', k) {
      if k in KeysOf(c) {
        assert claims'[c.id] == c;
      } else {
        var id := KeyOwner(storage, claims, k);
        assert claims'[id] == claims[id];
      }
    }
  }

  lemma CreateAdministered(storage: Storage, ids: seq<string>, claims: Claims, c: Claim)
    requires (forall id :: id in ids ==> id in claims) && c.id !in claims
    ensures
      var next := NextAlarm(ids, claims, c);
      Administered(Created(storage, ids, c, next), Some(next), ids + [c.id], claims[c.id := c])
  {
    hide ClaimKey, UserKey, DeviceKey;
    assert (ids + [c.id])[..|ids|] == ids;
    MinExpirySame(ids, claims, claims[c.id := c]);
  }

  lemma {:induction false} MinExpirySame(ids: seq<string>, a: Claims, b: Claims)
    requires forall id :: id in ids ==> id in a && id in b && a[id].expiresAt == b[id].expiresAt
    ensures ids != [] ==> MinExpiry(ids, a) == MinExpiry(ids, b)
  {
    if |ids| > 1 {
      MinExpirySame(ids[..|ids| - 1], a, b);
    }
  }

  // --- replacing a claim ---

  /** With another deadline only the earliest expiry and the alarm may come to be wrong. */
  lemma ReplaceRepresentsIff(storage: Storage, alarm: Option<int>, ids: seq<string>, claims: Claims, next: Claim)
    requires Represents(storage, alarm, ids, claims) && next.id in claims && ids != []
    requires forall id :: id in ids ==> id in claims && id in claims[next.id := next]
    requires next.userCodeHash == claims[next.id].userCodeHash && next.deviceCodeHash == claims[next.id].deviceCodeHash
    ensures
      var storage', claims' := storage[ClaimKey(next.id) := ClaimValue(next)], claims[next.id := next];
      && WellFormed(ids, claims') && Indexed(storage', claims') && NoStrays(storage', claims')
      && (Represents(storage', alarm, ids, claims') <==> MinExpiry(ids, claims') == MinExpiry(ids, claims))
  {
    hide ClaimKey, UserKey, DeviceKey, ActiveIdsKey, NextExpiryKey, GoodId, MinExpiry, Indexed, NoStrays, WellFormed;
    ReplaceIsOk(ids, claims, next);
    ReplaceWellFormed(ids, claims, next);
    ReplaceIndexed(storage, ids, claims, next);
    ReplaceNoStrays(storage, claims, next);
    ClaimKeyIsNew(next.id, next.id);
  }

  lemma ReplaceIsOk(ids: seq<string>, claims: Claims, next: Claim)
    requires WellFormed(ids, claims) && next.id in claims
    ensures claims[next.id].id == next.id && GoodId(next.id) && forall id :: id in ids ==> id in claims
  {
  }

  lemma ReplaceWellFormed(ids: seq<string>, claims: Claims, next: Claim)
    requires WellFormed(ids, claims) && next.id in claims
    requires next.userCodeHash == claims[next.id].userCodeHash && next.deviceCodeHash == claims[next.id].deviceCodeHash
    ensures WellFormed(ids, claims[next.id := next])
  {
    hide GoodId;
    var claims' := claims[next.id := next];
    forall a, b | a in claims' && b in claims' && a != b ensures Unrelated(claims'[a], claims'[b]) {
      assert Unrelated(claims[a], claims[b]);
    }
  }

  lemma ReplaceIndexed(storage: Storage, ids: seq<string>, claims: Claims, next: Claim)
    requires WellFormed(ids, claims) && Indexed(storage, claims) && next.id in claims
    requires next.userCodeHash == claims[next.id].userCodeHash && next.deviceCodeHash == claims[next.id].deviceCodeHash
    ensures Indexed(storage[ClaimKey(next.id) := ClaimValue(next)], claims[next.id := next])
  {
    hide ClaimKey, UserKey, DeviceKey, ActiveIdsKey, NextExpiryKey, GoodId, MinExpiry;
    var storage', claims' := storage[ClaimKey(next.id) := ClaimValue(next)], claims[next.id := next];
    forall id | id in claims' ensures IndexedAt(storage', claims'[id]) {
      assert IndexedAt(storage, claims[id]);
      ClaimKeyIsNew(next.id, id);
    }
  }

  lemma ReplaceNoStrays(storage: Storage, claims: Claims, next: Claim)
    requires NoStrays(storage, claims) && next.id in claims && claims[next.id].id == next.id
    requires next.userCodeHash == claims[next.id].userCodeHash && next.deviceCodeHash == claims[next.id].deviceCodeHash
    ensures NoStrays(storage[ClaimKey(next.id) := ClaimValue(next)], claims[next.id := next])
  {
    hide ClaimKey, UserKey, DeviceKey, ActiveIdsKey, NextExpiryKey, GoodId, MinExpiry;
    var storage', claims' := storage[ClaimKey(next.id) := ClaimValue(next)], claims[next.id := next];
    forall k | k in storage' && k != ActiveIdsKey() && k != NextExpiryKey() ensures Belongs(claims', k) {
      if k == ClaimKey(next.id) {
        assert k in KeysOf(claims'[next.id]);
      } else {
        var id := KeyOwner(storage, claims, k);
        assert KeysOf(claims'[id]) == KeysOf(claims[id]);
      }
    }
  }

  // --- removing expired claims ---

  predicate Live(c: Claim, now: int) {
    c.expiresAt > now
  }

  function LiveClaims(claims: Claims, now: int): Claims {
    claims - set id | id in claims && !Live(claims[id], now)
  }

  function LiveIds(ids: seq<string>, claims: Claims, now: int): seq<string>
    requires forall id :: id in ids ==> id in claims
  {
    if ids == [] then []
    else
      var rest := LiveIds(ids[..|ids| - 1], claims, now);
      if Live(claims[ids[|ids| - 1]], now) then rest + [ids[|ids| - 1]] else rest
  }

  function DoomedKeys(ids: seq<string>, claims: Claims, now: int): set<string>
    requires forall id :: id in ids ==> id in claims
  {
    if ids == [] then {}
    else
      var c := claims[ids[|ids| - 1]];
      DoomedKeys(ids[..|ids| - 1], claims, now) + if Live(c, now) then {} else KeysOf(c)
  }

  lemma {:induction false} DoomedKeysAre(ids: seq<string>, claims: Claims, now: int, k: string)
    requires forall id :: id in ids ==> id in claims
    ensures k in DoomedKeys(ids, claims, now) <==>
            exists id :: id in ids && !Live(claims[id], now) && k in KeysOf(claims[id])
  {
    if ids != [] {
      var n := |ids| - 1;
      assert ids == ids[..n] + [ids[n]];
      DoomedKeysAre(ids[..n], claims, now, k);
    }
  }

  lemma {:induction false} LiveIdsAre(ids: seq<string>, claims: Claims, now: int)
    requires forall id :: id in ids ==> id in claims
    requires forall i, j :: 0 <= i < j < |ids| ==> ids[i] != ids[j]
    ensures forall id :: id in LiveIds(ids, claims, now) <==> id in ids && Live(claims[id], now)
    ensures forall i, j :: 0 <= i < j < |LiveIds(ids, claims, now)| ==> LiveIds(ids, claims, now)[i] != LiveIds(ids, claims, now)[j]
  {
    if ids != [] {
      var n := |ids| - 1;
      assert ids == ids[..n] + [ids[n]];
      LiveIdsAre(ids[..n], claims, now);
    }
  }

  /** What is left once the keys of the expired claims are gone and the two lists are rewritten. */
  function Swept(storage: Storage, ids: seq<string>, claims: Claims, now: int): Storage
    requires forall id :: id in ids ==> id in claims
  {
    var kept := storage - DoomedKeys(ids, claims, now);
    var live := LiveIds(ids, claims, now);
    LiveIdsWithin(ids, claims, now);
    if live == [] then kept - {ActiveIdsKey(), NextExpiryKey()}
    else kept[ActiveIdsKey() := IdsValue(live)][NextExpiryKey() := TimeValue(MinExpiry(live, claims))]
  }

  lemma {:induction false} LiveIdsWithin(ids: seq<string>, claims: Claims, now: int)
    requires forall id :: id in ids ==> id in claims
    ensures forall id :: id in LiveIds(ids, claims, now) ==> id in ids
  {
    if ids != [] {
      LiveIdsWithin(ids[..|ids| - 1], claims, now);
    }
  }

  lemma SweptRepresents(storage: Storage, ids: seq<string>, claims: Claims, now: int)
    requires WellFormed(ids, claims) && Indexed(storage, claims) && NoStrays(storage, claims)
    ensures
      var live := LiveIds(ids, claims, now);
      && (forall id :: id in live ==> id in claims)
      && Represents(Swept(storage, ids, claims, now), if live == [] then None else Some(MinExpiry(live, claims)),
                    live, LiveClaims(claims, now))
  {
    hide ClaimKey, UserKey, DeviceKey, GoodId, MinExpiry, LiveIds, DoomedKeys, Swept, Indexed, NoStrays;
    SweptWellFormed(ids, claims, now);
    SweptIndexed(storage, ids, claims, now);
    SweptNoStrays(storage, ids, claims, now);
    MinExpirySame(LiveIds(ids, claims, now), claims, LiveClaims(claims, now));
    SweptAdministered(storage, ids, claims, now);
  }

  lemma SweptWellFormed(ids: seq<string>, claims: Claims, now: int)
    requires WellFormed(ids, claims)
    ensures forall id :: id in LiveIds(ids, claims, now) ==> id in claims
    ensures WellFormed(LiveIds(ids, claims, now), LiveClaims(claims, now))
  {
    hide GoodId, LiveIds;
    LiveIdsAre(ids, claims, now);
  }

  lemma SweptIndexed(storage: Storage, ids: seq<string>, claims: Claims, now: int)
    requires WellFormed(ids, claims) && Indexed(storage, claims)
    ensures Indexed(Swept(storage, ids, claims, now), LiveClaims(claims, now))
  {
    hide ClaimKey, UserKey, DeviceKey, GoodId, LiveIds, DoomedKeys, IndexedAt, Swept, Indexed;
    forall id | id in LiveClaims(claims, now)
      ensures IndexedAt(Swept(storage, ids, claims, now), LiveClaims(claims, now)[id])
    {
      SurvivorIndexed(storage, ids, claims, now, id);
    }
    IndexedIf(Swept(storage, ids, claims, now), LiveClaims(claims, now));
  }

  lemma IndexedIf(storage: Storage, claims: Claims)
    requires forall id :: id in claims ==> IndexedAt(storage, claims[id])
    ensures Indexed(storage, claims)
  {
    hide IndexedAt;
  }

  lemma SweptNoStrays(storage: Storage, ids: seq<string>, claims: Claims, now: int)
    requires NoStrays(storage, claims) && forall id :: id in ids <==> id in claims
    ensures NoStrays(Swept(storage, ids, claims, now), LiveClaims(claims, now))
  {
    hide ClaimKey, UserKey, DeviceKey, ActiveIdsKey, NextExpiryKey, GoodId, MinExpiry, LiveIds, DoomedKeys;
    var claims' := LiveClaims(claims, now);
    forall k | k in Swept(storage, ids, claims, now) && k != ActiveIdsKey() && k != NextExpiryKey()
      ensures Belongs(claims', k)
    {
      var id := KeyOwner(storage, claims, k);
      DoomedKeysAre(ids, claims, now, k);
      assert id in claims' && claims'[id] == claims[id];
    }
  }

  lemma SweptAdministered(storage: Storage, ids: seq<string>, claims: Claims, now: int)
    requires forall id :: id in ids ==> id in claims
    requires forall id :: id in LiveIds(ids, claims, now) ==> id in claims
    ensures
      var live := LiveIds(ids, claims, now);
      Administered(Swept(storage, ids, claims, now), if live == [] then None else Some(MinExpiry(live, claims)), live, claims)
  {
    hide ClaimKey, UserKey, DeviceKey, GoodId, MinExpiry, LiveIds, DoomedKeys;
  }

  lemma SurvivorIndexed(storage: Storage, ids: seq<string>, claims: Claims, now: int, id: string)
    requires WellFormed(ids, claims) && Indexed(storage, claims) && id in claims && Live(claims[id], now)
    ensures IndexedAt(Swept(storage, ids, claims, now), claims[id])
  {
    hide ClaimKey, UserKey, DeviceKey, ActiveIdsKey, NextExpiryKey, GoodId, MinExpiry;
    var c := claims[id];
    assert IndexedAt(storage, c);
    forall k | k in KeysOf(c) ensures k !in DoomedKeys(ids, claims, now) && k != ActiveIdsKey() && k != NextExpiryKey() {
      DoomedKeysAre(ids, claims, now, k);
      ClaimKeyIsNew(c.id, c.id);
      HashKeysDiffer(c.userCodeHash, c.userCodeHash);
      HashKeysDiffer(c.deviceCodeHash, c.deviceCodeHash);
      forall other | other in ids && !Live(claims[other], now) ensures k !in KeysOf(claims[other]) {
        KeysDisjoint(c, claims[other]);
      }
    }
  }
}
