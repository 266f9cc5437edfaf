/**
  The six maps of the broker's in-memory store (packages/broker/src/store.ts) as a value, with the
  functions that say what each method does to them.
 */
module StoreModel {
  import opened Wrappers
  import opened BrokerTypes
  import opened Doubling

  /** `order` is the insertion order in which the source's `Map` lists the grants. */
  datatype Store = Store(
    grants: map<string, Grant>,
    order: seq<string>,
    audits: map<string, seq<AuditEvent>>,
    evidence: map<string, Evidence>,
    idempotency: map<string, string>,
    subjectTokenGrant: map<string, string>,
    deliveries: map<string, seq<Delivery>>)

  const EmptyStore := Store(map[], [], map[], map[], map[], map[], map[])

  datatype Creation = Creation(grant: Grant, created: bool, subjectTokenReserved: bool)

  // --- what the methods do ---

  /** `Map.set` on the grants: a new key goes to the end of the listing. */
  function PutGrant(st: Store, id: string, g: Grant): Store {
    st.(grants := st.grants[id := g], order := if id in st.grants then st.order else st.order + [id])
  }

  function CreateExchangeGrant(st: Store, g: Grant, key: Option<string>, reserve: bool): (Store, Creation) {
    if key.Some? && key.value in st.idempotency && st.idempotency[key.value] in st.grants then
      (st, Creation(st.grants[st.idempotency[key.value]], false, true))
    else if reserve && g.subjectTokenId in st.subjectTokenGrant && st.subjectTokenGrant[g.subjectTokenId] != "" &&
            st.subjectTokenGrant[g.subjectTokenId] != g.id then
      (st, Creation(g, false, false))
    else
      (PutGrant(st, g.id, g).(
         subjectTokenGrant := if reserve then st.subjectTokenGrant[g.subjectTokenId := g.id] else st.subjectTokenGrant,
         idempotency := if key.Some? then st.idempotency[key.value := g.id] else st.idempotency),
       Creation(g, true, true))
  }

  function ReserveSubjectToken(st: Store, token: string, id: string): (Store, bool) {
    if token in st.subjectTokenGrant && st.subjectTokenGrant[token] != "" && st.subjectTokenGrant[token] != id
    then (st, false)
    else (st.(subjectTokenGrant := st.subjectTokenGrant[token := id]), true)
  }

  function AuditFor(st: Store, id: string): seq<AuditEvent> {
    if id in st.audits then st.audits[id] else []
  }

  function AppendAudit(st: Store, id: string, e: AuditEvent): Store {
    st.(audits := st.audits[id := AuditFor(st, id) + [e]])
  }

  function DeliveriesFor(st: Store, id: string): seq<Delivery> {
    if id in st.deliveries then st.deliveries[id] else []
  }

  /** Milliseconds until the next attempt: two seconds doubling up to a minute. */
  function Backoff(attempts: nat): nat {
    if attempts >= 6 then 60_000 else Power2(attempts) * 1000
  }

  /** `Backoff` is the source's `Math.min(2 ** attempts * 1000, 60_000)`. */
  lemma BackoffIsCappedDoubling(attempts: nat)
    ensures Backoff(attempts) == if Power2(attempts) * 1000 <= 60_000 then Power2(attempts) * 1000 else 60_000
  {
    if attempts >= 6 {
      PowerGrows(6, attempts);
      assert Power2(6) == 64;
    } else {
      assert Power2(5) == 32;
      PowerGrows(attempts, 5);
    }
  }

  /** A delivery record after one attempt: a receipt on success, a later retry otherwise. */
  function Attempted(d: Delivery, attempts: nat, now: int, receipt: Option<string>): Delivery {
    match receipt
    case Some(_) => d.(status := Delivered, attempts := attempts, lastAttemptAt := Some(now), receipt := receipt)
    case None => d.(status := Failed, attempts := attempts, lastAttemptAt := Some(now),
                    nextAttemptAt := Some(now + Backoff(attempts)))
  }

  /** The first record with the id is replaced, if there is one. */
  function PatchFirst(ds: seq<Delivery>, id: string, attempts: nat, now: int, receipt: Option<string>): (r: seq<Delivery>)
    ensures |r| == |ds|
  {
    if ds == [] then []
    else if ds[0].id == id then [Attempted(ds[0], attempts, now, receipt)] + ds[1..]
    else [ds[0]] + PatchFirst(ds[1..], id, attempts, now, receipt)
  }

  /** `updateDelivery` with its refresh of the copy kept in the evidence record. */
  function UpdateDelivery(st: Store, id: string, deliveryId: string, attempts: nat, now: int,
                          receipt: Option<string>): Store
  {
    var records := PatchFirst(DeliveriesFor(st, id), deliveryId, attempts, now, receipt);
    var updated := if id in st.deliveries then st.(deliveries := st.deliveries[id := records]) else st;
    if id in st.evidence
    then updated.(evidence := st.evidence[id := st.evidence[id].(revocationDeliveries := DeliveriesFor(updated, id))])
    else updated
  }

  lemma {:induction false} PatchFirstAt(ds: seq<Delivery>, k: nat, attempts: nat, now: int, receipt: Option<string>)
    requires k < |ds| && forall j :: 0 <= j < k ==> ds[j].id != ds[k].id
    ensures PatchFirst(ds, ds[k].id, attempts, now, receipt) == ds[k := Attempted(ds[k], attempts, now, receipt)]
  {
    if k > 0 {
      PatchFirstAt(ds[1..], k - 1, attempts, now, receipt);
      assert ds[k := Attempted(ds[k], attempts, now, receipt)]
          == [ds[0]] + ds[1..][k - 1 := Attempted(ds[k], attempts, now, receipt)];
    }
  }

  lemma {:induction false} PatchFirstAbsent(ds: seq<Delivery>, id: string, attempts: nat, now: int, receipt: Option<string>)
    requires forall j :: 0 <= j < |ds| ==> ds[j].id != id
    ensures PatchFirst(ds, id, attempts, now, receipt) == ds
  {
    if ds != [] {
      PatchFirstAbsent(ds[1..], id, attempts, now, receipt);
    }
  }

  // --- snapshots ---

  datatype Snapshot = Snapshot(
    grants: seq<Grant>,
    audits: seq<(string, seq<AuditEvent>)>,
    evidence: seq<Evidence>,
    idempotency: seq<(string, string)>,
    subjectTokenGrants: seq<(string, string)>,
    deliveries: seq<(string, seq<Delivery>)>)

  function FromPairs<V>(pairs: seq<(string, V)>): map<string, V> {
    if pairs == [] then map[]
    else FromPairs(pairs[..|pairs| - 1])[pairs[|pairs| - 1].0 := pairs[|pairs| - 1].1]
  }

  ghost predicate ListsMap<V(!new)>(pairs: seq<(string, V)>, m: map<string, V>) {
    && (forall p :: p in pairs ==> p.0 in m && m[p.0] == p.1)
    && (forall k :: k in m ==> (k, m[k]) in pairs)
  }

  lemma {:induction false} FromPairsOf<V(!new)>(pairs: seq<(string, V)>, m: map<string, V>)
    requires forall p :: p in pairs ==> p.0 in m && m[p.0] == p.1
    ensures forall k :: k in FromPairs(pairs) <==> k in m && (k, m[k]) in pairs
    ensures forall k :: k in FromPairs(pairs) ==> FromPairs(pairs)[k] == m[k]
  {
    if pairs != [] {
      var n := |pairs| - 1;
      assert pairs == pairs[..n] + [pairs[n]];
      FromPairsOf(pairs[..n], m);
    }
  }

  lemma ListingRoundTrip<V(!new)>(pairs: seq<(string, V)>, m: map<string, V>)
    requires ListsMap(pairs, m)
    ensures FromPairs(pairs) == m
  {
    FromPairsOf(pairs, m);
  }

  /** Refilling the grants in the listed order. */
  function PutGrants(st: Store, grants: seq<Grant>): Store {
    if grants == [] then st
    else
      var rest := PutGrants(st, grants[..|grants| - 1]);
      PutGrant(rest, grants[|grants| - 1].id, grants[|grants| - 1])
  }

  function EvidencePairs(records: seq<Evidence>): (r: seq<(string, Evidence)>)
    ensures |r| == |records| && forall i :: 0 <= i < |r| ==> r[i] == (records[i].grantId, records[i])
  {
    seq(|records|, i requires 0 <= i < |records| => (records[i].grantId, records[i]))
  }

  function Restored(s: Snapshot): Store {
    PutGrants(EmptyStore, s.grants).(
      audits := FromPairs(s.audits),
      evidence := FromPairs(EvidencePairs(s.evidence)),
      idempotency := FromPairs(s.idempotency),
      subjectTokenGrant := FromPairs(s.subjectTokenGrants),
      deliveries := FromPairs(s.deliveries))
  }

  function ListGrants(st: Store): (r: seq<Grant>)
    requires forall i :: 0 <= i < |st.order| ==> st.order[i] in st.grants
    ensures |r| == |st.order| && forall i :: 0 <= i < |r| ==> r[i] == st.grants[st.order[i]]
  {
    seq(|st.order|, i requires 0 <= i < |st.order| => st.grants[st.order[i]])
  }

  /** Records are stored under their own ids, and the listing names every grant once. */
  ghost predicate Keyed(st: Store) {
    && (forall i :: 0 <= i < |st.order| ==> st.order[i] in st.grants)
    && (forall i, j :: 0 <= i < j < |st.order| ==> st.order[i] != st.order[j])
    && (forall id :: id in st.grants ==> id in st.order && st.grants[id].id == id)
    && (forall id :: id in st.evidence ==> st.evidence[id].grantId == id)
  }

  ghost predicate SnapshotOf(s: Snapshot, st: Store)
    requires Keyed(st)
  {
    && s.grants == ListGrants(st)
    && ListsMap(s.audits, st.audits)
    && ListsMap(EvidencePairs(s.evidence), st.evidence)
    && ListsMap(s.idempotency, st.idempotency)
    && ListsMap(s.subjectTokenGrants, st.subjectTokenGrant)
    && ListsMap(s.deliveries, st.deliveries)
  }

  lemma ListIsDefined(st: Store)
    requires Keyed(st)
    ensures forall i :: 0 <= i < |st.order| ==> st.order[i] in st.grants
  {
  }

  lemma ListedGrant(st: Store, n: nat)
    requires Keyed(st) && n < |st.order|
    ensures st.order[n] in st.grants && st.grants[st.order[n]].id == st.order[n] && st.order[n] !in st.order[..n]
    ensures |ListGrants(st)| == |st.order| && ListGrants(st)[n] == st.grants[st.order[n]]
  {
  }

  /** The store holds the first `n` listed grants, in their order. */
  ghost predicate HoldsFirst(r: Store, st: Store, n: nat)
    requires n <= |st.order|
  {
    && r.order == st.order[..n]
    && (forall id :: id in r.grants <==> id in st.order[..n])
    && (forall id :: id in r.grants ==> id in st.grants && r.grants[id] == st.grants[id])
  }

  lemma PutOneMore(r: Store, st: Store, n: nat)
    requires n < |st.order| && HoldsFirst(r, st, n)
    requires st.order[n] in st.grants && st.order[n] !in st.order[..n]
    ensures HoldsFirst(PutGrant(r, st.order[n], st.grants[st.order[n]]), st, n + 1)
  {
    assert st.order[..n + 1] == st.order[..n] + [st.order[n]];
  }

  lemma {:induction false} PutGrantsOf(st: Store, grants: seq<Grant>)
    requires Keyed(st) && grants <= ListGrants(st)
    ensures |grants| <= |st.order| && HoldsFirst(PutGrants(EmptyStore, grants), st, |grants|)
  {
    hide Keyed, ListGrants, HoldsFirst, PutGrant;
    ListIsDefined(st);
    if grants == [] {
      HoldsNone(st);
    } else {
      var n := |grants| - 1;
      PutGrantsOf(st, grants[..n]);
      ListedGrant(st, n);
      assert grants[n] == ListGrants(st)[n];
      PutOneMore(PutGrants(EmptyStore, grants[..n]), st, n);
    }
  }

  lemma HoldsNone(st: Store)
    ensures HoldsFirst(EmptyStore, st, 0)
  {
  }

  lemma AllGrantsPut(st: Store, grants: seq<Grant>)
    requires Keyed(st) && grants == ListGrants(st)
    ensures PutGrants(EmptyStore, grants).order == st.order && PutGrants(EmptyStore, grants).grants == st.grants
  {
    hide PutGrants, Keyed, ListGrants;
    PutGrantsOf(st, grants);
    ListIsWhole(st);
    var r := PutGrants(EmptyStore, grants);
    assert st.order[..|st.order|] == st.order;
    assert r.grants.Keys == st.grants.Keys;
  }

  lemma ListIsWhole(st: Store)
    requires Keyed(st)
    ensures |ListGrants(st)| == |st.order| && forall id :: id in st.order <==> id in st.grants
  {
  }

  /** Restoring a snapshot gives back the store it was taken from. */
  lemma SnapshotRoundTrip(s: Snapshot, st: Store)
    requires Keyed(st) && SnapshotOf(s, st)
    ensures Restored(s) == st
  {
    hide Keyed, PutGrants;
    AllGrantsPut(st, s.grants);
    ListingRoundTrip(s.audits, st.audits);
    ListingRoundTrip(EvidencePairs(s.evidence), st.evidence);
    ListingRoundTrip(s.idempotency, st.idempotency);
    ListingRoundTrip(s.subjectTokenGrants, st.subjectTokenGrant);
    ListingRoundTrip(s.deliveries, st.deliveries);
  }
}
