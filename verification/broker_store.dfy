/** The broker's in-memory store as the class it is, each method tied to its function in StoreModel. */
module BrokerStore {
  import opened Wrappers
  import opened BrokerTypes
  import opened StoreModel

  /** The entries of a map as a list, in no particular order. */
  method EntriesOf<V(!new)>(m: map<string, V>) returns (pairs: seq<(string, V)>)
    ensures ListsMap(pairs, m)
  {
    pairs := [];
    var pending := m.Keys;
    while pending != {}
      invariant pending <= m.Keys
      invariant forall p :: p in pairs ==> p.0 in m && m[p.0] == p.1
      invariant forall k :: k in m && k !in pending ==> (k, m[k]) in pairs
      decreases pending
    {
      var k :| k in pending;
      pairs := pairs + [(k, m[k])];
      pending := pending - {k};
    }
  }

  // --- the imperative form ---

  class InMemoryBrokerStore {
    var grants: map<string, Grant>
    var order: seq<string>
    var audits: map<string, seq<AuditEvent>>
    var evidence: map<string, Evidence>
    var idempotency: map<string, string>
    var subjectTokenGrant: map<string, string>
    var deliveries: map<string, seq<Delivery>>

    function State(): Store
      reads this
    {
      Store(grants, order, audits, evidence, idempotency, subjectTokenGrant, deliveries)
    }

    constructor ()
      ensures State() == EmptyStore
    {
      grants, order, audits, evidence := map[], [], map[], map[];
      idempotency, subjectTokenGrant, deliveries := map[], map[], map[];
    }

    method Set(id: string, g: Grant)
      modifies this
      ensures State() == PutGrant(old(State()), id, g)
    {
      if id !in grants {
        order := order + [id];
      }
      grants := grants[id := g];
    }

    method CreateExchangeGrant(g: Grant, key: Option<string>, reserve: bool) returns (creation: Creation)
      modifies this
      ensures (State(), creation) == StoreModel.CreateExchangeGrant(old(State()), g, key, reserve)
    {
      if key.Some? && key.value in idempotency && idempotency[key.value] in grants {
        return Creation(grants[idempotency[key.value]], false, true);
      }
      if reserve {
        if g.subjectTokenId in subjectTokenGrant && subjectTokenGrant[g.subjectTokenId] != "" &&
           subjectTokenGrant[g.subjectTokenId] != g.id
        {
          return Creation(g, false, false);
        }
        subjectTokenGrant := subjectTokenGrant[g.subjectTokenId := g.id];
      }
      Set(g.id, g);
      if key.Some? {
        idempotency := idempotency[key.value := g.id];
      }
      return Creation(g, true, true);
    }

    method ReserveSubjectToken(token: string, id: string) returns (reserved: bool)
      modifies this
      ensures (State(), reserved) == StoreModel.ReserveSubjectToken(old(State()), token, id)
    {
      if token in subjectTokenGrant && subjectTokenGrant[token] != "" && subjectTokenGrant[token] != id {
        return false;
      }
      subjectTokenGrant := subjectTokenGrant[token := id];
      return true;
    }

    method AppendAudit(id: string, e: AuditEvent)
      modifies this
      ensures State() == StoreModel.AppendAudit(old(State()), id, e)
    {
      var events := if id in audits then audits[id] else [];
      audits := audits[id := events + [e]];
    }

    /** Finds the record by walking the list, patches it in place and refreshes the evidence. */
    method UpdateDelivery(id: string, deliveryId: string, attempts: nat, now: int, receipt: Option<string>)
      modifies this
      ensures State() == StoreModel.UpdateDelivery(old(State()), id, deliveryId, attempts, now, receipt)
    {
      var records := if id in deliveries then deliveries[id] else [];
      var i := 0;
      while i < |records| && records[i].id != deliveryId
        invariant 0 <= i <= |records|
        invariant forall j :: 0 <= j < i ==> records[j].id != deliveryId
      {
        i := i + 1;
      }
      if i < |records| {
        PatchFirstAt(records, i, attempts, now, receipt);
        deliveries := deliveries[id := records[i := Attempted(records[i], attempts, now, receipt)]];
      } else {
        PatchFirstAbsent(records, deliveryId, attempts, now, receipt);
        assert id in deliveries ==> deliveries[id := records] == deliveries;
      }
      RefreshEvidenceDeliveries(id);
    }

    method RefreshEvidenceDeliveries(id: string)
      modifies this`evidence
      ensures evidence == if id in old(evidence)
                          then old(evidence)[id := old(evidence)[id].(revocationDeliveries := DeliveriesFor(State(), id))]
                          else old(evidence)
    {
      if id in evidence {
        var copy := if id in deliveries then deliveries[id] else [];
        evidence := evidence[id := evidence[id].(revocationDeliveries := copy)];
      }
    }

    method TakeSnapshot() returns (s: Snapshot)
      requires Keyed(State())
      ensures SnapshotOf(s, State())
    {
      var a := EntriesOf(audits);
      var e := EntriesOf(evidence);
      var records: seq<Evidence> := seq(|e|, i requires 0 <= i < |e| => e[i].1);
      assert EvidencePairs(records) == e by {
        forall i | 0 <= i < |e| ensures EvidencePairs(records)[i] == e[i] { assert e[i] in e; }
      }
      var k := EntriesOf(idempotency);
      var o := EntriesOf(subjectTokenGrant);
      var d := EntriesOf(deliveries);
      s := Snapshot(ListGrants(State()), a, records, k, o, d);
    }

    /** Clears every map and refills it entry by entry. */
    method Restore(s: Snapshot)
      modifies this
      ensures State() == Restored(s)
    {
      grants, order := map[], [];
      audits := map[];
      evidence := map[];
      idempotency := map[];
      subjectTokenGrant := map[];
      deliveries := map[];
      for i := 0 to |s.grants|
        invariant State() == PutGrants(EmptyStore, s.grants[..i])
      {
        assert s.grants[..i + 1][..i] == s.grants[..i];
        Set(s.grants[i].id, s.grants[i]);
      }
      assert s.grants[..|s.grants|] == s.grants;
      ghost var refilled := State();
      audits := Refill(s.audits);
      var pairs := EvidencePairs(s.evidence);
      evidence := Refill(pairs);
      idempotency := Refill(s.idempotency);
      subjectTokenGrant := Refill(s.subjectTokenGrants);
      deliveries := Refill(s.deliveries);
    }

    static method Refill<V>(pairs: seq<(string, V)>) returns (m: map<string, V>)
      ensures m == FromPairs(pairs)
    {
      m := map[];
      for i := 0 to |pairs|
        invariant m == FromPairs(pairs[..i])
      {
        assert pairs[..i + 1][..i] == pairs[..i];
        m := m[pairs[i].0 := pairs[i].1];
      }
      assert pairs[..|pairs|] == pairs;
    }
  }
}
