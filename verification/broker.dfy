/**
  The broker as the class it is (packages/broker/src/broker.ts) and the coordinator's retry alarm
  (packages/broker/src/runtime.ts:696-712).  Every method is tied to its function in BrokerModel.
 */
module BrokerClass {
  import opened Wrappers
  import opened BrokerTypes
  import opened BrokerRules
  import opened StoreModel
  import opened BrokerStore
  import opened BrokerModel
  import Dpop

  class Broker {
    const store: InMemoryBrokerStore
    const replays: Dpop.ReplayGuard
    const config: Config

    function State(): State
      reads store, replays
    {
      BrokerModel.State(store.State(), replays.seen)
    }

    constructor (config: Config, store: InMemoryBrokerStore, entries: seq<Dpop.Entry>, now: int)
      ensures this.config == config && this.store == store && fresh(replays)
      ensures State() == BrokerModel.State(old(store.State()), Dpop.FromEntries(entries, now))
    {
      this.config := config;
      this.store := store;
      this.replays := new Dpop.ReplayGuard(entries, now);
    }

    method Exchange(env: Env, p: Proposal, authority: Option<Authority>, decision: Decision,
                    grantId: string, reference: string, signs: bool) returns (r: Result<Reply, Error>)
      requires env.config == config
      modifies store
      ensures (store.State(), r)
           == BrokerModel.Exchange(old(store.State()), env, p, authority, decision, grantId, reference, signs)
      ensures replays.seen == old(replays.seen)
    {
      var proposed := Propose(p, authority, decision, config.maxTtlSeconds, grantId, reference, env.now);
      if proposed.Err? {
        return Err(proposed.error);
      }
      var g := proposed.value;
      var creation := store.CreateExchangeGrant(g, IdempotencyKey(p), decision.Allow?);
      if !creation.subjectTokenReserved {
        return Err(TokenAlreadyExchanged);
      }
      if !creation.created {
        return Ok(Reply(creation.grant, creation.grant.approvalReference, None));
      }
      store.AppendAudit(g.id, AuditEvent(GrantProposed, env.now));
      if decision.Block? {
        store.AppendAudit(g.id, AuditEvent(GrantDenied, env.now));
        return Ok(Reply(g, None, None));
      }
      if decision.Allow? {
        store.AppendAudit(g.id, AuditEvent(GrantApproved, env.now));
        if !signs {
          return Err(SigningFailed);
        }
        return Ok(Reply(g, None, Some(Signed(Mint(g)))));
      }
      return Ok(Reply(g, g.approvalReference, None));
    }

    method Approve(env: Env, id: string, approver: string, signs: bool) returns (r: Result<Reply, Error>)
      modifies store
      ensures (store.State(), r) == BrokerModel.Approve(old(store.State()), env, id, approver, signs)
      ensures replays.seen == old(replays.seen)
    {
      if id !in store.grants {
        return Err(GrantNotFound);
      }
      var g := store.grants[id];
      var failed := ApproveCheck(g, env.now);
      if failed.Some? {
        return Err(failed.value);
      }
      var reserved := store.ReserveSubjectToken(g.subjectTokenId, id);
      if !reserved {
        return Err(TokenAlreadyExchanged);
      }
      g := ApprovedBy(g, approver, env.now);
      store.Set(id, g);
      store.AppendAudit(id, AuditEvent(GrantApproved, env.now));
      if !signs {
        return Err(SigningFailed);
      }
      return Ok(Reply(g, None, Some(Signed(Mint(g)))));
    }

    method Consume(env: Env, input: ConsumeInput) returns (r: Result<Grant, Error>)
      modifies store, replays
      ensures (State(), r) == BrokerModel.Consume(old(State()), env, input)
    {
      var claims := VerifyCredential(input.credential, env.now, true);
      if claims.Err? {
        return Err(claims.error);
      }
      var id := claims.value.grantId;
      if id !in store.grants {
        return Err(GrantNotFound);
      }
      var g := store.grants[id];
      var failed := ConsumeCheck(g, claims.value, input, env.now);
      if failed.Some? {
        return Err(failed.value);
      }
      var verdict := replays.Verify(input.proof.dpop, g.dpopThumbprint, env.now);
      if verdict.Some? {
        return Err(verdict.value);
      }
      g := ConsumedAt(g, env.now);
      store.Set(id, g);
      store.AppendAudit(id, AuditEvent(GrantConsumed, env.now));
      return Ok(g);
    }

    method Deliver(env: Env, id: string, d: Delivery)
      modifies store
      ensures store.State() == DeliverOne(old(store.State()), env, id, d)
    {
      var attempts := d.attempts + 1;
      var receipt := env.relay(d.id, attempts);
      store.UpdateDelivery(id, d.id, attempts, env.now, receipt);
      store.AppendAudit(id, AuditEvent(RevocationDelivery(receipt.Some?, attempts), env.now));
    }

    method SettleGrant(env: Env, id: string, source: Source, status: Status)
      requires env.config == config && id in store.grants
      modifies store
      ensures store.State() == Settle(old(store.State()), env, id, source, status)
    {
      var g := store.grants[id];
      store.Set(id, FinalizedBy(g, status, source, env.now, env.ids.evidence(id)));
      store.AppendAudit(id, AuditEvent(FinalEvent(source, status), env.now));
      var ds := NewDeliveries(env, id);
      store.deliveries := store.deliveries[id := ds];
      store.evidence := store.evidence[id :=
        Evidence(env.ids.evidence(id), id, env.now, AuditFor(store.State(), id), g.approver, source, ds,
                 env.now + config.retentionMs)];
    }

    method DeliverUndelivered(env: Env, id: string)
      modifies store
      ensures store.State() == DeliverPending(old(store.State()), env, id)
    {
      ghost var settled := store.State();
      var records := DeliveriesFor(store.State(), id);
      for i := 0 to |records|
        invariant store.State() == DeliverAll(settled, env, id, Undelivered(records[..i]))
      {
        assert records[..i + 1][..i] == records[..i];
        if !records[i].status.Delivered? {
          ghost var todo := Undelivered(records[..i]);
          assert (todo + [records[i]])[..|todo|] == todo;
          Deliver(env, id, records[i]);
        }
      }
      assert records[..|records|] == records;
    }

    method Finalize(env: Env, id: string, source: Source, status: Status) returns (r: Result<Evidence, Error>)
      requires env.config == config
      modifies store
      ensures (store.State(), r) == BrokerModel.Finalize(old(store.State()), env, id, source, status)
      ensures replays.seen == old(replays.seen)
    {
      if id !in store.grants {
        return Err(GrantNotFound);
      }
      if id !in store.evidence {
        if store.grants[id].status.Denied? {
          return Err(GrantNotApproved);
        }
        SettleGrant(env, id, source, status);
      }
      assert store.State() == Settled(old(store.State()), env, id, source, status);
      r := DeliverAndReport(env, id);
    }

    method DeliverAndReport(env: Env, id: string) returns (r: Result<Evidence, Error>)
      requires id in store.evidence
      modifies store
      ensures store.State() == DeliverPending(old(store.State()), env, id)
      ensures r == Ok(store.State().evidence[id])
    {
      ghost var settled := store.State();
      DeliverUndelivered(env, id);
      assert store.State().evidence.Keys == settled.evidence.Keys;
      return Ok(store.evidence[id]);
    }

    method CompleteAuthenticated(env: Env, id: string, credential: Credential, proof: RequestProof)
      returns (r: Result<Evidence, Error>)
      requires env.config == config
      modifies store, replays
      ensures (State(), r) == BrokerModel.CompleteAuthenticated(old(State()), env, id, credential, proof)
    {
      var claims := VerifyCredential(credential, env.now, false);
      if claims.Err? {
        return Err(claims.error);
      }
      if claims.value.grantId != id {
        return Err(InvalidCredential);
      }
      if id !in store.grants {
        return Err(GrantNotFound);
      }
      var g := store.grants[id];
      var failed := CompleteCheck(g, claims.value, proof);
      if failed.Some? {
        return Err(failed.value);
      }
      var verdict := replays.Verify(proof.dpop, g.dpopThumbprint, env.now);
      if verdict.Some? {
        return Err(verdict.value);
      }
      r := Finalize(env, id, Agent, Revoked);
    }

    /** Lists the grants first and expires the due ones in that order, stopping at a throw. */
    method ExpireDue(env: Env) returns (r: Result<seq<Evidence>, Error>)
      requires env.config == config && Keyed(store.State())
      modifies store
      ensures (store.State(), r) == ExpireListed(old(store.State()), env, ListGrants(old(store.State())))
    {
      var grants := ListGrants(store.State());
      r := ExpireEach(env, grants);
    }

    method ExpireEach(env: Env, grants: seq<Grant>) returns (r: Result<seq<Evidence>, Error>)
      requires env.config == config
      modifies store
      ensures store.State() == ExpireListed(old(store.State()), env, grants).0
      ensures r == ExpireListed(old(store.State()), env, grants).1
    {
      ghost var before := store.State();
      var expired := [];
      for i := 0 to |grants|
        invariant store.State() == ExpireListed(before, env, grants[..i]).0
        invariant Ok(expired) == ExpireListed(before, env, grants[..i]).1
      {
        ExpireStep(before, env, grants, i);
        if ExpiryDue(grants[i], env.now) {
          var e := Finalize(env, grants[i].id, Ttl, Expired);
          if e.Err? {
            ExpireStops(before, env, grants, i + 1);
            return Err(e.error);
          }
          expired := expired + [e.value];
        }
      }
      assert grants[..|grants|] == grants;
      return Ok(expired);
    }

    method RetryRevocations(env: Env)
      modifies store
      ensures store.State() == RetryListed(old(store.State()), env, old(store.order))
    {
      hide DeliverAll, DueForRetry, RetryListed, DeliverOne;
      ghost var before := store.State();
      var ids := store.order;
      RetryNone(before, env, "", []);
      for g := 0 to |ids|
        invariant store.State() == RetryListed(before, env, ids[..g])
      {
        RetryOneMore(before, env, ids[..g], ids[g]);
        assert ids[..g + 1] == ids[..g] + [ids[g]];
        ghost var sofar := store.State();
        var records := DeliveriesFor(store.State(), ids[g]);
        RetryNone(sofar, env, ids[g], records);
        for i := 0 to |records|
          invariant store.State() == DeliverAll(sofar, env, ids[g], DueForRetry(records[..i], env.now))
        {
          DueOneMore(sofar, env, ids[g], records[..i], records[i]);
          assert records[..i + 1] == records[..i] + [records[i]];
          if !records[i].status.Delivered? &&
             (records[i].nextAttemptAt.None? || records[i].nextAttemptAt.value <= env.now)
          {
            Deliver(env, ids[g], records[i]);
          }
        }
        assert records[..|records|] == records;
      }
      assert ids[..|ids|] == ids;
    }

    /**
      The time at which the coordinator arms its alarm, or nothing when every delivery is done:
      the minimum over all deliveries that are not.
     */
    method EarliestRetry(now: int) returns (alarm: Option<int>)
      ensures alarm.None? <==> forall id, k :: id in store.order && 0 <= k < |DeliveriesFor(store.State(), id)| ==>
                DeliveriesFor(store.State(), id)[k].status.Delivered?
      ensures alarm.Some? ==>
                && (forall id, k :: id in store.order && 0 <= k < |DeliveriesFor(store.State(), id)| ==>
                      NotBefore(DeliveriesFor(store.State(), id)[k], now, alarm.value))
                && (exists id, k :: id in store.order && 0 <= k < |DeliveriesFor(store.State(), id)| &&
                      DueExactly(DeliveriesFor(store.State(), id)[k], now, alarm.value))
    {
      var earliest: Option<int> := None;
      for g := 0 to |store.order|
        invariant forall h, k :: 0 <= h < g && 0 <= k < |DeliveriesFor(store.State(), store.order[h])| ==>
                    Covered(DeliveriesFor(store.State(), store.order[h])[k], now, earliest)
        invariant earliest.Some? ==>
                    exists h, k :: 0 <= h < g && 0 <= k < |DeliveriesFor(store.State(), store.order[h])| &&
                      DueExactly(DeliveriesFor(store.State(), store.order[h])[k], now, earliest.value)
      {
        var ds := DeliveriesFor(store.State(), store.order[g]);
        for i := 0 to |ds|
          invariant forall h, k :: 0 <= h < g && 0 <= k < |DeliveriesFor(store.State(), store.order[h])| ==>
                      Covered(DeliveriesFor(store.State(), store.order[h])[k], now, earliest)
          invariant forall k :: 0 <= k < i ==> Covered(ds[k], now, earliest)
          invariant earliest.Some? ==>
                      || (exists h, k :: 0 <= h < g && 0 <= k < |DeliveriesFor(store.State(), store.order[h])| &&
                            DueExactly(DeliveriesFor(store.State(), store.order[h])[k], now, earliest.value))
                      || (exists k :: 0 <= k < i && DueExactly(ds[k], now, earliest.value))
        {
          if !ds[i].status.Delivered? {
            var dueAt := if ds[i].nextAttemptAt.Some? then ds[i].nextAttemptAt.value else now;
            if earliest.None? || dueAt < earliest.value {
              earliest := Some(dueAt);
              assert DueExactly(ds[i], now, dueAt);
            }
          }
        }
      }
      return earliest;
    }
  }

  datatype RuntimeState = RuntimeState(store: Snapshot, dpopReplayEntries: seq<Dpop.Entry>)

  /** The coordinator object around the broker (packages/broker/src/runtime.ts:563-713). */
  class BrokerCoordinator {
    const config: Config
    var broker: Broker?
    var storage: Option<RuntimeState>
    var alarm: Option<int>

    constructor (config: Config)
      ensures this.config == config && broker == null && storage.None? && alarm.None?
    {
      this.config := config;
      broker, storage, alarm := null, None, None;
    }

    /** Returns the broker in memory, or builds one from what is stored. */
    method Current(now: int) returns (b: Broker)
      modifies this`broker
      ensures broker == b
      ensures old(broker) != null ==> b == old(broker)
      ensures old(broker) == null ==>
                && fresh(b) && fresh(b.store) && fresh(b.replays) && b.config == config
                && b.State() == match storage
                                case None => BrokerModel.State(EmptyStore, map[])
                                case Some(saved) => BrokerModel.State(Restored(saved.store),
                                                                      Dpop.FromEntries(saved.dpopReplayEntries, now))
    {
      if broker == null {
        var store := new InMemoryBrokerStore();
        var entries: seq<Dpop.Entry> := [];
        if storage.Some? {
          store.Restore(storage.value.store);
          entries := storage.value.dpopReplayEntries;
        }
        broker := new Broker(config, store, entries, now);
      }
      b := broker;
    }

    method Persist(now: int)
      requires broker != null && Keyed(broker.store.State())
      modifies this`storage, broker.replays
      ensures broker.store.State() == old(broker.store.State())
      ensures broker.replays.seen == Dpop.Prune(old(broker.replays.seen), now)
      ensures storage.Some? && SnapshotOf(storage.value.store, broker.store.State())
      ensures Dpop.Lists(storage.value.dpopReplayEntries, broker.replays.seen)
    {
      var snapshot := broker.store.TakeSnapshot();
      var entries := broker.replays.Entries(now);
      storage := Some(RuntimeState(snapshot, entries));
    }

    method ResetBroker()
      modifies this`broker
      ensures broker == null
    {
      broker := null;
    }

    /** Losing the isolate after a request was persisted: the store survives, dead replay entries do not. */
    method Recreate(savedAt: int, readAt: int)
      requires broker != null && Keyed(broker.store.State()) && "" !in broker.replays.seen && savedAt <= readAt
      modifies this`broker, this`storage, broker.replays
      ensures broker != null && fresh(broker)
      ensures broker.State()
           == BrokerModel.State(old(broker.store.State()), Dpop.Prune(old(broker.replays.seen), readAt))
    {
      ghost var before := broker.State();
      Persist(savedAt);
      var saved := storage.value;
      SnapshotRoundTrip(saved.store, before.store);
      Dpop.LaterReload(saved.dpopReplayEntries, before.seen, savedAt, readAt);
      ResetBroker();
      var b := Current(readAt);
      assert b.replays.seen == Dpop.Prune(before.seen, readAt);
    }

    /** Arms the alarm at the earliest retry; with nothing left to retry the alarm stays as it is. */
    method ScheduleRetry(now: int)
      requires broker != null
      modifies this`alarm
      ensures forall id, k :: id in broker.store.order && 0 <= k < |DeliveriesFor(broker.store.State(), id)| ==>
                Covered(DeliveriesFor(broker.store.State(), id)[k], now, alarm)
      ensures (forall id, k :: id in broker.store.order && 0 <= k < |DeliveriesFor(broker.store.State(), id)| ==>
                 DeliveriesFor(broker.store.State(), id)[k].status.Delivered?) ==> alarm == old(alarm)
    {
      var earliest := broker.EarliestRetry(now);
      if earliest.Some? {
        alarm := earliest;
        forall id, k | id in broker.store.order && 0 <= k < |DeliveriesFor(broker.store.State(), id)|
          ensures NotBefore(DeliveriesFor(broker.store.State(), id)[k], now, earliest.value)
        {
        }
      }
    }
  }

  function DueAt(d: Delivery, now: int): int {
    if d.nextAttemptAt.Some? then d.nextAttemptAt.value else now
  }

  predicate NotBefore(d: Delivery, now: int, alarm: int) {
    !d.status.Delivered? ==> alarm <= DueAt(d, now)
  }

  predicate DueExactly(d: Delivery, now: int, alarm: int) {
    !d.status.Delivered? && DueAt(d, now) == alarm
  }

  predicate Covered(d: Delivery, now: int, earliest: Option<int>) {
    !d.status.Delivered? ==> earliest.Some? && earliest.value <= DueAt(d, now)
  }

  lemma ExpireStep(st: Store, env: Env, grants: seq<Grant>, i: nat)
    requires i < |grants|
    ensures
      var (rest, r) := ExpireListed(st, env, grants[..i]);
      var (next, e) := BrokerModel.Finalize(rest, env, grants[i].id, Ttl, Expired);
      ExpireListed(st, env, grants[..i + 1])
      == if r.Err? || !ExpiryDue(grants[i], env.now) then (rest, r)
         else (next, if e.Ok? then Ok(r.value + [e.value]) else Err(e.error))
  {
    assert grants[..i + 1][..i] == grants[..i];
  }

  /** One more record in the list to go through. */
  lemma DueOneMore(st: Store, env: Env, id: string, records: seq<Delivery>, d: Delivery)
    ensures
      var due := !d.status.Delivered? && (d.nextAttemptAt.None? || d.nextAttemptAt.value <= env.now);
      var sofar := DeliverAll(st, env, id, DueForRetry(records, env.now));
      DeliverAll(st, env, id, DueForRetry(records + [d], env.now)) == if due then DeliverOne(sofar, env, id, d) else sofar
  {
    hide DeliverOne;
    assert (records + [d])[..|records|] == records && (records + [d])[|records|] == d;
    var todo := DueForRetry(records, env.now);
    assert (todo + [d])[..|todo|] == todo && (todo + [d])[|todo|] == d;
  }

  lemma RetryNone(st: Store, env: Env, id: string, records: seq<Delivery>)
    ensures RetryListed(st, env, []) == st && DeliverAll(st, env, id, DueForRetry(records[..0], env.now)) == st
  {
  }

  lemma RetryOneMore(st: Store, env: Env, ids: seq<string>, id: string)
    ensures
      var sofar := RetryListed(st, env, ids);
      RetryListed(st, env, ids + [id]) == DeliverAll(sofar, env, id, DueForRetry(DeliveriesFor(sofar, id), env.now))
  {
    hide DeliverAll, DueForRetry, DeliveriesFor;
    assert (ids + [id])[..|ids|] == ids && (ids + [id])[|ids|] == id;
  }

  /** After a throw the rest of the listed grants is left alone. */
  lemma {:induction false} ExpireStops(st: Store, env: Env, grants: seq<Grant>, n: nat)
    requires n <= |grants| && ExpireListed(st, env, grants[..n]).1.Err?
    ensures ExpireListed(st, env, grants) == ExpireListed(st, env, grants[..n])
    decreases |grants|
  {
    hide BrokerModel.Finalize, ExpiryDue;
    if n < |grants| {
      var m := |grants| - 1;
      assert grants[..m][..n] == grants[..n];
      ExpireStops(st, env, grants[..m], n);
    } else {
      assert grants[..n] == grants;
    }
  }
}
