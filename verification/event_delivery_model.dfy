/**
  Delivery of revocation events with retries (packages/service/src/service.ts:705-762) over the
  in-memory listing of due deliveries (packages/service/src/repository.ts:146-172).
 */
module EventDeliveryModel {
  import opened Wrappers
  import opened Doubling

  datatype DeliveryStatus = Pending | Delivered | Failed

  datatype EventDelivery = EventDelivery(
    id: string,
    eventId: string,
    subscriberId: string,
    status: DeliveryStatus,
    attempts: nat,
    nextAttemptAt: int,
    lastAttemptAt: Option<int>,
    receipt: Option<string>)

  /** A response that is ok, with its request id, or anything else: another status or a throw. */
  datatype Outcome = Accepted(receipt: Option<string>) | Rejected

  /** `known` says whether subscriber and event are stored, `fetch` answers attempt `n` of a delivery. */
  datatype Env = Env(known: EventDelivery -> bool, fetch: (string, nat) -> Outcome)

  /** The deliveries by id, and their ids in the order of creation. */
  datatype Store = Store(order: seq<string>, deliveries: map<string, EventDelivery>)

  const MAX_ATTEMPTS := 5

  function RetrySeconds(attempts: nat): nat {
    if Power2(attempts) < 300 then Power2(attempts) else 300
  }

  function Attempted(d: EventDelivery, env: Env, now: int): EventDelivery {
    if !env.known(d) then d.(status := Failed, lastAttemptAt := Some(now))
    else
      var attempts := d.attempts + 1;
      match env.fetch(d.id, attempts)
      case Accepted(receipt) =>
        d.(status := Delivered, attempts := attempts, lastAttemptAt := Some(now), receipt := receipt)
      case Rejected =>
        if attempts >= MAX_ATTEMPTS then d.(status := Failed, attempts := attempts, lastAttemptAt := Some(now))
        else d.(attempts := attempts, lastAttemptAt := Some(now),
                nextAttemptAt := now + RetrySeconds(attempts) * 1000)
  }

  // --- listing what is due ---

  predicate Due(d: EventDelivery, now: int) {
    d.status.Pending? && d.nextAttemptAt <= now
  }

  function DueIds(order: seq<string>, ds: map<string, EventDelivery>, now: int): seq<EventDelivery> {
    if order == [] then []
    else
      var rest := DueIds(order[..|order| - 1], ds, now);
      var id := order[|order| - 1];
      if id in ds && Due(ds[id], now) then rest + [ds[id]] else rest
  }

  /** Stable insertion: a later delivery goes behind all with the same time. */
  function InsertByTime(sorted: seq<EventDelivery>, d: EventDelivery): seq<EventDelivery> {
    if sorted == [] || sorted[|sorted| - 1].nextAttemptAt <= d.nextAttemptAt then sorted + [d]
    else InsertByTime(sorted[..|sorted| - 1], d) + [sorted[|sorted| - 1]]
  }

  function SortByTime(ds: seq<EventDelivery>): seq<EventDelivery> {
    if ds == [] then [] else InsertByTime(SortByTime(ds[..|ds| - 1]), ds[|ds| - 1])
  }

  function ListDue(st: Store, now: int, limit: nat): seq<EventDelivery> {
    var sorted := SortByTime(DueIds(st.order, st.deliveries, now));
    if limit < |sorted| then sorted[..limit] else sorted
  }

  function Earlier(best: Option<int>, at: int): Option<int> {
    if best.None? || at < best.value then Some(at) else best
  }

  function NextPending(order: seq<string>, ds: map<string, EventDelivery>): Option<int> {
    if order == [] then None
    else
      var rest := NextPending(order[..|order| - 1], ds);
      var id := order[|order| - 1];
      if id in ds && ds[id].status.Pending? then Earlier(rest, ds[id].nextAttemptAt) else rest
  }

  // --- one round ---

  function DeliverListed(ds: map<string, EventDelivery>, due: seq<EventDelivery>, env: Env, now: int)
    : map<string, EventDelivery>
  {
    if due == [] then ds
    else
      var d := due[|due| - 1];
      DeliverListed(ds, due[..|due| - 1], env, now)[d.id := Attempted(d, env, now)]
  }

  function Round(st: Store, env: Env, now: int, limit: nat): Store {
    st.(deliveries := DeliverListed(st.deliveries, ListDue(st, now, limit), env, now))
  }

  // --- the invariant ---

  ghost predicate Valid(st: Store) {
    && (forall i, j :: 0 <= i < j < |st.order| ==> st.order[i] != st.order[j])
    && (forall i :: 0 <= i < |st.order| ==> st.order[i] in st.deliveries)
    && (forall id :: id in st.deliveries ==> id in st.order && RecordOk(st.deliveries[id], id))
  }

  /** A pending delivery has attempts left; nothing is ever sent more than five times. */
  ghost predicate RecordOk(d: EventDelivery, id: string) {
    d.id == id && d.attempts <= MAX_ATTEMPTS && (d.status.Pending? ==> d.attempts < MAX_ATTEMPTS)
  }

  ghost predicate Listed(due: seq<EventDelivery>, st: Store, now: int) {
    && (forall d :: d in due ==> d.id in st.deliveries && st.deliveries[d.id] == d && Due(d, now))
    && (forall i, j :: 0 <= i < j < |due| ==> due[i].id != due[j].id)
  }

  lemma {:induction false} DueIdsAre(st: Store, n: nat, now: int)
    requires Valid(st) && n <= |st.order|
    ensures Listed(DueIds(st.order[..n], st.deliveries, now), st, now)
    ensures forall d :: d in DueIds(st.order[..n], st.deliveries, now) <==>
              d.id in st.order[..n] && st.deliveries[d.id] == d && Due(d, now)
  {
    if n > 0 {
      var id := st.order[n - 1];
      assert st.order[..n][..n - 1] == st.order[..n - 1];
      assert st.order[..n] == st.order[..n - 1] + [id];
      DueIdsAre(st, n - 1, now);
      assert id !in st.order[..n - 1];
    }
  }

  ghost predicate ByTime(ds: seq<EventDelivery>) {
    forall i, j :: 0 <= i < j < |ds| ==> ds[i].nextAttemptAt <= ds[j].nextAttemptAt
  }

  lemma {:induction false} InsertKeeps(sorted: seq<EventDelivery>, d: EventDelivery)
    ensures multiset(InsertByTime(sorted, d)) == multiset(sorted) + multiset{d}
  {
    if sorted != [] {
      var n := |sorted| - 1;
      assert sorted == sorted[..n] + [sorted[n]];
      if sorted[n].nextAttemptAt > d.nextAttemptAt {
        InsertKeeps(sorted[..n], d);
      }
    }
  }

  lemma {:induction false} InsertSorts(sorted: seq<EventDelivery>, d: EventDelivery)
    requires ByTime(sorted)
    ensures ByTime(InsertByTime(sorted, d))
  {
    if sorted != [] && sorted[|sorted| - 1].nextAttemptAt > d.nextAttemptAt {
      InsertSorts(sorted[..|sorted| - 1], d);
      InsertBelow(sorted[..|sorted| - 1], d, sorted[|sorted| - 1].nextAttemptAt);
    }
  }

  lemma {:induction false} InsertBelow(sorted: seq<EventDelivery>, d: EventDelivery, at: int)
    requires d.nextAttemptAt <= at && forall i :: 0 <= i < |sorted| ==> sorted[i].nextAttemptAt <= at
    ensures forall i :: 0 <= i < |InsertByTime(sorted, d)| ==> InsertByTime(sorted, d)[i].nextAttemptAt <= at
  {
    if sorted != [] {
      InsertBelow(sorted[..|sorted| - 1], d, at);
    }
  }

  lemma {:induction false} SortKeeps(ds: seq<EventDelivery>)
    ensures multiset(SortByTime(ds)) == multiset(ds) && ByTime(SortByTime(ds))
  {
    if ds != [] {
      var n := |ds| - 1;
      SortKeeps(ds[..n]);
      InsertKeeps(SortByTime(ds[..n]), ds[n]);
      InsertSorts(SortByTime(ds[..n]), ds[n]);
      assert ds == ds[..n] + [ds[n]];
    }
  }

  /** Equal multisets of records with distinct ids list distinct ids. */
  lemma DistinctByMultiset(a: seq<EventDelivery>, b: seq<EventDelivery>)
    requires multiset(a) == multiset(b)
    requires forall i, j :: 0 <= i < j < |a| ==> a[i].id != a[j].id
    ensures forall i, j :: 0 <= i < j < |b| ==> b[i].id != b[j].id
  {
    forall i, j | 0 <= i < j < |b| ensures b[i].id != b[j].id {
      if b[i].id == b[j].id {
        assert b[i] in multiset(a) && b[j] in multiset(a);
        var k :| 0 <= k < |a| && a[k] == b[i];
        var l :| 0 <= l < |a| && a[l] == b[j];
        assert k == l;
        TwiceInSequence(b, i, j);
        OnceInSequence(a, k);
      }
    }
  }

  lemma TwiceInSequence(b: seq<EventDelivery>, i: nat, j: nat)
    requires i < j < |b| && b[i] == b[j]
    ensures multiset(b)[b[i]] >= 2
  {
    assert b == b[..i] + [b[i]] + b[i + 1..j] + [b[j]] + b[j + 1..];
    assert multiset(b) == multiset(b[..i]) + multiset{b[i]} + multiset(b[i + 1..j]) + multiset{b[j]} + multiset(b[j + 1..]);
  }

  lemma OnceInSequence(a: seq<EventDelivery>, k: nat)
    requires k < |a| && forall i, j :: 0 <= i < j < |a| ==> a[i].id != a[j].id
    ensures multiset(a)[a[k]] == 1
  {
    assert a == a[..k] + [a[k]] + a[k + 1..];
    assert a[k] !in a[..k] && a[k] !in a[k + 1..];
    assert multiset(a) == multiset(a[..k]) + multiset{a[k]} + multiset(a[k + 1..]);
  }

  /** Sorting a list leaves its elements, and distinct ids distinct. */
  lemma SortHasSame(ds: seq<EventDelivery>)
    ensures forall d :: d in SortByTime(ds) <==> d in ds
    ensures (forall i, j :: 0 <= i < j < |ds| ==> ds[i].id != ds[j].id) ==>
              forall i, j :: 0 <= i < j < |SortByTime(ds)| ==> SortByTime(ds)[i].id != SortByTime(ds)[j].id
  {
    hide SortByTime;
    SortKeeps(ds);
    var sorted := SortByTime(ds);
    forall d ensures d in sorted <==> d in ds { assert d in multiset(sorted) <==> d in multiset(ds); }
    if forall i, j :: 0 <= i < j < |ds| ==> ds[i].id != ds[j].id {
      DistinctByMultiset(ds, sorted);
    }
  }

  lemma SameElementsListed(found: seq<EventDelivery>, sorted: seq<EventDelivery>, st: Store, now: int)
    requires Listed(found, st, now) && (forall d :: d in sorted <==> d in found)
    requires forall i, j :: 0 <= i < j < |sorted| ==> sorted[i].id != sorted[j].id
    ensures Listed(sorted, st, now)
  {
    hide Due;
  }

  lemma ListedIsDistinct(found: seq<EventDelivery>, st: Store, now: int)
    requires Listed(found, st, now)
    ensures forall i, j :: 0 <= i < j < |found| ==> found[i].id != found[j].id
  {
    hide Due;
  }

  lemma AllDueAreFound(st: Store, now: int)
    requires Valid(st)
    ensures Listed(DueIds(st.order, st.deliveries, now), st, now)
    ensures forall id :: id in st.deliveries && Due(st.deliveries[id], now) ==>
              st.deliveries[id] in DueIds(st.order, st.deliveries, now)
  {
    hide DueIds, Listed, Due;
    assert st.order[..|st.order|] == st.order;
    DueIdsAre(st, |st.order|, now);
    forall id | id in st.deliveries && Due(st.deliveries[id], now)
      ensures st.deliveries[id] in DueIds(st.order, st.deliveries, now)
    {
      assert RecordOk(st.deliveries[id], id);
    }
  }

  /** The sorted due deliveries: all of them, each once, in order of their times. */
  lemma SortedDue(st: Store, now: int)
    requires Valid(st)
    ensures
      var sorted := SortByTime(DueIds(st.order, st.deliveries, now));
      && Listed(sorted, st, now)
      && (forall id :: id in st.deliveries && Due(st.deliveries[id], now) ==> st.deliveries[id] in sorted)
      && (forall i, j :: 0 <= i < j < |sorted| ==> sorted[i].nextAttemptAt <= sorted[j].nextAttemptAt)
  {
    hide SortByTime, DueIds, Valid, Listed, Due;
    var found := DueIds(st.order, st.deliveries, now);
    AllDueAreFound(st, now);
    ListedIsDistinct(found, st, now);
    SortHasSame(found);
    SameElementsListed(found, SortByTime(found), st, now);
    SortKeeps(found);
  }

  /** What a listing of due deliveries is: stored, due, distinct, the earliest ones, as many as allowed. */
  lemma ListDueIs(st: Store, now: int, limit: nat)
    requires Valid(st)
    ensures
      var due := ListDue(st, now, limit);
      && Listed(due, st, now)
      && (forall id :: id in st.deliveries && Due(st.deliveries[id], now) && st.deliveries[id] !in due ==>
            |due| == limit && forall d :: d in due ==> d.nextAttemptAt <= st.deliveries[id].nextAttemptAt)
  {
    hide SortByTime, DueIds, Valid;
    SortedDue(st, now);
    var sorted := SortByTime(DueIds(st.order, st.deliveries, now));
    var due := ListDue(st, now, limit);
    assert forall j :: 0 <= j < |due| ==> due[j] == sorted[j];
    forall id | id in st.deliveries && Due(st.deliveries[id], now) && st.deliveries[id] !in due
      ensures |due| == limit && forall d :: d in due ==> d.nextAttemptAt <= st.deliveries[id].nextAttemptAt
    {
      var k :| 0 <= k < |sorted| && sorted[k] == st.deliveries[id];
      assert |due| <= k;
    }
  }

  // --- termination ---

  /** Attempts that a delivery still has while it is pending. */
  function Share(ds: map<string, EventDelivery>, id: string): nat {
    if id in ds && ds[id].status.Pending? && ds[id].attempts < MAX_ATTEMPTS then MAX_ATTEMPTS - ds[id].attempts else 0
  }

  /** Attempts that all pending deliveries still have together. */
  function Budget(order: seq<string>, ds: map<string, EventDelivery>): nat {
    if order == [] then 0
    else
      Budget(order[..|order| - 1], ds) + Share(ds, order[|order| - 1])
  }

  lemma {:induction false} BudgetAtMost(order: seq<string>, ds: map<string, EventDelivery>)
    ensures Budget(order, ds) <= MAX_ATTEMPTS * |order|
  {
    if order != [] {
      BudgetAtMost(order[..|order| - 1], ds);
    }
  }

  /** No share grows, and one that shrinks makes the sum shrink. */
  lemma {:induction false} BudgetShrinks(order: seq<string>, a: map<string, EventDelivery>, b: map<string, EventDelivery>)
    requires forall id :: id in order ==> Share(b, id) <= Share(a, id)
    ensures Budget(order, b) <= Budget(order, a)
    ensures (exists id :: id in order && Share(b, id) < Share(a, id)) ==> Budget(order, b) < Budget(order, a)
  {
    if order != [] {
      var n := |order| - 1;
      assert order == order[..n] + [order[n]];
      BudgetShrinks(order[..n], a, b);
      assert forall id :: id in order <==> id in order[..n] || id == order[n];
    }
  }

  lemma {:induction false} NoBudgetNoPending(order: seq<string>, ds: map<string, EventDelivery>)
    ensures NextPending(order, ds).None? <==> forall id :: id in order && id in ds ==> !ds[id].status.Pending?
  {
    if order != [] {
      var n := |order| - 1;
      assert order == order[..n] + [order[n]];
      NoBudgetNoPending(order[..n], ds);
    }
  }

  /** The alarm time is the time of some pending delivery, and no pending delivery is earlier. */
  lemma {:induction false} NextPendingIsMinimum(order: seq<string>, ds: map<string, EventDelivery>)
    requires NextPending(order, ds).Some?
    ensures forall id :: id in order && id in ds && ds[id].status.Pending? ==>
              NextPending(order, ds).value <= ds[id].nextAttemptAt
    ensures exists id :: id in order && id in ds && ds[id].status.Pending? &&
              ds[id].nextAttemptAt == NextPending(order, ds).value
  {
    var n := |order| - 1;
    assert order == order[..n] + [order[n]];
    if NextPending(order[..n], ds).Some? {
      NextPendingIsMinimum(order[..n], ds);
    } else {
      NoBudgetNoPending(order[..n], ds);
    }
  }

  /** Each listed delivery is replaced by its attempted form, nothing else changes. */
  lemma {:induction false} DeliverListedAt(ds: map<string, EventDelivery>, due: seq<EventDelivery>, env: Env, now: int)
    requires forall i, j :: 0 <= i < j < |due| ==> due[i].id != due[j].id
    requires forall d :: d in due ==> d.id in ds
    ensures
      var r := DeliverListed(ds, due, env, now);
      && r.Keys == ds.Keys
      && (forall d :: d in due ==> r[d.id] == Attempted(d, env, now))
      && (forall id :: id in ds && (forall d :: d in due ==> d.id != id) ==> r[id] == ds[id])
  {
    if due != [] {
      var n := |due| - 1;
      assert due == due[..n] + [due[n]];
      DeliverListedAt(ds, due[..n], env, now);
      forall d | d in due[..n] ensures d.id != due[n].id { }
    }
  }

  lemma AttemptedOk(d: EventDelivery, env: Env, now: int)
    requires RecordOk(d, d.id) && d.status.Pending?
    ensures
      var d' := Attempted(d, env, now);
      && RecordOk(d', d.id)
      && (env.known(d) ==> d'.attempts == d.attempts + 1) && (!env.known(d) ==> d'.attempts == d.attempts)
      && (d'.status.Pending? ==> d'.nextAttemptAt == now + Power2(d'.attempts) * 1000 && 2 <= Power2(d'.attempts) <= 16)
      && (d'.status.Delivered? <==> env.known(d) && env.fetch(d.id, d.attempts + 1).Accepted?)
      && (d'.status.Failed? <==> !env.known(d) || (env.fetch(d.id, d.attempts + 1).Rejected? && d.attempts + 1 == 5))
      && (d'.status.Delivered? ==> d'.receipt == env.fetch(d.id, d.attempts + 1).receipt) && d'.lastAttemptAt == Some(now)
  {
    assert Power2(1) == 2 && Power2(2) == 4 && Power2(3) == 8 && Power2(4) == 16;
  }

  /** A round keeps the store in order, never touches a settled delivery, and uses up budget. */
  lemma RoundIsGood(st: Store, env: Env, now: int, limit: nat)
    requires Valid(st)
    ensures
      var st' := Round(st, env, now, limit);
      && Valid(st') && st'.order == st.order && st'.deliveries.Keys == st.deliveries.Keys
      && (forall id :: id in st.deliveries && !st.deliveries[id].status.Pending? ==>
            st'.deliveries[id] == st.deliveries[id])
      && (forall id :: id in st.deliveries ==> Share(st'.deliveries, id) <= Share(st.deliveries, id))
      && (forall d :: d in ListDue(st, now, limit) ==> Share(st'.deliveries, d.id) < Share(st.deliveries, d.id))
  {
    var due := ListDue(st, now, limit);
    ListDueIs(st, now, limit);
    DeliverListedAt(st.deliveries, due, env, now);
    var st' := Round(st, env, now, limit);
    forall d | d in due
      ensures RecordOk(st'.deliveries[d.id], d.id) && Share(st'.deliveries, d.id) < Share(st.deliveries, d.id)
    {
      AttemptedOk(d, env, now);
    }
    forall id | id in st.deliveries
      ensures RecordOk(st'.deliveries[id], id) && Share(st'.deliveries, id) <= Share(st.deliveries, id)
      ensures !st.deliveries[id].status.Pending? ==> st'.deliveries[id] == st.deliveries[id]
    {
      if d :| d in due && d.id == id {
        assert Listed(due, st, now);
      }
    }
  }

  lemma OrderIsComplete(st: Store)
    requires Valid(st)
    ensures forall id :: id in st.order <==> id in st.deliveries
  {
  }

  /** An alarm firing at or after its time uses up at least one attempt. */
  lemma FiringUsesBudget(st: Store, env: Env, now: int, limit: nat)
    requires Valid(st) && limit >= 1
    requires NextPending(st.order, st.deliveries).Some? && now >= NextPending(st.order, st.deliveries).value
    ensures Budget(st.order, Round(st, env, now, limit).deliveries) < Budget(st.order, st.deliveries)
  {
    hide Valid, Round, ListDue, Budget, NextPending, Share;
    RoundIsGood(st, env, now, limit);
    NextPendingIsMinimum(st.order, st.deliveries);
    var id :| id in st.order && id in st.deliveries && st.deliveries[id].status.Pending? &&
      st.deliveries[id].nextAttemptAt == NextPending(st.order, st.deliveries).value;
    ListDueIs(st, now, limit);
    var due := ListDue(st, now, limit);
    assert due != [] by {
      assert Due(st.deliveries[id], now);
      assert st.deliveries[id] in due || |due| == limit;
    }
    assert due[0] in due;
    OrderIsComplete(st);
    BudgetShrinks(st.order, st.deliveries, Round(st, env, now, limit).deliveries);
  }

  /** One alarm firing: the time, and what the subscribers answer during it. */
  datatype Firing = Firing(env: Env, now: int)

  /** Every firing happens while an alarm is armed, at or after its time. */
  ghost predicate OnTime(st: Store, firings: seq<Firing>, limit: nat)
    decreases |firings|
  {
    firings == [] ||
    (var armed := NextPending(st.order, st.deliveries);
     armed.Some? && armed.value <= firings[0].now && OnTime(Round(st, firings[0].env, firings[0].now, limit), firings[1..], limit))
  }

  function AfterFirings(st: Store, firings: seq<Firing>, limit: nat): Store
    decreases |firings|
  {
    if firings == [] then st else AfterFirings(Round(st, firings[0].env, firings[0].now, limit), firings[1..], limit)
  }

  /**
    The retry loop ends: with no new events there are at most five firings per delivery, and once no
    alarm is armed no delivery is pending.
   */
  lemma {:induction false} RetryLoopEnds(st: Store, firings: seq<Firing>, limit: nat)
    requires Valid(st) && limit >= 1 && OnTime(st, firings, limit)
    ensures |firings| <= Budget(st.order, st.deliveries) <= MAX_ATTEMPTS * |st.order|
    ensures
      var last := AfterFirings(st, firings, limit);
      && Valid(last) && last.order == st.order
      && (NextPending(last.order, last.deliveries).None? <==>
            forall id :: id in last.deliveries ==> !last.deliveries[id].status.Pending?)
      && (|firings| == Budget(st.order, st.deliveries) ==> NextPending(last.order, last.deliveries).None?)
    decreases |firings|
  {
    BudgetAtMost(st.order, st.deliveries);
    if firings == [] {
      NoBudgetNoPending(st.order, st.deliveries);
      if Budget(st.order, st.deliveries) == 0 && NextPending(st.order, st.deliveries).Some? {
        NextPendingIsMinimum(st.order, st.deliveries);
        FiringUsesBudget(st, Env(d => false, (id, n) => Rejected), NextPending(st.order, st.deliveries).value, limit);
      }
    } else {
      var f := firings[0];
      RoundIsGood(st, f.env, f.now, limit);
      FiringUsesBudget(st, f.env, f.now, limit);
      RetryLoopEnds(Round(st, f.env, f.now, limit), firings[1..], limit);
    }
  }

  /** How often a delivery was sent during some firings: once for every listing with its records known. */
  function Sends(st: Store, firings: seq<Firing>, limit: nat, id: string): nat
    decreases |firings|
  {
    if firings == [] then 0
    else
      (if id in st.deliveries && st.deliveries[id] in ListDue(st, firings[0].now, limit) &&
          firings[0].env.known(st.deliveries[id]) then 1 else 0) +
      Sends(Round(st, firings[0].env, firings[0].now, limit), firings[1..], limit, id)
  }

  /** The attempt counter counts exactly the sends, so no delivery is sent more than five times. */
  lemma {:induction false} AtMostFiveSends(st: Store, firings: seq<Firing>, limit: nat, id: string)
    requires Valid(st) && id in st.deliveries
    ensures
      var last := AfterFirings(st, firings, limit);
      && id in last.deliveries
      && last.deliveries[id].attempts == st.deliveries[id].attempts + Sends(st, firings, limit, id)
      && st.deliveries[id].attempts + Sends(st, firings, limit, id) <= MAX_ATTEMPTS
    decreases |firings|
  {
    if firings != [] {
      var f := firings[0];
      RoundIsGood(st, f.env, f.now, limit);
      ListDueIs(st, f.now, limit);
      var due := ListDue(st, f.now, limit);
      DeliverListedAt(st.deliveries, due, f.env, f.now);
      var d := st.deliveries[id];
      if d in due {
        AttemptedOk(d, f.env, f.now);
      } else {
        assert forall e :: e in due ==> e.id != id;
      }
      AtMostFiveSends(Round(st, f.env, f.now, limit), firings[1..], limit, id);
    }
  }
}
