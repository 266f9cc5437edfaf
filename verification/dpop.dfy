/**
  Freshness and replay of DPoP proofs (packages/broker/src/crypto.ts:304-357) and the replay
  entries the coordinator keeps between restarts (packages/broker/src/broker.ts:99-106, 356-367).
 */
module Dpop {
  import opened Wrappers
  import opened BrokerTypes

  /** Milliseconds a jti is remembered, and the tolerance of `iat` on either side. */
  const LIFETIME := 300_000

  type Seen = map<string, int>

  /**
    A proof after parsing.  `wellFormed` covers its structure, header, `jti`, `htm` and `htu`;
    `iat` is a JSON number of seconds.
   */
  datatype Proof = Proof(wellFormed: bool, iat: real, jti: string, thumbprint: string, signatureValid: bool)

  predicate Fresh(iat: real, now: int) {
    -(LIFETIME as real) <= now as real - iat * 1000.0 <= LIFETIME as real
  }

  function Prune(seen: Seen, now: int): Seen {
    seen - set jti | jti in seen && seen[jti] <= now
  }

  /** The checks that come before the replay map is touched. */
  function CheckProof(proof: Proof, expectedThumbprint: string, now: int): Option<Error> {
    if !proof.wellFormed || proof.jti == "" || !Fresh(proof.iat, now) then Some(DpopProofInvalid)
    else if proof.thumbprint != expectedThumbprint then Some(WrongDpopKey)
    else if !proof.signatureValid then Some(DpopProofInvalid)
    else None
  }

  function Verdict(seen: Seen, proof: Proof, expectedThumbprint: string, now: int): Option<Error> {
    var failed := CheckProof(proof, expectedThumbprint, now);
    if failed.Some? then failed
    else if proof.jti in Prune(seen, now) then Some(DpopProofInvalid)
    else None
  }

  /** The replay map after a call: pruned once the proof itself is good, extended on acceptance. */
  function SeenAfter(seen: Seen, proof: Proof, expectedThumbprint: string, now: int): Seen {
    if CheckProof(proof, expectedThumbprint, now).Some? then seen
    else if proof.jti in Prune(seen, now) then Prune(seen, now)
    else Prune(seen, now)[proof.jti := now + LIFETIME]
  }

  // --- persisted entries ---

  datatype Entry = Entry(jti: string, expiresAt: int)

  /** The constructor's filter followed by `new Map`: a later entry replaces an earlier one. */
  function FromEntries(entries: seq<Entry>, now: int): Seen {
    if entries == [] then map[]
    else
      var rest := FromEntries(entries[..|entries| - 1], now);
      var last := entries[|entries| - 1];
      if last.jti != "" && last.expiresAt > now then rest[last.jti := last.expiresAt] else rest
  }

  ghost predicate Lists(entries: seq<Entry>, seen: Seen) {
    && (forall e :: e in entries ==> e.jti in seen && seen[e.jti] == e.expiresAt)
    && (forall jti :: jti in seen ==> Entry(jti, seen[jti]) in entries)
  }

  /** Reloading listed entries keeps exactly the live ones. */
  lemma {:induction false} ReloadPrunes(entries: seq<Entry>, seen: Seen, now: int)
    requires forall e :: e in entries ==> e.jti in seen && seen[e.jti] == e.expiresAt
    requires "" !in seen
    ensures forall jti :: jti in FromEntries(entries, now) <==>
              jti in seen && Entry(jti, seen[jti]) in entries && seen[jti] > now
    ensures forall jti :: jti in FromEntries(entries, now) ==> FromEntries(entries, now)[jti] == seen[jti]
  {
    if entries != [] {
      var n := |entries| - 1;
      assert entries == entries[..n] + [entries[n]];
      ReloadPrunes(entries[..n], seen, now);
    }
  }

  /** Entries saved at one time and read back later: only what has died by then is missing. */
  lemma LaterReload(entries: seq<Entry>, seen: Seen, savedAt: int, readAt: int)
    requires Lists(entries, Prune(seen, savedAt)) && "" !in seen && savedAt <= readAt
    ensures FromEntries(entries, readAt) == Prune(seen, readAt)
  {
    hide FromEntries;
    ReloadPrunes(entries, Prune(seen, savedAt), readAt);
  }

  // --- the imperative form ---

  /** The map `usedDpopJtis` of the broker with the code that reads and prunes it. */
  class ReplayGuard {
    var seen: Seen

    constructor (entries: seq<Entry>, now: int)
      ensures seen == FromEntries(entries, now)
    {
      var kept: Seen := map[];
      for i := 0 to |entries|
        invariant kept == FromEntries(entries[..i], now)
      {
        assert entries[..i + 1][..i] == entries[..i];
        if entries[i].jti != "" && entries[i].expiresAt > now {
          kept := kept[entries[i].jti := entries[i].expiresAt];
        }
      }
      assert entries[..|entries|] == entries;
      seen := kept;
    }

    /** Deletes dead entries one by one while walking the map. */
    method Sweep(now: int)
      modifies this
      ensures seen == Prune(old(seen), now)
    {
      ghost var before := seen;
      var pending := seen.Keys;
      while pending != {}
        invariant pending <= before.Keys
        invariant seen.Keys == set jti | jti in before && (jti in pending || before[jti] > now)
        invariant forall jti :: jti in seen ==> seen[jti] == before[jti]
        decreases pending
      {
        var jti :| jti in pending;
        if seen[jti] <= now {
          seen := seen - {jti};
        }
        pending := pending - {jti};
      }
      assert seen == Prune(before, now);
    }

    method Verify(proof: Proof, expectedThumbprint: string, now: int) returns (failed: Option<Error>)
      modifies this
      ensures failed == Verdict(old(seen), proof, expectedThumbprint, now)
      ensures seen == SeenAfter(old(seen), proof, expectedThumbprint, now)
    {
      failed := CheckProof(proof, expectedThumbprint, now);
      if failed.Some? {
        return;
      }
      Sweep(now);
      if proof.jti in seen {
        return Some(DpopProofInvalid);
      }
      seen := seen[proof.jti := now + LIFETIME];
      return None;
    }

    /** The entries the coordinator stores: sweeps, then lists what is left. */
    method Entries(now: int) returns (active: seq<Entry>)
      modifies this
      ensures seen == Prune(old(seen), now)
      ensures Lists(active, seen)
    {
      Sweep(now);
      active := [];
      var pending := seen.Keys;
      while pending != {}
        invariant pending <= seen.Keys
        invariant forall e :: e in active ==> e.jti in seen && seen[e.jti] == e.expiresAt
        invariant forall jti :: jti in seen && jti !in pending ==> Entry(jti, seen[jti]) in active
        decreases pending
      {
        var jti :| jti in pending;
        active := active + [Entry(jti, seen[jti])];
        pending := pending - {jti};
      }
    }
  }

  // --- runs ---

  /** `Sweeping` stands for listing the entries and for a restart from them: both only prune. */
  datatype Call = Verifying(proof: Proof, thumbprint: string, now: int) | Sweeping(now: int)

  ghost predicate Monotone(calls: seq<Call>) {
    forall i, j :: 0 <= i < j < |calls| ==> calls[i].now <= calls[j].now
  }

  function Step(seen: Seen, call: Call): Seen {
    match call
    case Verifying(proof, thumbprint, now) => SeenAfter(seen, proof, thumbprint, now)
    case Sweeping(now) => Prune(seen, now)
  }

  function After(calls: seq<Call>): Seen {
    if calls == [] then map[] else Step(After(calls[..|calls| - 1]), calls[|calls| - 1])
  }

  predicate Accepted(calls: seq<Call>, i: nat)
    requires i < |calls|
  {
    calls[i].Verifying? && Verdict(After(calls[..i]), calls[i].proof, calls[i].thumbprint, calls[i].now).None?
  }

  /** An accepted jti stays in the map until its lifetime is over. */
  lemma {:induction false} Remembered(calls: seq<Call>, i: nat, n: nat)
    requires Monotone(calls) && i < n <= |calls| && Accepted(calls, i)
    requires calls[n - 1].now < calls[i].now + LIFETIME
    ensures
      var jti := calls[i].proof.jti;
      jti in After(calls[..n]) && After(calls[..n])[jti] == calls[i].now + LIFETIME
    decreases n
  {
    assert calls[..n][..n - 1] == calls[..n - 1];
    if n > i + 1 {
      Remembered(calls, i, n - 1);
    }
  }

  /** Two acceptances of one jti are at least 300 000 ms apart. */
  lemma AcceptancesApart(calls: seq<Call>, i: nat, j: nat)
    requires Monotone(calls) && i < j < |calls| && Accepted(calls, i) && Accepted(calls, j)
    requires calls[i].proof.jti == calls[j].proof.jti
    ensures calls[j].now - calls[i].now >= LIFETIME
  {
    if calls[j].now < calls[i].now + LIFETIME {
      Remembered(calls, i, j);
    }
  }

  /** One proof is accepted at most three times, whatever the schedule of sweeps and restarts. */
  lemma AtMostThreeTimes(calls: seq<Call>, i: nat, j: nat, k: nat, l: nat)
    requires Monotone(calls) && i < j < k < l < |calls|
    requires Accepted(calls, i) && Accepted(calls, j) && Accepted(calls, k) && calls[l].Verifying?
    requires calls[i].proof == calls[j].proof == calls[k].proof == calls[l].proof
    ensures !Accepted(calls, l)
  {
    AcceptancesApart(calls, i, j);
    AcceptancesApart(calls, j, k);
    if Accepted(calls, l) {
      AcceptancesApart(calls, k, l);
    }
  }

  /** A proof accepted strictly after its `iat` is never accepted again. */
  lemma OnceAfterIssue(calls: seq<Call>, i: nat, j: nat)
    requires Monotone(calls) && i < j < |calls| && Accepted(calls, i)
    requires calls[j].Verifying? && calls[j].proof == calls[i].proof
    requires calls[i].now as real > calls[i].proof.iat * 1000.0
    ensures !Accepted(calls, j)
  {
    if Accepted(calls, j) {
      AcceptancesApart(calls, i, j);
    }
  }

  /** Some continuation of the run accepts the proof of its last call again. */
  ghost predicate AcceptedAgain(calls: seq<Call>)
    requires calls != [] && calls[|calls| - 1].Verifying?
  {
    exists longer, j :: ContinuedTo(calls, longer, j)
  }

  ghost predicate ContinuedTo(calls: seq<Call>, longer: seq<Call>, j: nat)
    requires calls != [] && calls[|calls| - 1].Verifying?
  {
    && calls <= longer && Monotone(longer) && |calls| <= j < |longer|
    && Accepted(longer, j) && longer[j].proof == calls[|calls| - 1].proof
  }

  /** Two further acceptances of the proof, at j and at k. */
  ghost predicate AcceptedTwiceMore(calls: seq<Call>)
    requires calls != [] && calls[|calls| - 1].Verifying?
  {
    exists longer, j, k :: j < k && ContinuedTo(calls, longer, j) && ContinuedTo(calls, longer, k)
  }

  /** The proof of the last call, presented again when its entry has just died. */
  lemma AgainAfterLifetime(calls: seq<Call>) returns (longer: seq<Call>)
    requires Monotone(calls) && calls != [] && Accepted(calls, |calls| - 1)
    requires calls[|calls| - 1].now as real <= calls[|calls| - 1].proof.iat * 1000.0
    ensures longer == calls + [calls[|calls| - 1].(now := calls[|calls| - 1].now + LIFETIME)]
    ensures Monotone(longer) && Accepted(longer, |calls|)
  {
    var n := |calls|;
    var last := calls[n - 1];
    longer := calls + [last.(now := last.now + LIFETIME)];
    assert longer[..n] == calls && calls[..n] == calls;
    Remembered(calls, n - 1, n);
  }

  lemma AcceptedInPrefix(calls: seq<Call>, longer: seq<Call>, i: nat)
    requires calls <= longer && i < |calls|
    ensures Accepted(longer, i) == Accepted(calls, i)
  {
    assert longer[..i] == calls[..i];
  }

  /** A proof just accepted can be accepted again exactly if it was accepted no later than its `iat`. */
  lemma AcceptedAgainIff(calls: seq<Call>)
    requires Monotone(calls) && calls != [] && Accepted(calls, |calls| - 1)
    ensures AcceptedAgain(calls) <==> calls[|calls| - 1].now as real <= calls[|calls| - 1].proof.iat * 1000.0
  {
    var n := |calls|;
    if AcceptedAgain(calls) {
      var longer, j :| ContinuedTo(calls, longer, j);
      AcceptedInPrefix(calls, longer, n - 1);
      if calls[n - 1].now as real > calls[n - 1].proof.iat * 1000.0 {
        OnceAfterIssue(longer, n - 1, j);
      }
    }
    if calls[n - 1].now as real <= calls[n - 1].proof.iat * 1000.0 {
      var longer := AgainAfterLifetime(calls);
      assert ContinuedTo(calls, longer, n);
    }
  }

  lemma TwiceMoreNeedsFirstMoment(calls: seq<Call>, longer: seq<Call>, j: nat, k: nat)
    requires Monotone(calls) && calls != [] && Accepted(calls, |calls| - 1)
    requires j < k && ContinuedTo(calls, longer, j) && ContinuedTo(calls, longer, k)
    ensures calls[|calls| - 1].now as real == calls[|calls| - 1].proof.iat * 1000.0 - LIFETIME as real
  {
    hide Accepted;
    var n := |calls|;
    AcceptedInPrefix(calls, longer, n - 1);
    AcceptancesApart(longer, n - 1, j);
    AcceptancesApart(longer, j, k);
    AcceptedIsFresh(calls, n - 1);
    AcceptedIsFresh(longer, k);
  }

  lemma TwiceMoreAtFirstMoment(calls: seq<Call>)
    requires Monotone(calls) && calls != [] && Accepted(calls, |calls| - 1)
    requires calls[|calls| - 1].now as real == calls[|calls| - 1].proof.iat * 1000.0 - LIFETIME as real
    ensures AcceptedTwiceMore(calls)
  {
    hide Accepted;
    var n := |calls|;
    AcceptedIsFresh(calls, n - 1);
    var once := AgainAfterLifetime(calls);
    var twice := AgainAfterLifetime(once);
    AcceptedInPrefix(once, twice, n);
    assert ContinuedTo(calls, twice, n) && ContinuedTo(calls, twice, n + 1);
  }

  /** It can be accepted two more times exactly if it was accepted at the first moment it was fresh. */
  lemma AcceptedTwiceMoreIff(calls: seq<Call>)
    requires Monotone(calls) && calls != [] && Accepted(calls, |calls| - 1)
    ensures AcceptedTwiceMore(calls) <==>
              calls[|calls| - 1].now as real == calls[|calls| - 1].proof.iat * 1000.0 - LIFETIME as real
  {
    hide Accepted, ContinuedTo, Monotone;
    AcceptedIsFresh(calls, |calls| - 1);
    if AcceptedTwiceMore(calls) {
      var longer, j, k :| j < k && ContinuedTo(calls, longer, j) && ContinuedTo(calls, longer, k);
      TwiceMoreNeedsFirstMoment(calls, longer, j, k);
    }
    if calls[|calls| - 1].now as real == calls[|calls| - 1].proof.iat * 1000.0 - LIFETIME as real {
      TwiceMoreAtFirstMoment(calls);
    }
  }

  /** The bound of three is reached: at the two ends and in the middle of the acceptance window. */
  lemma ThreeTimesHappens() returns (calls: seq<Call>)
    ensures Monotone(calls) && |calls| == 3 && calls[0].Verifying?
    ensures forall i :: 0 <= i < 3 ==> Accepted(calls, i) && calls[i].proof == calls[0].proof
  {
    var proof := Proof(true, 300.0, "jti", "key", true);
    var first, second, third := Verifying(proof, "key", 0), Verifying(proof, "key", 300_000), Verifying(proof, "key", 600_000);
    calls := [first, second, third];
    assert calls[..1] == [first] && calls[..2] == [first, second];
    assert [] + [first] == [first] && [first] + [second] == [first, second];
    assert calls[..0] == [];
    assert Accepted(calls, 0);
    assert Accepted(calls, 1);
    assert Accepted(calls, 2);
  }

  // --- overlapping calls ---

  /**
    Calls in the order in which they reach the map, each with the reading its caller took earlier:
    `touched[k]` is the time at which call k gets there.
   */
  ghost predicate Overlapping(calls: seq<Call>, touched: seq<int>) {
    && |touched| == |calls|
    && (forall k :: 0 <= k < |calls| ==> calls[k].now <= touched[k])
    && (forall i, j :: 0 <= i < j < |touched| ==> touched[i] <= touched[j])
  }

  /** An accepted jti leaves the map only for a reading past its lifetime. */
  lemma {:induction false} RememberedUntilRead(calls: seq<Call>, i: nat, n: nat)
    requires i < n <= |calls| && Accepted(calls, i)
    requires forall k :: i < k < n ==> calls[k].now < calls[i].now + LIFETIME
    ensures
      var jti := calls[i].proof.jti;
      jti in After(calls[..n]) && After(calls[..n])[jti] == calls[i].now + LIFETIME
    decreases n
  {
    assert calls[..n][..n - 1] == calls[..n - 1];
    if n > i + 1 {
      RememberedUntilRead(calls, i, n - 1);
    }
  }

  /** However the calls overlap, a second acceptance reaches the map no earlier than a lifetime after the first reading. */
  lemma OverlappingApart(calls: seq<Call>, touched: seq<int>, i: nat, j: nat)
    requires Overlapping(calls, touched) && i < j < |calls| && Accepted(calls, i) && Accepted(calls, j)
    requires calls[i].proof.jti == calls[j].proof.jti
    ensures touched[j] - calls[i].now >= LIFETIME
  {
    if touched[j] < calls[i].now + LIFETIME {
      RememberedUntilRead(calls, i, j);
    }
  }

  // --- how often overlapping calls accept one proof ---

  /** No call reaches the map more than `delay` after it has read the clock. */
  ghost predicate StalledAtMost(calls: seq<Call>, touched: seq<int>, delay: int) {
    Overlapping(calls, touched) && forall k :: 0 <= k < |calls| ==> touched[k] - calls[k].now <= delay
  }

  /** The calls at these positions, in order, all accept the proof. */
  ghost predicate AcceptedAt(calls: seq<Call>, proof: Proof, positions: seq<nat>) {
    && (forall k :: 0 <= k < |positions| ==>
          positions[k] < |calls| && Accepted(calls, positions[k]) && calls[positions[k]].proof == proof)
    && (forall k, l :: 0 <= k < l < |positions| ==> positions[k] < positions[l])
  }

  /** Some run whose calls stall that long at most accepts some proof `n` times. */
  ghost predicate AcceptedTimes(n: nat, delay: int) {
    exists calls, touched, proof, positions ::
      |positions| == n && StalledAtMost(calls, touched, delay) && AcceptedAt(calls, proof, positions)
  }

  /** The room for `n` acceptances: the gaps between their readings fit into the time the proof is fresh. */
  predicate RoomFor(n: nat, delay: int) {
    n == 0 || (delay >= 0 && (n - 1) * (LIFETIME - delay) <= 2 * LIFETIME)
  }

  lemma GapIsOneMore(k: nat, gap: int)
    requires k > 0
    ensures k * gap == (k - 1) * gap + gap
  {
  }

  /** The readings of successive acceptances are at least the lifetime less the delay apart. */
  lemma {:induction false} ReadingsSpread(calls: seq<Call>, touched: seq<int>, delay: int, proof: Proof, positions: seq<nat>, k: nat)
    requires StalledAtMost(calls, touched, delay) && AcceptedAt(calls, proof, positions) && k < |positions|
    ensures calls[positions[k]].now >= calls[positions[0]].now + k * (LIFETIME - delay)
  {
    hide Accepted;
    if k > 0 {
      ReadingsSpread(calls, touched, delay, proof, positions, k - 1);
      OverlappingApart(calls, touched, positions[k - 1], positions[k]);
      GapIsOneMore(k, LIFETIME - delay);
    }
  }

  lemma AcceptedIsFresh(calls: seq<Call>, i: nat)
    requires i < |calls| && Accepted(calls, i)
    ensures calls[i].Verifying? && Fresh(calls[i].proof.iat, calls[i].now)
  {
  }

  lemma AcceptedTimesNeedRoom(calls: seq<Call>, touched: seq<int>, delay: int, proof: Proof, positions: seq<nat>)
    requires StalledAtMost(calls, touched, delay) && AcceptedAt(calls, proof, positions)
    ensures RoomFor(|positions|, delay)
  {
    hide Accepted;
    if positions != [] {
      var n := |positions| - 1;
      assert touched[positions[0]] - calls[positions[0]].now <= delay;
      ReadingsSpread(calls, touched, delay, proof, positions, n);
      AcceptedIsFresh(calls, positions[0]);
      AcceptedIsFresh(calls, positions[n]);
    }
  }

  /** When the k-th of the stalled calls reaches the map: as the entry of the call before dies. */
  function Reach(gap: nat, k: nat): int {
    if k == 0 then 0 else (k - 1) * gap + LIFETIME
  }

  /** A run of `n` calls whose readings are `gap` apart, with a sweep just before each. */
  function Stalled(proof: Proof, gap: nat, n: nat): (calls: seq<Call>)
    ensures |calls| == 2 * n
  {
    if n == 0 then []
    else Stalled(proof, gap, n - 1) + [Sweeping(Reach(gap, n - 1)), Verifying(proof, proof.thumbprint, (n - 1) * gap)]
  }

  function StalledTouches(gap: nat, n: nat): (touched: seq<int>)
    ensures |touched| == 2 * n
    ensures forall k :: 0 <= k < |touched| ==> touched[k] == Reach(gap, k / 2)
  {
    if n == 0 then [] else StalledTouches(gap, n - 1) + [Reach(gap, n - 1), Reach(gap, n - 1)]
  }

  lemma {:induction false} StalledAre(proof: Proof, gap: nat, n: nat, k: nat)
    requires k < n
    ensures Stalled(proof, gap, n)[2 * k] == Sweeping(Reach(gap, k))
    ensures Stalled(proof, gap, n)[2 * k + 1] == Verifying(proof, proof.thumbprint, k * gap)
    ensures Stalled(proof, gap, n)[..2 * k + 1] == Stalled(proof, gap, k) + [Sweeping(Reach(gap, k))]
  {
    hide Reach;
    var rest := Stalled(proof, gap, n - 1);
    if k < n - 1 {
      StalledAre(proof, gap, n - 1, k);
      assert Stalled(proof, gap, n)[..2 * k + 1] == rest[..2 * k + 1];
    }
  }

  /** After each sweep the map is empty, so the next call of a fresh proof is accepted. */
  lemma {:induction false} SweptAway(proof: Proof, gap: nat, n: nat)
    requires forall k: nat :: k < n ==> CheckProof(proof, proof.thumbprint, k * gap).None?
    ensures After(Stalled(proof, gap, n) + [Sweeping(Reach(gap, n))]) == map[]
  {
    var sweep := Sweeping(Reach(gap, n));
    var calls := Stalled(proof, gap, n);
    assert (calls + [sweep])[..2 * n] == calls;
    if n > 0 {
      SweptAway(proof, gap, n - 1);
      var before := Stalled(proof, gap, n - 1) + [Sweeping(Reach(gap, n - 1))];
      var verify := Verifying(proof, proof.thumbprint, (n - 1) * gap);
      assert calls == before + [verify] && calls[..2 * n - 1] == before;
      VerifyFirst(proof, (n - 1) * gap);
      assert After(calls) == map[proof.jti := (n - 1) * gap + LIFETIME];
    }
  }

  lemma VerifyFirst(proof: Proof, now: int)
    requires CheckProof(proof, proof.thumbprint, now).None?
    ensures Step(map[], Verifying(proof, proof.thumbprint, now)) == map[proof.jti := now + LIFETIME]
    ensures Verdict(map[], proof, proof.thumbprint, now).None?
  {
    assert Prune(map[], now) == map[];
  }

  lemma StalledAccepts(proof: Proof, gap: nat, n: nat, k: nat)
    requires k < n && forall i: nat :: i <= k ==> CheckProof(proof, proof.thumbprint, i * gap).None?
    ensures Accepted(Stalled(proof, gap, n), 2 * k + 1) && Stalled(proof, gap, n)[2 * k + 1].proof == proof
  {
    StalledAre(proof, gap, n, k);
    SweptAway(proof, gap, k);
    VerifyFirst(proof, k * gap);
  }

  lemma ReachGrows(gap: nat, j: nat, k: nat)
    requires j <= k && gap <= LIFETIME
    ensures Reach(gap, j) <= Reach(gap, k) && j * gap <= k * gap <= Reach(gap, k)
    ensures Reach(gap, k) - k * gap <= LIFETIME - gap
  {
    if j > 0 {
      assert (k - j) * gap >= 0 && (k - 1) * gap == (j - 1) * gap + (k - j) * gap;
    }
    if k > 0 {
      GapIsOneMore(k, gap);
    }
    assert (k - j) * gap >= 0 && k * gap == j * gap + (k - j) * gap;
  }

  lemma StalledOverlap(proof: Proof, gap: nat, n: nat)
    requires gap <= LIFETIME
    ensures StalledAtMost(Stalled(proof, gap, n), StalledTouches(gap, n), LIFETIME - gap)
  {
    hide Reach;
    var calls, touched := Stalled(proof, gap, n), StalledTouches(gap, n);
    forall k | 0 <= k < 2 * n ensures calls[k].now <= touched[k] && touched[k] - calls[k].now <= LIFETIME - gap {
      assert k == 2 * (k / 2) || k == 2 * (k / 2) + 1;
      StalledAre(proof, gap, n, k / 2);
      ReachGrows(gap, k / 2, k / 2);
    }
    forall i, j | 0 <= i < j < 2 * n ensures touched[i] <= touched[j] {
      ReachGrows(gap, i / 2, j / 2);
    }
  }

  /** The positions of the proofs among the sweeps. */
  function Odd(n: nat): (positions: seq<nat>)
    ensures |positions| == n && forall k :: 0 <= k < n ==> positions[k] == 2 * k + 1
  {
    seq(n, k => 2 * k + 1)
  }

  const SAMPLE := Proof(true, 300.0, "jti", "key", true)

  /** How far apart the readings have to be for entries to die before calls that stall that long arrive. */
  function GapFor(delay: int): nat {
    if delay >= LIFETIME then 0 else LIFETIME - delay
  }

  /** With room the stalled run of the sample proof is such a run. */
  lemma StalledUsesRoom(n: nat, delay: int)
    requires RoomFor(n, delay) && n > 0
    ensures GapFor(delay) <= LIFETIME
    ensures StalledAtMost(Stalled(SAMPLE, GapFor(delay), n), StalledTouches(GapFor(delay), n), delay)
    ensures AcceptedAt(Stalled(SAMPLE, GapFor(delay), n), SAMPLE, Odd(n))
  {
    hide Accepted, CheckProof;
    var gap := GapFor(delay);
    assert (n - 1) * gap <= 2 * LIFETIME;
    forall k: nat | k < n ensures CheckProof(SAMPLE, SAMPLE.thumbprint, k * gap).None? {
      ReachGrows(gap, k, n - 1);
      SampleIsFresh(k * gap);
    }
    AllStalledAccept(SAMPLE, gap, n);
    StalledOverlap(SAMPLE, gap, n);
  }

  lemma RoomIsEnough(n: nat, delay: int)
    requires RoomFor(n, delay)
    ensures AcceptedTimes(n, delay)
  {
    hide Accepted;
    if n == 0 {
      assert StalledAtMost([], [], delay) && AcceptedAt([], SAMPLE, []);
    } else {
      StalledUsesRoom(n, delay);
    }
  }

  lemma AllStalledAccept(proof: Proof, gap: nat, n: nat)
    requires forall k: nat :: k < n ==> CheckProof(proof, proof.thumbprint, k * gap).None?
    ensures AcceptedAt(Stalled(proof, gap, n), proof, Odd(n))
  {
    hide CheckProof, After, Verdict;
    forall k: nat | k < n
      ensures Accepted(Stalled(proof, gap, n), Odd(n)[k]) && Stalled(proof, gap, n)[Odd(n)[k]].proof == proof
    {
      StalledAccepts(proof, gap, n, k);
    }
  }

  /** In particular every proof that was fresh when the clock was read, by calls that all read it then. */
  lemma StalledForEver(proof: Proof, n: nat)
    requires CheckProof(proof, proof.thumbprint, 0).None?
    ensures StalledAtMost(Stalled(proof, 0, n), StalledTouches(0, n), LIFETIME)
    ensures AcceptedAt(Stalled(proof, 0, n), proof, Odd(n))
  {
    hide CheckProof, Accepted;
    AllStalledAccept(proof, 0, n);
    StalledOverlap(proof, 0, n);
  }

  lemma SampleIsFresh(now: int)
    requires 0 <= now <= 2 * LIFETIME
    ensures CheckProof(SAMPLE, SAMPLE.thumbprint, now).None?
  {
  }

  /**
    A proof can be accepted `n` times by calls that stall `delay` at most exactly if there is room: calls
    in order get three, a fourth takes a delay of 100 s, and from 300 s on there is no bound.
   */
  lemma AcceptedTimesIff(n: nat, delay: int)
    ensures AcceptedTimes(n, delay) <==> RoomFor(n, delay)
  {
    hide StalledAtMost, AcceptedAt, RoomFor;
    if AcceptedTimes(n, delay) {
      var calls, touched, proof, positions :|
        |positions| == n && StalledAtMost(calls, touched, delay) && AcceptedAt(calls, proof, positions);
      AcceptedTimesNeedRoom(calls, touched, delay, proof, positions);
    }
    if RoomFor(n, delay) {
      RoomIsEnough(n, delay);
    }
  }

  lemma FourTimesIff(delay: int)
    ensures AcceptedTimes(4, delay) <==> delay >= 100_000
  {
    AcceptedTimesIff(4, delay);
  }

  /** Calls that stall for a whole lifetime, and only those, are accepted any number of times. */
  lemma OverlapHasNoBound(delay: int)
    ensures (forall n: nat :: AcceptedTimes(n, delay)) <==> delay >= LIFETIME
  {
    hide AcceptedTimes, RoomFor;
    if delay >= LIFETIME {
      forall n: nat ensures AcceptedTimes(n, delay) {
        RoomForAll(n, delay);
        AcceptedTimesIff(n, delay);
      }
    } else {
      RoomEnds(delay);
      AcceptedTimesIff(2 * LIFETIME + 2, delay);
    }
  }

  lemma RoomForAll(n: nat, delay: int)
    requires delay >= LIFETIME
    ensures RoomFor(n, delay)
  {
    assert n > 0 ==> (n - 1) * (LIFETIME - delay) <= 0;
  }

  lemma RoomEnds(delay: int)
    requires delay < LIFETIME
    ensures !RoomFor(2 * LIFETIME + 2, delay)
  {
  }

  // --- the pruned map decides like one that never forgets ---

  /** The reference: the latest expiry of every jti ever accepted, nothing ever deleted. */
  function Ledger(calls: seq<Call>): Seen {
    if calls == [] then map[]
    else
      var n := |calls| - 1;
      var rest := Ledger(calls[..n]);
      if calls[n].Verifying? && LedgerVerdict(rest, calls[n].proof, calls[n].thumbprint, calls[n].now).None?
      then rest[calls[n].proof.jti := calls[n].now + LIFETIME]
      else rest
  }

  function LedgerVerdict(ledger: Seen, proof: Proof, thumbprint: string, now: int): Option<Error> {
    var failed := CheckProof(proof, thumbprint, now);
    if failed.Some? then failed
    else if proof.jti in ledger && ledger[proof.jti] > now then Some(DpopProofInvalid)
    else None
  }

  /** Maps with the same live entries decide alike, and pruning the one or not leaves them so. */
  lemma StepLosesNothing(seen: Seen, full: Seen, call: Call, now: int)
    requires Prune(seen, call.now) == Prune(full, call.now) && call.now <= now
    ensures
      var full' := if call.Verifying? && LedgerVerdict(full, call.proof, call.thumbprint, call.now).None?
                   then full[call.proof.jti := call.now + LIFETIME] else full;
      Prune(Step(seen, call), now) == Prune(full', now)
  {
    hide CheckProof;
    SameLive(seen, full, call.now);
  }

  lemma SameLive(seen: Seen, full: Seen, now: int)
    requires Prune(seen, now) == Prune(full, now)
    ensures forall jti :: (jti in seen && seen[jti] > now) <==> (jti in full && full[jti] > now)
    ensures forall jti :: jti in seen && seen[jti] > now ==> full[jti] == seen[jti]
  {
    forall jti ensures (jti in seen && seen[jti] > now) <==> (jti in full && full[jti] > now) {
      assert jti in Prune(seen, now) <==> jti in Prune(full, now);
    }
    forall jti | jti in seen && seen[jti] > now ensures full[jti] == seen[jti] {
      assert Prune(seen, now)[jti] == Prune(full, now)[jti];
    }
  }

  lemma {:induction false} PruningLosesNothing(calls: seq<Call>, now: int)
    requires Monotone(calls)
    requires calls != [] ==> calls[|calls| - 1].now <= now
    ensures Prune(After(calls), now) == Prune(Ledger(calls), now)
  {
    hide Step, Prune, LedgerVerdict;
    if calls != [] {
      var n := |calls| - 1;
      assert forall i :: 0 <= i < n ==> calls[..n][i] == calls[i];
      PruningLosesNothing(calls[..n], calls[n].now);
      StepLosesNothing(After(calls[..n]), Ledger(calls[..n]), calls[n], now);
    }
  }

  /** Every decision of a run is the one the never-pruned map would give. */
  lemma DecidesLikeLedger(calls: seq<Call>, proof: Proof, thumbprint: string, now: int)
    requires Monotone(calls)
    requires calls != [] ==> calls[|calls| - 1].now <= now
    ensures Verdict(After(calls), proof, thumbprint, now) == LedgerVerdict(Ledger(calls), proof, thumbprint, now)
  {
    PruningLosesNothing(calls, now);
    assert proof.jti in Prune(After(calls), now) <==> proof.jti in Prune(Ledger(calls), now);
  }
}
